/** The subject parser of the change-feed reader.

    An event's subject names the blob it concerns, for instance
    `/blobServices/default/containers/docs/blobs/2024/report.pdf`. The reader
    searches it with the regular expression `/containers/([^/]+)/blobs/(.+)`
    and keeps the two groups: the container and the blob name. This module
    spells out what that search does, without a regular-expression engine:

    - the search is leftmost: every start position is tried in turn and the
      first one at which the pattern matches wins;
    - `[^/]+` cannot cross a `/` but can cross a newline, and since `/blobs/`
      must follow it, the container is the whole run of non-slash characters
      after `/containers/`;
    - `.+` stops at a newline, so the blob name is the whole run of
      non-newline characters after `/blobs/`, and it must not be empty.
 */
module Subject {

  import opened Optional
  import opened Sequences

  const ContainersTag: string := "/containers/"
  const BlobsTag: string := "/blobs/"

  /** The two groups of a successful match. */
  datatype SubjectMatch = SubjectMatch(container: string, blobName: string)

  /** The first index at or after `i` that holds `c`, or `|s|` when there is none. */
  function IndexOfFrom(s: string, c: char, i: nat): (k: nat)
    requires i <= |s|
    ensures i <= k <= |s|
    ensures k < |s| ==> s[k] == c
    ensures forall j :: i <= j < k ==> s[j] != c
    decreases |s| - i
  {
    if i == |s| then i
    else if s[i] == c then i
    else IndexOfFrom(s, c, i + 1)
  }

  /** The subject reads `tag` from position `i` on. */
  predicate TagAt(s: string, i: nat, tag: string)
  {
    i + |tag| <= |s| && s[i..i + |tag|] == tag
  }

  /** The pattern can match at position `i` with groups `c` and `b`, where `b`
      need not yet be the longest blob name the pattern would take: from `i`
      on, the subject reads `/containers/`, then `c`, then `/blobs/`, then `b`. */
  ghost predicate Contains(s: string, i: nat, c: string, b: string)
  {
    var j := i + |ContainersTag|;
    var k := j + |c|;
    var m := k + |BlobsTag|;
    && m + |b| <= |s|
    && TagAt(s, i, ContainersTag) && s[j..k] == c && TagAt(s, k, BlobsTag) && s[m..m + |b|] == b
    && |c| > 0 && '/' !in c
    && |b| > 0 && '\n' !in b
  }

  /** The pattern matches at position `i` with exactly the groups `c` and `b`:
      the greedy `.+` has taken every character up to the end or a newline. */
  ghost predicate Occurs(s: string, i: nat, c: string, b: string)
  {
    && Contains(s, i, c, b)
    && var e := i + |ContainersTag| + |c| + |BlobsTag| + |b|;
       (e == |s| || s[e] == '\n')
  }

  /** No match of the pattern starts before position `p`. */
  ghost predicate NoMatchBefore(s: string, p: nat)
  {
    forall j: nat, c, b :: j < p ==> !Contains(s, j, c, b)
  }

  /** The attempt to match the pattern at position `i` only. A container it
      yields is non-empty and free of `/`, a blob name non-empty and free of
      newlines. */
  function MatchAt(s: string, i: nat): (r: Option<SubjectMatch>)
    requires i <= |s|
    ensures r.Some? ==> |r.value.container| > 0 && '/' !in r.value.container
    ensures r.Some? ==> |r.value.blobName| > 0 && '\n' !in r.value.blobName
  {
    if !TagAt(s, i, ContainersTag) then None
    else
      var j := i + |ContainersTag|;
      var k := IndexOfFrom(s, '/', j);
      if k == j || !TagAt(s, k, BlobsTag) then None
      else
        var m := k + |BlobsTag|;
        var e := IndexOfFrom(s, '\n', m);
        if e == m then None
        else Some(SubjectMatch(s[j..k], s[m..e]))
  }

  /** What MatchAt finds at `i` is a match of the pattern there, with the
      longest blob name the pattern allows. */
  lemma MatchAtSound(s: string, i: nat)
    requires i <= |s|
    requires MatchAt(s, i).Some?
    ensures Occurs(s, i, MatchAt(s, i).value.container, MatchAt(s, i).value.blobName)
  {
    var j := i + |ContainersTag|;
    var k := IndexOfFrom(s, '/', j);
    var m := k + |BlobsTag|;
    var e := IndexOfFrom(s, '\n', m);
    assert TagAt(s, i, ContainersTag) && TagAt(s, k, BlobsTag);
    assert MatchAt(s, i) == Some(SubjectMatch(s[j..k], s[m..e]));
  }

  /** Where the pattern can match at `i`, the container runs up to the next
      `/` and the blob name up to no further than the next newline. */
  lemma ContainsRuns(s: string, i: nat, c: string, b: string)
    requires Contains(s, i, c, b)
    ensures IndexOfFrom(s, '/', i + |ContainersTag|) == i + |ContainersTag| + |c|
    ensures i + |ContainersTag| + |c| + |BlobsTag| + |b| <= IndexOfFrom(s, '\n', i + |ContainersTag| + |c| + |BlobsTag|)
  {
    var j := i + |ContainersTag|;
    var k := j + |c|;
    var m := k + |BlobsTag|;
    forall q | j <= q < k ensures s[q] != '/' {
      assert s[q] == s[j..k][q - j];
    }
    assert s[k] == s[k..m][0];
    forall q | m <= q < m + |b| ensures s[q] != '\n' {
      assert s[q] == s[m..m + |b|][q - m];
    }
  }

  /** Anything the pattern can match at `i` is what MatchAt finds there, up to
      the length of the blob name, which MatchAt takes as long as it can. */
  lemma MatchAtComplete(s: string, i: nat, c: string, b: string)
    requires Contains(s, i, c, b)
    ensures MatchAt(s, i).Some?
    ensures MatchAt(s, i).value.container == c
    ensures b <= MatchAt(s, i).value.blobName
  {
    var j := i + |ContainersTag|;
    var k := j + |c|;
    var m := k + |BlobsTag|;
    ContainsRuns(s, i, c, b);
    var e := IndexOfFrom(s, '\n', m);
    SlicePrefix(s, m, m + |b|, e);
    assert TagAt(s, i, ContainersTag) && TagAt(s, k, BlobsTag) && k != j && e != m;
    assert MatchAt(s, i) == Some(SubjectMatch(s[j..k], s[m..e]));
  }

  /** When the pattern matches at `i` with exactly `c` and `b`, MatchAt finds
      exactly those groups: the groups at a position are unique. */
  lemma MatchAtExact(s: string, i: nat, c: string, b: string)
    requires Occurs(s, i, c, b)
    ensures MatchAt(s, i) == Some(SubjectMatch(c, b))
  {
    MatchAtComplete(s, i, c, b);
    var m := i + |ContainersTag| + |c| + |BlobsTag|;
    assert IndexOfFrom(s, '\n', m) <= m + |b|;
  }

  /** MatchAt at every position of `s`. */
  function Attempts(s: string): nat -> Option<SubjectMatch>
  {
    (j: nat) => if j <= |s| then MatchAt(s, j) else None
  }

  /** The leftmost search, from position `i` onwards: the position of the
      first match and its groups, or None when the pattern occurs nowhere. A
      position it finds lies between `i` and the end, and MatchAt succeeds
      there with the groups it returns. */
  function FindFrom(s: string, i: nat): (r: Option<(nat, SubjectMatch)>)
    requires i <= |s|
    ensures r.Some? ==> i <= r.value.0 <= |s|
    ensures r.Some? ==> MatchAt(s, r.value.0) == Some(r.value.1)
  {
    LeftmostIsFirst(Attempts(s), |s|, i);
    Leftmost(Attempts(s), |s|, i)
  }

  /** FindFrom finds the leftmost position at or after `i` where MatchAt
      succeeds, and finds nothing only when MatchAt fails everywhere there. */
  lemma FindFromLeftmost(s: string, i: nat)
    requires i <= |s|
    ensures FindFrom(s, i).Some? ==> forall j :: i <= j < FindFrom(s, i).value.0 ==> MatchAt(s, j).None?
    ensures FindFrom(s, i).None? ==> forall j :: i <= j <= |s| ==> MatchAt(s, j).None?
  {
    var attempt := Attempts(s);
    LeftmostIsFirst(attempt, |s|, i);
    forall j | 0 <= j <= |s| ensures attempt(j) == MatchAt(s, j) {
    }
  }

  /** The parser: `re.search` of the subject pattern, yielding the container
      and the blob name of the leftmost match, or None when nothing matches.
      A container it yields is non-empty and free of `/`; a blob name is
      non-empty and free of newlines. */
  function ParseSubject(s: string): (r: Option<SubjectMatch>)
    ensures r.Some? ==> |r.value.container| > 0 && '/' !in r.value.container
    ensures r.Some? ==> |r.value.blobName| > 0 && '\n' !in r.value.blobName
  {
    FindFromLeftmost(s, 0);
    match FindFrom(s, 0)
    case Some((_, m)) => Some(m)
    case None => None
  }

  /** MatchAt fails at `j` exactly when the pattern cannot match there at all. */
  lemma NoMatchAt(s: string, j: nat)
    requires j <= |s|
    requires MatchAt(s, j).None?
    ensures forall c, b :: !Contains(s, j, c, b)
  {
    forall c, b | Contains(s, j, c, b) ensures false {
      MatchAtComplete(s, j, c, b);
    }
  }

  /** The parser returns `m` exactly when the pattern matches at some position
      with the groups of `m` and at no earlier position. */
  lemma ParseSubjectSome(s: string, m: SubjectMatch)
    ensures ParseSubject(s) == Some(m)
        <==> exists p: nat :: Occurs(s, p, m.container, m.blobName) && NoMatchBefore(s, p)
  {
    FindFromLeftmost(s, 0);
    if ParseSubject(s) == Some(m) {
      var p := FindFrom(s, 0).value.0;
      MatchAtSound(s, p);
      forall j: nat, c, b | j < p && Contains(s, j, c, b) ensures false {
        NoMatchAt(s, j);
      }
      assert Occurs(s, p, m.container, m.blobName) && NoMatchBefore(s, p);
    }
    if p: nat :| Occurs(s, p, m.container, m.blobName) && NoMatchBefore(s, p) {
      MatchAtExact(s, p, m.container, m.blobName);
      var q := FindFrom(s, 0).value.0;
      MatchAtSound(s, q);
      assert q == p;
    }
  }

  /** The parser returns None exactly when the pattern can match nowhere in
      the subject. */
  lemma ParseSubjectNone(s: string)
    ensures ParseSubject(s).None? <==> forall i: nat, c, b :: !Contains(s, i, c, b)
  {
    FindFromLeftmost(s, 0);
    if ParseSubject(s).None? {
      forall i: nat, c, b | Contains(s, i, c, b) ensures false {
        NoMatchAt(s, i);
      }
    } else {
      MatchAtSound(s, FindFrom(s, 0).value.0);
    }
  }

  /** No `/` in `prefix` is followed by a `c`, so no `/containers/` starts in it. */
  ghost predicate NoSlashC(prefix: string)
  {
    forall q :: 0 <= q < |prefix| - 1 && prefix[q] == '/' ==> prefix[q + 1] != 'c'
  }

  /** A prefix before `/containers/` is skipped when no `/c` starts in it,
      such as the `/blobServices/default` that the change feed puts in front,
      and the blob name keeps its slashes. */
  lemma ParseAfterPrefix(prefix: string, c: string, b: string)
    requires NoSlashC(prefix)
    requires |c| > 0 && '/' !in c && |b| > 0 && '\n' !in b
    ensures ParseSubject(prefix + ContainersTag + c + BlobsTag + b) == Some(SubjectMatch(c, b))
  {
    var s := prefix + ContainersTag + c + BlobsTag + b;
    var p := |prefix|;
    assert s[p..p + |ContainersTag|] == ContainersTag;
    assert s[p + |ContainersTag|..p + |ContainersTag| + |c|] == c;
    assert s[p + |ContainersTag| + |c|..p + |ContainersTag| + |c| + |BlobsTag|] == BlobsTag;
    assert s[p + |ContainersTag| + |c| + |BlobsTag|..] == b;
    assert Occurs(s, p, c, b);
    forall j | 0 <= j < p && s[j] == '/' ensures s[j + 1] != 'c' {
      if j + 1 < p {
        assert s[j] == prefix[j] && s[j + 1] == prefix[j + 1];
      } else {
        assert s[j + 1] == ContainersTag[0];
      }
    }
    assert ContainersTag[0] == '/' && ContainersTag[1] == 'c';
    forall j: nat, c', b' | j < p ensures !Contains(s, j, c', b') {
      if j + |ContainersTag| <= |s| {
        assert s[j..j + |ContainersTag|][0] == s[j] && s[j..j + |ContainersTag|][1] == s[j + 1];
      }
    }
    ParseSubjectSome(s, SubjectMatch(c, b));
  }

  /** The prefix the change feed puts in front of `/containers/`. */
  lemma ServicePrefixSkipped()
    ensures NoSlashC("/blobServices/default")
  {
    var prefix := "/blobServices/default";
    forall q | 0 <= q < |prefix| - 1 && prefix[q] == '/' ensures prefix[q + 1] != 'c' {
      assert q == 0 || q == 13;
    }
  }

  /** A subject as the change feed writes it,
      `/blobServices/default/containers/<c>/blobs/<b>`, parses to `c` and `b`. */
  lemma ParseServiceSubject(c: string, b: string)
    requires |c| > 0 && '/' !in c && |b| > 0 && '\n' !in b
    ensures ParseSubject("/blobServices/default" + ContainersTag + c + BlobsTag + b) == Some(SubjectMatch(c, b))
  {
    ServicePrefixSkipped();
    ParseAfterPrefix("/blobServices/default", c, b);
  }

  /** A subject that is exactly `/containers/<c>/blobs/<b>` parses to `c` and `b`. */
  lemma ParseBareSubject(c: string, b: string)
    requires |c| > 0 && '/' !in c && |b| > 0 && '\n' !in b
    ensures ParseSubject(ContainersTag + c + BlobsTag + b) == Some(SubjectMatch(c, b))
  {
    var s := ContainersTag + c + BlobsTag + b;
    assert s[..|ContainersTag|] == ContainersTag;
    assert s[|ContainersTag|..|ContainersTag| + |c|] == c;
    assert s[|ContainersTag| + |c|..|ContainersTag| + |c| + |BlobsTag|] == BlobsTag;
    assert s[|ContainersTag| + |c| + |BlobsTag|..] == b;
    assert Occurs(s, 0, c, b);
    MatchAtExact(s, 0, c, b);
  }

  /** The blob name stops at the first newline: whatever follows it, even
      another match of the pattern, is not part of the result. */
  lemma ParseStopsAtNewline(c: string, b: string, rest: string)
    requires |c| > 0 && '/' !in c && |b| > 0 && '\n' !in b
    ensures ParseSubject(ContainersTag + c + BlobsTag + b + "\n" + rest) == Some(SubjectMatch(c, b))
  {
    var s := ContainersTag + c + BlobsTag + b + "\n" + rest;
    var m := |ContainersTag| + |c| + |BlobsTag|;
    assert s[..|ContainersTag|] == ContainersTag;
    assert s[|ContainersTag|..|ContainersTag| + |c|] == c;
    assert s[|ContainersTag| + |c|..m] == BlobsTag;
    assert s[m..m + |b|] == b;
    assert s[m + |b|] == '\n';
    assert Occurs(s, 0, c, b);
    MatchAtExact(s, 0, c, b);
  }
}
