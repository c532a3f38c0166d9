/** What `fetch_changes` selects from the change feed.

    The change feed is read page by page; every event of every page is kept
    unless a (non-empty) container name is given and the container parsed
    from the event's subject differs from it. This module holds the pure
    part: the events, the choice of where paging starts, the keep rule, and
    the specification `Selected(Flatten(pages), containerName)` of the list
    that `fetch_changes` builds, with what it promises.
 */
module Feed {

  import opened Optional
  import opened Sequences
  import opened Subject

  /** A UTC instant, as the change feed's `start_time` takes it. */
  type Timestamp = int

  /** A change-feed event: its `eventType` (absent in some records), its
      `subject` naming the blob, and the event-specific payload, which the
      reader passes on untouched. */
  datatype Event = Event(eventType: Option<string>, subject: string, data: string)

  /** Python truthiness of an optional string: `None` and `""` are false. */
  predicate Truthy(s: Option<string>): (r: bool)
    ensures s.None? ==> !r
    ensures s == Some("") ==> !r
    ensures r <==> s.Some? && |s.value| > 0
  {
    s.Some? && s.value != ""
  }

  /** The page size the reader asks the change feed for. */
  const ResultsPerPage: nat := 500

  /** The request that opens the page iterator: resume at a continuation
      token, or list the changes from a start time (`None` meaning from the
      beginning of the feed). */
  datatype PageRequest =
    | FromToken(resultsPerPage: nat, continuationToken: string)
    | FromTime(resultsPerPage: nat, startTime: Option<Timestamp>)

  /** Where paging starts: a truthy continuation token wins and the start time
      is not passed on at all; otherwise paging starts at the start time. */
  function PageRequestFor(startTime: Option<Timestamp>, continuationToken: Option<string>): (r: PageRequest)
    ensures r.resultsPerPage == ResultsPerPage
    ensures r.FromToken? <==> Truthy(continuationToken)
    ensures r.FromToken? ==> r.continuationToken == continuationToken.value
    ensures r.FromTime? ==> r.startTime == startTime
  {
    if Truthy(continuationToken) then FromToken(ResultsPerPage, continuationToken.value)
    else FromTime(ResultsPerPage, startTime)
  }

  /** The container parsed from the event's subject, or None when the subject
      does not match the subject pattern. */
  function ContainerOf(e: Event): (r: Option<string>)
    ensures r.Some? ==> |r.value| > 0 && '/' !in r.value
    ensures r.Some? <==> ParseSubject(e.subject).Some?
  {
    match ParseSubject(e.subject)
    case Some(m) => Some(m.container)
    case None => None
  }

  /** The keep rule: an event is dropped only when a truthy container name is
      given and the event's parsed container is not that name (an unparsable
      subject, whose container is None, included). */
  predicate Keep(containerName: Option<string>, e: Event): (r: bool)
    ensures !Truthy(containerName) ==> r
    ensures Truthy(containerName) ==>
      (r <==> ParseSubject(e.subject).Some? && ParseSubject(e.subject).value.container == containerName.value)
  {
    !(Truthy(containerName) && ContainerOf(e) != Some(containerName.value))
  }

  /** The number of events over all pages. */
  function TotalEvents(pages: seq<seq<Event>>): nat
  {
    if pages == [] then 0 else |pages[0]| + TotalEvents(pages[1..])
  }

  /** One more page adds its events to the count. */
  lemma {:induction false} TotalEventsSnoc(pages: seq<seq<Event>>)
    requires pages != []
    ensures TotalEvents(pages) == TotalEvents(pages[..|pages| - 1]) + |pages[|pages| - 1]|
    decreases |pages|
  {
    var n := |pages| - 1;
    if n > 0 {
      assert pages[1..][..n - 1] == pages[..n][1..];
      TotalEventsSnoc(pages[1..]);
    }
  }

  /** The events of all pages, page after page, each page in its own order.
      Flattening loses and invents no event: its length is the number of
      events over all pages. */
  function Flatten(pages: seq<seq<Event>>): (r: seq<Event>)
    ensures |r| == TotalEvents(pages)
  {
    if pages == [] then []
    else
      TotalEventsSnoc(pages);
      Flatten(pages[..|pages| - 1]) + pages[|pages| - 1]
  }

  /** The kept events, in their original order: what `fetch_changes` returns
      for the events `events`. */
  function Selected(events: seq<Event>, containerName: Option<string>): (r: seq<Event>)
    ensures |r| <= |events|
    ensures !Truthy(containerName) ==> |r| == |events|
  {
    if events == [] then []
    else
      var last := events[|events| - 1];
      Selected(events[..|events| - 1], containerName) + (if Keep(containerName, last) then [last] else [])
  }

  /** An independent statement of the filtered case: the events whose parsed
      container is `name`, in order. */
  function InContainer(events: seq<Event>, name: string): seq<Event>
  {
    if events == [] then []
    else (if ContainerOf(events[0]) == Some(name) then [events[0]] else []) + InContainer(events[1..], name)
  }

  /** One more page adds its events at the end. */
  lemma FlattenSnoc(pages: seq<seq<Event>>, i: nat)
    requires i < |pages|
    ensures Flatten(pages[..i + 1]) == Flatten(pages[..i]) + pages[i]
  {
    assert pages[..i + 1][..i] == pages[..i];
  }

  /** One more event is kept at the end or dropped, as Keep says. */
  lemma SelectedSnoc(events: seq<Event>, e: Event, containerName: Option<string>)
    ensures Selected(events + [e], containerName)
         == Selected(events, containerName) + (if Keep(containerName, e) then [e] else [])
  {
    assert (events + [e])[..|events|] == events;
  }

  /** Taking one more event of `page` after `before` keeps it at the end or
      drops it, as Keep says. */
  lemma SelectedStep(before: seq<Event>, page: seq<Event>, j: nat, containerName: Option<string>)
    requires j < |page|
    ensures Selected(before + page[..j + 1], containerName)
         == Selected(before + page[..j], containerName) + (if Keep(containerName, page[j]) then [page[j]] else [])
  {
    PrefixSnoc(before, page, j);
    SelectedSnoc(before + page[..j], page[j], containerName);
  }

  /** Flattening two runs of pages one after the other is flattening each
      and concatenating. */
  lemma {:induction false} FlattenAppend(pages: seq<seq<Event>>, more: seq<seq<Event>>)
    ensures Flatten(pages + more) == Flatten(pages) + Flatten(more)
    decreases |more|
  {
    if more == [] {
      assert pages + more == pages;
    } else {
      var n := |more| - 1;
      assert (pages + more)[..|pages + more| - 1] == pages + more[..n];
      assert (pages + more)[|pages + more| - 1] == more[n];
      FlattenAppend(pages, more[..n]);
      calc {
        Flatten(pages + more);
        Flatten(pages + more[..n]) + more[n];
        (Flatten(pages) + Flatten(more[..n])) + more[n];
        Flatten(pages) + (Flatten(more[..n]) + more[n]);
        Flatten(pages) + Flatten(more);
      }
    }
  }

  /** An event is among the flattened events exactly when it is in some page. */
  lemma {:induction false} FlattenMembers(pages: seq<seq<Event>>, e: Event)
    ensures e in Flatten(pages) <==> exists p :: p in pages && e in p
    decreases |pages|
  {
    if pages != [] {
      var n := |pages| - 1;
      FlattenMembers(pages[..n], e);
      assert pages == pages[..n] + [pages[n]];
      if e in pages[n] {
        assert pages[n] in pages;
      }
      forall p | p in pages && e in p ensures e in Flatten(pages) {
        if p != pages[n] {
          assert p in pages[..n];
        }
      }
    }
  }

  /** Selection works event by event: selecting from two stretches of events
      one after the other is selecting from each and concatenating. */
  lemma {:induction false} SelectedAppend(a: seq<Event>, b: seq<Event>, containerName: Option<string>)
    ensures Selected(a + b, containerName) == Selected(a, containerName) + Selected(b, containerName)
    decreases |b|
  {
    if b == [] {
      assert a + b == a;
    } else {
      var n := |b| - 1;
      var last := if Keep(containerName, b[n]) then [b[n]] else [];
      calc {
        Selected(a + b, containerName);
        { assert a + b == (a + b[..n]) + [b[n]];
          SelectedSnoc(a + b[..n], b[n], containerName); }
        Selected(a + b[..n], containerName) + last;
        { SelectedAppend(a, b[..n], containerName); }
        (Selected(a, containerName) + Selected(b[..n], containerName)) + last;
        Selected(a, containerName) + (Selected(b[..n], containerName) + last);
        { assert b == b[..n] + [b[n]];
          SelectedSnoc(b[..n], b[n], containerName); }
        Selected(a, containerName) + Selected(b, containerName);
      }
    }
  }

  /** Without a truthy container name, every event is returned, in order,
      unparsable subjects included. */
  lemma {:induction false} SelectedUnfiltered(events: seq<Event>, containerName: Option<string>)
    requires !Truthy(containerName)
    ensures Selected(events, containerName) == events
    decreases |events|
  {
    if events != [] {
      var n := |events| - 1;
      SelectedUnfiltered(events[..n], containerName);
      assert events[..n] + [events[n]] == events;
    }
  }

  /** With a truthy container name, the result is exactly the events whose
      parsed container is that name, in order. */
  lemma {:induction false} SelectedFiltered(events: seq<Event>, containerName: Option<string>)
    requires Truthy(containerName)
    ensures Selected(events, containerName) == InContainer(events, containerName.value)
    decreases |events|
  {
    if events != [] {
      var head, name := events[0], containerName.value;
      assert events == [head] + events[1..];
      SelectedAppend([head], events[1..], containerName);
      assert Selected([head], containerName) == if ContainerOf(head) == Some(name) then [head] else [] by {
        assert [head][..0] == [];
      }
      SelectedFiltered(events[1..], containerName);
    }
  }

  /** An event is returned exactly when it is one of the input events and the
      keep rule keeps it. */
  lemma {:induction false} SelectedMembers(events: seq<Event>, containerName: Option<string>)
    ensures forall e :: e in Selected(events, containerName) <==> e in events && Keep(containerName, e)
    decreases |events|
  {
    if events != [] {
      var n := |events| - 1;
      SelectedMembers(events[..n], containerName);
      assert events == events[..n] + [events[n]];
    }
  }

  /** The container filter: with a truthy name, every returned event's subject
      parses, and to a container of that name; events with unparsable
      subjects are never returned. */
  lemma SelectedInContainer(events: seq<Event>, containerName: Option<string>, e: Event)
    requires Truthy(containerName)
    requires e in Selected(events, containerName)
    ensures ParseSubject(e.subject).Some?
    ensures ParseSubject(e.subject).value.container == containerName.value
  {
    SelectedMembers(events, containerName);
  }

  /** The list `fetch_changes` returns, when the change feed answers the
      request for the pages with `changeLog(request)`: never longer than all
      pages together, and exactly that long without a truthy container name. */
  function Fetched(
    changeLog: PageRequest -> seq<seq<Event>>,
    startTime: Option<Timestamp>,
    continuationToken: Option<string>,
    containerName: Option<string>
  ): (r: seq<Event>)
    ensures |r| <= TotalEvents(changeLog(PageRequestFor(startTime, continuationToken)))
    ensures !Truthy(containerName) ==> |r| == TotalEvents(changeLog(PageRequestFor(startTime, continuationToken)))
  {
    Selected(Flatten(changeLog(PageRequestFor(startTime, continuationToken))), containerName)
  }

  /** With a truthy continuation token, the start time makes no difference. */
  lemma FetchedIgnoresStartTime(
    changeLog: PageRequest -> seq<seq<Event>>,
    startTime: Option<Timestamp>,
    otherStartTime: Option<Timestamp>,
    continuationToken: Option<string>,
    containerName: Option<string>
  )
    requires Truthy(continuationToken)
    ensures Fetched(changeLog, startTime, continuationToken, containerName)
         == Fetched(changeLog, otherStartTime, continuationToken, containerName)
  {
  }

  /** Every event in the fetched list comes from one of the pages. */
  lemma FetchedFromPages(
    changeLog: PageRequest -> seq<seq<Event>>,
    startTime: Option<Timestamp>,
    continuationToken: Option<string>,
    containerName: Option<string>
  )
    ensures var pages := changeLog(PageRequestFor(startTime, continuationToken));
      forall e :: e in Fetched(changeLog, startTime, continuationToken, containerName) ==>
        exists p :: p in pages && e in p
  {
    var pages := changeLog(PageRequestFor(startTime, continuationToken));
    SelectedMembers(Flatten(pages), containerName);
    forall e | e in Fetched(changeLog, startTime, continuationToken, containerName)
      ensures exists p :: p in pages && e in p
    {
      FlattenMembers(pages, e);
    }
  }

  /** The shape of the page in the reader's unit test: three events, the
      first and last in the container asked for, the middle one elsewhere.
      Filtering keeps the first and the last, in order; without a container
      name all three are kept. */
  lemma OneOfThreeFiltered(first: Event, middle: Event, last: Event, name: string)
    requires name != ""
    requires ContainerOf(first) == Some(name) && ContainerOf(last) == Some(name)
    requires ContainerOf(middle) != Some(name)
    ensures Selected([first, middle, last], Some(name)) == [first, last]
    ensures Selected([first, middle, last], None) == [first, middle, last]
  {
    var filter := Some(name);
    calc {
      Selected([first, middle, last], filter);
      { assert [first, middle, last] == [first, middle] + [last];
        SelectedSnoc([first, middle], last, filter);
        assert Keep(filter, last); }
      Selected([first, middle], filter) + [last];
      { assert [first, middle] == [first] + [middle];
        SelectedSnoc([first], middle, filter);
        assert !Keep(filter, middle); }
      Selected([first], filter) + [last];
      { assert [first] == [] + [first];
        SelectedSnoc([], first, filter);
        assert Keep(filter, first); }
      [first] + [last];
    }
    SelectedUnfiltered([first, middle, last], None);
  }
}
