# Azure Blob change-feed reader, modelled in Dafny

This project models the event pipeline of `BlobChangeFeedReader`, the change-feed reader of an Azure Blob
Storage connector. The reader does three things:

- It pages through the storage account's change feed. Paging starts at a continuation token when a non-empty
  one is given; otherwise it starts at a start time.
- It collects every event of every page. When a non-empty container name is given, it drops the events whose subject,
  parsed with the pattern `/containers/([^/]+)/blobs/(.+)`, names another container or does not parse.
- `run` then hands each collected event, in order, to `process_event`. That method calls the created, deleted
  or updated handler for the event types `BlobCreated`, `BlobDeleted` and `BlobUpdated`, and no handler for any
  other type. A missing type counts as `Unknown`.

The project has six modules:

- `Optional` (`optional.dfy`): the `Option` type.
- `Sequences` (`sequences.dfy`): facts about sequences that hold for any element type:
  - slicing;
  - the leftmost position at which an attempt succeeds;
  - concatenating what a function yields for each element (`FlatMap`).
- `Subject` (`subject.dfy`): the subject parser. The model does not use a regular-expression engine. It
  spells out what Python's `re.search` does with this pattern:
  - the leftmost match wins;
  - the container is the whole run of non-`/` characters after `/containers/` and must be followed by
    `/blobs/`;
  - the blob name is the whole run of non-newline characters after `/blobs/` and must not be empty.

  The lemmas tie the parser to a declarative statement of a match (`Contains`, `Occurs`, `NoMatchBefore`),
  in both directions.
- `Feed` (`feed.dfy`):
  - events, and the request that opens the page iterator;
  - the keep rule, with Python's truthiness: `None` and `""` are both false;
  - the specification `Selected(Flatten(pages), containerName)` of what `fetch_changes` returns, and its
    properties.
- `EventDispatch` (`dispatch.dfy`): the dispatch table of `process_event`, and `DispatchAll`, the calls
  that `run` makes.
- `Reader` (`reader.dfy`): the class `BlobChangeFeedReader`:
  - `FetchChanges` keeps the nested page/event loop and the appending accumulator. It is proved equal to the
    `Selected(Flatten(...))` specification.
  - `ProcessEvent` keeps the `if`/`elif` chain.
  - `Run` keeps the loop over the fetched events. It is proved to record exactly `DispatchAll` of what
    `FetchChanges` returns.
  - The handlers record their calls in the field `handled`, as the reader's unit test does with its
    `TestReader`.

The change-feed client is foreign code, so it is a parameter of the reader: the `const` field `changeLog`. It
maps the request that opens the page iterator to the pages that request yields.

A few facts about the code shape the model:

- An event whose subject does not parse is kept when no container name is given. It is dropped only under a
  truthy container name.
- `fetch_changes` collects the raw events. They are classified later, in `process_event`.
- Created, deleted and updated events each have their own handler.
- No continuation token is tracked or advanced.
- The code raises no exception of its own; it only logs and re-raises (`base.py:65-67`, `base.py:106-108`).
  Exceptions are not modelled.

The reader's unit tests build their events as `FakeEvent` objects (`test_blob_changefeed_reader.py:5-9`).
These have neither a `get` method nor a subject. `fetch_changes` calls `event.get("subject")` (`base.py:57`)
and `process_event` calls `event.get("eventType", "Unknown")` (`base.py:71`), so on such an event each raises
`AttributeError` before it filters or dispatches anything. `fetch_changes` re-raises it (`base.py:65-67`).
As written, the tests' events cannot reach the filter or the dispatch table. Two lemmas state the intended
shape of those tests, with events that carry subjects and types:

- `Feed.OneOfThreeFiltered` covers `test_fetch_changes`. Filtering by the matching container keeps the first
  and last of the three events. Without a container name all three are kept. The test passes the name to the
  constructor, which does not read it, and not to `fetch_changes`.
- `EventDispatch.FourEventTypes` covers `test_process_event`.

## Model

Source paths are relative to the repository root. `base.py` below is the reader's module, and the test file
is its unit test.

| member | source | states |
|---|---|---|
| Subject.IndexOfFrom | llama-index-integrations/readers/llama-index-readers-azstorage-blob-changefeed/llama_index/readers/azstorage_blob_changefeed/base.py:57 | the greedy scan of a character class: the first index at or after `i` holding `c`, or the end; no `c` lies before it |
| Subject.MatchAt | llama-index-integrations/readers/llama-index-readers-azstorage-blob-changefeed/llama_index/readers/azstorage_blob_changefeed/base.py:57 | a match attempted at one position yields a non-empty container without `/` and a non-empty blob name without a newline |
| Subject.MatchAtSound | llama-index-integrations/readers/llama-index-readers-azstorage-blob-changefeed/llama_index/readers/azstorage_blob_changefeed/base.py:57 | what MatchAt yields at `i` is a match of the pattern at `i`, whose blob name runs to the end or to a newline |
| Subject.ContainsRuns | llama-index-integrations/readers/llama-index-readers-azstorage-blob-changefeed/llama_index/readers/azstorage_blob_changefeed/base.py:57 | where the pattern can match, `[^/]+` runs exactly to the next `/`, and the blob name lies before the next newline |
| Subject.MatchAtComplete | llama-index-integrations/readers/llama-index-readers-azstorage-blob-changefeed/llama_index/readers/azstorage_blob_changefeed/base.py:57 | any way the pattern can match at `i` is found by MatchAt, with the same container and a blob name it extends |
| Subject.MatchAtExact | llama-index-integrations/readers/llama-index-readers-azstorage-blob-changefeed/llama_index/readers/azstorage_blob_changefeed/base.py:57 | the groups of a match at a given position are unique, and MatchAt returns exactly them |
| Subject.NoMatchAt | llama-index-integrations/readers/llama-index-readers-azstorage-blob-changefeed/llama_index/readers/azstorage_blob_changefeed/base.py:57 | when MatchAt fails at a position, the pattern cannot match there with any groups |
| Sequences.LeftmostIsFirst | llama-index-integrations/readers/llama-index-readers-azstorage-blob-changefeed/llama_index/readers/azstorage_blob_changefeed/base.py:57 | the search tries positions left to right: it returns the first success, with no success before it, or nothing when every attempt fails |
| Subject.FindFrom | llama-index-integrations/readers/llama-index-readers-azstorage-blob-changefeed/llama_index/readers/azstorage_blob_changefeed/base.py:57 | a position `re.search` finds lies within the subject, and the pattern matches there with the groups returned |
| Subject.FindFromLeftmost | llama-index-integrations/readers/llama-index-readers-azstorage-blob-changefeed/llama_index/readers/azstorage_blob_changefeed/base.py:57 | `re.search` is leftmost: MatchAt fails at every position before the one found, and nothing is found only when it fails everywhere |
| Subject.ParseSubject | llama-index-integrations/readers/llama-index-readers-azstorage-blob-changefeed/llama_index/readers/azstorage_blob_changefeed/base.py:57-59 | a parsed container is non-empty and slash-free; a parsed blob name is non-empty and newline-free |
| Subject.ParseSubjectSome | llama-index-integrations/readers/llama-index-readers-azstorage-blob-changefeed/llama_index/readers/azstorage_blob_changefeed/base.py:57-59 | the parser returns `(c, b)` if and only if the pattern matches with exactly those groups at some position and at no earlier one |
| Subject.ParseSubjectNone | llama-index-integrations/readers/llama-index-readers-azstorage-blob-changefeed/llama_index/readers/azstorage_blob_changefeed/base.py:57-59 | the parser yields no container and no blob name if and only if the pattern matches nowhere in the subject |
| Subject.ParseAfterPrefix | llama-index-integrations/readers/llama-index-readers-azstorage-blob-changefeed/llama_index/readers/azstorage_blob_changefeed/base.py:57-59 | a prefix holding no `/c` is skipped, and a blob name keeps its own slashes |
| Subject.ServicePrefixSkipped | llama-index-integrations/readers/llama-index-readers-azstorage-blob-changefeed/llama_index/readers/azstorage_blob_changefeed/base.py:57 | the `/blobServices/default` prefix of real subjects is such a prefix |
| Subject.ParseServiceSubject | llama-index-integrations/readers/llama-index-readers-azstorage-blob-changefeed/llama_index/readers/azstorage_blob_changefeed/base.py:57-59 | a subject as the change feed writes it, `/blobServices/default/containers/<c>/blobs/<b>`, parses to `c` and `b` |
| Subject.ParseBareSubject | llama-index-integrations/readers/llama-index-readers-azstorage-blob-changefeed/llama_index/readers/azstorage_blob_changefeed/base.py:57-59 | a subject that is exactly `/containers/<c>/blobs/<b>` parses to `c` and `b` |
| Subject.ParseStopsAtNewline | llama-index-integrations/readers/llama-index-readers-azstorage-blob-changefeed/llama_index/readers/azstorage_blob_changefeed/base.py:57-59 | `.+` stops at the first newline: what follows it is not part of the blob name, even another match |
| Feed.Truthy | llama-index-integrations/readers/llama-index-readers-azstorage-blob-changefeed/llama_index/readers/azstorage_blob_changefeed/base.py:46 | `None` and `""` are false, every other string is true, as Python tests `if continuation_token` and `if container_name` |
| Feed.PageRequestFor | llama-index-integrations/readers/llama-index-readers-azstorage-blob-changefeed/llama_index/readers/azstorage_blob_changefeed/base.py:44-53 | paging resumes from the token exactly when the token is truthy, and otherwise starts at the start time; the page size is always 500 |
| Feed.FetchedIgnoresStartTime | llama-index-integrations/readers/llama-index-readers-azstorage-blob-changefeed/llama_index/readers/azstorage_blob_changefeed/base.py:46-49 | with a truthy continuation token, the start time makes no difference to the result |
| Feed.ContainerOf | llama-index-integrations/readers/llama-index-readers-azstorage-blob-changefeed/llama_index/readers/azstorage_blob_changefeed/base.py:57-58 | an event has a container exactly when its subject parses, and that container is non-empty and slash-free |
| Feed.Keep | llama-index-integrations/readers/llama-index-readers-azstorage-blob-changefeed/llama_index/readers/azstorage_blob_changefeed/base.py:60-62 | without a truthy container name every event is kept; with one, an event is kept if and only if its subject parses to that container |
| Feed.Flatten | llama-index-integrations/readers/llama-index-readers-azstorage-blob-changefeed/llama_index/readers/azstorage_blob_changefeed/base.py:54-55 | walking the pages visits exactly as many events as the pages hold |
| Feed.Selected | llama-index-integrations/readers/llama-index-readers-azstorage-blob-changefeed/llama_index/readers/azstorage_blob_changefeed/base.py:54-63 | the events kept are never more than the input, and without a truthy container name none is dropped |
| Feed.FlattenSnoc | llama-index-integrations/readers/llama-index-readers-azstorage-blob-changefeed/llama_index/readers/azstorage_blob_changefeed/base.py:54-55 | one more page adds its events after those of the earlier pages |
| Feed.SelectedSnoc | llama-index-integrations/readers/llama-index-readers-azstorage-blob-changefeed/llama_index/readers/azstorage_blob_changefeed/base.py:60-63 | one more event is appended or skipped as the keep rule says |
| Feed.SelectedStep | llama-index-integrations/readers/llama-index-readers-azstorage-blob-changefeed/llama_index/readers/azstorage_blob_changefeed/base.py:55-63 | the next event of a page is appended or skipped as the keep rule says |
| Feed.FlattenAppend | llama-index-integrations/readers/llama-index-readers-azstorage-blob-changefeed/llama_index/readers/azstorage_blob_changefeed/base.py:54-55 | the events of two runs of pages are those of each, one after the other |
| Feed.FlattenMembers | llama-index-integrations/readers/llama-index-readers-azstorage-blob-changefeed/llama_index/readers/azstorage_blob_changefeed/base.py:54-55 | an event is visited if and only if it is in some page |
| Feed.SelectedAppend | llama-index-integrations/readers/llama-index-readers-azstorage-blob-changefeed/llama_index/readers/azstorage_blob_changefeed/base.py:54-63 | the filter works event by event and keeps order across stretches of events |
| Feed.SelectedUnfiltered | llama-index-integrations/readers/llama-index-readers-azstorage-blob-changefeed/llama_index/readers/azstorage_blob_changefeed/base.py:61 | with no container name or an empty one, every event is returned in order, unparsable subjects included |
| Feed.SelectedFiltered | llama-index-integrations/readers/llama-index-readers-azstorage-blob-changefeed/llama_index/readers/azstorage_blob_changefeed/base.py:60-63 | with a non-empty container name, the result is exactly the events whose parsed container is that name, in order |
| Feed.SelectedMembers | llama-index-integrations/readers/llama-index-readers-azstorage-blob-changefeed/llama_index/readers/azstorage_blob_changefeed/base.py:60-63 | an event is returned if and only if it is an input event the keep rule keeps |
| Feed.SelectedInContainer | llama-index-integrations/readers/llama-index-readers-azstorage-blob-changefeed/llama_index/readers/azstorage_blob_changefeed/base.py:61 | under a non-empty container name, every returned event's subject parses, to that container |
| Feed.Fetched | llama-index-integrations/readers/llama-index-readers-azstorage-blob-changefeed/llama_index/readers/azstorage_blob_changefeed/base.py:24-64 | the list `fetch_changes` returns is never longer than all pages together, and is exactly that long without a truthy container name |
| Feed.FetchedFromPages | llama-index-integrations/readers/llama-index-readers-azstorage-blob-changefeed/llama_index/readers/azstorage_blob_changefeed/base.py:54-63 | every returned event occurs in some page of the feed |
| Feed.OneOfThreeFiltered | llama-index-integrations/readers/llama-index-readers-azstorage-blob-changefeed/tests/test_blob_changefeed_reader.py:34-48 | the intended shape of the test: on a page of three events whose subjects parse, filtering by the first and last events' container yields those two, in order; unfiltered, it yields all three |
| Sequences.FlatMapSnoc | llama-index-integrations/readers/llama-index-readers-azstorage-blob-changefeed/llama_index/readers/azstorage_blob_changefeed/base.py:137-138 | processing one more event appends its calls after everything recorded before |
| Sequences.FlatMapAppend | llama-index-integrations/readers/llama-index-readers-azstorage-blob-changefeed/llama_index/readers/azstorage_blob_changefeed/base.py:137-138 | processing two runs of events records the calls of each, one after the other |
| Sequences.FlatMapMembers | llama-index-integrations/readers/llama-index-readers-azstorage-blob-changefeed/llama_index/readers/azstorage_blob_changefeed/base.py:137-138 | a value is recorded if and only if processing some event yields it |
| Sequences.FlatMapAtMostOne | llama-index-integrations/readers/llama-index-readers-azstorage-blob-changefeed/llama_index/readers/azstorage_blob_changefeed/base.py:137-138 | when each event yields at most one call, there are no more calls than events |
| Sequences.FlatMapOneEach | llama-index-integrations/readers/llama-index-readers-azstorage-blob-changefeed/llama_index/readers/azstorage_blob_changefeed/base.py:137-138 | when each event yields exactly one call, the calls follow the events one for one, in order |
| EventDispatch.EventTypeOf | llama-index-integrations/readers/llama-index-readers-azstorage-blob-changefeed/llama_index/readers/azstorage_blob_changefeed/base.py:71 | the event's own type when it has one; a missing type reads as `Unknown`, the same as an event typed `Unknown` |
| EventDispatch.Classify | llama-index-integrations/readers/llama-index-readers-azstorage-blob-changefeed/llama_index/readers/azstorage_blob_changefeed/base.py:71-82 | a handler is chosen if and only if the type is one of the three handled types, and it is the handler for that type |
| EventDispatch.Dispatch | llama-index-integrations/readers/llama-index-readers-azstorage-blob-changefeed/llama_index/readers/azstorage_blob_changefeed/base.py:69-82 | `process_event` makes at most one call, and exactly one if and only if the type is handled |
| EventDispatch.DispatchAll | llama-index-integrations/readers/llama-index-readers-azstorage-blob-changefeed/llama_index/readers/azstorage_blob_changefeed/base.py:136-138 | processing the fetched events one by one makes no more handler calls than there are events |
| EventDispatch.ClassifyInvertsHandledType | llama-index-integrations/readers/llama-index-readers-azstorage-blob-changefeed/llama_index/readers/azstorage_blob_changefeed/base.py:75-80 | a handler is chosen for an event if and only if the event's type is that handler's type |
| EventDispatch.MissingTypeUnhandled | llama-index-integrations/readers/llama-index-readers-azstorage-blob-changefeed/llama_index/readers/azstorage_blob_changefeed/base.py:71 | an event without a type counts as `Unknown` and gets no handler call |
| EventDispatch.DispatchCalls | llama-index-integrations/readers/llama-index-readers-azstorage-blob-changefeed/llama_index/readers/azstorage_blob_changefeed/base.py:69-82 | a call is made for an event if and only if it is for that event and for the handler its type selects |
| EventDispatch.DispatchAllMembers | llama-index-integrations/readers/llama-index-readers-azstorage-blob-changefeed/llama_index/readers/azstorage_blob_changefeed/base.py:136-138 | a call is recorded if and only if its event was fetched and its type selects that handler |
| EventDispatch.DispatchAllOnePerEvent | llama-index-integrations/readers/llama-index-readers-azstorage-blob-changefeed/llama_index/readers/azstorage_blob_changefeed/base.py:136-138 | when every event has a handled type, each gets exactly one call, in fetch order |
| EventDispatch.FourEventTypes | llama-index-integrations/readers/llama-index-readers-azstorage-blob-changefeed/tests/test_blob_changefeed_reader.py:50-64 | the intended shape of the test: four events typed `BlobCreated`, `BlobDeleted`, `BlobUpdated` and `Unknown` yield the created, deleted and updated calls, in that order, and nothing for `Unknown` |
| Reader.BlobChangeFeedReader.constructor | llama-index-integrations/readers/llama-index-readers-azstorage-blob-changefeed/llama_index/readers/azstorage_blob_changefeed/base.py:15-22 | a new reader holds its connection string and change feed, and has made no handler call |
| Reader.BlobChangeFeedReader.FetchChanges | llama-index-integrations/readers/llama-index-readers-azstorage-blob-changefeed/llama_index/readers/azstorage_blob_changefeed/base.py:24-64 | the nested page/event loop returns exactly the kept events of all pages from the chosen start, in order |
| Reader.BlobChangeFeedReader.HandleBlobCreated | llama-index-integrations/readers/llama-index-readers-azstorage-blob-changefeed/tests/test_blob_changefeed_reader.py:25-26 | the created handler records one created call for the event |
| Reader.BlobChangeFeedReader.HandleBlobDeleted | llama-index-integrations/readers/llama-index-readers-azstorage-blob-changefeed/tests/test_blob_changefeed_reader.py:27-28 | the deleted handler records one deleted call for the event |
| Reader.BlobChangeFeedReader.HandleBlobUpdated | llama-index-integrations/readers/llama-index-readers-azstorage-blob-changefeed/tests/test_blob_changefeed_reader.py:29-30 | the updated handler records one updated call for the event |
| Reader.BlobChangeFeedReader.ProcessEvent | llama-index-integrations/readers/llama-index-readers-azstorage-blob-changefeed/llama_index/readers/azstorage_blob_changefeed/base.py:69-82 | the `if`/`elif` chain appends exactly the dispatch table's calls for the event |
| Reader.BlobChangeFeedReader.Run | llama-index-integrations/readers/llama-index-readers-azstorage-blob-changefeed/llama_index/readers/azstorage_blob_changefeed/base.py:127-138 | the handler log grows by the calls for every fetched event, each event once, in fetch order |
| Reader.BlobChangeFeedReader.LoadData | llama-index-integrations/readers/llama-index-readers-azstorage-blob-changefeed/llama_index/readers/azstorage_blob_changefeed/base.py:140-148 | the keyword arguments are handed on to `run` unchanged, with the same effect on the handler log |

## Left out

- Change-feed client construction (`base.py:20-22`) is not modelled: the SDK is foreign. Its answers are the reader's `changeLog` function, which the model takes as given. The model therefore assumes that the same request always yields the same pages.
- `_download_blob` (`base.py:84-108`) is left out. It does temp-file I/O, downloads the blob and calls the generic directory reader, all of it foreign code.
- The real handler bodies (`base.py:110-125`) are left out; the handlers are the unit test's recorders.
  - The created and updated handlers pass one argument to the two-argument `_download_blob`. As written they raise `TypeError` before downloading anything.
  - The handlers' `blob_url` lookup and their log lines have no effect the model could observe.
- Logging, and the `except ... raise` wrappers at `base.py:65-67` and `base.py:106-108`, are left out. They only log and re-raise, so an exception from the client propagates unchanged. Exceptions are not modelled.
- Continuation-token tracking and metadata normalisation are not modelled. The code has none of them.
- Document production is not modelled. It happens only inside `_download_blob` (`base.py:101-105`), which is left out, and the handlers discard its result.
- `load_data` returns `None`, the result of `run`. The model has no return value for it.
- The `**kwargs` of `load_data` become three optional parameters. `kwargs.get` gives `None` for a missing argument, which is the model's `None`.
- A subject that is missing (`event.get("subject")` returning `None`) makes `re.search` raise `TypeError` at `base.py:57`. The model gives every event a subject string.
- The start time is an integer instant, not a `datetime`. The model only passes it on to the change feed.
- `connection_string` is read by client construction (`base.py:22`) and by `_download_blob` (`base.py:89`). `file_extractor` is read only by `_download_blob` (`base.py:102`). Both readers are left out. The model stores `connection_string` and drops `file_extractor`, which only the
  left-out `_download_blob` reads.
- `group(2)`, the blob name at `base.py:59`, is parsed but never used by `fetch_changes`. The model parses it and proves its properties, but no operation reads it.
- The `container_name` that the unit tests pass to the constructor is not a field of the reader. `fetch_changes` takes it only as an argument.
- The unit tests' `FakeEvent` objects are not modelled. They have no `get` method, so the code as written raises `AttributeError` on them (`base.py:57`, `base.py:71`).
