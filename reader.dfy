/** The change-feed reader itself: `BlobChangeFeedReader`.

    The reader builds a change-feed client from its connection string; here
    that client is the `changeLog` it is given, a function from the request
    that opens the page iterator to the pages the feed returns. The handlers
    are recorded in `handled`, in call order, as the reader's unit test
    records them.
 */
module Reader {

  import opened Optional
  import opened Sequences
  import opened Feed
  import opened EventDispatch

  class BlobChangeFeedReader {

    const connectionString: Option<string>
    /** The change feed the connection string leads to. */
    const changeLog: PageRequest -> seq<seq<Event>>
    /** The handler calls made so far, oldest first. */
    var handled: seq<HandlerCall>

    constructor (connectionString: Option<string>, changeLog: PageRequest -> seq<seq<Event>>)
      ensures this.connectionString == connectionString && this.changeLog == changeLog
      ensures handled == []
    {
      this.connectionString := connectionString;
      this.changeLog := changeLog;
      handled := [];
    }

    /** `fetch_changes`: open the page iterator where PageRequestFor says, then
        walk every page and every event in it, appending each event the keep
        rule keeps. */
    method FetchChanges(
      startTime: Option<Timestamp>,
      continuationToken: Option<string>,
      containerName: Option<string>
    ) returns (events: seq<Event>)
      ensures events == Fetched(changeLog, startTime, continuationToken, containerName)
    {
      var pages := changeLog(PageRequestFor(startTime, continuationToken));
      events := [];
      for i := 0 to |pages|
        invariant events == Selected(Flatten(pages[..i]), containerName)
      {
        var page := pages[i];
        ghost var before := Flatten(pages[..i]);
        assert before + page[..0] == before;
        for j := 0 to |page|
          invariant events == Selected(before + page[..j], containerName)
        {
          var event := page[j];
          SelectedStep(before, page, j, containerName);
          var eventContainerName := ContainerOf(event);
          if Truthy(containerName) && eventContainerName != Some(containerName.value) {
            continue;
          }
          events := events + [event];
        }
        assert page[..|page|] == page;
        FlattenSnoc(pages, i);
      }
      assert pages[..|pages|] == pages;
    }

    /** `_handle_blob_created`, as the unit test records it. */
    method HandleBlobCreated(event: Event)
      modifies this
      ensures handled == old(handled) + [HandlerCall(Created, event)]
    {
      handled := handled + [HandlerCall(Created, event)];
    }

    /** `_handle_blob_deleted`, as the unit test records it. */
    method HandleBlobDeleted(event: Event)
      modifies this
      ensures handled == old(handled) + [HandlerCall(Deleted, event)]
    {
      handled := handled + [HandlerCall(Deleted, event)];
    }

    /** `_handle_blob_updated`, as the unit test records it. */
    method HandleBlobUpdated(event: Event)
      modifies this
      ensures handled == old(handled) + [HandlerCall(Updated, event)]
    {
      handled := handled + [HandlerCall(Updated, event)];
    }

    /** `process_event`: call the handler for the event's type, if there is one. */
    method ProcessEvent(event: Event)
      modifies this
      ensures handled == old(handled) + Dispatch(event)
    {
      var eventType := EventTypeOf(event);
      if eventType == "BlobCreated" {
        HandleBlobCreated(event);
      } else if eventType == "BlobDeleted" {
        HandleBlobDeleted(event);
      } else if eventType == "BlobUpdated" {
        HandleBlobUpdated(event);
      }
    }

    /** `run`: fetch the events, then process each of them in order. */
    method Run(
      startTime: Option<Timestamp>,
      continuationToken: Option<string>,
      containerName: Option<string>
    )
      modifies this
      ensures handled == old(handled) + DispatchAll(Fetched(changeLog, startTime, continuationToken, containerName))
    {
      var events := FetchChanges(startTime, continuationToken, containerName);
      for k := 0 to |events|
        invariant handled == old(handled) + DispatchAll(events[..k])
      {
        FlatMapSnoc(old(handled), Dispatch, events, k);
        ProcessEvent(events[k]);
      }
      assert events[..|events|] == events;
    }

    /** `load_data`: the optional `start_time`, `continuation_token` and
        `container_name` keyword arguments, handed on to `run`. */
    method LoadData(
      startTime: Option<Timestamp>,
      continuationToken: Option<string>,
      containerName: Option<string>
    )
      modifies this
      ensures handled == old(handled) + DispatchAll(Fetched(changeLog, startTime, continuationToken, containerName))
    {
      Run(startTime, continuationToken, containerName);
    }
  }
}
