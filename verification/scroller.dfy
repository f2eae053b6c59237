/**
 The pagination controller of the infinite-scroll demo (the `App` component,
 InfiniteScroller/src/App.jsx:12-50) as an immutable state record and pure
 transitions. The fetch latency is abstracted into a separate `Complete`
 event, the scroll geometry into the boolean `nearBottom`, and every guard
 reads the committed state.
 */
module Scroller {
  import opened Wrappers
  import opened Fetcher

  /**
   The component's four pieces of state, plus `inFlight`: the page number the
   outstanding `fetchData` call was made with, if any.
   */
  datatype State = State(
    page: int,
    isLoading: bool,
    items: seq<Item>,
    hasMore: bool,
    inFlight: Option<int>)

  /** What can happen after mount: a scroll notification, or the outstanding fetch resolving. */
  datatype Event = Scroll(nearBottom: bool) | Complete

  function Initial(): (s: State)
    ensures s.page == 1 && !s.isLoading && s.items == [] && s.hasMore && s.inFlight == None
  {
    State(1, false, [], true, None)
  }

  /** The synchronous part of `loadMore`: the guard, then dispatching a fetch of the current page. */
  function LoadMore(s: State): (r: State)
    ensures s.isLoading || !s.hasMore ==> r == s
    ensures !s.isLoading && s.hasMore ==> r.isLoading && r.inFlight == Some(s.page)
    ensures r.page == s.page && r.items == s.items && r.hasMore == s.hasMore
  {
    if s.isLoading || !s.hasMore then s
    else s.(isLoading := true, inFlight := Some(s.page))
  }

  /**
   The mount effect: `loadMore()` captures the current page for its fetch, then
   the effect increments the cursor itself, whether or not a fetch started.
   */
  function Mount(s: State): (r: State)
    ensures r.page == s.page + 1
    ensures !s.isLoading && s.hasMore ==> r.isLoading && r.inFlight == Some(r.page - 1)
    ensures s.isLoading || !s.hasMore ==> r.inFlight == s.inFlight && r.isLoading == s.isLoading
    ensures r.items == s.items && r.hasMore == s.hasMore
  {
    var t := LoadMore(s);
    t.(page := t.page + 1)
  }

  /** `handleScroll`: starts a load only near the bottom, with more data and nothing loading. */
  function OnScroll(s: State, nearBottom: bool): (r: State)
    ensures !(nearBottom && s.hasMore && !s.isLoading) ==> r == s
    ensures nearBottom && s.hasMore && !s.isLoading ==> r.isLoading && r.inFlight == Some(s.page)
    ensures r.page == s.page && r.items == s.items && r.hasMore == s.hasMore
  {
    if nearBottom && s.hasMore && !s.isLoading then LoadMore(s) else s
  }

  /**
   The part of `loadMore` after `await fetchData(page)`: append the batch,
   advance the cursor, take over the response's flag and stop loading. With no
   fetch outstanding there is nothing to resume and the state is unchanged.
   */
  function OnComplete(s: State): (r: State)
    ensures s.inFlight == None ==> r == s
    ensures s.inFlight != None ==>
              && s.items <= r.items
              && |r.items| == |s.items| + PageSize
              && r.items[|s.items|..] == FetchData(s.inFlight.value).data
              && r.page == s.page + 1
              && (r.hasMore <==> s.inFlight.value < LastPage)
              && !r.isLoading
              && r.inFlight == None
  {
    match s.inFlight
    case None => s
    case Some(p) =>
      var res := FetchData(p);
      State(s.page + 1, false, s.items + res.data, res.hasMore, None)
  }

  function Step(s: State, e: Event): State {
    match e
    case Scroll(nearBottom) => OnScroll(s, nearBottom)
    case Complete => OnComplete(s)
  }

  /** The state after a sequence of events, in order. */
  function Run(s: State, evs: seq<Event>): State
    decreases |evs|
  {
    if |evs| == 0 then s else Run(Step(s, evs[0]), evs[1..])
  }

  /** A whole session: mount, then the events the user and the fetcher produce. */
  function Session(evs: seq<Event>): State {
    Run(Mount(Initial()), evs)
  }

  lemma {:induction false} RunAppend(s: State, a: seq<Event>, b: seq<Event>)
    ensures Run(s, a + b) == Run(Run(s, a), b)
    decreases |a|
  {
    if |a| > 0 {
      assert (a + b)[0] == a[0];
      assert (a + b)[1..] == a[1..] + b;
      RunAppend(Step(s, a[0]), a[1..], b);
    } else {
      assert a + b == b;
    }
  }

  /** Along any run the item list only grows at its end and the cursor never goes back. */
  lemma {:induction false} RunAppendOnly(s: State, evs: seq<Event>)
    ensures s.items <= Run(s, evs).items
    ensures s.page <= Run(s, evs).page
    decreases |evs|
  {
    if |evs| > 0 {
      RunAppendOnly(Step(s, evs[0]), evs[1..]);
    }
  }
}
