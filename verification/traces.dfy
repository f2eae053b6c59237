/**
 What every session of the controller looks like. After mount, the j-th fetch
 asks for PageOfLoad(j): page 1, then 3, 4, ... because the mount effect and
 the first completion both advance the cursor. Reachable pins every state a
 session can produce down to the number of completed fetches and whether one
 is outstanding; the properties of the controller follow from it.
 */
module Traces {
  import opened Wrappers
  import opened Fetcher
  import opened Scroller

  /** Number of fetches a session completes before the fetcher reports no more data. */
  const MaxLoads: nat := 7

  /** Page requested by the j-th fetch of a session, counting from 1. */
  function PageOfLoad(j: nat): int
    requires j >= 1
  {
    if j == 1 then 1 else j + 1
  }

  /** The item list after k completed fetches. */
  function LoadedItems(k: nat): (r: seq<Item>)
    ensures |r| == k * PageSize
  {
    if k == 0 then [] else LoadedItems(k - 1) + FetchData(PageOfLoad(k)).data
  }

  ghost predicate Reachable(s: State) {
    && |s.items| % PageSize == 0
    && var k := |s.items| / PageSize;
       && k <= MaxLoads
       && s.items == LoadedItems(k)
       && (s.isLoading <==> s.inFlight != None)
       && (k == 0 ==> s.page == 2 && s.isLoading && s.hasMore && s.inFlight == Some(1))
       && (k > 0 ==> s.page == k + 2 && (s.hasMore <==> k < MaxLoads))
       && (k > 0 && s.isLoading ==> s.hasMore && s.inFlight == Some(s.page))
  }

  lemma MountReachable()
    ensures Reachable(Mount(Initial()))
  {
  }

  lemma StepReachable(s: State, e: Event)
    requires Reachable(s)
    ensures Reachable(Step(s, e))
  {
  }

  lemma {:induction false} RunReachable(s: State, evs: seq<Event>)
    requires Reachable(s)
    ensures Reachable(Run(s, evs))
    decreases |evs|
  {
    if |evs| > 0 {
      StepReachable(s, evs[0]);
      RunReachable(Step(s, evs[0]), evs[1..]);
    }
  }

  /** Every session state satisfies the invariant, whatever the events. */
  lemma SessionReachable(evs: seq<Event>)
    ensures Reachable(Session(evs))
  {
    MountReachable();
    RunReachable(Mount(Initial()), evs);
  }

  /** The invariant fixes a state completely by its item count and whether it is loading. */
  lemma ReachableDetermined(s: State, t: State)
    requires Reachable(s) && Reachable(t)
    requires |s.items| == |t.items| && s.isLoading == t.isLoading
    ensures s == t
  {
  }

  /** Conversely, every state satisfying the invariant is produced by some session. */
  lemma ReachableIsReached(s: State)
    requires Reachable(s)
    ensures exists evs :: Session(evs) == s
  {
    var k := |s.items| / PageSize;
    var evs: seq<Event>;
    if k == 0 {
      evs := [];
      MountReachable();
    } else {
      EagerUserLoads(k - 1);
      if s.isLoading {
        evs := EagerUser(k - 1) + [Scroll(true)];
        RunAppend(Mount(Initial()), EagerUser(k - 1), [Scroll(true)]);
        assert Session(evs) == OnScroll(Session(EagerUser(k - 1)), true);
      } else {
        evs := EagerUser(k - 1);
      }
    }
    SessionReachable(evs);
    ReachableDetermined(Session(evs), s);
  }

  /**
   At most one fetch is outstanding: `isLoading` is set exactly while one is,
   and a scroll notification then dispatches nothing and changes nothing.
   */
  lemma AtMostOneFetch(evs: seq<Event>, nearBottom: bool)
    ensures Session(evs).isLoading <==> Session(evs).inFlight != None
    ensures Session(evs).isLoading ==> OnScroll(Session(evs), nearBottom) == Session(evs)
  {
    SessionReachable(evs);
  }

  /** Closed form of the loaded ids: 1..10, then 21, 22, ... (the ids of page 2 are skipped). */
  lemma {:induction false} LoadedIds(k: nat, i: int)
    requires 0 <= i < k * PageSize
    ensures LoadedItems(k)[i].id == if i < PageSize then i + 1 else i + PageSize + 1
  {
    var prev := LoadedItems(k - 1);
    if i < |prev| {
      LoadedIds(k - 1, i);
    } else {
      var j := i - |prev|;
      assert LoadedItems(k)[i] == FetchData(PageOfLoad(k)).data[j];
      BatchContents(PageOfLoad(k), j);
    }
  }

  /**
   In any session the i-th item has id i+1 for the first ten and i+11 after:
   ids strictly increase, page 2 (ids 11..20) never appears and is never
   requested, and every title names its item's id.
   */
  lemma SessionItems(evs: seq<Event>)
    ensures var s := Session(evs);
      && (forall i :: 0 <= i < |s.items| ==> s.items[i].id == if i < PageSize then i + 1 else i + PageSize + 1)
      && (forall i, j :: 0 <= i < j < |s.items| ==> s.items[i].id < s.items[j].id)
      && (forall i :: 0 <= i < |s.items| ==> !(11 <= s.items[i].id <= 20))
      && (forall i :: 0 <= i < |s.items| ==> s.items[i].title == Title(s.items[i].id))
      && (forall i :: 0 <= i < |s.items| ==> ParseTitle(s.items[i].title) == Some(s.items[i].id))
      && s.inFlight != Some(2)
  {
    var s := Session(evs);
    SessionReachable(evs);
    var k := |s.items| / PageSize;
    forall i | 0 <= i < |s.items|
      ensures s.items[i].id == if i < PageSize then i + 1 else i + PageSize + 1
      ensures s.items[i].title == Title(s.items[i].id)
      ensures ParseTitle(s.items[i].title) == Some(s.items[i].id)
    {
      LoadedIds(k, i);
      TitleRoundTrip(s.items[i].id);
      assert s.items[i].title == Title(s.items[i].id) by {
        LoadedTitle(k, i);
      }
    }
  }

  /** Every loaded item carries the title rendered from its id. */
  lemma {:induction false} LoadedTitle(k: nat, i: int)
    requires 0 <= i < k * PageSize
    ensures LoadedItems(k)[i].title == Title(LoadedItems(k)[i].id)
  {
    var prev := LoadedItems(k - 1);
    if i < |prev| {
      LoadedTitle(k - 1, i);
    } else {
      var j := i - |prev|;
      assert LoadedItems(k)[i] == FetchData(PageOfLoad(k)).data[j];
    }
  }

  /** Completing the mount fetch leaves the cursor at 3, so the next fetch asks for page 3. */
  lemma MountCompletion()
    ensures Session([Complete]).page == 3
    ensures Session([Complete]).items == FetchData(1).data
    ensures Session([Complete]).hasMore && !Session([Complete]).isLoading
    ensures OnScroll(Session([Complete]), true).inFlight == Some(3)
  {
  }

  /**
   Exhaustion is terminal: a reachable state without more data holds the 70
   items of pages 1 and 3..8, has the cursor at 9, and no sequence of events
   changes it.
   */
  lemma {:induction false} ExhaustedIsFrozen(s: State, evs: seq<Event>)
    requires Reachable(s) && !s.hasMore
    ensures |s.items| == 70 && s.page == 9 && !s.isLoading
    ensures Run(s, evs) == s
    decreases |evs|
  {
    if |evs| > 0 {
      assert Step(s, evs[0]) == s;
      ExhaustedIsFrozen(s, evs[1..]);
    }
  }

  /** A user who scrolls to the bottom whenever a page has arrived, n times after the mount load. */
  function EagerUser(n: nat): (evs: seq<Event>)
    ensures |evs| == 2 * n + 1
  {
    if n == 0 then [Complete] else EagerUser(n - 1) + [Scroll(true), Complete]
  }

  lemma {:induction false} EagerUserLoads(n: nat)
    requires n < MaxLoads
    ensures |Session(EagerUser(n)).items| == (n + 1) * PageSize
    ensures !Session(EagerUser(n)).isLoading
  {
    SessionReachable(EagerUser(n));
    if n == 0 {
      MountCompletion();
    } else {
      EagerUserLoads(n - 1);
      var s := Session(EagerUser(n - 1));
      SessionReachable(EagerUser(n - 1));
      RunAppend(Mount(Initial()), EagerUser(n - 1), [Scroll(true), Complete]);
      RunAppend(s, [Scroll(true)], [Complete]);
      var t := OnScroll(s, true);
      assert Run(s, [Scroll(true)]) == t;
      assert Run(t, [Complete]) == OnComplete(t);
    }
  }

  /**
   Scrolling to the bottom after each arrival exhausts the data after seven
   fetches: 70 items, no more data, and the list is frozen from then on.
   */
  lemma EagerUserExhausts(more: seq<Event>)
    ensures |Session(EagerUser(MaxLoads - 1)).items| == 70
    ensures !Session(EagerUser(MaxLoads - 1)).hasMore
    ensures Session(EagerUser(MaxLoads - 1) + more) == Session(EagerUser(MaxLoads - 1))
  {
    var evs := EagerUser(MaxLoads - 1);
    EagerUserLoads(MaxLoads - 1);
    SessionReachable(evs);
    RunAppend(Mount(Initial()), evs, more);
    ExhaustedIsFrozen(Session(evs), more);
  }
}
