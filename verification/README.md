# Infinite-scroll pagination controller, in Dafny

This project models the pagination controller of the InfiniteScroller demo
(the `App` component of `InfiniteScroller/src/App.jsx`): four pieces of state
(`page`, `isLoading`, `items`, `hasMore`), the mount effect that makes the
initial load, the scroll handler with its near-bottom / `hasMore` /
`!isLoading` guard, `loadMore`, and the simulated page fetcher `fetchData`.
It proves the guard, the append-only list, the cursor arithmetic and the
terminal exhaustion over every event sequence.

Files:

- `wrappers.dfy` — `Option`.
- `decimal.dfy` — `Decimal`: how a template literal renders an integer id, and its inverse.
- `fetcher.dfy` — `Fetcher`: `Item`, the response record, and `FetchData`. The
  page for `p` has 10 items with ids `(p-1)*10+1 .. (p-1)*10+10` and titles
  `Item <id>`. It reports more data iff `p < 8`.
- `scroller.dfy` — `Scroller`: the state record and the transitions. `Mount`
  runs once. Then the events are `Scroll(nearBottom)` and `Complete`, the
  resolution of the outstanding fetch. `Session(evs)` is mount followed by
  `evs`.
- `traces.dfy` — `Traces`: `Reachable` is the session invariant. It fixes the
  state by the number of completed fetches and whether one is outstanding.
  Every state a session reaches satisfies it (`SessionReachable`). Every state
  that satisfies it is reached by some session (`ReachableIsReached`). The
  session-wide properties are derived from it.

The state record adds one field to the component's state: `inFlight`. It holds
the page number the outstanding `fetchData` call was made with. The source
keeps that number in the suspended `loadMore` call.

The behaviour follows the code, including one quirk. The mount effect
increments `page` itself (line 21), and the completion handler increments it
again (line 46). So the first fetch asks for page 1, and the cursor is 3 once
that fetch returns. Page 2 (ids 11..20) is never requested. A session loads
pages 1 and 3..8 and ends with 70 items, cursor 9 and `hasMore` false.
`Traces.MountCompletion`, `Traces.SessionItems` and
`Traces.EagerUserExhausts` state the behaviour as written.

## Model

| member | source | states |
|---|---|---|
| `Scroller.Initial` | InfiniteScroller/src/App.jsx:13-16 | The component starts on page 1, not loading, with no items and more data expected. |
| `Scroller.LoadMore` | InfiniteScroller/src/App.jsx:37-43 | While loading or exhausted, `loadMore` changes nothing and starts no fetch. Otherwise it sets `isLoading` and starts a fetch of the current page. It never touches the cursor, the items or `hasMore`. |
| `Scroller.Mount` | InfiniteScroller/src/App.jsx:19-23 | The mount effect always advances the cursor by one. When the load starts, the fetch in flight is for the page before the new cursor. |
| `Scroller.OnScroll` | InfiniteScroller/src/App.jsx:27-31 | A scroll notification starts a fetch of the current page exactly when it is near the bottom, more data exists and nothing is loading. In every other case the state is unchanged. |
| `Scroller.OnComplete` | InfiniteScroller/src/App.jsx:43-49 | On completion the old items are a prefix of the new ones. The appended suffix is the batch of the requested page, so the length grows by 10. The cursor grows by exactly 1, `hasMore` becomes "requested page < 8" and loading stops. |
| `Scroller.RunAppendOnly` | InfiniteScroller/src/App.jsx:45-46 | Over any event sequence the item list only grows at its end and the cursor never decreases. |
| `Fetcher.FetchData` | InfiniteScroller/src/App.jsx:57-65 | Every batch has exactly 10 items. The response reports more data iff the page number is below 8. |
| `Fetcher.BatchContents` | InfiniteScroller/src/App.jsx:57-60 | Item i of page p has id (p-1)*10+i+1. Its title is exactly `Item ` followed by the decimal rendering of that id, and it reads back as that id. |
| `Fetcher.BatchesOrdered` | InfiniteScroller/src/App.jsx:57-60 | Ids within a batch are consecutive. Every id of an earlier page is below every id of a later page. |
| `Fetcher.TitleRoundTrip` | InfiniteScroller/src/App.jsx:59 | The title `Item <id>` determines the id: parsing it gives back exactly that id. |
| `Decimal.NatToDecimal` | InfiniteScroller/src/App.jsx:59 | Rendering a natural number gives a non-empty digit string. It starts with '0' only when the number is 0, so it has no leading zeros. |
| `Decimal.ParseNatToDecimal` | InfiniteScroller/src/App.jsx:59 | Reading the decimal digits of n gives back n. |
| `Decimal.IntToStringRoundTrip` | InfiniteScroller/src/App.jsx:59 | The rendering of any integer is non-empty, carries a minus sign iff the integer is negative, and parses back to the same integer. |
| `Decimal.IntToStringInjective` | InfiniteScroller/src/App.jsx:58-59 | Two ids get the same title text iff they are equal. |
| `Traces.LoadedItems` | InfiniteScroller/src/App.jsx:45-60 | After k completed fetches the list holds exactly 10k items. |
| `Traces.MountReachable` | InfiniteScroller/src/App.jsx:19-23 | Just after mount the session is loading page 1 with the cursor already at 2 and no items. |
| `Traces.StepReachable` | InfiniteScroller/src/App.jsx:27-49 | Any scroll or completion keeps the session invariant. The invariant is: at most 7 fetches completed; items are the batches of pages 1, 3, 4, … in order; the cursor is 2 beyond the completed fetches; `hasMore` is false exactly after 7 fetches; `isLoading` holds iff a fetch of the current page (or page 1 at mount) is outstanding. |
| `Traces.RunReachable` | InfiniteScroller/src/App.jsx:27-49 | The session invariant holds after any sequence of events. |
| `Traces.SessionReachable` | InfiniteScroller/src/App.jsx:19-49 | Every state of every session, whatever the events, satisfies the session invariant. |
| `Traces.ReachableDetermined` | InfiniteScroller/src/App.jsx:13-49 | Two states that satisfy the session invariant and agree on item count and on `isLoading` are identical. Each session state is therefore fixed by how many fetches have completed and whether one is outstanding. |
| `Traces.ReachableIsReached` | InfiniteScroller/src/App.jsx:19-49 | Every state that satisfies the session invariant is produced by some session. Together with `SessionReachable`, the invariant describes exactly the reachable states. |
| `Traces.AtMostOneFetch` | InfiniteScroller/src/App.jsx:29-41 | In every session `isLoading` holds exactly while a fetch is outstanding. A scroll notification then dispatches no second fetch and changes nothing. |
| `Traces.LoadedIds` | InfiniteScroller/src/App.jsx:43-60 | In the list after k fetches, item i has id i+1 for i < 10 and i+11 after that. |
| `Traces.LoadedTitle` | InfiniteScroller/src/App.jsx:57-60 | Every loaded item's title is rendered from its own id. |
| `Traces.SessionItems` | InfiniteScroller/src/App.jsx:19-60 | In every session, ids follow the closed form 1..10, 21, 22, …, so they strictly increase. No item has an id in 11..20, and page 2 is never the page in flight. Every title is exactly `Item ` followed by its item's id, and it parses back to that id. |
| `Traces.MountCompletion` | InfiniteScroller/src/App.jsx:19-46 | Once the mount fetch completes, the list is exactly page 1 and the cursor is 3. More data remains, and the next scroll near the bottom requests page 3. |
| `Traces.ExhaustedIsFrozen` | InfiniteScroller/src/App.jsx:39-64 | A reachable state without more data has 70 items, cursor 9 and nothing loading. No sequence of events changes it. |
| `Traces.EagerUserLoads` | InfiniteScroller/src/App.jsx:27-49 | If the user scrolls to the bottom after each arrival, n rounds after the mount load leave 10(n+1) items with nothing loading. |
| `Traces.EagerUserExhausts` | InfiniteScroller/src/App.jsx:27-64 | That user exhausts the data after seven fetches: 70 items, no more data. From then on any further events leave the state as it is. |

## Left out

- Rendering (the `Loading` spinner, the item list markup, the "Loading..." heading, styling classes, lines 3-10 and 68-85): presentation only.
- Scroll geometry (`innerHeight + scrollY >= offsetHeight - 20`, line 28): modelled as the boolean `nearBottom` of a scroll event.
- Latency (`setTimeout` with a `Math.random` delay of 1000-1999 ms, line 55) and `console.log` (line 54): the delay becomes the separately timed `Complete` event, and the log has no effect on state.
- Listener registration and cleanup through `useEffect` dependencies (lines 25-35), StrictMode double mounting and React's batching of state updates. Every guard reads the committed state, and a completion applies its four updates as one step.
- The window between `setIsLoading(true)` and the re-registration of the scroll handler, where a stale handler could still see the old state: not modelled, for the same reason.
- Fetch failure: the source has no error path. A `Complete` event with no fetch outstanding cannot occur; the model treats it as a no-op.
- JavaScript number precision: ids and page numbers stay below 100, so double-precision arithmetic is exact and integers are modelled as unbounded.
