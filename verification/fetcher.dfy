/**
 The simulated page fetcher `fetchData` (InfiniteScroller/src/App.jsx:52-66)
 with its artificial latency removed: for a page number it yields a batch of
 ten numbered items and whether a later page exists. The delay is not part of
 this module; the controller models it as a separately timed completion event.
 */
module Fetcher {
  import opened Wrappers
  import opened Decimal

  const PageSize: nat := 10
  /** Pages 1 .. LastPage exist; the response for LastPage says there is no more. */
  const LastPage: int := 8

  datatype Item = Item(id: int, title: string)

  datatype Response = Response(data: seq<Item>, hasMore: bool)

  /** The title shown for an item, `Item ${id}`. */
  function Title(id: int): string {
    "Item " + IntToString(id)
  }

  /** Reads an item id back out of a title; None for anything else. */
  function ParseTitle(t: string): Option<int> {
    if |t| >= 5 && t[..5] == "Item " then ParseInt(t[5..]) else None
  }

  lemma TitleRoundTrip(id: int)
    ensures ParseTitle(Title(id)) == Some(id)
  {
    var t := Title(id);
    assert t[..5] == "Item ";
    assert t[5..] == IntToString(id);
    IntToStringRoundTrip(id);
  }

  /** Id of the first item of a page. */
  function FirstId(pageNum: int): int {
    (pageNum - 1) * PageSize + 1
  }

  function FetchData(pageNum: int): (r: Response)
    ensures |r.data| == PageSize
    ensures r.hasMore <==> pageNum < LastPage
  {
    Response(seq(PageSize, i => Item(FirstId(pageNum) + i, Title(FirstId(pageNum) + i))),
             pageNum < LastPage)
  }

  /**
   The i-th item of page p has id (p-1)*PageSize + i + 1, its title is exactly
   `Item ${id}`, and that title reads back as the id.
   */
  lemma BatchContents(pageNum: int, i: int)
    requires 0 <= i < PageSize
    ensures FetchData(pageNum).data[i].id == (pageNum - 1) * PageSize + i + 1
    ensures FetchData(pageNum).data[i].title == Title(FetchData(pageNum).data[i].id)
    ensures ParseTitle(FetchData(pageNum).data[i].title) == Some(FetchData(pageNum).data[i].id)
  {
    var item := FetchData(pageNum).data[i];
    assert item == Item(FirstId(pageNum) + i, Title(FirstId(pageNum) + i));
    TitleRoundTrip(item.id);
  }

  /** Within a batch ids are consecutive; every id of an earlier page is below every id of a later one. */
  lemma BatchesOrdered(p: int, q: int)
    ensures forall i, j :: 0 <= i < j < PageSize ==>
              FetchData(p).data[j].id == FetchData(p).data[i].id + (j - i)
    ensures p < q ==> forall i, j :: 0 <= i < PageSize && 0 <= j < PageSize ==>
              FetchData(p).data[i].id < FetchData(q).data[j].id
  {
    forall i | 0 <= i < PageSize {
      BatchContents(p, i);
    }
    if p < q {
      forall i, j | 0 <= i < PageSize && 0 <= j < PageSize
        ensures FetchData(p).data[i].id < FetchData(q).data[j].id
      {
        BatchContents(p, i);
        BatchContents(q, j);
        assert (q - 1) * PageSize >= p * PageSize;
      }
    }
  }
}
