/** Splitting routing information into ACK-gated datagrams: chunkAURPNetworkTuples
    and chunkAURPEventTuples of router/aurp_routing.go. */
module Chunking {
  import opened Routes

  /** aurpRoutingDatagramBudget. */
  const DATAGRAM_BUDGET := 1400

  function Total<T>(items: seq<T>, size: T -> nat): nat {
    if items == [] then 0 else Total(items[..|items| - 1], size) + size(items[|items| - 1])
  }

  function Flatten<T>(chunks: seq<seq<T>>): seq<T> {
    if chunks == [] then [] else Flatten(chunks[..|chunks| - 1]) + chunks[|chunks| - 1]
  }

  ghost predicate Fits<T(!new)>(chunk: seq<T>, size: T -> nat, budget: nat) {
    chunk != [] && Total(chunk, size) <= budget
  }

  ghost predicate NoRoomFor<T(!new)>(chunk: seq<T>, next: seq<T>, size: T -> nat, budget: nat) {
    next != [] && Total(chunk, size) + size(next[0]) > budget
  }

  /** The chunks are what a sender may put in one datagram each: none is empty,
      each fits, and none could have taken the first item of the next. */
  ghost predicate Packed<T(!new)>(chunks: seq<seq<T>>, size: T -> nat, budget: nat) {
    && (forall i :: 0 <= i < |chunks| ==> Fits(chunks[i], size, budget))
    && forall i :: 0 <= i < |chunks| - 1 ==> NoRoomFor(chunks[i], chunks[i + 1], size, budget)
  }

  lemma TotalPush<T>(items: seq<T>, item: T, size: T -> nat)
    ensures Total(items + [item], size) == Total(items, size) + size(item)
  {
    assert (items + [item])[..|items|] == items;
  }

  lemma FlattenPush<T>(chunks: seq<seq<T>>, chunk: seq<T>)
    ensures Flatten(chunks + [chunk]) == Flatten(chunks) + chunk
  {
    assert (chunks + [chunk])[..|chunks|] == chunks;
  }

  lemma FlattenGrow<T>(front: seq<seq<T>>, last: seq<T>, item: T)
    ensures Flatten(front + [last + [item]]) == Flatten(front + [last]) + [item]
  {
    FlattenPush(front, last);
    FlattenPush(front, last + [item]);
    assert Flatten(front) + (last + [item]) == Flatten(front) + last + [item];
  }

  lemma {:induction false} FlattenFront<T>(chunk: seq<T>, chunks: seq<seq<T>>)
    ensures Flatten([chunk] + chunks) == chunk + Flatten(chunks)
  {
    if chunks == [] {
      FlattenPush([], chunk);
      assert [] + [chunk] == [chunk] + chunks;
    } else {
      var init, last := chunks[..|chunks| - 1], chunks[|chunks| - 1];
      FlattenFront(chunk, init);
      FlattenPush([chunk] + init, last);
      assert ([chunk] + init) + [last] == [chunk] + chunks;
    }
  }

  /** The greedy split of the items seen so far. */
  function Chunks<T>(items: seq<T>, size: T -> nat, budget: nat): (chunks: seq<seq<T>>)
    ensures items != [] ==> chunks != []
  {
    if items == [] then []
    else
      var chunks, item := Chunks(items[..|items| - 1], size, budget), items[|items| - 1];
      if chunks != [] && Total(chunks[|chunks| - 1], size) + size(item) <= budget
      then chunks[..|chunks| - 1] + [chunks[|chunks| - 1] + [item]]
      else chunks + [[item]]
  }

  lemma PackedGrow<T(!new)>(front: seq<seq<T>>, last: seq<T>, item: T, size: T -> nat, budget: nat)
    requires Packed(front + [last], size, budget) && Total(last, size) + size(item) <= budget
    ensures Packed(front + [last + [item]], size, budget)
  {
    var chunks, chunks' := front + [last], front + [last + [item]];
    TotalPush(last, item, size);
    assert Fits(last + [item], size, budget);
    forall i | 0 <= i < |chunks'| ensures Fits(chunks'[i], size, budget) {
      if i < |front| { assert chunks'[i] == chunks[i]; }
    }
    forall i | 0 <= i < |chunks'| - 1 ensures NoRoomFor(chunks'[i], chunks'[i + 1], size, budget) {
      assert NoRoomFor(chunks[i], chunks[i + 1], size, budget) && chunks'[i] == chunks[i];
      if i + 1 < |front| {
        assert chunks'[i + 1] == chunks[i + 1];
      } else {
        assert chunks[i + 1] == last && chunks'[i + 1] == last + [item];
      }
    }
  }

  lemma PackedNew<T(!new)>(chunks: seq<seq<T>>, item: T, size: T -> nat, budget: nat)
    requires Packed(chunks, size, budget) && size(item) <= budget
    requires chunks != [] ==> Total(chunks[|chunks| - 1], size) + size(item) > budget
    ensures Packed(chunks + [[item]], size, budget)
  {
    TotalPush([], item, size);
    assert [] + [item] == [item];
  }

  /** Nothing is lost, reordered or sent in a datagram of its own needlessly. */
  lemma {:induction false} ChunksPacked<T(!new)>(items: seq<T>, size: T -> nat, budget: nat)
    requires forall i :: 0 <= i < |items| ==> size(items[i]) <= budget
    ensures Packed(Chunks(items, size, budget), size, budget)
  {
    if items != [] {
      var init, item := items[..|items| - 1], items[|items| - 1];
      ChunksPacked(init, size, budget);
      var chunks := Chunks(init, size, budget);
      if chunks != [] && Total(chunks[|chunks| - 1], size) + size(item) <= budget {
        assert chunks == chunks[..|chunks| - 1] + [chunks[|chunks| - 1]];
        PackedGrow(chunks[..|chunks| - 1], chunks[|chunks| - 1], item, size, budget);
      } else {
        PackedNew(chunks, item, size, budget);
      }
    }
  }

  lemma {:induction false} ChunksFlatten<T>(items: seq<T>, size: T -> nat, budget: nat)
    ensures Flatten(Chunks(items, size, budget)) == items
  {
    if items != [] {
      var init, item := items[..|items| - 1], items[|items| - 1];
      assert items == init + [item];
      ChunksFlatten(init, size, budget);
      var chunks := Chunks(init, size, budget);
      if chunks != [] && Total(chunks[|chunks| - 1], size) + size(item) <= budget {
        var front, last := chunks[..|chunks| - 1], chunks[|chunks| - 1];
        assert chunks == front + [last];
        FlattenGrow(front, last, item);
      } else {
        FlattenPush(chunks, [item]);
      }
    }
  }

  /** The loop of both chunkers; None when the budget is no budget or an item
      alone exceeds it. */
  method Chunk<T(!new)>(items: seq<T>, size: T -> nat, budget: nat) returns (r: Option<seq<seq<T>>>)
    ensures r.Some? <==> budget > 0 && forall i :: 0 <= i < |items| ==> size(items[i]) <= budget
    ensures r.Some? ==> r.value == Chunks(items, size, budget)
  {
    if budget == 0 {
      return None;
    }
    var chunks: seq<seq<T>> := [];
    var chunk: seq<T> := [];
    var used := 0;
    for i := 0 to |items|
      invariant forall j :: 0 <= j < i ==> size(items[j]) <= budget
      invariant used == Total(chunk, size)
      invariant chunk == [] ==> chunks == []
      invariant Chunks(items[..i], size, budget) == chunks + if chunk == [] then [] else [chunk]
    {
      var n := size(items[i]);
      if n > budget {
        return None;
      }
      assert items[..i + 1][..i] == items[..i];
      TotalPush(chunk, items[i], size);
      if |chunk| > 0 && used + n > budget {
        TotalPush([], items[i], size);
        assert [] + [items[i]] == [items[i]];
        chunks, chunk, used := chunks + [chunk], [items[i]], n;
      } else {
        chunk, used := chunk + [items[i]], used + n;
      }
    }
    assert items[..|items|] == items;
    return Some(if |chunk| > 0 then chunks + [chunk] else chunks);
  }
}
