/** pledge-fe/src/utils/chunkArray.ts: cut a list into few chunks of bounded size. */
module ChunkArray {
  import opened Prelude

  /** Math.ceil(a / b). */
  function CeilDiv(a: nat, b: nat): nat
    requires b > 0
  {
    (a + b - 1) / b
  }

  /** items.slice(from, to), which clamps both ends to the length. */
  function Slice<T>(items: seq<T>, from: nat, to: nat): seq<T>
    requires from <= to
  {
    if |items| <= from then [] else if |items| <= to then items[from..] else items[from..to]
  }

  function NumChunks(length: nat, max: nat): nat
    requires max > 0
  {
    CeilDiv(length, max)
  }

  function ChunkSize(length: nat, max: nat): nat
    requires 0 < max < length
  {
    CeilDivBounds(length, max);
    CeilDiv(length, NumChunks(length, max))
  }

  /** The chunks of positions 0 to num - 1, each cut out by its own slice. */
  function Pieces<T>(items: seq<T>, num: nat, size: nat): seq<seq<T>> {
    seq(num, ix requires 0 <= ix < num => Slice(items, ix * size, ix * size + size))
  }

  function Chunks<T>(items: seq<T>, max: int): Result<seq<seq<T>>, string> {
    if max < 1 then Err("maxChunkSize must be gte 1")
    else if |items| <= max then Ok([items])
    else Ok(Pieces(items, NumChunks(|items|, max), ChunkSize(|items|, max)))
  }

  function Flatten<T>(chunks: seq<seq<T>>): seq<T> {
    if chunks == [] then [] else chunks[0] + Flatten(chunks[1..])
  }

  // ----- Ceilings -----

  lemma CeilDivBounds(a: nat, b: nat)
    requires b > 0
    ensures CeilDiv(a, b) * b >= a
    ensures a > 0 ==> CeilDiv(a, b) > 0 && (CeilDiv(a, b) - 1) * b < a
  {
    var q := CeilDiv(a, b);
    assert q * b + (a + b - 1) % b == a + b - 1;
  }

  lemma CeilDivLeast(a: nat, b: nat, q: nat)
    requires b > 0 && q * b >= a
    ensures CeilDiv(a, b) <= q
  {
    CeilDivBounds(a, b);
    if CeilDiv(a, b) > q {
      MulLe(q, CeilDiv(a, b) - 1, b);
    }
  }

  lemma MulLe(x: int, y: int, k: nat)
    requires x <= y
    ensures x * k <= y * k
  {
  }

  /** `num` slices of `size` reach past the end of the list, but `num - 1` do not. */
  predicate Fits(length: nat, num: nat, size: nat) {
    num >= 1 && (num - 1) * size < length <= num * size
  }

  /** The chunk size respects the maximum, and one chunk fewer would not hold everything. */
  lemma ChunkArithmetic(length: nat, max: nat)
    requires 0 < max < length
    ensures var num, size := NumChunks(length, max), ChunkSize(length, max);
      && num >= 2 && 0 < size <= max && Fits(length, num, size)
  {
    var num := NumChunks(length, max);
    CeilDivBounds(length, max);
    if num < 2 {
      MulLe(num, 1, max);
    }
    CeilDivBounds(length, num);
    CeilDivLeast(length, num, max);
    MulLe(ChunkSize(length, max), max, num - 1);
  }

  // ----- Exact cover -----

  lemma {:induction false} FlattenAppend<T>(chunks: seq<seq<T>>, last: seq<T>)
    ensures Flatten(chunks + [last]) == Flatten(chunks) + last
  {
    if chunks == [] {
      assert [last][1..] == [];
    } else {
      assert (chunks + [last])[1..] == chunks[1..] + [last];
      FlattenAppend(chunks[1..], last);
    }
  }

  lemma PieceAt<T>(items: seq<T>, num: nat, size: nat, ix: nat)
    requires Fits(|items|, num, size) && ix < num
    ensures 0 <= ix * size <= |items|
    ensures ix < num - 1 ==>
      ix * size + size <= |items| && Pieces(items, num, size)[ix] == items[ix * size..ix * size + size]
    ensures ix == num - 1 ==> Pieces(items, num, size)[ix] == items[ix * size..]
  {
    var piece := Pieces(items, num, size)[ix];
    assert piece == Slice(items, ix * size, ix * size + size);
    assert (ix + 1) * size == ix * size + size;
    MulLe(0, ix, size);
    if ix < num - 1 {
      MulLe(ix + 1, num - 1, size);
    }
  }

  lemma Distribute(k: int, size: int)
    ensures k * size == (k - 1) * size + size
  {
  }

  lemma JoinPrefix<T>(items: seq<T>, lo: nat, hi: nat)
    requires lo <= hi <= |items|
    ensures items[..lo] + items[lo..hi] == items[..hi]
  {
  }

  lemma {:induction false} FirstPiecesCover<T>(items: seq<T>, num: nat, size: nat, k: nat)
    requires Fits(|items|, num, size) && k < num
    ensures 0 <= k * size <= |items| && Flatten(Pieces(items, num, size)[..k]) == items[..k * size]
  {
    var pieces := Pieces(items, num, size);
    PieceAt(items, num, size, k);
    if k > 0 {
      FirstPiecesCover(items, num, size, k - 1);
      PieceAt(items, num, size, k - 1);
      var lo := (k - 1) * size;
      Distribute(k, size);
      assert pieces[..k] == pieces[..k - 1] + [pieces[k - 1]];
      FlattenAppend(pieces[..k - 1], pieces[k - 1]);
      JoinPrefix(items, lo, lo + size);
    }
  }

  lemma PiecesAreExact<T>(items: seq<T>, num: nat, size: nat)
    requires Fits(|items|, num, size)
    ensures var pieces := Pieces(items, num, size);
      && |pieces| == num
      && Flatten(pieces) == items
      && (forall ix :: 0 <= ix < num - 1 ==> |pieces[ix]| == size)
      && 0 < |pieces[num - 1]| == |items| - (num - 1) * size <= size
  {
    var pieces := Pieces(items, num, size);
    FirstPiecesCover(items, num, size, num - 1);
    PieceAt(items, num, size, num - 1);
    assert pieces == pieces[..num - 1] + [pieces[num - 1]];
    FlattenAppend(pieces[..num - 1], pieces[num - 1]);
    Distribute(num, size);
    forall ix | 0 <= ix < num - 1
      ensures |pieces[ix]| == size
    {
      PieceAt(items, num, size, ix);
    }
  }

  /** The chunks put together are the list; there are ceil(len / max) of them; all but the last have the
      common size, the last is not empty, and none exceeds the maximum. */
  lemma ChunkingIsExact<T>(items: seq<T>, max: nat)
    requires 0 < max < |items|
    ensures var num, size := NumChunks(|items|, max), ChunkSize(|items|, max); var r := Chunks(items, max);
      && num >= 2 && num == CeilDiv(|items|, max) && size == CeilDiv(|items|, num)
      && r.Ok? && |r.value| == num
      && Flatten(r.value) == items
      && (forall ix :: 0 <= ix < num - 1 ==> |r.value[ix]| == size)
      && 0 < |r.value[num - 1]| == |items| - (num - 1) * size <= size <= max
  {
    ChunkArithmetic(|items|, max);
    var num, size := NumChunks(|items|, max), ChunkSize(|items|, max);
    PiecesAreExact(items, num, size);
    assert Chunks(items, max) == Ok(Pieces(items, num, size));
  }

  /** Every list and every maximum: only a maximum below one is refused; otherwise the chunks put together are
      the list and none exceeds the maximum, and a list within the maximum is its own single chunk, the empty
      list included. */
  lemma EveryListIsChunked<T>(items: seq<T>, max: int)
    ensures var r := Chunks(items, max);
      && (r.Err? <==> max < 1)
      && (max < 1 ==> r.error == "maxChunkSize must be gte 1")
      && (max >= 1 ==> Flatten(r.value) == items && forall ix :: 0 <= ix < |r.value| ==> |r.value[ix]| <= max)
      && (max >= 1 && |items| <= max ==> r.value == [items])
      && (max >= 1 && items != [] ==> forall ix :: 0 <= ix < |r.value| ==> r.value[ix] != [])
  {
    if 1 <= max < |items| {
      ChunkingIsExact(items, max);
    } else if max >= 1 {
      assert [items][1..] == [];
      assert Flatten([items]) == items + Flatten([items][1..]);
    }
  }

  // ----- No chunking does better -----

  lemma {:induction false} FlattenLength<T>(chunks: seq<seq<T>>, bound: nat)
    requires forall ix :: 0 <= ix < |chunks| ==> |chunks[ix]| <= bound
    ensures |Flatten(chunks)| <= |chunks| * bound
  {
    if chunks != [] {
      FlattenLength(chunks[1..], bound);
      assert |chunks| * bound == |chunks[1..]| * bound + bound;
    }
  }

  /** Every way to cut a list that is not empty into chunks within the maximum takes at least as many. */
  lemma FewestChunks<T>(items: seq<T>, max: nat, other: seq<seq<T>>)
    requires 0 < max && items != []
    requires Flatten(other) == items
    requires forall ix :: 0 <= ix < |other| ==> |other[ix]| <= max
    ensures |Chunks(items, max).value| <= |other|
  {
    FlattenLength(other, max);
    if max < |items| {
      CeilDivLeast(|items|, max, |other|);
      ChunkingIsExact(items, max);
    }
  }

  /** Among the cuts into that many chunks, none has a smaller largest chunk. */
  lemma SmallestLargestChunk<T>(items: seq<T>, max: nat, other: seq<seq<T>>, bound: nat)
    requires 0 < max
    requires Flatten(other) == items && |other| == |Chunks(items, max).value|
    requires forall ix :: 0 <= ix < |other| ==> |other[ix]| <= bound
    ensures forall ix :: 0 <= ix < |other| ==> |Chunks(items, max).value[ix]| <= bound
  {
    FlattenLength(other, bound);
    if max < |items| {
      ChunkingIsExact(items, max);
      assert |other| * bound == bound * |other|;
      CeilDivLeast(|items|, |other|, bound);
    }
  }

  /** The sizes of the chunks differ by one at most. */
  ghost predicate Even<T>(chunks: seq<seq<T>>) {
    forall i, j :: 0 <= i < |chunks| && 0 <= j < |chunks| ==> |chunks[i]| <= |chunks[j]| + 1
  }

  /** The items are spread evenly exactly when they fit one chunk or at most one place of the last stays free. */
  lemma {:induction false} EvenIff<T>(items: seq<T>, max: nat)
    requires 0 < max
    ensures Even(Chunks(items, max).value) <==>
      |items| <= max || NumChunks(|items|, max) * ChunkSize(|items|, max) - |items| <= 1
  {
    if |items| > max {
      LongEvenIff(items, max);
    }
  }

  lemma LongEvenIff<T>(items: seq<T>, max: nat)
    requires 0 < max < |items|
    ensures Even(Chunks(items, max).value) <==>
      NumChunks(|items|, max) * ChunkSize(|items|, max) - |items| <= 1
  {
    var num, size := NumChunks(|items|, max), ChunkSize(|items|, max);
    var chunks := Chunks(items, max).value;
    ChunkingIsExact(items, max);
    assert num * size == (num - 1) * size + size;
    assert |chunks[0]| == size && |chunks[num - 1]| == |items| - (num - 1) * size;
  }

  /** Not every list meets it, although the comment in the source promises an even spread. */
  lemma TenByFourIsUneven()
    ensures var chunks := Chunks([0, 1, 2, 3, 4, 5, 6, 7, 8, 9], 4).value;
      |chunks| == 3 && |chunks[0]| == 4 && |chunks[1]| == 4 && |chunks[2]| == 2 && !Even(chunks)
  {
    var items := [0, 1, 2, 3, 4, 5, 6, 7, 8, 9];
    assert NumChunks(10, 4) == 3 && ChunkSize(10, 4) == 4;
    ChunkingIsExact(items, 4);
    EvenIff(items, 4);
  }
}
