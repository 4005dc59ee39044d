/** The page bitmap of sqlite_objs_vfs.c: one bit per page plus a running count.
    The dirty bitmap and the valid bitmap are both instances. */
module PageBitmap {
  import opened Bytes

  /** `1 << bit`. */
  function Mask(bit: nat): bv8
    requires bit < 8
  {
    match bit
    case 0 => 0x01 case 1 => 0x02 case 2 => 0x04 case 3 => 0x08
    case 4 => 0x10 case 5 => 0x20 case 6 => 0x40 case _ => 0x80
  }

  predicate Bit(b: bv8, i: nat)
    requires i < 8
  {
    b & Mask(i) != 0
  }

  predicate BitSet(data: seq<bv8>, page: nat)
    requires page / 8 < |data|
  {
    Bit(data[page / 8], page % 8)
  }

  /** The pages whose bit is set: the bitmap's abstract value. */
  function Pages(data: seq<bv8>): set<nat> {
    set p: nat | p < 8 * |data| && BitSet(data, p)
  }

  /** Bytes needed for the pages of a file (bitmapSize). */
  function BytesFor(fileSize: nat, ps: nat): (n: nat)
    requires ps > 0
    ensures PageCount(fileSize, ps) <= 8 * n < PageCount(fileSize, ps) + 8
  {
    (PageCount(fileSize, ps) + 7) / 8
  }

  /** `|= mask` sets one bit, `&= ~mask` clears one bit, and neither touches another. */
  lemma MaskBits(b: bv8, i: nat, j: nat)
    requires i < 8 && j < 8
    ensures Bit(b | Mask(i), j) <==> i == j || Bit(b, j)
    ensures Bit(b & !Mask(i), j) <==> i != j && Bit(b, j)
    ensures !Bit(0, j)
  {}

  lemma BitAfterSet(data: seq<bv8>, page: nat, p: nat)
    requires page / 8 < |data| && p / 8 < |data|
    ensures BitSet(data[page / 8 := data[page / 8] | Mask(page % 8)], p) <==> p == page || BitSet(data, p)
  {
    MaskBits(data[page / 8], page % 8, p % 8);
  }

  lemma BitAfterClear(data: seq<bv8>, page: nat, p: nat)
    requires page / 8 < |data| && p / 8 < |data|
    ensures BitSet(data[page / 8 := data[page / 8] & !Mask(page % 8)], p) <==> p != page && BitSet(data, p)
  {
    MaskBits(data[page / 8], page % 8, p % 8);
  }

  lemma PagesAfterSet(data: seq<bv8>, data': seq<bv8>, page: nat)
    requires page / 8 < |data| == |data'|
    requires data' == data[page / 8 := data[page / 8] | Mask(page % 8)]
    ensures Pages(data') == Pages(data) + {page}
  {
    forall p: nat | p < 8 * |data| ensures p in Pages(data') <==> p in Pages(data) + {page} {
      BitAfterSet(data, page, p);
    }
  }

  lemma PagesAfterClear(data: seq<bv8>, data': seq<bv8>, page: nat)
    requires page / 8 < |data| == |data'|
    requires data' == data[page / 8 := data[page / 8] & !Mask(page % 8)]
    ensures Pages(data') == Pages(data) - {page}
  {
    forall p: nat | p < 8 * |data| ensures p in Pages(data') <==> p in Pages(data) - {page} {
      BitAfterClear(data, page, p);
    }
  }

  lemma PagesOfZeroTail(data: seq<bv8>, n: nat)
    ensures Pages(data + seq(n, _ => 0)) == Pages(data)
  {
    var data' := data + seq(n, _ => 0);
    forall p: nat | p < 8 * |data'|
      ensures BitSet(data', p) <==> p < 8 * |data| && BitSet(data, p)
    {
      MaskBits(0, 0, p % 8);
    }
  }

  /** A bit array and its page count, updated together. */
  lemma CountAfter(before: set<nat>, after: set<nat>, page: nat)
    ensures after == before + {page} && page !in before ==> |after| == |before| + 1
    ensures after == before - {page} && page in before ==> |after| == |before| - 1
  {}

  lemma SpanGrows(base: set<nat>, start: nat, i: nat)
    requires start <= i
    ensures base + Span(start, i) + {i} == base + Span(start, i + 1)
  {}

  lemma SpanGrowsTo(base: set<nat>, first: nat, page: nat, cap: nat)
    requires first <= page
    ensures page < cap ==> base + Span(first, Min(page, cap)) + {page} == base + Span(first, Min(page + 1, cap))
    ensures page >= cap ==> Span(first, Min(page, cap)) == Span(first, Min(page + 1, cap))
  {
    if page < cap { SpanGrows(base, first, page); }
  }

  lemma SpanCut(start: nat, i: nat, end: nat, room: nat)
    requires start <= i <= Max(start, end) && (i == start || i <= room) && (i < end ==> i >= room)
    ensures Span(start, Min(i, room)) == Span(start, Min(end, room))
  {
    assert forall p: nat :: Within(p, start, Min(i, room)) <==> Within(p, start, Min(end, room));
  }

  lemma RoomForBit(page: nat, n: nat)
    ensures page / 8 < n <==> page < 8 * n
  {}

  class Bitmap {
    var data: seq<bv8>
    var nSet: int

    constructor ()
      ensures data == [] && nSet == 0 && Valid()
    {
      data, nSet := [], 0;
    }

    /** The running count is exact. */
    ghost predicate Valid()
      reads this
    {
      nSet == |Pages(data)|
    }

    function Test(page: nat): (r: bool)
      reads this
      ensures r <==> page in Pages(data)
    {
      page / 8 < |data| && BitSet(data, page)
    }

    method SetBit(page: nat)
      requires Valid()
      modifies this
      ensures Valid() && |data| == |old(data)|
      ensures Pages(data) == if page < 8 * |data| then old(Pages(data)) + {page} else old(Pages(data))
    {
      if page / 8 >= |data| { return; }
      if !BitSet(data, page) {
        var updated := data[page / 8 := data[page / 8] | Mask(page % 8)];
        PagesAfterSet(data, updated, page);
        CountAfter(Pages(data), Pages(updated), page);
        data, nSet := updated, nSet + 1;
      }
    }

    method ClearBit(page: nat)
      requires Valid()
      modifies this
      ensures Valid() && |data| == |old(data)|
      ensures Pages(data) == old(Pages(data)) - {page}
    {
      if page / 8 >= |data| { return; }
      if BitSet(data, page) {
        var updated := data[page / 8 := data[page / 8] & !Mask(page % 8)];
        PagesAfterClear(data, updated, page);
        CountAfter(Pages(data), Pages(updated), page);
        data, nSet := updated, nSet - 1;
      }
    }

    method ClearAll()
      modifies this
      ensures Valid() && |data| == |old(data)| && Pages(data) == {}
    {
      data := seq(|data|, _ => 0);
      nSet := 0;
      forall p: nat | p < 8 * |data| ensures !BitSet(data, p) {
        MaskBits(0, 0, p % 8);
      }
    }

    /** One step of a marking loop that has marked [first, page) as far as there is room. */
    method SetOne(page: nat, ghost base: set<nat>, ghost first: nat)
      requires Valid() && first <= page && Pages(data) == base + Span(first, Min(page, 8 * |data|))
      modifies this
      ensures Valid() && |data| == |old(data)| && Pages(data) == base + Span(first, Min(page + 1, 8 * |data|))
    {
      SpanGrowsTo(base, first, page, 8 * |data|);
      SetBit(page);
    }

    /** Set the pages [start, end) that the bitmap has room for. */
    method SetRange(start: nat, end: nat)
      requires Valid()
      modifies this
      ensures Valid() && |data| == |old(data)|
      ensures Pages(data) == old(Pages(data)) + Span(start, Min(end, 8 * |data|))
    {
      var i := start;
      ghost var base := Pages(data);
      while i < end
        invariant start <= i <= Max(start, end) && (i == start || i <= 8 * |data|)
        invariant Valid() && |data| == |old(data)|
        invariant Pages(data) == base + Span(start, Min(i, 8 * |data|))
      {
        RoomForBit(i, |data|);
        if i / 8 >= |data| { break; }
        SetOne(i, base, start);
        i := i + 1;
      }
      SpanCut(start, i, end, 8 * |data|);
    }

    /** Grow to cover `fileSize`; existing bits keep their meaning, new bits are clear. */
    method EnsureCapacity(fileSize: nat, ps: nat)
      requires Valid() && ps > 0
      modifies this
      ensures Valid() && Pages(data) == old(Pages(data))
      ensures |data| == if BytesFor(fileSize, ps) <= |old(data)| then |old(data)| else BytesFor(fileSize, ps)
    {
      var needed := BytesFor(fileSize, ps);
      if needed <= |data| { return; }
      PagesOfZeroTail(data, needed - |data|);
      data := data + seq(needed - |data|, _ => 0);
    }
  }
}
