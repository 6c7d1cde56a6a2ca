/** Slice-header construction: SetAt, ConvertAt, OfString and AsString.

    A slice variable reached through a `*[]T` is a SliceVar whose three header
    fields are stored one at a time; `trace` keeps the header as it stood
    after every store, which is what a concurrent reader could observe. */
module Unsafeslice {
  import opened GoRuntime
  import opened Detection

  /** A variable of slice type. */
  class SliceVar {
    var data: int
    var len: int
    var cap: int
    /** The header after each store made so far. */
    ghost var trace: seq<SliceHeader>

    function Header(): SliceHeader
      reads this
    {
      SliceHeader(data, len, cap)
    }

    /** A variable holding `h`. */
    constructor (h: SliceHeader)
      ensures Header() == h && trace == []
    {
      data, len, cap := h.data, h.len, h.cap;
      trace := [];
    }

    /** `hdr.Data = v`. */
    method StoreData(v: int)
      modifies this
      ensures Header() == old(Header()).(data := v)
      ensures trace == old(trace) + [Header()]
    {
      data := v;
      trace := trace + [Header()];
    }

    /** `hdr.Len = v`. */
    method StoreLen(v: int)
      modifies this
      ensures Header() == old(Header()).(len := v)
      ensures trace == old(trace) + [Header()]
    {
      len := v;
      trace := trace + [Header()];
    }

    /** `hdr.Cap = v`. */
    method StoreCap(v: int)
      modifies this
      ensures Header() == old(Header()).(cap := v)
      ensures trace == old(trace) + [Header()]
    {
      cap := v;
      trace := trace + [Header()];
    }
  }

  /** Header `h` stays inside the run of elements described by `region`
      (whose base is valid for `region.cap` elements), or spans nothing. */
  predicate Covered(h: SliceHeader, region: SliceHeader) {
    0 <= h.len <= h.cap && (h.cap == 0 || (h.data == region.data && h.cap <= region.cap))
  }

  /** A header that is safe to observe while `before` is being replaced by
      `after`: it lies within memory one of the two is valid for. */
  predicate SafeToObserve(h: SliceHeader, before: SliceHeader, after: SliceHeader) {
    Covered(h, before) || Covered(h, after)
  }

  /** The headers seen, one per store, when `before` is overwritten by zeroing
      the length, zeroing the capacity, storing the base, then the capacity,
      then the length. */
  function Stores(before: SliceHeader, after: SliceHeader): (hs: seq<SliceHeader>)
    ensures |hs| == 5 && hs[4] == after
  {
    [ before.(len := 0),
      before.(len := 0, cap := 0),
      SliceHeader(after.data, 0, 0),
      SliceHeader(after.data, 0, after.cap),
      after ]
  }

  /** The point of that order: when the old and new headers are valid, every
      intermediate header is safe to observe, and none of them has a nonzero
      length or capacity until the new base is in place. */
  lemma StoresAreSafe(before: SliceHeader, after: SliceHeader)
    requires 0 <= before.len <= before.cap && 0 <= after.len <= after.cap
    ensures forall i :: 0 <= i < 5 ==> SafeToObserve(Stores(before, after)[i], before, after)
    ensures forall i :: 1 <= i < 3 ==> Stores(before, after)[i].len == Stores(before, after)[i].cap == 0
  {
  }

  /** The headers seen when `before` is overwritten without zeroing, storing
      the base first, then the capacity, then the length. */
  function BaseFirstStores(before: SliceHeader, after: SliceHeader): (hs: seq<SliceHeader>)
    ensures |hs| == 3 && hs[2] == after
  {
    [ before.(data := after.data),
      SliceHeader(after.data, before.len, after.cap),
      after ]
  }

  /** What the zeroing prevents: storing the base first pairs the new base
      with the old capacity, which is unsafe to observe whenever the base
      moves and the new slice is shorter than the old one. The order of
      Stores is safe for the same headers. */
  lemma BaseFirstIsUnsafe(before: SliceHeader, after: SliceHeader)
    requires 0 <= before.len <= before.cap && 0 <= after.len <= after.cap
    requires after.data != before.data && after.cap < before.cap
    ensures !SafeToObserve(BaseFirstStores(before, after)[0], before, after)
    ensures forall i :: 0 <= i < 5 ==> SafeToObserve(Stores(before, after)[i], before, after)
  {
    StoresAreSafe(before, after);
  }

  /** Overwrite the slice at `dst` with `after` in the order of Stores. */
  method StoreHeader(dst: SliceVar, after: SliceHeader)
    modifies dst
    ensures dst.Header() == after
    ensures dst.trace == old(dst.trace) + Stores(old(dst.Header()), after)
  {
    dst.StoreLen(0);
    dst.StoreCap(0);
    dst.StoreData(after.data);
    dst.StoreCap(after.cap);
    dst.StoreLen(after.len);
  }

  /** SetAt: make the slice at `dst` the `n` elements at `p`, after checking
      that `dst` is a `*[]T`. The caller guarantees that `p` is aligned for T
      and that `n` elements are valid there. */
  method SetAt(dstType: GoType, dst: SliceVar, p: int, n: int) returns (r: Outcome)
    modifies dst
    ensures !IsPointerToSlice(dstType) ==>
              r == Fail(BadDstType) && dst.Header() == old(dst.Header()) && dst.trace == old(dst.trace)
    ensures IsPointerToSlice(dstType) ==>
              r == Pass && dst.Header() == SliceHeader(p, n, n)
              && dst.trace == old(dst.trace) + Stores(old(dst.Header()), SliceHeader(p, n, n))
    ensures IsPointerToSlice(dstType) && 0 <= n && 0 <= old(dst.len) <= old(dst.cap) ==>
              forall i :: |old(dst.trace)| <= i < |dst.trace| ==>
                SafeToObserve(dst.trace[i], old(dst.Header()), SliceHeader(p, n, n))
  {
    if !IsPointerToSlice(dstType) {
      return Fail(BadDstType);
    }
    ghost var before := dst.Header();
    StoreHeader(dst, SliceHeader(p, n, n));
    if 0 <= n && 0 <= before.len <= before.cap {
      StoresAreSafe(before, SliceHeader(p, n, n));
    }
    r := Pass;
  }

  /** A slice length and capacity, counted in elements. */
  datatype Counts = Counts(len: int, cap: int)

  /** The check for one extent: the element count of a destination spanning
      `bytes` bytes, failing when the bytes are not a whole number of
      destination elements or the count does not fit in an `int`. A zero
      element size is Go's integer division by zero. */
  function DstCount(bytes: int, dstElemSize: int, extent: Extent): (r: Result<int>)
    requires IsUintptr(bytes) && IsUintptr(dstElemSize)
    ensures dstElemSize == 0 ==> r == Failure(DivideByZero)
    ensures 0 < dstElemSize && bytes % dstElemSize != 0 ==>
              r == Failure(NotMultiple(extent, bytes, dstElemSize))
    ensures 0 < dstElemSize && bytes % dstElemSize == 0 && MaxInt < bytes / dstElemSize ==>
              r == Failure(Overflow(extent, bytes / dstElemSize))
    ensures r.Success? <==>
              0 < dstElemSize && bytes % dstElemSize == 0 && bytes / dstElemSize <= MaxInt
    ensures r.Success? ==> 0 <= r.value <= MaxInt && r.value * dstElemSize == bytes
  {
    if dstElemSize == 0 then Failure(DivideByZero)
    else if bytes % dstElemSize != 0 then Failure(NotMultiple(extent, bytes, dstElemSize))
    else
      var count := bytes / dstElemSize;
      OverflowsIntExactly(count);
      if OverflowsInt(count) then Failure(Overflow(extent, count))
      else Success(IntOfUintptr(count))
  }

  lemma MulMonotone(a: int, b: int, k: int)
    requires 0 <= a <= b && 0 <= k
    ensures a * k <= b * k
  {
  }

  lemma DivMonotone(a: int, b: int, d: int)
    requires 0 <= a <= b && 0 < d
    ensures a / d <= b / d
  {
    var qa, qb := a / d, b / d;
    assert d * qa <= a && b < d * qb + d;
    if qb < qa {
      MulMonotone(qb + 1, qa, d);
    }
  }

  /** The size checks shared by the conversions, given the byte extents of
      the source's length and capacity: the capacity's extent is checked
      first, then the length's. On success both counts cover exactly those
      bytes, and a length extent within the capacity extent gives a length
      within the capacity. */
  function ConvertCounts(lenBytes: int, capBytes: int, dstElemSize: int): (r: Result<Counts>)
    requires IsUintptr(lenBytes) && IsUintptr(capBytes) && IsUintptr(dstElemSize)
    ensures DstCount(capBytes, dstElemSize, Capacity).Failure? ==>
              r == Failure(DstCount(capBytes, dstElemSize, Capacity).error)
    ensures DstCount(capBytes, dstElemSize, Capacity).Success?
            && DstCount(lenBytes, dstElemSize, Length).Failure? ==>
              r == Failure(DstCount(lenBytes, dstElemSize, Length).error)
    ensures r.Success? <==>
              DstCount(capBytes, dstElemSize, Capacity).Success?
              && DstCount(lenBytes, dstElemSize, Length).Success?
    ensures r.Success? ==>
              && 0 <= r.value.len <= MaxInt && 0 <= r.value.cap <= MaxInt
              && r.value.len * dstElemSize == lenBytes
              && r.value.cap * dstElemSize == capBytes
    ensures r.Success? && lenBytes <= capBytes ==> r.value.len <= r.value.cap
  {
    var dstCap :- DstCount(capBytes, dstElemSize, Capacity);
    var dstLen :- DstCount(lenBytes, dstElemSize, Length);
    if lenBytes <= capBytes then
      DivMonotone(lenBytes, capBytes, dstElemSize);
      Success(Counts(dstLen, dstCap))
    else
      Success(Counts(dstLen, dstCap))
  }

  /** The element size of the slice `dst` points to. */
  function DstElemSize(dstType: GoType): int
    requires IsPointerToSlice(dstType)
  {
    dstType.elem.elemSize
  }

  /** Counts that pass the checks for a source at `data` spanning
      `lenBytes` and `capBytes` bytes describe a valid slice there. */
  lemma CountsAreValid(data: int, lenBytes: int, capBytes: int, dstElemSize: int, counts: Counts)
    requires IsUintptr(data) && IsUintptr(dstElemSize)
    requires 0 <= lenBytes <= capBytes <= MaxUintptr && (0 < capBytes ==> data != Nil)
    requires ConvertCounts(lenBytes, capBytes, dstElemSize) == Success(counts)
    ensures ValidSlice(SliceHeader(data, counts.len, counts.cap), dstElemSize)
  {
    if 0 < counts.cap {
      MulStrict(0, counts.cap, dstElemSize);
    }
  }

  /** The header a conversion produces for a source at `data` whose length
      and capacity span `lenBytes` and `capBytes` bytes, or the panic of the
      size checks: the same base, with counts covering exactly those bytes,
      forming a valid slice. */
  function Converted(data: int, lenBytes: int, capBytes: int, dstElemSize: int): (r: Result<SliceHeader>)
    requires IsUintptr(data) && IsUintptr(dstElemSize)
    requires 0 <= lenBytes <= capBytes <= MaxUintptr && (0 < capBytes ==> data != Nil)
    ensures var counts := ConvertCounts(lenBytes, capBytes, dstElemSize);
            (r.Success? <==> counts.Success?) && (r.Failure? ==> r.error == counts.error)
    ensures r.Success? ==>
              && r.value.data == data
              && r.value.len * dstElemSize == lenBytes
              && r.value.cap * dstElemSize == capBytes
              && ValidSlice(r.value, dstElemSize)
  {
    var counts :- ConvertCounts(lenBytes, capBytes, dstElemSize);
    CountsAreValid(data, lenBytes, capBytes, dstElemSize, counts);
    Success(SliceHeader(data, counts.len, counts.cap))
  }

  /** What ConvertAt installs at `dst` for the source slice `src`, or its
      panic: the source must be a slice and `dst` a `*[]T`, and then the
      result is the conversion of `src` between the two element sizes. */
  function ConvertAtPlan(dstType: GoType, srcType: GoType, src: SliceHeader): (r: Result<SliceHeader>)
    requires srcType.SliceOf? ==> ValidSlice(src, srcType.elemSize)
    requires IsPointerToSlice(dstType) ==> IsUintptr(DstElemSize(dstType))
    ensures !srcType.SliceOf? ==> r == Failure(BadSrcType)
    ensures srcType.SliceOf? && !IsPointerToSlice(dstType) ==> r == Failure(BadDstType)
    ensures srcType.SliceOf? && IsPointerToSlice(dstType) ==>
              r == Converted(src.data, src.len * srcType.elemSize, src.cap * srcType.elemSize,
                             DstElemSize(dstType))
  {
    if !srcType.SliceOf? then Failure(BadSrcType)
    else if !IsPointerToSlice(dstType) then Failure(BadDstType)
    else Converted(src.data, src.len * srcType.elemSize, src.cap * srcType.elemSize, DstElemSize(dstType))
  }

  /** ConvertAt: make the slice at `dst` view the memory of `src` at the
      destination's element type. This is the corrected form, pairing the
      destination's capacity with the source's capacity and its length with
      the source's length; the header stored is always a valid slice. */
  method ConvertAt(dstType: GoType, dst: SliceVar, srcType: GoType, src: SliceHeader) returns (r: Outcome)
    requires srcType.SliceOf? ==> ValidSlice(src, srcType.elemSize)
    requires IsPointerToSlice(dstType) ==> IsUintptr(DstElemSize(dstType))
    modifies dst
    ensures ConvertAtPlan(dstType, srcType, src).Failure? ==>
              r == Fail(ConvertAtPlan(dstType, srcType, src).error)
              && dst.Header() == old(dst.Header()) && dst.trace == old(dst.trace)
    ensures ConvertAtPlan(dstType, srcType, src).Success? ==>
              var after := ConvertAtPlan(dstType, srcType, src).value;
              r == Pass && dst.Header() == after
              && dst.trace == old(dst.trace) + Stores(old(dst.Header()), after)
              && (0 <= old(dst.len) <= old(dst.cap) ==>
                    forall i :: |old(dst.trace)| <= i < |dst.trace| ==>
                      SafeToObserve(dst.trace[i], old(dst.Header()), after))
  {
    var plan := ConvertAtPlan(dstType, srcType, src);
    if plan.Failure? {
      return Fail(plan.error);
    }
    ghost var before := dst.Header();
    StoreHeader(dst, plan.value);
    if 0 <= before.len <= before.cap {
      StoresAreSafe(before, plan.value);
    }
    r := Pass;
  }

  /** ConvertAt's plan as the source writes it: the capacity's byte extent
      is taken from the source's length and the length's from its capacity,
      so the destination's capacity follows the source's length and its
      length follows the source's capacity. */
  function ConvertAtPlanAsWritten(dstType: GoType, srcType: GoType, src: SliceHeader): (r: Result<SliceHeader>)
    requires srcType.SliceOf? ==> ValidSlice(src, srcType.elemSize)
    requires IsPointerToSlice(dstType) ==> IsUintptr(DstElemSize(dstType))
    ensures !srcType.SliceOf? ==> r == Failure(BadSrcType)
    ensures srcType.SliceOf? && !IsPointerToSlice(dstType) ==> r == Failure(BadDstType)
    ensures r.Success? ==>
              && srcType.SliceOf? && IsPointerToSlice(dstType)
              && r.value.data == src.data
              && r.value.cap * DstElemSize(dstType) == src.len * srcType.elemSize
              && r.value.len * DstElemSize(dstType) == src.cap * srcType.elemSize
  {
    if !srcType.SliceOf? then Failure(BadSrcType)
    else if !IsPointerToSlice(dstType) then Failure(BadDstType)
    else
      var s := srcType.elemSize;
      var counts :- ConvertCounts(src.cap * s, src.len * s, DstElemSize(dstType));
      Success(SliceHeader(src.data, counts.len, counts.cap))
  }

  /** ConvertAt exactly as the source writes it. */
  method ConvertAtAsWritten(dstType: GoType, dst: SliceVar, srcType: GoType, src: SliceHeader) returns (r: Outcome)
    requires srcType.SliceOf? ==> ValidSlice(src, srcType.elemSize)
    requires IsPointerToSlice(dstType) ==> IsUintptr(DstElemSize(dstType))
    modifies dst
    ensures ConvertAtPlanAsWritten(dstType, srcType, src).Failure? ==>
              r == Fail(ConvertAtPlanAsWritten(dstType, srcType, src).error)
              && dst.Header() == old(dst.Header()) && dst.trace == old(dst.trace)
    ensures ConvertAtPlanAsWritten(dstType, srcType, src).Success? ==>
              var after := ConvertAtPlanAsWritten(dstType, srcType, src).value;
              r == Pass && dst.Header() == after
              && dst.trace == old(dst.trace) + Stores(old(dst.Header()), after)
  {
    var plan := ConvertAtPlanAsWritten(dstType, srcType, src);
    if plan.Failure? {
      return Fail(plan.error);
    }
    StoreHeader(dst, plan.value);
    r := Pass;
  }

  /** The discrepancy: a `[]byte` with length 4 and capacity 8 converted to a
      `[]uint32` becomes, as written, a slice of length 2 and capacity 1, whose
      last store exposes a length beyond its capacity; the corrected form
      gives length 1 and capacity 2. */
  lemma ConvertAtSwapsLenAndCap()
    ensures ConvertAtPlanAsWritten(PointerTo(SliceOf(4)), SliceOf(1), SliceHeader(4096, 4, 8))
              == Success(SliceHeader(4096, 2, 1))
    ensures !SafeToObserve(SliceHeader(4096, 2, 1), SliceHeader(Nil, 0, 0), SliceHeader(4096, 2, 1))
    ensures ConvertAtPlan(PointerTo(SliceOf(4)), SliceOf(1), SliceHeader(4096, 4, 8))
              == Success(SliceHeader(4096, 1, 2))
  {
    assert DstCount(4, 4, Capacity) == Success(1);
    assert DstCount(8, 4, Length) == Success(2);
    assert DstCount(8, 4, Capacity) == Success(2);
    assert DstCount(4, 4, Length) == Success(1);
  }

  /** Whenever the source's length is below its capacity and both extents are
      whole destination elements, the as-written conversion yields a length
      greater than its capacity. */
  lemma ConvertAtAsWrittenInvertsShape(dstType: GoType, srcType: GoType, src: SliceHeader)
    requires srcType.SliceOf? && ValidSlice(src, srcType.elemSize) && 0 < srcType.elemSize
    requires IsPointerToSlice(dstType) && IsUintptr(DstElemSize(dstType))
    requires src.len < src.cap
    requires ConvertAtPlanAsWritten(dstType, srcType, src).Success?
    ensures ConvertAtPlanAsWritten(dstType, srcType, src).value.cap
              < ConvertAtPlanAsWritten(dstType, srcType, src).value.len
  {
    var h := ConvertAtPlanAsWritten(dstType, srcType, src).value;
    var d := DstElemSize(dstType);
    var s := srcType.elemSize;
    assert h.cap * d == src.len * s && h.len * d == src.cap * s;
    assert src.len * s < src.cap * s by {
      MulStrict(src.len, src.cap, s);
    }
    if h.len <= h.cap {
      MulMonotone(h.len, h.cap, d);
    }
  }

  /** When the source is full (length equal to capacity) the two extents are
      the same number of bytes, so the as-written conversion agrees with the
      corrected one, panics included. */
  lemma ConvertAtAgreesWhenFull(dstType: GoType, srcType: GoType, src: SliceHeader)
    requires srcType.SliceOf? ==> ValidSlice(src, srcType.elemSize)
    requires IsPointerToSlice(dstType) ==> IsUintptr(DstElemSize(dstType))
    requires src.len == src.cap
    ensures ConvertAtPlanAsWritten(dstType, srcType, src) == ConvertAtPlan(dstType, srcType, src)
  {
  }

  lemma MulStrict(a: int, b: int, k: int)
    requires 0 <= a < b && 0 < k
    ensures a * k < b * k
  {
  }

  /** The test cases "incompatible capacity" ([]byte("foobar")[:4:6]) and
      "incompatible length" ([]byte("foobar\x00\x00")[:6]) into a `*[]uint32`
      panic both as written and in the corrected form; as written they
      report the other extent. */
  lemma ConvertAtErrorCases()
    ensures ConvertAtPlanAsWritten(PointerTo(SliceOf(4)), SliceOf(1), SliceHeader(64, 4, 6))
              == Failure(NotMultiple(Length, 6, 4))
    ensures ConvertAtPlan(PointerTo(SliceOf(4)), SliceOf(1), SliceHeader(64, 4, 6))
              == Failure(NotMultiple(Capacity, 6, 4))
    ensures ConvertAtPlanAsWritten(PointerTo(SliceOf(4)), SliceOf(1), SliceHeader(64, 6, 8))
              == Failure(NotMultiple(Capacity, 6, 4))
    ensures ConvertAtPlan(PointerTo(SliceOf(4)), SliceOf(1), SliceHeader(64, 6, 8))
              == Failure(NotMultiple(Length, 6, 4))
  {
    assert DstCount(4, 4, Capacity) == Success(1);
    assert DstCount(8, 4, Capacity) == Success(2);
  }

  /** The byte slice OfString builds over a string's bytes. */
  function SliceOfString(s: StringHeader): SliceHeader {
    SliceHeader(s.data, s.len, s.len)
  }

  /** The string AsString builds over a byte slice's bytes. */
  function StringOfSlice(b: SliceHeader): StringHeader {
    StringHeader(b.data, b.len)
  }

  /** AsString(OfString(s)) is s itself: the same bytes at the same address. */
  lemma StringRoundTrip(s: StringHeader)
    ensures StringOfSlice(SliceOfString(s)) == s
  {
  }

  /** OfString(AsString(b)) views the same bytes as b, with the capacity cut
      back to the length. */
  lemma SliceRoundTrip(b: SliceHeader)
    requires ValidSlice(b, 1)
    ensures SliceOfString(StringOfSlice(b)) == b.(cap := b.len)
    ensures ValidSlice(SliceOfString(StringOfSlice(b)), 1)
  {
  }

  /** OfString: a `[]byte` over the bytes of `s`, with detection scheduled on it. */
  method OfString(m: Monitor, s: StringHeader) returns (b: SliceHeader, ghost c: MutationChecker?)
    requires m.Valid() && InBounds(m.mem.Length, s.data, s.len)
    modifies m`probes, m.gate
    ensures m.Valid() && m.Scheduled(b, c)
    ensures b == SliceOfString(s)
    ensures Bytes(m.mem, b.data, b.len) == Bytes(m.mem, s.data, s.len)
  {
    var p := s.data;
    b := SliceHeader(Nil, 0, 0);
    b := b.(data := p);
    b := b.(cap := s.len);
    b := b.(len := s.len);
    c := m.MaybeDetectMutations(b);
  }

  /** AsString: a string over the bytes of `b`, with detection scheduled on `b`. */
  method AsString(m: Monitor, b: SliceHeader) returns (s: StringHeader, ghost c: MutationChecker?)
    requires m.Valid() && InBounds(m.mem.Length, b.data, b.len)
    modifies m`probes, m.gate
    ensures m.Valid() && m.Scheduled(b, c)
    ensures s == StringOfSlice(b)
    ensures Bytes(m.mem, s.data, s.len) == Bytes(m.mem, b.data, b.len)
  {
    var p := b.data;
    s := StringHeader(Nil, 0);
    s := s.(data := p);
    s := s.(len := b.len);
    c := m.MaybeDetectMutations(b);
  }
}
