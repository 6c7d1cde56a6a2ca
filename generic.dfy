/** The generic operations: StrLen, OfCString and ConvertTo.

    Memory of elements of type T is an array indexed by address; a pointer
    advanced by `unsafe.Sizeof(*p)` bytes is the next index. */
module Generic {
  import opened GoRuntime
  import opened Unsafeslice

  /** StrLen: scan from `p` to the first element equal to `zero`, counting the
      elements before it in an `int`, and panic if the count wraps. The
      caller guarantees that `p` is not nil and that the elements from `p`
      up to a terminator are readable. */
  method StrLen<T(==)>(mem: array<T>, p: int, zero: T) returns (r: Result<int>)
    requires Nil < p && exists k :: p <= k < mem.Length && mem[k] == zero
    ensures r.Success? ==>
              && 0 <= r.value <= MaxInt
              && p + r.value < mem.Length && mem[p + r.value] == zero
              && forall i :: p <= i < p + r.value ==> mem[i] != zero
    ensures r.Failure? ==>
              && r.error == LengthOverflow
              && forall i :: p <= i <= p + MaxInt ==> i < mem.Length && mem[i] != zero
    ensures (exists k :: p <= k <= p + MaxInt && k < mem.Length && mem[k] == zero) ==> r.Success?
    ensures mem[p] == zero ==> r == Success(0)
  {
    ghost var k :| p <= k < mem.Length && mem[k] == zero;
    var n := 0;
    var q := p;
    while mem[q] != zero
      invariant 0 <= n <= MaxInt && q == p + n <= k
      invariant forall i :: p <= i < q ==> mem[i] != zero
      decreases k - q
    {
      n := IncInt(n);
      if n < 0 {
        return Failure(LengthOverflow);
      }
      q := q + 1;
    }
    r := Success(n);
  }

  /** `unsafe.Slice(ptr, n)`: the `n` elements at `ptr`. */
  function UnsafeSlice(ptr: int, n: int): (r: Result<SliceHeader>)
    ensures r.Success? <==> 0 <= n && (ptr == Nil ==> n == 0)
    ensures r.Success? ==> r.value.data == ptr && r.value.len == n && r.value.cap == n
  {
    if n < 0 then Failure(LenOutOfRange)
    else if ptr == Nil && n != 0 then Failure(NilBase)
    else Success(SliceHeader(ptr, n, n))
  }

  /** `s[:hi]`: the first `hi` elements of `s`, which needs `hi <= cap(s)`. */
  function Reslice(s: SliceHeader, hi: int): (r: Result<SliceHeader>)
    ensures r.Success? <==> 0 <= hi <= s.cap
    ensures r.Success? ==> r.value.data == s.data && r.value.len == hi && r.value.cap == s.cap
  {
    if 0 <= hi <= s.cap then Success(s.(len := hi)) else Failure(SliceBoundsOutOfRange)
  }

  /** OfCString: the bytes of the zero-terminated string at `p`, without the
      terminator, as a slice whose length and capacity are both StrLen(p). */
  method OfCString(mem: array<byte>, p: int) returns (r: Result<SliceHeader>)
    requires Nil < p && exists k :: p <= k < mem.Length && mem[k] == 0
    ensures r.Success? ==>
              && r.value.data == p && 0 <= r.value.len == r.value.cap
              && p + r.value.len < mem.Length && mem[p + r.value.len] == 0
              && forall i :: p <= i < p + r.value.len ==> mem[i] != 0
    ensures r.Failure? ==> r.error == LengthOverflow
    ensures (exists k :: p <= k <= p + MaxInt && k < mem.Length && mem[k] == 0) ==> r.Success?
  {
    var n := StrLen(mem, p, 0);
    if n.Failure? {
      return Failure(n.error);
    }
    r := UnsafeSlice(p, n.value);
  }

  /** ConvertTo: `src` viewed as a slice of destination elements. Once the
      size checks pass, neither `unsafe.Slice` nor the re-slice to the
      destination length can panic, so the generic conversion panics exactly
      when the corrected ConvertAt does, with the same panic, and otherwise
      returns the header ConvertAt would install. */
  function ConvertTo(src: SliceHeader, srcElemSize: int, dstElemSize: int): (r: Result<SliceHeader>)
    requires ValidSlice(src, srcElemSize) && IsUintptr(dstElemSize)
    ensures r == ConvertAtPlan(PointerTo(SliceOf(dstElemSize)), SliceOf(srcElemSize), src)
  {
    var counts := ConvertCounts(src.len * srcElemSize, src.cap * srcElemSize, dstElemSize);
    if counts.Failure? then Failure(counts.error)
    else
      assert 0 < counts.value.cap ==> 0 < src.cap;
      var full := UnsafeSlice(src.data, counts.value.cap);
      Reslice(full.value, counts.value.len)
  }
}
