/** The pieces of the Go runtime the package relies on: the 64-bit widths of
    `int` and `uintptr`, the two's-complement conversions between them, the
    headers behind slice and string values, the `reflect` kinds the package
    inspects, and the panics it can raise. */
module GoRuntime {

  /** A byte of memory. */
  type byte = bv8

  const WordModulus: int := 0x1_0000_0000_0000_0000
  const MaxUintptr: int := 0xffff_ffff_ffff_ffff
  const MaxInt: int := 0x7fff_ffff_ffff_ffff
  const MinInt: int := -0x8000_0000_0000_0000

  /** The address of a nil pointer. */
  const Nil: int := 0

  predicate IsInt(x: int) { MinInt <= x <= MaxInt }

  predicate IsUintptr(x: int) { 0 <= x <= MaxUintptr }

  /** `int(u)`: the same 64 bits read as a two's-complement integer. */
  function IntOfUintptr(u: int): (i: int)
    requires IsUintptr(u)
    ensures IsInt(i) && (i - u) % WordModulus == 0
  {
    if u <= MaxInt then u else u - WordModulus
  }

  /** `uintptr(i)`: the two's-complement bits of `i` read as an unsigned word. */
  function UintptrOfInt(i: int): (u: int)
    requires IsInt(i)
    ensures IsUintptr(u) && (u - i) % WordModulus == 0
  {
    if 0 <= i then i else i + WordModulus
  }

  /** `n++` on an `int`, which wraps from MaxInt to MinInt. */
  function IncInt(n: int): (r: int)
    requires IsInt(n)
    ensures IsInt(r) && (r - (n + 1)) % WordModulus == 0
    ensures 0 <= n ==> (r < 0 <==> n == MaxInt)
    ensures 0 <= r ==> r == n + 1
  {
    if n == MaxInt then MinInt else n + 1
  }

  /** The guard `int(q) < 0 || uintptr(int(q)) != q` that the conversions use
      to reject a count that does not fit in an `int`. */
  predicate OverflowsInt(q: int)
    requires IsUintptr(q)
  {
    IntOfUintptr(q) < 0 || UintptrOfInt(IntOfUintptr(q)) != q
  }

  /** The guard rejects exactly the words above MaxInt: its second half never fires. */
  lemma OverflowsIntExactly(q: int)
    requires IsUintptr(q)
    ensures OverflowsInt(q) <==> MaxInt < q
    ensures UintptrOfInt(IntOfUintptr(q)) == q
  {
  }

  /** `reflect.SliceHeader`. */
  datatype SliceHeader = SliceHeader(data: int, len: int, cap: int)

  /** `reflect.StringHeader`. */
  datatype StringHeader = StringHeader(data: int, len: int)

  /** What every Go slice value with elements of `elemSize` bytes satisfies:
      its length is at most its capacity, its capacity fits in an `int`, the
      bytes its length and its capacity span fit in the address space, and
      only an empty-capacity slice may have a nil base. */
  predicate ValidSlice(h: SliceHeader, elemSize: int) {
    && IsUintptr(h.data) && IsUintptr(elemSize)
    && 0 <= h.len <= h.cap <= MaxInt
    && 0 <= h.len * elemSize <= h.cap * elemSize <= MaxUintptr
    && (0 < h.cap ==> h.data != Nil)
  }

  /** The run of `len` bytes at address `data` lies inside `mem`. */
  predicate InBounds(memLength: int, data: int, len: int) {
    0 <= data && 0 <= len && data + len <= memLength
  }

  /** The `reflect` kinds the package distinguishes: `[]T` with the size of
      `T` in bytes, `*T`, and anything else. */
  datatype GoType = SliceOf(elemSize: int) | PointerTo(elem: GoType) | OtherType

  predicate IsPointerToSlice(t: GoType) {
    t.PointerTo? && t.elem.SliceOf?
  }

  /** Which of a slice's two counts an error is about. */
  datatype Extent = Capacity | Length

  /** The panics of the package, and the runtime panics it can trigger. */
  datatype Error =
    | BadSrcType                      // "... with src type %T; need []T"
    | BadDstType                      // "... with dst type %T; need *[]T"
    | NotMultiple(extent: Extent, bytes: int, dstElemSize: int)
    | Overflow(extent: Extent, count: int)
    | DivideByZero                    // runtime: integer divide by zero
    | LengthOverflow                  // StrLen: "length overflow"
    | LenOutOfRange                   // unsafe.Slice: negative length
    | NilBase                         // unsafe.Slice: nil pointer with nonzero length
    | SliceBoundsOutOfRange           // runtime: s[:hi] with hi > cap(s)
    | MutationDetected(addr: int)     // "mutation detected in string at address ..."
    | CloseOfClosedChannel            // runtime: close of closed channel

  /** A value, or the panic that prevented it. */
  datatype Result<+T> = Success(value: T) | Failure(error: Error) {
    predicate IsFailure() { Failure? }

    function PropagateFailure<U>(): Result<U>
      requires Failure?
    {
      Failure(error)
    }

    function Extract(): T
      requires Success?
    {
      value
    }
  }

  /** The completion of an operation that returns nothing, or its panic. */
  datatype Outcome = Pass | Fail(error: Error)
}
