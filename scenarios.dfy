/** The package's examples and tests, replayed on the model.

    Each scenario builds its own memory, with address 0 left as the nil
    address and an object's bytes placed from address 1 onward, and states
    the outcome the example prints or the test expects. */
module Scenarios {
  import opened GoRuntime
  import opened Eventually
  import opened Detection
  import opened Unsafeslice
  import opened Generic
  import Fnv

  /** "Hello, world!" */
  const HelloWorld: seq<byte> := [72, 101, 108, 108, 111, 44, 32, 119, 111, 114, 108, 100, 33]
  /** "Adios" */
  const Adios: seq<byte> := [65, 100, 105, 111, 115]
  /** "Adios, world!" */
  const AdiosWorld: seq<byte> := [65, 100, 105, 111, 115, 44, 32, 119, 111, 114, 108, 100, 33]
  /** "Kaboom" */
  const Kaboom: seq<byte> := [75, 97, 98, 111, 111, 109]
  /** "Kaboom world!", what "Hello, world!" reads after copying "Kaboom" over it. */
  const KaboomWorld: seq<byte> := [75, 97, 98, 111, 111, 109, 32, 119, 111, 114, 108, 100, 33]

  /** A fresh memory holding `contents` from address 1 on. */
  method NewMemory(contents: seq<byte>) returns (mem: array<byte>)
    ensures fresh(mem) && mem.Length == |contents| + 1
    ensures mem[0] == 0 && mem[1..] == contents
  {
    mem := new byte[|contents| + 1](i requires 0 <= i < |contents| + 1 => if i == 0 then 0 else contents[i - 1]);
  }

  function Min(a: int, b: int): int {
    if a <= b then a else b
  }

  /** The builtin `copy(dst, src)` into a byte slice: the first
      min(len(dst), len(src)) bytes of `dst` take the bytes of `src`, and
      nothing else changes. */
  method Copy(mem: array<byte>, dst: SliceHeader, src: seq<byte>) returns (n: int)
    requires InBounds(mem.Length, dst.data, dst.len)
    modifies mem
    ensures n == Min(dst.len, |src|)
    ensures forall i :: 0 <= i < mem.Length ==>
              mem[i] == if dst.data <= i < dst.data + n then src[i - dst.data] else old(mem[i])
  {
    n := Min(dst.len, |src|);
    var k := 0;
    while k < n
      invariant 0 <= k <= n
      invariant forall i :: 0 <= i < mem.Length ==>
                  mem[i] == if dst.data <= i < dst.data + k then src[i - dst.data] else old(mem[i])
    {
      mem[dst.data + k] := src[k];
      k := k + 1;
    }
  }

  /** ExampleSetAt: a slice set up over the bytes of another aliases them, so
      copying "Adios" through the alias changes what both read. */
  method ExampleSetAt() returns (original: seq<byte>, alias: seq<byte>)
    ensures original == AdiosWorld && alias == AdiosWorld
  {
    var mem := NewMemory(HelloWorld);
    var aliasVar := new SliceVar(SliceHeader(Nil, 0, 0));
    var r := SetAt(PointerTo(SliceOf(1)), aliasVar, 1, |HelloWorld|);
    assert aliasVar.Header() == SliceHeader(1, 13, 13);
    var n := Copy(mem, aliasVar.Header(), Adios);
    original := Bytes(mem, 1, |HelloWorld|);
    alias := Bytes(mem, aliasVar.data, aliasVar.len);
    assert original == AdiosWorld;
  }

  /** ExampleConvertAt: four words viewed as bytes give a byte slice of
      sixteen, both in the corrected form and as written, since the source
      slice is full. */
  method ExampleConvertAt() returns (alias: SliceHeader, aliasAsWritten: SliceHeader)
    ensures alias == SliceHeader(4, 16, 16) && aliasAsWritten == alias
  {
    var buf := SliceHeader(4, 4, 4);
    var dst := new SliceVar(SliceHeader(Nil, 0, 0));
    var r := ConvertAt(PointerTo(SliceOf(1)), dst, SliceOf(4), buf);
    assert DstCount(16, 1, Capacity) == Success(16);
    alias := dst.Header();
    var dst2 := new SliceVar(SliceHeader(Nil, 0, 0));
    r := ConvertAtAsWritten(PointerTo(SliceOf(1)), dst2, SliceOf(4), buf);
    ConvertAtAgreesWhenFull(PointerTo(SliceOf(1)), SliceOf(4), buf);
    aliasAsWritten := dst2.Header();
  }

  /** ExampleOfString: hashing the slice OfString returns hashes the string's
      own bytes, whatever hash the detection uses. */
  method ExampleOfString(sum: seq<byte> -> bv64) returns (digest: bv64)
    ensures digest == 0x38d1_3341_4498_7bf4
  {
    var mem := NewMemory(HelloWorld);
    var m := new Monitor(false, false, mem, sum);
    var b, c := OfString(m, StringHeader(1, |HelloWorld|));
    var viewed := Bytes(mem, b.data, b.len);
    assert viewed == HelloWorld;
    digest := Fnv.Sum64a(viewed);
    Fnv.HelloWorldDigest();
  }

  /** ExampleOfCString: the C string "Hello, world!\x00" becomes a slice of
      its thirteen bytes, without the terminator. */
  method ExampleOfCString() returns (b: Result<SliceHeader>, text: seq<byte>)
    ensures b == Success(SliceHeader(1, 13, 13)) && text == HelloWorld
  {
    var mem := NewMemory(HelloWorld + [0]);
    assert 1 <= 14 <= 1 + MaxInt && 14 < mem.Length && mem[14] == 0;
    b := OfCString(mem, 1);
    assert forall i :: 1 <= i < 14 ==> mem[i] != 0;
    text := Bytes(mem, b.value.data, b.value.len);
  }

  /** The start of TestStringMutations: "Hello, world!" in fresh memory,
      finalizer registration blocked, and the bytes handed to AsString (or a
      string over them handed to OfString), whose recheck then waits on the
      gate. */
  method WatchWhileBlocked(sum: seq<byte> -> bv64, raceEnabled: bool, unsafeBuild: bool, viaOfString: bool)
    returns (m: Monitor, unblock: nat, ghost checker: MutationChecker)
    requires !unsafeBuild || raceEnabled
    ensures fresh(m) && fresh(m.gate) && fresh(m.mem) && m.Valid() && m.sum == sum
    ensures m.mem.Length == 14 && Bytes(m.mem, 1, 13) == HelloWorld
    ensures unblock < m.gate.nextChan && unblock !in m.gate.closed
    ensures m.gate.parked == [Parked(checker, unblock)] && m.gate.registered == []
    ensures checker.mem == m.mem && checker.b == SliceHeader(1, 13, 13)
    ensures checker.checksum == sum(HelloWorld)
  {
    var mem := NewMemory(HelloWorld);
    assert Bytes(mem, 1, 13) == HelloWorld;
    m := new Monitor(raceEnabled, unsafeBuild, mem, sum);
    unblock := m.gate.Block();
    var b := SliceHeader(1, |HelloWorld|, |HelloWorld|);
    ghost var c: MutationChecker?;
    if viaOfString {
      b, c := OfString(m, StringHeader(1, |HelloWorld|));
    } else {
      var s;
      s, c := AsString(m, b);
    }
    checker := c;
  }

  /** `copy(b, "Kaboom")` over the "Hello, world!" a checker watches. */
  method CopyKaboom(mem: array<byte>, ghost c: MutationChecker)
    requires c.mem == mem && c.b == SliceHeader(1, 13, 13)
    requires mem.Length == 14 && Bytes(mem, 1, 13) == HelloWorld
    modifies mem
    ensures c.Valid() && c.Contents() == KaboomWorld
  {
    var n := Copy(mem, SliceHeader(1, 13, 13), Kaboom);
    assert c.Contents() == KaboomWorld;
  }

  /** `unblock()`, after which the collector runs the one registered
      finalizer: the recheck of `checker`. */
  method UnblockThenFinalize(m: Monitor, unblock: nat, ghost checker: MutationChecker) returns (r: Outcome)
    requires m.Valid() && unblock < m.gate.nextChan && unblock !in m.gate.closed
    requires m.gate.parked == [Parked(checker, unblock)] && m.gate.registered == []
    modifies m.gate
    ensures checker.Valid()
    ensures r.Pass? <==> m.sum(checker.Contents()) == checker.checksum
    ensures r.Fail? ==> r.error == MutationDetected(checker.b.data)
  {
    var u := m.gate.Unblock(unblock);
    ReleaseOne([], checker, unblock);
    r := m.RunFinalizer(0);
  }

  /** TestStringMutations: once "Kaboom" has been copied over the watched
      bytes and registration is unblocked, the deferred recheck reports the
      mutation at the bytes' address, for any hash that tells the two
      contents apart, in any build that runs detection (no `unsafe` tag, or
      the race detector). */
  method StringMutationIsDetected(sum: seq<byte> -> bv64, raceEnabled: bool, unsafeBuild: bool, viaOfString: bool)
    returns (r: Outcome)
    requires !unsafeBuild || raceEnabled
    requires sum(KaboomWorld) != sum(HelloWorld)
    ensures r == Fail(MutationDetected(1))
  {
    var m, unblock, checker := WatchWhileBlocked(sum, raceEnabled, unsafeBuild, viaOfString);
    CopyKaboom(m.mem, checker);
    r := UnblockThenFinalize(m, unblock, checker);
  }

  /** TestStringMutations in a build whose hash is 64-bit FNV-1a: the
      mutation is reported, with no assumption about the hash. */
  method FnvBuildDetectsMutation(raceEnabled: bool, unsafeBuild: bool, viaOfString: bool) returns (r: Outcome)
    requires !unsafeBuild || raceEnabled
    ensures r == Fail(MutationDetected(1))
  {
    Fnv.MutationChangesDigest();
    r := StringMutationIsDetected(Fnv.Sum64a, raceEnabled, unsafeBuild, viaOfString);
  }

  /** Without the Block, the recheck can be registered and run before the
      mutation happens, and then passes: why the test holds registration back. */
  method EarlyRecheckMissesMutation(sum: seq<byte> -> bv64) returns (r: Outcome)
    ensures r == Pass
  {
    var mem := NewMemory(HelloWorld);
    var m := new Monitor(false, false, mem, sum);
    var s, c := AsString(m, SliceHeader(1, |HelloWorld|, |HelloWorld|));
    assert m.gate.registered == [c];
    r := m.RunFinalizer(0);
    var n := Copy(mem, SliceHeader(1, |HelloWorld|, |HelloWorld|), Kaboom);
  }

  /** ReduceSafety turns detection off, except under the race detector;
      calling it twice is the same as calling it once. */
  method ReducedSafetySkipsDetection(sum: seq<byte> -> bv64, raceEnabled: bool) returns (scheduled: bool)
    ensures scheduled == raceEnabled
  {
    var mem := NewMemory(HelloWorld);
    var m := new Monitor(raceEnabled, false, mem, sum);
    m.ReduceSafety();
    m.ReduceSafety();
    var s, c := AsString(m, SliceHeader(1, |HelloWorld|, |HelloWorld|));
    scheduled := |m.gate.registered| == 1;
  }

  /** An empty string is never watched. */
  method EmptyStringIsNotWatched(sum: seq<byte> -> bv64) returns (scheduled: bool)
    ensures !scheduled
  {
    var mem := NewMemory(HelloWorld);
    var m := new Monitor(true, false, mem, sum);
    var b, c := OfString(m, StringHeader(1, 0));
    scheduled := |m.gate.registered| + |m.gate.parked| + |m.probes| != 0;
  }

  /** A fresh gate, on which `a` has been registered while unblocked. */
  method RegisterOne<X(==)>(a: X) returns (g: Gate<X>)
    ensures fresh(g) && g.Valid() && g.IsUnblocked()
    ensures g.registered == [a] && g.parked == []
  {
    g := new Gate<X>();
    g.SetFinalizer(a);
  }

  /** Block the unblocked gate `g`, then register `b`, which waits. */
  method BlockThenPark<X(==)>(g: Gate<X>, b: X) returns (unblock: nat)
    requires g.Valid() && g.IsUnblocked() && g.parked == []
    modifies g
    ensures g.Valid() && unblock < g.nextChan && unblock !in g.closed
    ensures g.registered == old(g.registered) && g.parked == [Parked(b, unblock)]
  {
    unblock := g.Block();
    g.SetFinalizer(b);
  }

  /** Closing the channel the only waiting registration waits on releases it. */
  lemma ReleaseOne<X>(registered: seq<X>, b: X, u: nat)
    ensures registered + Regs(WaitingOn([Parked(b, u)], u)) == registered + [b]
    ensures NotWaitingOn([Parked(b, u)], u) == []
  {
    SingleEpochReleasesAll([Parked(b, u)], u);
    assert Regs([Parked(b, u)]) == [b];
  }

  /** The gate: a registration while unblocked takes effect at once; after
      Block, a registration waits until unblocking releases it; calling the
      same unblock function again panics. */
  method GateHoldsRegistrations<X(==)>(a: X, b: X) returns (before: seq<X>, after: seq<X>, again: Outcome)
    ensures before == [a] && after == [a, b] && again == Fail(CloseOfClosedChannel)
  {
    var g := RegisterOne(a);
    var unblock := BlockThenPark(g, b);
    before := g.registered;
    var r := g.Unblock(unblock);
    ReleaseOne([a], b, unblock);
    after := g.registered;
    again := g.Unblock(unblock);
  }
}
