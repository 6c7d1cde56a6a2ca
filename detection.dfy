/** Best-effort mutation detection for memory that a string aliases.

    A MutationChecker remembers a byte range and the checksum of its contents
    when it was built; Recheck hashes the range again and panics when the
    checksum no longer matches. A Monitor holds the package-wide state the
    detection depends on: the build configuration (race detector, the
    `unsafe` build tag), the flag ReduceSafety sets, the memory, the hash in
    use, the race probes started and not yet run, and the "eventually" gate
    through which the deferred rechecks are registered as finalizers. */
module Detection {
  import opened GoRuntime
  import opened Eventually

  /** A 64-bit hasher taken from the pool: it accumulates the bytes written
      since it was last reset, and `sum` is the hash function of the build. */
  class Hasher {
    const sum: seq<byte> -> bv64
    var written: seq<byte>

    /** newHash. */
    constructor (sum: seq<byte> -> bv64)
      ensures this.sum == sum && written == []
    {
      this.sum := sum;
      written := [];
    }

    /** initHash: forget anything written by a previous borrower. */
    method Reset()
      modifies this`written
      ensures written == []
    {
      written := [];
    }

    /** Write. */
    method Write(bs: seq<byte>)
      modifies this`written
      ensures written == old(written) + bs
    {
      written := written + bs;
    }

    /** Sum64: the hash of everything written since the last reset. */
    method Sum64() returns (s: bv64)
      ensures s == sum(written)
    {
      s := sum(written);
    }
  }

  /** The contents of the `len` bytes at address `data`. */
  function Bytes(mem: array<byte>, data: int, len: int): (bs: seq<byte>)
    reads mem
    requires InBounds(mem.Length, data, len)
    ensures |bs| == len
    ensures forall i :: 0 <= i < len ==> bs[i] == mem[data + i]
  {
    mem[data..data + len]
  }

  /** mutationChecker: a byte range and the checksum of its contents when the
      checker was built. The hash function `sum` of the build is passed to
      each operation, as the package-level newHash is in the source. */
  class MutationChecker {
    const mem: array<byte>
    const b: SliceHeader
    var checksum: bv64

    predicate Valid() {
      InBounds(mem.Length, b.data, b.len)
    }

    /** The bytes the checker watches, as they are now. */
    function Contents(): (bs: seq<byte>)
      reads mem
      requires Valid()
    {
      Bytes(mem, b.data, b.len)
    }

    /** newMutationChecker: store b, then take the checksum of its contents. */
    constructor (mem: array<byte>, sum: seq<byte> -> bv64, b: SliceHeader)
      requires InBounds(mem.Length, b.data, b.len)
      ensures this.mem == mem && this.b == b && Valid()
      ensures checksum == sum(Bytes(mem, b.data, b.len))
    {
      this.mem := mem;
      this.b := b;
      new;
      checksum := Sum64(sum);
    }

    /** sum64: hash the current contents with a freshly reset hasher; the
        checker itself is left as it was. */
    method Sum64(sum: seq<byte> -> bv64) returns (s: bv64)
      requires Valid()
      ensures s == sum(Contents())
    {
      var h := new Hasher(sum);
      h.Reset();
      h.Write(mem[b.data..b.data + b.len]);
      assert h.written == Contents();
      s := h.Sum64();
      assert h.sum == sum;
    }

    /** recheck: panic, naming the range's address, exactly when the contents
        no longer hash to the stored checksum. */
    method Recheck(sum: seq<byte> -> bv64) returns (r: Outcome)
      requires Valid()
      ensures r.Pass? <==> sum(Contents()) == checksum
      ensures r.Fail? ==> r.error == MutationDetected(b.data)
    {
      var s := Sum64(sum);
      if s != checksum {
        return Fail(MutationDetected(b.data));
      }
      r := Pass;
    }
  }

  /** A checker built over unchanged memory never reports a mutation: the
      hash is a deterministic function of the contents. */
  method RecheckOfUnchanged(mem: array<byte>, sum: seq<byte> -> bv64, b: SliceHeader)
    returns (r: Outcome)
    requires InBounds(mem.Length, b.data, b.len)
    ensures r == Pass
  {
    var c := new MutationChecker(mem, sum, b);
    r := c.Recheck(sum);
  }

  /** A recheck after the watched bytes were changed to contents with a
      different hash reports the mutation at the range's address. */
  method RecheckAfterWrite(mem: array<byte>, sum: seq<byte> -> bv64, b: SliceHeader, at: int, v: byte)
    returns (r: Outcome)
    requires InBounds(mem.Length, b.data, b.len) && b.data <= at < b.data + b.len
    requires sum(Bytes(mem, b.data, b.len)) != sum(Bytes(mem, b.data, b.len)[at - b.data := v])
    modifies mem
    ensures r == Fail(MutationDetected(b.data))
  {
    var c := new MutationChecker(mem, sum, b);
    ghost var before := Bytes(mem, b.data, b.len);
    mem[at] := v;
    assert c.Contents() == before[at - b.data := v];
    r := c.Recheck(sum);
  }

  /** The package-wide state of mutation detection. */
  class Monitor {
    /** The build uses the race detector. */
    const raceEnabled: bool
    /** The build carries the `unsafe` tag, which compiles detection out
        unless the race detector is on. */
    const unsafeBuild: bool
    const mem: array<byte>
    const sum: seq<byte> -> bv64
    const gate: Gate<MutationChecker>
    /** safetyReducedFlag. */
    var safetyReducedFlag: int
    /** Race probes (`go c.recheck()`) started and not yet run. */
    var probes: seq<MutationChecker>

    /** A checker that watches this monitor's memory with its hash. */
    predicate Watches(c: MutationChecker) {
      c.mem == mem && c.Valid()
    }

    ghost predicate Valid()
      reads this, gate
    {
      && gate.Valid()
      && (forall i :: 0 <= i < |probes| ==> Watches(probes[i]))
      && (forall i :: 0 <= i < |gate.requested| ==> Watches(gate.requested[i]))
    }

    /** Package initialization with the given build configuration. */
    constructor (raceEnabled: bool, unsafeBuild: bool, mem: array<byte>, sum: seq<byte> -> bv64)
      ensures Valid() && fresh(gate)
      ensures this.raceEnabled == raceEnabled && this.unsafeBuild == unsafeBuild
      ensures this.mem == mem && this.sum == sum
      ensures !SafetyReduced() && probes == []
      ensures gate.IsUnblocked() && gate.registered == [] && gate.parked == []
    {
      this.raceEnabled := raceEnabled;
      this.unsafeBuild := unsafeBuild;
      this.mem := mem;
      this.sum := sum;
      gate := new Gate<MutationChecker>();
      safetyReducedFlag := 0;
      probes := [];
    }

    /** safetyReduced. */
    predicate SafetyReduced()
      reads this
    {
      safetyReducedFlag != 0
    }

    /** Detection does nothing: either it is compiled out (the `unsafe` tag
        without the race detector) or ReduceSafety has turned it off. */
    predicate Disabled()
      reads this
    {
      (unsafeBuild && !raceEnabled) || SafetyReduced()
    }

    /** ReduceSafety: set the flag, except under the race detector, where it
        has no effect. Calling it again changes nothing further. */
    method ReduceSafety()
      modifies this`safetyReducedFlag
      ensures raceEnabled ==> safetyReducedFlag == old(safetyReducedFlag)
      ensures !raceEnabled ==> safetyReducedFlag == 1 && SafetyReduced()
    {
      if !raceEnabled {
        safetyReducedFlag := 1;
      }
    }

    /** What one call of maybeDetectMutations on `b` did, with `c` the
        checker it built, if any: the gate's channels are left alone, and
        either nothing happened or `c` holds the checksum of b's contents,
        is handed to a race probe under the race detector, and is
        registered through the gate, at once or parked on its channel. */
    twostate predicate Scheduled(b: SliceHeader, new c: MutationChecker?)
      reads this, gate, c, mem
    {
      && gate.unblocked == old(gate.unblocked) && gate.closed == old(gate.closed)
      && gate.nextChan == old(gate.nextChan)
      && (if old(Disabled()) || b.len == 0 then
          && c == null
          && probes == old(probes)
          && gate.requested == old(gate.requested)
          && gate.registered == old(gate.registered)
          && gate.parked == old(gate.parked)
        else
          && c != null && fresh(c) && c.b == b && Watches(c)
          && c.checksum == sum(Bytes(mem, b.data, b.len))
          && probes == old(probes) + (if raceEnabled then [c] else [])
          && gate.requested == old(gate.requested) + [c]
          && (if old(gate.IsUnblocked())
              then gate.registered == old(gate.registered) + [c] && gate.parked == old(gate.parked)
              else gate.parked == old(gate.parked) + [Parked(c, gate.unblocked)]
                   && gate.registered == old(gate.registered)))
    }

    /** maybeDetectMutations: unless detection is disabled or b is empty,
        checksum b, start a race probe under the race detector, and always
        register the deferred recheck through the gate. */
    method MaybeDetectMutations(b: SliceHeader) returns (ghost c: MutationChecker?)
      requires Valid() && InBounds(mem.Length, b.data, b.len)
      modifies this`probes, gate
      ensures Valid() && Scheduled(b, c)
    {
      if Disabled() || b.len == 0 {
        return null;
      }
      var checker := new MutationChecker(mem, sum, b);
      if raceEnabled {
        probes := probes + [checker];
      }
      gate.SetFinalizer(checker);
      c := checker;
    }

    /** The race probe `i` runs: it rechecks its range once and is gone. */
    method RunProbe(i: nat) returns (r: Outcome)
      requires Valid() && i < |probes|
      modifies this`probes
      ensures Valid()
      ensures probes == old(probes[..i] + probes[i + 1..])
      ensures r.Pass? <==> sum(old(probes[i]).Contents()) == old(probes[i]).checksum
      ensures r.Fail? ==> r.error == MutationDetected(old(probes[i]).b.data)
    {
      var c := probes[i];
      r := c.Recheck(sum);
      probes := probes[..i] + probes[i + 1..];
    }

    /** The collector runs the finalizer registered `i`-th: the deferred recheck. */
    method RunFinalizer(i: nat) returns (r: Outcome)
      requires Valid() && i < |gate.registered|
      ensures gate.registered[i].Valid()
      ensures r.Pass? <==> sum(gate.registered[i].Contents()) == gate.registered[i].checksum
      ensures r.Fail? ==> r.error == MutationDetected(gate.registered[i].b.data)
    {
      var c := gate.registered[i];
      assert c in multiset(gate.requested);
      r := c.Recheck(sum);
    }
  }
}
