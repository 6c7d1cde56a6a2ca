# unsafeslice, modelled in Dafny

`github.com/bcmills/unsafeslice` lets a Go program look at one block of memory
through two slice or string types without copying it. This project models the
package's core and proves what it promises:

- Header construction. `SetAt` and `ConvertAt` overwrite the slice variable
  behind a `*[]T` one header field at a time. `OfString` and `AsString` build a
  `[]byte` over a string's bytes, or a string over a slice's bytes.
- Size checks. `ConvertAt` and the generic `ConvertTo` turn the source's length
  and capacity into byte extents. Each extent must be a whole number of
  destination elements, and each count must fit in an `int`.
- C strings. `StrLen` counts the elements before the first zero one, and panics
  when the count wraps. `OfCString` builds a slice of that length.
- Best-effort mutation detection. A `mutationChecker` remembers a byte range and
  the hash of its contents, and `recheck` panics when the hash no longer
  matches. `maybeDetectMutations` starts a race probe under the race detector
  and always registers the deferred recheck as a finalizer.
- The `internal/eventually` gate. It holds finalizer registrations back between
  `Block` and the `unblock` function that `Block` returns.

The modules follow the program:

- `GoRuntime`: the 64-bit `int`/`uintptr` conversions, the slice and string
  headers, the `reflect` kinds, and the panics as an `Error` datatype.
- `Eventually`: the gate, as a class.
- `Detection`: the hasher, the checker, and the package-wide detection state
  (`Monitor`).
- `Unsafeslice`: `unsafeslice.go`.
- `Generic`: `unsafeslice_go118.go`.
- `Fnv`: the FNV-1a hash that `fnvhash.go` selects.
- `Scenarios`: the package's examples and tests, replayed on the model.

How the Go constructs are represented:

- Memory is an `array<byte>` indexed by address, and address 0 is nil.
- A slice variable is a `SliceVar` object whose three fields are stored one at
  a time. A ghost `trace` records every intermediate header.
- The build configuration is a set of constants of the `Monitor`: the race
  detector, and the `unsafe` tag of `unsafe.go`.
- A goroutine waiting on the gate is a `Parked` record naming the channel it
  waits on. Closing the channel is the step at which the waiting registrations
  take effect.
- The hash is a parameter `seq<byte> -> bv64`, so every detection result holds
  for any deterministic hash.

`unsafeslice.go` and `safe.go` each define a `maybeDetectMutations`. The model
follows `unsafeslice.go:148-150`, which also returns early once `ReduceSafety`
has taken effect. The `safe.go` variant skips only empty slices.

## Model

| member | source | states |
|---|---|---|
| GoRuntime.IntOfUintptr | unsafeslice.go:80 | `int(q)` is an `int` congruent to `q` modulo 2^64 |
| GoRuntime.UintptrOfInt | unsafeslice.go:80 | `uintptr(i)` is a word congruent to `i` modulo 2^64 |
| GoRuntime.IncInt | unsafeslice_go118.go:35-36 | `n++` wraps modulo 2^64 into the `int` range; from a non-negative `n` the result is negative exactly when `n` was MaxInt, and otherwise it is `n + 1` |
| GoRuntime.OverflowsIntExactly | unsafeslice.go:80-82 | the guard `int(q) < 0 \|\| uintptr(int(q)) != q` rejects exactly the quotients above MaxInt; its second half never fires |
| Eventually.NotWaitingOnStaysOpen | internal/eventually/eventually.go:35-37 | the goroutines left after closing `c` still wait on open channels |
| Eventually.SplitPreservesRegs | internal/eventually/eventually.go:35-37 | closing a channel splits the waiting registrations into released and still waiting, losing or duplicating none |
| Eventually.ParkKeepsAccount | internal/eventually/eventually.go:34-38 | parking one more registration keeps every request matched by exactly one registration, made or pending |
| Eventually.RegisterKeepsAccount | internal/eventually/eventually.go:32-33 | registering at once keeps every request matched by exactly one registration |
| Eventually.ReleaseKeepsAccount | internal/eventually/eventually.go:23 | closing a channel moves the registrations waiting on it to the registered list and keeps the account |
| Eventually.SingleEpochReleasesAll | internal/eventually/eventually.go:23 | when every goroutine waits on the same channel, closing it releases all of them in order and leaves none |
| Eventually.Gate.constructor | internal/eventually/eventually.go:13-17 | package initialization leaves the gate unblocked, with nothing registered or waiting |
| Eventually.Gate.Block | internal/eventually/eventually.go:20-24 | a fresh open channel is installed, the gate is blocked, and the channel returned is that one |
| Eventually.Gate.Unblock | internal/eventually/eventually.go:23 | the first call closes the channel and registers, in order, every registration that waits on it; a second call panics with "close of closed channel" and changes nothing |
| Eventually.Gate.SetFinalizer | internal/eventually/eventually.go:30-40 | unblocked: registers at once; blocked: parks the registration on the current channel; either way it adds exactly one request |
| Detection.Hasher.constructor | maphash.go:19-27 | a new hasher of the build's hash function, with nothing written |
| Detection.Hasher.Reset | safe.go:75 | the hasher forgets what a previous borrower wrote |
| Detection.Hasher.Write | safe.go:77 | the bytes are appended to what was written |
| Detection.Hasher.Sum64 | safe.go:78 | the result is the hash of everything written since the reset; this is the hash library's interface, which the model takes as given, and the proof about it is in `MutationChecker.Sum64` |
| Detection.MutationChecker.constructor | safe.go:61-65 | the checker stores `b`, and its checksum is the hash of b's contents at construction |
| Detection.MutationChecker.Sum64 | safe.go:73-82 | the hash of the current contents; the checker is not changed |
| Detection.MutationChecker.Recheck | safe.go:67-71 | passes exactly when the current contents hash to the stored checksum, and otherwise panics with the range's address |
| Detection.RecheckOfUnchanged | safe.go:61-71 | a recheck over unchanged memory always passes |
| Detection.RecheckAfterWrite | safe.go:67-71 | after a write that changes the hash of the watched bytes, the recheck reports the mutation at the range's address |
| Detection.Monitor.constructor | unsafeslice.go:211 | detection starts with the flag clear, no probes, and an unblocked gate |
| Detection.Monitor.ReduceSafety | unsafeslice.go:205-209 | without the race detector the flag is set, and a second call leaves it set; under the race detector the flag does not change |
| Detection.Monitor.MaybeDetectMutations | unsafeslice.go:147-197 | when detection is off or `b` is empty, nothing is scheduled; otherwise a checker holding b's checksum goes to a race probe under the race detector only, and always to the gate, at once or parked; the gate's channels are untouched |
| Detection.Monitor.RunProbe | safe.go:35 | the race probe rechecks its range once and is removed |
| Detection.Monitor.RunFinalizer | safe.go:53 | a registered finalizer rechecks its range: it passes exactly when the contents still hash to the checksum |
| Unsafeslice.SliceVar.StoreData | unsafeslice.go:43 | only the base changes, and the new header is recorded |
| Unsafeslice.SliceVar.StoreLen | unsafeslice.go:38 | only the length changes, and the new header is recorded |
| Unsafeslice.SliceVar.StoreCap | unsafeslice.go:39 | only the capacity changes, and the new header is recorded |
| Unsafeslice.Stores | unsafeslice.go:38-45 | the store order produces five headers and ends at the new one |
| Unsafeslice.StoresAreSafe | unsafeslice.go:36-45 | every header seen during the stores lies within memory the old or the new slice is valid for, and length and capacity are both zero until the new base is stored |
| Unsafeslice.BaseFirstIsUnsafe | unsafeslice.go:36-45 | for every old and new header where the base moves and the new capacity is smaller, storing the base first without zeroing exposes the new base with the old capacity, which is unsafe to observe, while every header of the zeroing order is safe |
| Unsafeslice.StoreHeader | unsafeslice.go:92-103 | the variable ends holding the new header, after exactly the stores of that order |
| Unsafeslice.SetAt | unsafeslice.go:27-46 | rejects a `dst` that is not a `*[]T` and leaves it alone, with no store made; otherwise `dst` ends as (p, n, n) and every intermediate header is safe to observe |
| Unsafeslice.DstCount | unsafeslice.go:76-90 | zero destination element size panics with divide by zero; a remainder panics with "not a multiple"; a quotient above MaxInt panics with overflow; otherwise the count is in the `int` range and covers the bytes exactly |
| Unsafeslice.ConvertCounts | unsafeslice_go118.go:64-78 | the capacity is checked first, then the length; it succeeds exactly when both succeed, with the counts covering the two byte extents, a length extent within the capacity extent giving a length within the capacity |
| Unsafeslice.CountsAreValid | unsafeslice_go118.go:80-83 | counts that pass the checks form a valid slice at the source's base |
| Unsafeslice.Converted | unsafeslice_go118.go:57-84 | the conversion panics exactly as the checks do; on success it keeps the base, the new length and capacity cover the old byte extents, and the result is a valid slice |
| Unsafeslice.ConvertAtPlan | unsafeslice.go:57-90 | a source that is not a slice panics first, then a `dst` that is not a `*[]T`; otherwise the conversion pairs length with length and capacity with capacity |
| Unsafeslice.ConvertAt | unsafeslice.go:57-104 | corrected form: on a panic `dst` is unchanged and no store is made; otherwise `dst` ends holding the planned header through safe intermediate headers |
| Unsafeslice.ConvertAtPlanAsWritten | unsafeslice.go:70-90 | as written, the destination's capacity covers the source's length extent and its length covers the source's capacity extent |
| Unsafeslice.ConvertAtAsWritten | unsafeslice.go:57-104 | ConvertAt as written: on a panic `dst` is unchanged and no store is made; otherwise `dst` ends holding the as-written header after the same five stores |
| Unsafeslice.ConvertAtSwapsLenAndCap | unsafeslice.go:71-72 | a `[]byte` of length 4 and capacity 8 into `*[]uint32` becomes length 2 and capacity 1 as written, a header that is not safe to observe; corrected, it becomes length 1 and capacity 2 |
| Unsafeslice.ConvertAtAsWrittenInvertsShape | unsafeslice.go:101-103 | as written, a source whose length is below its capacity always yields a length above the capacity |
| Unsafeslice.ConvertAtAgreesWhenFull | unsafeslice_test.go:53-82 | for a full source, where length equals capacity, the as-written and corrected forms agree, panics included |
| Unsafeslice.ConvertAtErrorCases | unsafeslice_test.go:89-118 | "incompatible capacity" and "incompatible length" panic in both forms; as written each reports the other extent |
| Unsafeslice.StringRoundTrip | unsafeslice.go:111-143 | AsString(OfString(s)) is `s`: the same base and length |
| Unsafeslice.SliceRoundTrip | unsafeslice.go:111-143 | OfString(AsString(b)) has b's base and length, with the capacity cut back to the length, and is still a valid slice |
| Unsafeslice.OfString | unsafeslice.go:111-123 | a `[]byte` with the string's base, and length and capacity equal to its length, reading the same bytes; detection is scheduled on it |
| Unsafeslice.AsString | unsafeslice.go:133-143 | a string with the slice's base and length, reading the same bytes; detection is scheduled on the slice |
| Generic.StrLen | unsafeslice_go118.go:31-42 | the count `n` is in the `int` range, element `n` is zero, and every element before it is nonzero; a zero first element gives 0; it panics only when MaxInt + 1 nonzero elements precede the terminator, and it succeeds whenever a terminator lies within MaxInt elements |
| Generic.UnsafeSlice | unsafeslice_go118.go:25 | `unsafe.Slice(ptr, n)` succeeds exactly when `n` is non-negative and a nil `ptr` has `n == 0`, giving (ptr, n, n) |
| Generic.Reslice | unsafeslice_go118.go:83 | `s[:hi]` succeeds exactly when `0 <= hi <= cap(s)`, keeping the base and capacity |
| Generic.OfCString | unsafeslice_go118.go:24-26 | the slice starts at `p`, and its length, equal to its capacity, is the number of nonzero bytes before the terminator; it panics only with "length overflow" |
| Generic.ConvertTo | unsafeslice_go118.go:57-84 | the generic conversion gives exactly what the corrected ConvertAt installs, panics included, so `unsafe.Slice` and the re-slice never panic after the checks pass |
| Fnv.HelloWorldDigest | unsafeslice_test.go:120-137 | the 64-bit FNV-1a digest of "Hello, world!" is 38d1334144987bf4 |
| Fnv.MutationChangesDigest | safe_test.go:40-58 | FNV-1a gives "Kaboom world!" a different digest from "Hello, world!" |
| Scenarios.Copy | unsafeslice_test.go:42 | `copy` writes min(len(dst), len(src)) bytes at the slice's base, and nothing else changes |
| Scenarios.ExampleSetAt | unsafeslice_test.go:33-51 | after `copy(alias, "Adios")`, both the original and the alias read "Adios, world!" |
| Scenarios.ExampleConvertAt | unsafeslice_test.go:53-82 | four `uint32`s at address 4 viewed as bytes give the slice (4, 16, 16), in both forms |
| Scenarios.ExampleOfString | unsafeslice_test.go:120-137 | the slice OfString returns reads the string's own bytes, and their 64-bit FNV-1a digest is 38d1334144987bf4 |
| Scenarios.ExampleOfCString | unsafeslice_go118_test.go:16-25 | "Hello, world!\x00" gives the slice (1, 13, 13), which reads "Hello, world!" |
| Scenarios.StringMutationIsDetected | safe_test.go:28-61 | with registration blocked, copying "Kaboom" over bytes given to AsString or OfString and then unblocking makes the deferred recheck report the mutation at address 1, for any hash that tells the contents apart and any build that runs detection |
| Scenarios.FnvBuildDetectsMutation | safe_test.go:28-61 | in a build hashing with FNV-1a (fnvhash.go), the mutation is reported at address 1 with no assumption about the hash |
| Scenarios.EarlyRecheckMissesMutation | safe_test.go:34-37 | without Block, a recheck that runs before the mutation passes, which is why the test blocks registration |
| Scenarios.ReducedSafetySkipsDetection | unsafeslice.go:199-209 | after ReduceSafety, called twice, AsString schedules a recheck exactly when the race detector is on |
| Scenarios.EmptyStringIsNotWatched | safe.go:21-23 | an empty string schedules no probe and no registration, even under the race detector |
| Scenarios.GateHoldsRegistrations | internal/eventually/eventually.go:19-40 | a registration made while unblocked takes effect at once; one made after Block waits until unblock; the second unblock panics |

## Left out

- Goroutines, the race detector and finalizer timing are not modelled. The race probe is a pending list entry that `RunProbe` runs. A finalizer runs when `RunFinalizer` is called.
- The `runtime.SetFinalizer` call is modelled as an entry in `registered`. A finalizer that has run is not removed from that list.
- The released goroutines call `runtime.SetFinalizer` in whatever order the scheduler runs them (internal/eventually/eventually.go:35-37). `Gate.Unblock` registers them in the order they parked. Only the multiset of registrations is what the code determines.
- A parked goroutine reads the global `unblocked` only when it runs (internal/eventually/eventually.go:36). The model parks it on the channel current at the `SetFinalizer` call. This is the single blocked-epoch behaviour, and a `Block` between the call and the goroutine's start is not modelled.
- A second `Block` is not a panic in the code, and it is not one in the model.
- `hash/maphash`, its `sync.Once` seed, and the hasher pool behind `initHash`/`disposeHash` are not part of this model. The hash is a parameter, and `Hasher` stands for one borrowed hasher.
- In the default build the hash is `hash/maphash` with a random seed (maphash.go:20-25). No fixed function describes it, so `StringMutationIsDetected` assumes that the hash tells the two contents apart. For the FNV-1a build of fnvhash.go this is proved (`FnvBuildDetectsMutation`). A collision under a random seed is possible in Go, and the model does not cover that case.
- `uintptr` products (unsafeslice.go:71-72, unsafeslice_go118.go:59-60) are assumed to fit in a word. For a valid slice they do, and `ValidSlice` states it. Wrap-around in those products is not modelled.
- Alignment is a caller obligation that the code never checks, so it is not modelled.
- The `maxAlloc` bound that `unsafe.Slice` also enforces is not modelled.
- Panic messages are error variants, without formatting. The address in "mutation detected" is the range's base.
- Generic.StrLen and Generic.OfCString require a non-nil `p` and a readable terminator. A nil `p` or a missing terminator is a memory fault in Go, not a panic of the package.
- `ExampleToString` needs the big-endian bytes of the digest, which are not modelled.
- The test subprocess, and the GC loop at safe_test.go:62-66, are not modelled.
- `unsafe.go` compiles detection out. It is modelled as `Monitor.Disabled` under the `unsafe` tag without the race detector, not as a separate function.

## Findings

| source | as written | input that shows it | evidently intended | confidence | as-written member | corrected member |
|---|---|---|---|---|---|---|
| unsafeslice.go:71-72 | `capBytes` is computed from `sv.Len()` and `lenBytes` from `sv.Cap()`, so the destination's capacity follows the source's length and its length follows the source's capacity (unsafeslice.go:102-103) | a `[]byte` with length 4 and capacity 8 converted into a `*[]uint32` gives length 2 and capacity 1 | `capBytes` from `sv.Cap()` and `lenBytes` from `sv.Len()`, as `ConvertTo` does at unsafeslice_go118.go:59-60 | not executed | Unsafeslice.ConvertAtAsWritten | Unsafeslice.ConvertAt |

The as-written behaviour is exhibited by `Unsafeslice.ConvertAtSwapsLenAndCap` and `Unsafeslice.ConvertAtAsWrittenInvertsShape`. The package's own example (`ExampleConvertAt`) converts a full slice. There the two forms agree, which `Unsafeslice.ConvertAtAgreesWhenFull` proves.
