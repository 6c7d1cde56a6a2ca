/** The 64-bit FNV-1a hash, which `newHash` returns in builds without
    `hash/maphash`: start from the offset basis, and for each byte xor it into
    the state and multiply by the FNV prime, wrapping modulo 2^64. */
module Fnv {
  import opened GoRuntime

  const OffsetBasis: bv64 := 0xcbf2_9ce4_8422_2325
  const Prime: bv64 := 0x100_0000_01b3

  function MulPrime(x: bv64): bv64 {
    x * Prime
  }

  /** One round of FNV-1a. */
  function Step(h: bv64, b: byte): bv64 {
    MulPrime(h ^ (b as bv64))
  }

  /** `fnv.New64a()`, `Write(bs)`, `Sum64()`. */
  function Sum64a(bs: seq<byte>): bv64 {
    if |bs| == 0 then OffsetBasis else Step(Sum64a(bs[..|bs| - 1]), bs[|bs| - 1])
  }

  /** The digest of "Hello, world!", which the OfString example prints. */
  lemma HelloWorldDigest()
    ensures Sum64a([72, 101, 108, 108, 111, 44, 32, 119, 111, 114, 108, 100, 33]) == 0x38d1_3341_4498_7bf4
  {
    HelloPrefix13([72, 101, 108, 108, 111, 44, 32, 119, 111, 114, 108, 100, 33]);
  }

  // The digest, one byte at a time.

  lemma HelloPrefix1(bs: seq<byte>)
    requires bs == [72]
    ensures Sum64a(bs) == 0xaf64054c86023237
  {
    assert bs[..0] == [];
    assert Step(0xcbf29ce484222325, 72) == 0xaf64054c86023237;
  }

  lemma HelloPrefix2(bs: seq<byte>)
    requires bs == [72, 101]
    ensures Sum64a(bs) == 0x9275307b5bb8156
  {
    HelloPrefix1(bs[..1]);
    assert Step(0xaf64054c86023237, 101) == 0x9275307b5bb8156;
  }

  lemma HelloPrefix3(bs: seq<byte>)
    requires bs == [72, 101, 108]
    ensures Sum64a(bs) == 0x49535019cd9c958e
  {
    HelloPrefix2(bs[..2]);
    assert Step(0x9275307b5bb8156, 108) == 0x49535019cd9c958e;
  }

  lemma HelloPrefix4(bs: seq<byte>)
    requires bs == [72, 101, 108, 108]
    ensures Sum64a(bs) == 0x3526fdd86112af06
  {
    HelloPrefix3(bs[..3]);
    assert Step(0x49535019cd9c958e, 108) == 0x3526fdd86112af06;
  }

  lemma HelloPrefix5(bs: seq<byte>)
    requires bs == [72, 101, 108, 108, 111]
    ensures Sum64a(bs) == 0x63f0bfacf2c00f6b
  {
    HelloPrefix4(bs[..4]);
    assert Step(0x3526fdd86112af06, 111) == 0x63f0bfacf2c00f6b;
  }

  lemma HelloPrefix6(bs: seq<byte>)
    requires bs == [72, 101, 108, 108, 111, 44]
    ensures Sum64a(bs) == 0x9224f9e07c59f5a5
  {
    HelloPrefix5(bs[..5]);
    assert Step(0x63f0bfacf2c00f6b, 44) == 0x9224f9e07c59f5a5;
  }

  lemma HelloPrefix7(bs: seq<byte>)
    requires bs == [72, 101, 108, 108, 111, 44, 32]
    ensures Sum64a(bs) == 0xaeca1d734cdc30ff
  {
    HelloPrefix6(bs[..6]);
    assert Step(0x9224f9e07c59f5a5, 32) == 0xaeca1d734cdc30ff;
  }

  lemma HelloPrefix8(bs: seq<byte>)
    requires bs == [72, 101, 108, 108, 111, 44, 32, 119]
    ensures Sum64a(bs) == 0xdda092eb9a267718
  {
    HelloPrefix7(bs[..7]);
    assert Step(0xaeca1d734cdc30ff, 119) == 0xdda092eb9a267718;
  }

  lemma HelloPrefix9(bs: seq<byte>)
    requires bs == [72, 101, 108, 108, 111, 44, 32, 119, 111]
    ensures Sum64a(bs) == 0xbe511d56ef5cff35
  {
    HelloPrefix8(bs[..8]);
    assert Step(0xdda092eb9a267718, 111) == 0xbe511d56ef5cff35;
  }

  lemma HelloPrefix10(bs: seq<byte>)
    requires bs == [72, 101, 108, 108, 111, 44, 32, 119, 111, 114]
    ensures Sum64a(bs) == 0xc0d421b8bb05c5a5
  {
    HelloPrefix9(bs[..9]);
    assert Step(0xbe511d56ef5cff35, 114) == 0xc0d421b8bb05c5a5;
  }

  lemma HelloPrefix11(bs: seq<byte>)
    requires bs == [72, 101, 108, 108, 111, 44, 32, 119, 111, 114, 108]
    ensures Sum64a(bs) == 0xae3b15e5cacf148b
  {
    HelloPrefix10(bs[..10]);
    assert Step(0xc0d421b8bb05c5a5, 108) == 0xae3b15e5cacf148b;
  }

  lemma HelloPrefix12(bs: seq<byte>)
    requires bs == [72, 101, 108, 108, 111, 44, 32, 119, 111, 114, 108, 100]
    ensures Sum64a(bs) == 0xdd7b24779de0921d
  {
    HelloPrefix11(bs[..11]);
    assert Step(0xae3b15e5cacf148b, 100) == 0xdd7b24779de0921d;
  }

  lemma HelloPrefix13(bs: seq<byte>)
    requires bs == [72, 101, 108, 108, 111, 44, 32, 119, 111, 114, 108, 100, 33]
    ensures Sum64a(bs) == 0x38d1334144987bf4
  {
    HelloPrefix12(bs[..12]);
    assert Step(0xdd7b24779de0921d, 33) == 0x38d1334144987bf4;
  }

  /** FNV-1a tells "Kaboom world!", what TestStringMutations leaves in memory,
      apart from the "Hello, world!" it started from. */
  lemma MutationChangesDigest()
    ensures Sum64a([75, 97, 98, 111, 111, 109, 32, 119, 111, 114, 108, 100, 33])
            != Sum64a([72, 101, 108, 108, 111, 44, 32, 119, 111, 114, 108, 100, 33])
  {
    HelloWorldDigest();
    KaboomPrefix13([75, 97, 98, 111, 111, 109, 32, 119, 111, 114, 108, 100, 33]);
  }

  // The mutated digest, one byte at a time.

  lemma KaboomPrefix1(bs: seq<byte>)
    requires bs == [75]
    ensures Sum64a(bs) == 0xaf64064c860233ea
  {
    assert bs[..0] == [];
    assert Step(0xcbf29ce484222325, 75) == 0xaf64064c860233ea;
  }

  lemma KaboomPrefix2(bs: seq<byte>)
    requires bs == [75, 97]
    ensures Sum64a(bs) == 0x92a3f07b5bd9531
  {
    KaboomPrefix1(bs[..1]);
    assert Step(0xaf64064c860233ea, 97) == 0x92a3f07b5bd9531;
  }

  lemma KaboomPrefix3(bs: seq<byte>)
    requires bs == [75, 97, 98]
    ensures Sum64a(bs) == 0x505e6d19d124bc09
  {
    KaboomPrefix2(bs[..2]);
    assert Step(0x92a3f07b5bd9531, 98) == 0x505e6d19d124bc09;
  }

  lemma KaboomPrefix4(bs: seq<byte>)
    requires bs == [75, 97, 98, 111]
    ensures Sum64a(bs) == 0xb52fc8de616c2152
  {
    KaboomPrefix3(bs[..3]);
    assert Step(0x505e6d19d124bc09, 111) == 0xb52fc8de616c2152;
  }

  lemma KaboomPrefix5(bs: seq<byte>)
    requires bs == [75, 97, 98, 111, 111]
    ensures Sum64a(bs) == 0x4c538edf8abc7aa7
  {
    KaboomPrefix4(bs[..4]);
    assert Step(0xb52fc8de616c2152, 111) == 0x4c538edf8abc7aa7;
  }

  lemma KaboomPrefix6(bs: seq<byte>)
    requires bs == [75, 97, 98, 111, 111, 109]
    ensures Sum64a(bs) == 0x6e768fd8be44a53e
  {
    KaboomPrefix5(bs[..5]);
    assert Step(0x4c538edf8abc7aa7, 109) == 0x6e768fd8be44a53e;
  }

  lemma KaboomPrefix7(bs: seq<byte>)
    requires bs == [75, 97, 98, 111, 111, 109, 32]
    ensures Sum64a(bs) == 0xf81b8b4b4ea491fa
  {
    KaboomPrefix6(bs[..6]);
    assert Step(0x6e768fd8be44a53e, 32) == 0xf81b8b4b4ea491fa;
  }

  lemma KaboomPrefix8(bs: seq<byte>)
    requires bs == [75, 97, 98, 111, 111, 109, 32, 119]
    ensures Sum64a(bs) == 0x3b5f3df6a1a35297
  {
    KaboomPrefix7(bs[..7]);
    assert Step(0xf81b8b4b4ea491fa, 119) == 0x3b5f3df6a1a35297;
  }

  lemma KaboomPrefix9(bs: seq<byte>)
    requires bs == [75, 97, 98, 111, 111, 109, 32, 119, 111]
    ensures Sum64a(bs) == 0x86294214a885fb68
  {
    KaboomPrefix8(bs[..8]);
    assert Step(0x3b5f3df6a1a35297, 111) == 0x86294214a885fb68;
  }

  lemma KaboomPrefix10(bs: seq<byte>)
    requires bs == [75, 97, 98, 111, 111, 109, 32, 119, 111, 114]
    ensures Sum64a(bs) == 0x7e16631a5ba9ad2e
  {
    KaboomPrefix9(bs[..9]);
    assert Step(0x86294214a885fb68, 114) == 0x7e16631a5ba9ad2e;
  }

  lemma KaboomPrefix11(bs: seq<byte>)
    requires bs == [75, 97, 98, 111, 111, 109, 32, 119, 111, 114, 108]
    ensures Sum64a(bs) == 0xe9b7a7c9c1516726
  {
    KaboomPrefix10(bs[..10]);
    assert Step(0x7e16631a5ba9ad2e, 108) == 0xe9b7a7c9c1516726;
  }

  lemma KaboomPrefix12(bs: seq<byte>)
    requires bs == [75, 97, 98, 111, 111, 109, 32, 119, 111, 114, 108, 100]
    ensures Sum64a(bs) == 0x74795dd37d527526
  {
    KaboomPrefix11(bs[..11]);
    assert Step(0xe9b7a7c9c1516726, 100) == 0x74795dd37d527526;
  }

  lemma KaboomPrefix13(bs: seq<byte>)
    requires bs == [75, 97, 98, 111, 111, 109, 32, 119, 111, 114, 108, 100, 33]
    ensures Sum64a(bs) == 0x3caf755df31cdae5
  {
    KaboomPrefix12(bs[..12]);
    assert Step(0x74795dd37d527526, 33) == 0x3caf755df31cdae5;
  }
}
