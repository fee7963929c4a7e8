/**
 * Hash: 32-bit FNV-1a over bytes, the boost-style `combine`, the member
 * hashing that `combineHashes` folds, and the caching base class
 * `Hashable` with `hash()` and `hasChanged()`.
 */
module Hash {
  import opened Bits

  const FNV_OFFSET: uint32 := 2166136261
  const FNV_PRIME: uint32 := 16777619
  /** The inverse of FNV_PRIME modulo 2^32 (FNV_PRIME * FNV_PRIME_INVERSE == 1 + 3513497 * 2^32). */
  const FNV_PRIME_INVERSE: uint32 := 899433627
  const GOLDEN: uint32 := 0x9e3779b9

  /** One iteration of the fnv1a loop: XOR the byte in, multiply by the prime modulo 2^32. */
  function FnvStep(h: uint32, b: byte): uint32
  {
    Mul32(Xor32(h, b), FNV_PRIME)
  }

  /** fnv1a over `data`, starting from `h` (the `hash` argument). */
  function FnvFold(h: uint32, data: seq<byte>): uint32
    decreases |data|
  {
    if data == [] then h else FnvFold(FnvStep(h, data[0]), data[1..])
  }

  /** Hash::fnv1a, with its loop. */
  method Fnv1a(data: seq<byte>, hash: uint32) returns (r: uint32)
    ensures r == FnvFold(hash, data)
  {
    r := hash;
    var i := 0;
    while i < |data|
      invariant 0 <= i <= |data|
      invariant FnvFold(r, data[i..]) == FnvFold(hash, data)
    {
      assert data[i..][1..] == data[i + 1..];
      r := Mul32(Xor32(r, data[i]), FNV_PRIME);
      i := i + 1;
    }
  }

  /** Hashing a concatenation resumes from the hash of the first part. */
  lemma {:induction false} FnvFoldConcat(h: uint32, a: seq<byte>, b: seq<byte>)
    ensures FnvFold(h, a + b) == FnvFold(FnvFold(h, a), b)
    decreases |a|
  {
    if a == [] {
      assert a + b == b;
    } else {
      assert (a + b)[0] == a[0] && (a + b)[1..] == a[1..] + b;
      FnvFoldConcat(FnvStep(h, a[0]), a[1..], b);
    }
  }

  /** The published FNV-1a test vector: the single byte "a" hashes to 0xE40C292C. */
  lemma FnvTestVector(d: seq<byte>)
    requires d == [0x61]
    ensures FnvFold(FNV_OFFSET, d) == 0xE40C292C
  {
    OffsetXorA(FNV_OFFSET, 0x61);
    MulAfterA(2166136228);
    assert FnvFold(FNV_OFFSET, d) == FnvFold(FnvStep(FNV_OFFSET, 0x61), []);
  }

  /** The XOR of the first step, worked bit by bit: 0x61 touches only the low seven bits. */
  lemma OffsetXorA(a: nat, b: nat)
    requires a == 2166136261 && b == 0x61
    ensures Xor(a, b, 32) == 2166136228
  {
    assert Pow2(8) == 256 && Pow2(9) == 512;
    assert Pow2(16) == 65536 by { Pow2Add(8, 8); }
    assert Pow2(25) == 33554432 by { Pow2Add(16, 9); }
    XorZero(16922939, 25);
    assert Xor(33845879, 1, 26) == 2 * 16922939;
    assert Xor(67691758, 3, 27) == 4 * 16922939 + 1;
    assert Xor(135383516, 6, 28) == 8 * 16922939 + 2;
    assert Xor(270767032, 12, 29) == 16 * 16922939 + 4;
    assert Xor(541534065, 24, 30) == 32 * 16922939 + 9;
    assert Xor(1083068130, 48, 31) == 64 * 16922939 + 18;
    assert Xor(a, b, 32) == 128 * 16922939 + 36;
  }

  lemma MulAfterA(x: uint32)
    requires x == 2166136228
    ensures Mul32(x, FNV_PRIME) == 0xE40C292C
  {
  }

  /** Reducing one factor modulo 2^32 before multiplying does not change the product modulo 2^32. */
  lemma MulMod(a: int, c: int)
    requires a >= 0 && c >= 0
    ensures ((a % TWO32) * c) % TWO32 == (a * c) % TWO32
  {
    var q, r := a / TWO32, a % TWO32;
    assert a * c == (q * c) * TWO32 + r * c;
    ShiftMod(q * c, r * c);
  }

  lemma ShiftMod(k: int, y: int)
    requires y >= 0
    ensures (k * TWO32 + y) % TWO32 == y % TWO32
  {
  }

  /** Multiplying by the prime is undone by multiplying by its inverse. */
  lemma MulInverse(x: uint32)
    ensures Mul32(Mul32(x, FNV_PRIME), FNV_PRIME_INVERSE) == x
  {
    MulMod(x * FNV_PRIME, FNV_PRIME_INVERSE);
    assert (x * FNV_PRIME) * FNV_PRIME_INVERSE == x * (FNV_PRIME * FNV_PRIME_INVERSE);
    assert FNV_PRIME * FNV_PRIME_INVERSE == 3513497 * TWO32 + 1;
    assert x * (3513497 * TWO32 + 1) == (x * 3513497) * TWO32 + x;
    ShiftMod(x * 3513497, x);
  }

  /** The state before a step, recovered from the state after it and the byte. */
  function FnvUnstep(h: uint32, b: byte): uint32
  {
    Xor32(Mul32(h, FNV_PRIME_INVERSE), b)
  }

  /** Each step of the fold is invertible, so two states that differ stay different after the same byte. */
  lemma FnvStepInvertible(h: uint32, b: byte)
    ensures FnvUnstep(FnvStep(h, b), b) == h
  {
    Pow2ThirtyTwo();
    var x := Xor(h, b, 32);
    MulInverse(x);
    assert FnvUnstep(FnvStep(h, b), b) == Xor(x, b, 32);
    XorCommutes(x, b, 32);
    XorCommutes(h, b, 32);
    XorCancel(b, h, 32);
  }

  /** Hashing the same bytes from two different starting values never gives the same hash. */
  lemma {:induction false} FnvFoldInjective(h1: uint32, h2: uint32, data: seq<byte>)
    requires FnvFold(h1, data) == FnvFold(h2, data)
    ensures h1 == h2
    decreases |data|
  {
    if data != [] {
      FnvFoldInjective(FnvStep(h1, data[0]), FnvStep(h2, data[0]), data[1..]);
      FnvStepInvertible(h1, data[0]);
      FnvStepInvertible(h2, data[0]);
    }
  }

  /** Hash::combine: h1 ^ (h2 + 0x9e3779b9 + (h1 << 6) + (h1 >> 2)), every operation on uint32_t. */
  function Combine(h1: uint32, h2: uint32): uint32
  {
    Xor32(h1, Add32(Add32(Add32(h2, GOLDEN), Mul32(h1, 64)), h1 / 4))
  }

  lemma AddInjective(a: uint32, x: uint32, y: uint32)
    requires Add32(x, a) == Add32(y, a)
    ensures x == y
  {
  }

  /** For a fixed accumulator, combine never maps two different member hashes to the same result. */
  lemma CombineInjective(h1: uint32, a: uint32, b: uint32)
    requires Combine(h1, a) == Combine(h1, b)
    ensures a == b
  {
    Pow2ThirtyTwo();
    var sa := Add32(Add32(Add32(a, GOLDEN), Mul32(h1, 64)), h1 / 4);
    var sb := Add32(Add32(Add32(b, GOLDEN), Mul32(h1, 64)), h1 / 4);
    XorInjective(h1, sa, sb, 32);
    AddInjective(h1 / 4, Add32(Add32(a, GOLDEN), Mul32(h1, 64)), Add32(Add32(b, GOLDEN), Mul32(h1, 64)));
    AddInjective(Mul32(h1, 64), Add32(a, GOLDEN), Add32(b, GOLDEN));
    AddInjective(GOLDEN, a, b);
  }

  /** A member of a hashed struct, by the branch of hashMember that handles it. */
  datatype Member =
    | Text(chars: seq<byte>)        // const char* or char[]: fnv1a over strlen bytes
    | Plain(image: seq<byte>)       // any other type: Hash::of, fnv1a over its sizeof(T) bytes
    | Nested(hash: uint32)          // a Hashable: its own hash()

  /** The bytes strlen counts: everything before the first NUL. */
  function UpToNul(s: seq<byte>): (r: seq<byte>)
    ensures |r| <= |s| && r == s[..|r|]
    ensures forall i :: 0 <= i < |r| ==> r[i] != 0
    ensures |r| < |s| ==> s[|r|] == 0
  {
    if s == [] || s[0] == 0 then [] else [s[0]] + UpToNul(s[1..])
  }

  function HashMember(m: Member): uint32
  {
    match m
    case Text(chars) => FnvFold(FNV_OFFSET, UpToNul(chars))
    case Plain(image) => FnvFold(FNV_OFFSET, image)
    case Nested(h) => h
  }

  /** combineHashes: combine folded over the members in order, from FNV_OFFSET. */
  function CombineHashes(ms: seq<Member>): uint32
    decreases |ms|
  {
    if ms == [] then FNV_OFFSET
    else Combine(CombineHashes(ms[..|ms| - 1]), HashMember(ms[|ms| - 1]))
  }

  /** Adding a member later combines its hash into the hash of the others. */
  lemma CombineHashesSnoc(ms: seq<Member>, m: Member)
    ensures CombineHashes(ms + [m]) == Combine(CombineHashes(ms), HashMember(m))
  {
    assert (ms + [m])[..|ms|] == ms;
  }

  /** Two structs that agree on all members but the last and differ in its hash hash differently. */
  lemma LastMemberChangesHash(ms: seq<Member>, a: Member, b: Member)
    requires HashMember(a) != HashMember(b)
    ensures CombineHashes(ms + [a]) != CombineHashes(ms + [b])
  {
    CombineHashesSnoc(ms, a);
    CombineHashesSnoc(ms, b);
    if CombineHashes(ms + [a]) == CombineHashes(ms + [b]) {
      CombineInjective(CombineHashes(ms), HashMember(a), HashMember(b));
    }
  }

  /**
   * Hashable with IMPLEMENT_HASH: the members of the derived struct, the
   * cached hash and its validity flag.  Members change only through `Set`,
   * which invalidates the cache, so a valid cache always holds the current
   * hash.
   */
  class Hashable {
    var members: seq<Member>
    var cachedHash: uint32
    var hashValid: bool

    /** computeHash as IMPLEMENT_HASH defines it. */
    function ComputeHash(): uint32
      reads this
    {
      CombineHashes(members)
    }

    predicate Valid()
      reads this
    {
      hashValid ==> cachedHash == ComputeHash()
    }

    constructor(ms: seq<Member>)
      ensures members == ms && cachedHash == 0 && !hashValid && Valid()
    {
      members := ms;
      cachedHash := 0;
      hashValid := false;
    }

    method Invalidate()
      modifies this
      ensures members == old(members) && cachedHash == old(cachedHash) && !hashValid && Valid()
    {
      hashValid := false;
    }

    /** hash(): the cached value when valid, otherwise computed and cached. */
    method Hash() returns (h: uint32)
      requires Valid()
      modifies this
      ensures h == ComputeHash() && h == (if old(hashValid) then old(cachedHash) else ComputeHash())
      ensures members == old(members) && hashValid && cachedHash == h && Valid()
    {
      if !hashValid {
        cachedHash := CombineHashes(members);
        hashValid := true;
      }
      h := cachedHash;
    }

    /** hasChanged(): true on first use or when the computed hash differs from the cached one. */
    method HasChanged() returns (changed: bool)
      modifies this
      ensures changed <==> (!old(hashValid) || ComputeHash() != old(cachedHash))
      ensures members == old(members) && hashValid && cachedHash == ComputeHash() && Valid()
    {
      var newHash := CombineHashes(members);
      changed := newHash != cachedHash || !hashValid;
      if changed {
        cachedHash := newHash;
        hashValid := true;
      }
    }

    /** IMPLEMENT_HASH's set(field, newValue): assign and invalidate only when the value differs. */
    method Set(i: nat, m: Member)
      requires i < |members| && Valid()
      modifies this
      ensures members == old(members)[i := m] && cachedHash == old(cachedHash)
      ensures hashValid == (old(hashValid) && old(members)[i] == m) && Valid()
    {
      if members[i] != m {
        members := members[i := m];
        hashValid := false;
      }
    }
  }

  /** hasChanged asked twice in a row: the second answer is always false. */
  method CheckTwice(x: Hashable) returns (first: bool, second: bool)
    modifies x
    ensures first <==> (!old(x.hashValid) || x.ComputeHash() != old(x.cachedHash))
    ensures !second
  {
    first := x.HasChanged();
    second := x.HasChanged();
  }
}
