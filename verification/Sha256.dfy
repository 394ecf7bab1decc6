/** The digest of src/sha256.rs against the recursive definition of FIPS 180-4. */
module Sha256 {
  newtype byte = x: int | 0 <= x < 256

  const TWO32: int := 0x1_0000_0000
  newtype word = x: int | 0 <= x < 0x1_0000_0000

  /** The constants of section 4.2.2 and the initial hash value of section 5.3.3 of FIPS 180-4. */
  const K: seq<word> := K0 + K16 + K32 + K48

  const K0: seq<word> := [
    0x428a2f98, 0x71374491, 0xb5c0fbcf, 0xe9b5dba5, 0x3956c25b, 0x59f111f1, 0x923f82a4, 0xab1c5ed5,
    0xd807aa98, 0x12835b01, 0x243185be, 0x550c7dc3, 0x72be5d74, 0x80deb1fe, 0x9bdc06a7, 0xc19bf174
  ]

  const K16: seq<word> := [
    0xe49b69c1, 0xefbe4786, 0x0fc19dc6, 0x240ca1cc, 0x2de92c6f, 0x4a7484aa, 0x5cb0a9dc, 0x76f988da,
    0x983e5152, 0xa831c66d, 0xb00327c8, 0xbf597fc7, 0xc6e00bf3, 0xd5a79147, 0x06ca6351, 0x14292967
  ]

  const K32: seq<word> := [
    0x27b70a85, 0x2e1b2138, 0x4d2c6dfc, 0x53380d13, 0x650a7354, 0x766a0abb, 0x81c2c92e, 0x92722c85,
    0xa2bfe8a1, 0xa81a664b, 0xc24b8b70, 0xc76c51a3, 0xd192e819, 0xd6990624, 0xf40e3585, 0x106aa070
  ]

  const K48: seq<word> := [
    0x19a4c116, 0x1e376c08, 0x2748774c, 0x34b0bcb5, 0x391c0cb3, 0x4ed8aa4a, 0x5b9cca4f, 0x682e6ff3,
    0x748f82ee, 0x78a5636f, 0x84c87814, 0x8cc70208, 0x90befffa, 0xa4506ceb, 0xbef9a3f7, 0xc67178f2
  ]

  function RoundConstant(t: nat): word
    requires t < 64
  {
    K[t]
  }

  const H0: Hash := Hash(0x6a09e667, 0xbb67ae85, 0x3c6ef372, 0xa54ff53a, 0x510e527f, 0x9b05688c, 0x1f83d9ab, 0x5be0cd19)

  datatype Hash = Hash(a: word, b: word, c: word, d: word, e: word, f: word, g: word, h: word)

  // ----- sections 3.2 and 4.1.2: the operations on words -----

  /** The rotation to the right of section 3.2. */
  function Rotr(x: bv32, n: nat): bv32
    requires 0 < n < 32
  {
    (x >> n) | (x << (32 - n))
  }

  /** Addition modulo 2^32. */
  function Add(x: word, y: word): word {
    ((x as int + y as int) % TWO32) as word
  }

  function Choice(x: bv32, y: bv32, z: bv32): bv32 {
    (x & y) ^ (!x & z)
  }

  function Majority(x: bv32, y: bv32, z: bv32): bv32 {
    (x & y) ^ (x & z) ^ (y & z)
  }

  function Ch(x: word, y: word, z: word): word {
    Choice(x as bv32, y as bv32, z as bv32) as word
  }

  function Maj(x: word, y: word, z: word): word {
    Majority(x as bv32, y as bv32, z as bv32) as word
  }

  /** Where a bit of `x` is set, the bit of `y` is chosen, elsewhere that of `z`. */
  lemma {:induction false} ChoiceChooses(x: bv32, y: bv32, z: bv32)
    ensures Choice(x, y, z) & x == y & x
    ensures Choice(x, y, z) & !x == z & !x
  {
  }

  /** Where `x` and `y` agree they win, elsewhere `z` decides. */
  lemma {:induction false} MajorityWins(x: bv32, y: bv32, z: bv32)
    ensures Majority(x, y, z) & !(x ^ y) == x & !(x ^ y)
    ensures Majority(x, y, z) & (x ^ y) == z & (x ^ y)
  {
  }

  function BigSigma0(x: word): word {
    var x := x as bv32;
    (Rotr(x, 2) ^ Rotr(x, 13) ^ Rotr(x, 22)) as word
  }

  function BigSigma1(x: word): word {
    var x := x as bv32;
    (Rotr(x, 6) ^ Rotr(x, 11) ^ Rotr(x, 25)) as word
  }

  function SmallSigma0(x: word): word {
    var x := x as bv32;
    (Rotr(x, 7) ^ Rotr(x, 18) ^ (x >> 3)) as word
  }

  function SmallSigma1(x: word): word {
    var x := x as bv32;
    (Rotr(x, 17) ^ Rotr(x, 19) ^ (x >> 10)) as word
  }

  lemma {:induction false} AddOfSum(p: nat, w: word, y: word)
    requires w as int == p % TWO32
    ensures Add(w, y) as int == (p + y as int) % TWO32
  {
    var q := p / TWO32;
    assert p == q * TWO32 + w as int;
  }

  /** The source adds the four terms of the schedule in the opposite order. */
  lemma {:induction false} Reordered(a: word, b: word, c: word, d: word)
    ensures Add(Add(Add(a, b), c), d) == Add(Add(Add(d, c), b), a)
  {
    AddOfSum(a as int, a, b);
    AddOfSum(d as int, d, c);
    hide Add;
    AddOfSum(a as int + b as int, Add(a, b), c);
    AddOfSum(d as int + c as int, Add(d, c), b);
    AddOfSum(a as int + b as int + c as int, Add(Add(a, b), c), d);
    AddOfSum(d as int + c as int + b as int, Add(Add(d, c), b), a);
  }

  // ----- section 3.1: big-endian words -----

  function WordOf(b: seq<byte>): word
    requires |b| == 4
  {
    ((b[0] as int) * 0x100_0000 + (b[1] as int) * 0x1_0000 + (b[2] as int) * 0x100 + b[3] as int) as word
  }

  function BytesOf(w: word): (b: seq<byte>)
    ensures |b| == 4
  {
    BigEndian(w as nat, 4)
  }

  /** The last `width` base-256 digits of `n`, most significant first. */
  function BigEndian(n: nat, width: nat): (b: seq<byte>)
    ensures |b| == width
  {
    if width == 0 then [] else BigEndian(n / 256, width - 1) + [(n % 256) as byte]
  }

  function Pow256(width: nat): (p: nat)
    ensures p >= 1
  {
    if width == 0 then 1 else 256 * Pow256(width - 1)
  }

  lemma {:induction false} BigEndianInjective(n: nat, m: nat, width: nat)
    requires n < Pow256(width) && m < Pow256(width) && BigEndian(n, width) == BigEndian(m, width)
    ensures n == m
  {
    if width > 0 {
      var a, b := BigEndian(n / 256, width - 1), BigEndian(m / 256, width - 1);
      var x, y := a + [(n % 256) as byte], b + [(m % 256) as byte];
      assert x == y && a == x[..width - 1] && b == y[..width - 1];
      assert x[width - 1] == y[width - 1];
      BigEndianInjective(n / 256, m / 256, width - 1);
    }
  }

  // ----- section 6.2.2: the recursive definition -----

  ghost function MessageWord(block: seq<byte>, t: nat): word
    requires |block| == 64 && t < 16
  {
    WordOf(block[4 * t..4 * t + 4])
  }

  ghost function Schedule(block: seq<byte>, t: nat): word
    requires |block| == 64 && t < 64
  {
    if t < 16 then MessageWord(block, t)
    else
      Add(Add(Add(SmallSigma1(Schedule(block, t - 2)), Schedule(block, t - 7)), SmallSigma0(Schedule(block, t - 15))),
          Schedule(block, t - 16))
  }

  ghost function T1(v: Hash, k: word, w: word): word {
    Add(Add(Add(Add(v.h, BigSigma1(v.e)), Ch(v.e, v.f, v.g)), k), w)
  }

  ghost function T2(v: Hash): word {
    Add(BigSigma0(v.a), Maj(v.a, v.b, v.c))
  }

  ghost function Round(v: Hash, k: word, w: word): Hash {
    Hash(Add(T1(v, k, w), T2(v)), v.a, v.b, v.c, Add(v.d, T1(v, k, w)), v.e, v.f, v.g)
  }

  ghost function Rounds(start: Hash, block: seq<byte>, t: nat): Hash
    requires |block| == 64 && t <= 64
  {
    if t == 0 then start else Round(Rounds(start, block, t - 1), RoundConstant(t - 1), Schedule(block, t - 1))
  }

  ghost function AddHash(x: Hash, y: Hash): Hash {
    Hash(Add(x.a, y.a), Add(x.b, y.b), Add(x.c, y.c), Add(x.d, y.d),
         Add(x.e, y.e), Add(x.f, y.f), Add(x.g, y.g), Add(x.h, y.h))
  }

  ghost function HashOfBlocks(text: seq<byte>, n: nat): Hash
    requires |text| >= 64 * n
  {
    if n == 0 then H0
    else
      var h := HashOfBlocks(text, n - 1);
      AddHash(h, Rounds(h, text[64 * (n - 1)..64 * n], 64))
  }

  // ----- section 5.1.1: padding -----

  /** A message of `len` bytes, the marker and `k` zeros leave 8 bytes of the last block. */
  predicate LeavesLength(len: nat, k: nat) {
    (len + 1 + k) % 64 == 56
  }

  /** How many zero bytes follow the marker: the least number that leaves 8 bytes of the last block. */
  function Zeros(len: nat): (k: nat)
    ensures LeavesLength(len, k) && forall j: nat :: LeavesLength(len, j) ==> k <= j
  {
    (55 - len) % 64
  }

  function ZeroBytes(k: nat): (z: seq<byte>)
    ensures |z| == k && forall i :: 0 <= i < k ==> z[i] == 0
  {
    seq(k, _ => 0)
  }

  const TWO64: nat := 0x1_0000_0000_0000_0000

  /** The length field: the bit length modulo 2^64. */
  function LengthField(len: nat): (b: seq<byte>)
    ensures |b| == 8
  {
    BigEndian(8 * len % TWO64, 8)
  }

  lemma {:induction false} PaddedLength(len: nat)
    ensures (len + 1 + Zeros(len) + 8) % 64 == 0
  {
    hide Zeros;
    assert LeavesLength(len, Zeros(len));
  }

  function Padded(msg: seq<byte>): (p: seq<byte>)
    ensures |p| % 64 == 0 && |p| > |msg|
  {
    hide LengthField, ZeroBytes, Zeros;
    PaddedLength(|msg|);
    msg + [0x80] + ZeroBytes(Zeros(|msg|)) + LengthField(|msg|)
  }

  ghost function BytesOfAll(words: seq<word>): seq<byte> {
    if words == [] then [] else BytesOfAll(words[..|words| - 1]) + BytesOf(words[|words| - 1])
  }

  ghost function Words(h: Hash): seq<byte> {
    BytesOfAll([h.a, h.b, h.c, h.d, h.e, h.f, h.g, h.h])
  }

  /** The message digest of section 6.2 of FIPS 180-4. */
  ghost function DigestOf(msg: seq<byte>): seq<byte> {
    var p := Padded(msg);
    Words(HashOfBlocks(p, |p| / 64))
  }

  lemma {:induction false} LengthFieldInjective(n: nat, m: nat)
    requires n < 0x2000_0000_0000_0000 && m < 0x2000_0000_0000_0000 && LengthField(n) == LengthField(m)
    ensures n == m
  {
    hide BigEndian;
    assert Pow256(8) == TWO64 by {
      assert Pow256(2) == 0x1_0000;
      assert Pow256(4) == 0x1_0000_0000;
      assert Pow256(6) == 0x1_0000_0000_0000;
    }
    BigEndianInjective(8 * n, 8 * m, 8);
  }

  /** Padding is suffix-free below 2^61 bytes: no padded message ends in another one. In particular it
      is injective. */
  lemma {:induction false} PaddingIsSuffixFree(msg: seq<byte>, other: seq<byte>, front: seq<byte>)
    requires |msg| < 0x2000_0000_0000_0000 && |other| < 0x2000_0000_0000_0000
    ensures Padded(msg) == front + Padded(other) ==> front == [] && msg == other
  {
    hide LengthField, ZeroBytes, Zeros;
    var p, q := Padded(msg), Padded(other);
    if p == front + q {
      assert p[|p| - 8..] == LengthField(|msg|) && q[|q| - 8..] == LengthField(|other|);
      assert p[|p| - 8..] == q[|q| - 8..];
      LengthFieldInjective(|msg|, |other|);
      assert |p| == |q|;
      assert msg == p[..|msg|] && other == q[..|other|];
    }
  }

  // ----- the code -----

  lemma {:induction false} ScheduleStart(block: seq<byte>, t: nat)
    requires |block| == 64 && t < 16
    ensures Schedule(block, t) == WordOf(block[4 * t..4 * t + 4])
  {
  }

  lemma {:induction false} ScheduleStep(block: seq<byte>, t: nat)
    requires |block| == 64 && 16 <= t < 64
    ensures Schedule(block, t)
      == Add(Add(Add(Schedule(block, t - 16), SmallSigma0(Schedule(block, t - 15))), Schedule(block, t - 7)),
             SmallSigma1(Schedule(block, t - 2)))
  {
    hide SmallSigma0, SmallSigma1, Add;
    Reordered(Schedule(block, t - 16), SmallSigma0(Schedule(block, t - 15)), Schedule(block, t - 7),
              SmallSigma1(Schedule(block, t - 2)));
  }

  method Compress(state: array<word>, block: seq<byte>)
    requires state.Length == 8 && |block| == 64
    modifies state
    ensures HashIn(state) == AddHash(old(HashIn(state)), Rounds(old(HashIn(state)), block, 64))
  {
    hide Schedule, BigSigma0, BigSigma1, Ch, Maj, Add, RoundConstant;
    var w := new word[64];
    FillSchedule(w, block);
    var a, b, c, d := state[0], state[1], state[2], state[3];
    var e, f, g, h := state[4], state[5], state[6], state[7];
    ghost var start := HashIn(state);
    for i := 0 to 64
      invariant forall t: nat :: t < 64 ==> w[t] == Schedule(block, t)
      invariant Hash(a, b, c, d, e, f, g, h) == Rounds(start, block, i)
      invariant HashIn(state) == start
    {
      ghost var was := Hash(a, b, c, d, e, f, g, h);
      var s1 := BigSigma1(e);
      var ch := Ch(e, f, g);
      var t1 := Add(Add(Add(Add(h, s1), ch), RoundConstant(i)), w[i]);
      assert t1 == T1(was, RoundConstant(i), Schedule(block, i));
      var s0 := BigSigma0(a);
      var maj := Maj(a, b, c);
      var t2 := Add(s0, maj);
      assert t2 == T2(was);
      h := g;
      g := f;
      f := e;
      e := Add(d, t1);
      d := c;
      c := b;
      b := a;
      a := Add(t1, t2);
    }
    state[0] := Add(state[0], a);
    state[1] := Add(state[1], b);
    state[2] := Add(state[2], c);
    state[3] := Add(state[3], d);
    state[4] := Add(state[4], e);
    state[5] := Add(state[5], f);
    state[6] := Add(state[6], g);
    state[7] := Add(state[7], h);
  }

  ghost function HashIn(state: array<word>): Hash
    requires state.Length == 8
    reads state
  {
    Hash(state[0], state[1], state[2], state[3], state[4], state[5], state[6], state[7])
  }

  /** The two loops that fill the message schedule in place. */
  method FillSchedule(w: array<word>, block: seq<byte>)
    requires w.Length == 64 && |block| == 64
    modifies w
    ensures forall t: nat :: t < 64 ==> w[t] == Schedule(block, t)
  {
    hide Schedule, SmallSigma0, SmallSigma1, Add, WordOf;
    for i := 0 to 16
      invariant forall t: nat :: t < i ==> w[t] == Schedule(block, t)
    {
      ScheduleStart(block, i);
      w[i] := WordOf([block[i * 4], block[i * 4 + 1], block[i * 4 + 2], block[i * 4 + 3]]);
      assert block[4 * i..4 * i + 4] == [block[i * 4], block[i * 4 + 1], block[i * 4 + 2], block[i * 4 + 3]];
    }
    for i := 16 to 64
      invariant forall t: nat :: t < i ==> w[t] == Schedule(block, t)
    {
      var s0 := SmallSigma0(w[i - 15]);
      var s1 := SmallSigma1(w[i - 2]);
      ScheduleStep(block, i);
      w[i] := Add(Add(Add(w[i - 16], s0), w[i - 7]), s1);
    }
  }

  /** The padding loop runs exactly as often as needed. */
  method Pad(data: seq<byte>) returns (buf: seq<byte>)
    ensures buf == Padded(data)
  {
    hide LengthField;
    buf := data + [0x80];
    ghost var zeros := 0;
    while |buf| % 64 != 56
      invariant zeros <= Zeros(|data|) && buf == data + [0x80] + ZeroBytes(zeros)
      decreases Zeros(|data|) - zeros
    {
      assert LeavesLength(|data|, Zeros(|data|));
      buf := buf + [0];
      zeros := zeros + 1;
    }
    assert LeavesLength(|data|, zeros);
    buf := buf + LengthField(|data|);
  }

  /** The digest equals the recursive definition, on every input. */
  method Digest(data: seq<byte>) returns (out: seq<byte>)
    ensures out == DigestOf(data)
  {
    hide Padded, Words, Rounds, AddHash;
    var state := new word[8] [H0.a, H0.b, H0.c, H0.d, H0.e, H0.f, H0.g, H0.h];
    var buf := Pad(data);
    var n := |buf| / 64;
    for i := 0 to n
      invariant HashIn(state) == HashOfBlocks(buf, i)
    {
      var block := buf[64 * i..64 * i + 64];
      assert block == buf[64 * i..64 * (i + 1)];
      Compress(state, block);
    }
    out := Output(state);
  }

  method Output(state: array<word>) returns (out: seq<byte>)
    requires state.Length == 8
    ensures out == Words(HashIn(state))
  {
    hide BytesOf;
    var all := state[..];
    ghost var h := HashIn(state);
    assert all == [h.a, h.b, h.c, h.d, h.e, h.f, h.g, h.h];
    out := [];
    for i := 0 to 8
      invariant out == BytesOfAll(all[..i])
    {
      assert all[..i + 1][..i] == all[..i];
      out := out + BytesOf(state[i]);
    }
    assert all[..8] == all;
  }

  // ----- sections 4.2.2 and 5.3.3: where the constants come from -----

  const PRIMES: seq<int> := PRIMES0 + PRIMES16 + PRIMES32 + PRIMES48

  const PRIMES0: seq<int> := [2, 3, 5, 7, 11, 13, 17, 19, 23, 29, 31, 37, 41, 43, 47, 53]
  const PRIMES16: seq<int> := [59, 61, 67, 71, 73, 79, 83, 89, 97, 101, 103, 107, 109, 113, 127, 131]
  const PRIMES32: seq<int> := [137, 139, 149, 151, 157, 163, 167, 173, 179, 181, 191, 193, 197, 199, 211, 223]
  const PRIMES48: seq<int> := [227, 229, 233, 239, 241, 251, 257, 263, 269, 271, 277, 281, 283, 293, 307, 311]

  function Cube(x: int): int { x * x * x }

  /** `k` holds the first 32 bits after the point of the cube root of `p`. */
  ghost predicate CubeRootBits(p: int, k: int) {
    exists whole: nat :: Cube(whole * TWO32 + k) <= p * Cube(TWO32) < Cube(whole * TWO32 + k + 1)
  }

  /** The same for the square root. */
  ghost predicate SquareRootBits(p: int, k: int) {
    exists whole: nat ::
      (whole * TWO32 + k) * (whole * TWO32 + k) <= p * TWO32 * TWO32 < (whole * TWO32 + k + 1) * (whole * TWO32 + k + 1)
  }

  lemma {:induction false} CubeRoot(p: int, whole: nat, k: int)
    requires Cube(whole * TWO32 + k) <= p * Cube(TWO32) < Cube(whole * TWO32 + k + 1)
    ensures CubeRootBits(p, k)
  {
  }

  lemma {:induction false} SquareRoot(p: int, whole: nat, k: int)
    requires
      (whole * TWO32 + k) * (whole * TWO32 + k) <= p * TWO32 * TWO32 < (whole * TWO32 + k + 1) * (whole * TWO32 + k + 1)
    ensures SquareRootBits(p, k)
  {
  }

  lemma {:induction false} CubeRoots0(t: nat)
    requires t < 16
    ensures |PRIMES0| == |K0| == 16 && CubeRootBits(PRIMES0[t], K0[t] as int)
  {
    hide CubeRootBits;
    match t
    case 0 => CubeRoot(2, 1, 0x428a2f98);
    case 1 => CubeRoot(3, 1, 0x71374491);
    case 2 => CubeRoot(5, 1, 0xb5c0fbcf);
    case 3 => CubeRoot(7, 1, 0xe9b5dba5);
    case 4 => CubeRoot(11, 2, 0x3956c25b);
    case 5 => CubeRoot(13, 2, 0x59f111f1);
    case 6 => CubeRoot(17, 2, 0x923f82a4);
    case 7 => CubeRoot(19, 2, 0xab1c5ed5);
    case 8 => CubeRoot(23, 2, 0xd807aa98);
    case 9 => CubeRoot(29, 3, 0x12835b01);
    case 10 => CubeRoot(31, 3, 0x243185be);
    case 11 => CubeRoot(37, 3, 0x550c7dc3);
    case 12 => CubeRoot(41, 3, 0x72be5d74);
    case 13 => CubeRoot(43, 3, 0x80deb1fe);
    case 14 => CubeRoot(47, 3, 0x9bdc06a7);
    case 15 => CubeRoot(53, 3, 0xc19bf174);
  }

  lemma {:induction false} CubeRoots16(t: nat)
    requires t < 16
    ensures |PRIMES16| == |K16| == 16 && CubeRootBits(PRIMES16[t], K16[t] as int)
  {
    hide CubeRootBits;
    match t
    case 0 => CubeRoot(59, 3, 0xe49b69c1);
    case 1 => CubeRoot(61, 3, 0xefbe4786);
    case 2 => CubeRoot(67, 4, 0x0fc19dc6);
    case 3 => CubeRoot(71, 4, 0x240ca1cc);
    case 4 => CubeRoot(73, 4, 0x2de92c6f);
    case 5 => CubeRoot(79, 4, 0x4a7484aa);
    case 6 => CubeRoot(83, 4, 0x5cb0a9dc);
    case 7 => CubeRoot(89, 4, 0x76f988da);
    case 8 => CubeRoot(97, 4, 0x983e5152);
    case 9 => CubeRoot(101, 4, 0xa831c66d);
    case 10 => CubeRoot(103, 4, 0xb00327c8);
    case 11 => CubeRoot(107, 4, 0xbf597fc7);
    case 12 => CubeRoot(109, 4, 0xc6e00bf3);
    case 13 => CubeRoot(113, 4, 0xd5a79147);
    case 14 => CubeRoot(127, 5, 0x06ca6351);
    case 15 => CubeRoot(131, 5, 0x14292967);
  }

  lemma {:induction false} CubeRoots32(t: nat)
    requires t < 16
    ensures |PRIMES32| == |K32| == 16 && CubeRootBits(PRIMES32[t], K32[t] as int)
  {
    hide CubeRootBits;
    match t
    case 0 => CubeRoot(137, 5, 0x27b70a85);
    case 1 => CubeRoot(139, 5, 0x2e1b2138);
    case 2 => CubeRoot(149, 5, 0x4d2c6dfc);
    case 3 => CubeRoot(151, 5, 0x53380d13);
    case 4 => CubeRoot(157, 5, 0x650a7354);
    case 5 => CubeRoot(163, 5, 0x766a0abb);
    case 6 => CubeRoot(167, 5, 0x81c2c92e);
    case 7 => CubeRoot(173, 5, 0x92722c85);
    case 8 => CubeRoot(179, 5, 0xa2bfe8a1);
    case 9 => CubeRoot(181, 5, 0xa81a664b);
    case 10 => CubeRoot(191, 5, 0xc24b8b70);
    case 11 => CubeRoot(193, 5, 0xc76c51a3);
    case 12 => CubeRoot(197, 5, 0xd192e819);
    case 13 => CubeRoot(199, 5, 0xd6990624);
    case 14 => CubeRoot(211, 5, 0xf40e3585);
    case 15 => CubeRoot(223, 6, 0x106aa070);
  }

  lemma {:induction false} CubeRoots48(t: nat)
    requires t < 16
    ensures |PRIMES48| == |K48| == 16 && CubeRootBits(PRIMES48[t], K48[t] as int)
  {
    hide CubeRootBits;
    match t
    case 0 => CubeRoot(227, 6, 0x19a4c116);
    case 1 => CubeRoot(229, 6, 0x1e376c08);
    case 2 => CubeRoot(233, 6, 0x2748774c);
    case 3 => CubeRoot(239, 6, 0x34b0bcb5);
    case 4 => CubeRoot(241, 6, 0x391c0cb3);
    case 5 => CubeRoot(251, 6, 0x4ed8aa4a);
    case 6 => CubeRoot(257, 6, 0x5b9cca4f);
    case 7 => CubeRoot(263, 6, 0x682e6ff3);
    case 8 => CubeRoot(269, 6, 0x748f82ee);
    case 9 => CubeRoot(271, 6, 0x78a5636f);
    case 10 => CubeRoot(277, 6, 0x84c87814);
    case 11 => CubeRoot(281, 6, 0x8cc70208);
    case 12 => CubeRoot(283, 6, 0x90befffa);
    case 13 => CubeRoot(293, 6, 0xa4506ceb);
    case 14 => CubeRoot(307, 6, 0xbef9a3f7);
    case 15 => CubeRoot(311, 6, 0xc67178f2);
  }

  lemma {:induction false} Quarters<T>(a: seq<T>, b: seq<T>, c: seq<T>, d: seq<T>, t: nat)
    requires |a| == |b| == |c| == |d| == 16 && t < 64
    ensures (a + b + c + d)[t] ==
      if t < 16 then a[t] else if t < 32 then b[t - 16] else if t < 48 then c[t - 32] else d[t - 48]
  {
  }

  /** The round constants are those of the first sixty-four primes. */
  lemma {:induction false} ConstantsAreCubeRoots(t: nat)
    requires t < 64
    ensures |PRIMES| == |K| == 64 && CubeRootBits(PRIMES[t], RoundConstant(t) as int)
  {
    hide CubeRootBits, K0, K16, K32, K48, PRIMES0, PRIMES16, PRIMES32, PRIMES48;
    CubeRoots0(t % 16);
    CubeRoots16(t % 16);
    CubeRoots32(t % 16);
    CubeRoots48(t % 16);
    Quarters(K0, K16, K32, K48, t);
    Quarters(PRIMES0, PRIMES16, PRIMES32, PRIMES48, t);
  }

  /** The initial hash value is that of the first eight primes. */
  lemma {:induction false} StartIsSquareRoots()
    ensures SquareRootBits(2, H0.a as int)
    ensures SquareRootBits(3, H0.b as int)
    ensures SquareRootBits(5, H0.c as int)
    ensures SquareRootBits(7, H0.d as int)
    ensures SquareRootBits(11, H0.e as int)
    ensures SquareRootBits(13, H0.f as int)
    ensures SquareRootBits(17, H0.g as int)
    ensures SquareRootBits(19, H0.h as int)
  {
    SquareRoot(2, 1, 0x6a09e667);
    SquareRoot(3, 1, 0xbb67ae85);
    SquareRoot(5, 2, 0x3c6ef372);
    SquareRoot(7, 2, 0xa54ff53a);
    SquareRoot(11, 3, 0x510e527f);
    SquareRoot(13, 3, 0x9b05688c);
    SquareRoot(17, 4, 0x1f83d9ab);
    SquareRoot(19, 4, 0x5be0cd19);
  }

  /** What the four sigmas of section 4.1.2 make of the first and of the last bit of a word: these two
      show how far each of their parts rotates, and which of them shifts. */
  lemma {:induction false} SigmaAmounts()
    ensures BigSigma0(0x8000_0000) == 0x20040200 && BigSigma0(1) == 0x40080400
    ensures BigSigma1(0x8000_0000) == 0x02100040 && BigSigma1(1) == 0x04200080
    ensures SmallSigma0(0x8000_0000) == 0x11002000 && SmallSigma0(1) == 0x02004000
    ensures SmallSigma1(0x8000_0000) == 0x00205000 && SmallSigma1(1) == 0x0000a000
  {
  }
}
