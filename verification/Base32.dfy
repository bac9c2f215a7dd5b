/** The CID encoder: a 64-bit buffer that lets its high bits fall off, against
    the 5-bit groups of the input's bit string (section 6 of RFC 4648). */
module Base32 {
  import opened Records

  const U64: nat := 18446744073709551616
  const MAX_INLINE_CID_SIZE: nat := 262144
  const ALPHABET: string := "abcdefghijklmnopqrstuvwxyz234567"

  type Bits = seq<nat>

  predicate IsBits(b: Bits) { forall k :: 0 <= k < |b| ==> b[k] < 2 }

  predicate AllBytes(s: Bytes) { forall k :: 0 <= k < |s| ==> s[k] < 256 }

  function Pow2(n: nat): (p: nat)
    ensures p >= 1
  {
    if n == 0 then 1 else 2 * Pow2(n - 1)
  }

  // ---- the encoding, as a specification ----

  function Num(b: Bits): nat { if b == [] then 0 else 2 * Num(b[..|b| - 1]) + b[|b| - 1] }

  /** A byte's eight bits, most significant first. */
  function ByteBits(x: nat): (b: Bits)
    ensures |b| == 8 && IsBits(b)
  {
    [x / 128 % 2, x / 64 % 2, x / 32 % 2, x / 16 % 2, x / 8 % 2, x / 4 % 2, x / 2 % 2, x % 2]
  }

  function BitString(s: Bytes): (b: Bits)
    ensures |b| == 8 * |s| && IsBits(b)
  {
    if s == [] then [] else ByteBits(s[0]) + BitString(s[1..])
  }

  function Zeros(n: nat): (z: Bits)
    ensures |z| == n && IsBits(z) && forall k :: 0 <= k < n ==> z[k] == 0
  {
    seq(n, _ => 0)
  }

  /** The 5-bit groups of a bit string, the last one padded with zeros. */
  function Groups(b: Bits): (g: seq<nat>)
    ensures |g| == (|b| + 4) / 5
  {
    if b == [] then []
    else if |b| < 5 then [Num(b + Zeros(5 - |b|))]
    else [Num(b[..5])] + Groups(b[5..])
  }

  function Digit(v: nat): char { if v < 32 then ALPHABET[v] else ALPHABET[0] }

  function Chars(g: seq<nat>): (s: string)
    ensures |s| == |g| && forall k :: 0 <= k < |s| ==> s[k] == Digit(g[k])
  {
    seq(|g|, k requires 0 <= k < |g| => Digit(g[k]))
  }

  /** Multibase prefix, then one letter a group. */
  function Encoded(s: Bytes): string { "b" + Chars(Groups(BitString(s))) }

  // ---- numbers of bit strings ----

  lemma {:induction false} NumConcat(a: Bits, b: Bits)
    ensures Num(a + b) == Num(a) * Pow2(|b|) + Num(b)
    decreases |b|
  {
    if b == [] {
      assert a + b == a;
    } else {
      var n := |b| - 1;
      NumConcat(a, b[..n]);
      assert (a + b)[..|a + b| - 1] == a + b[..n];
      assert 2 * (Num(a) * Pow2(n)) == Num(a) * Pow2(n + 1);
    }
  }

  lemma {:induction false} NumBound(b: Bits)
    requires IsBits(b)
    ensures Num(b) < Pow2(|b|)
    decreases |b|
  {
    if b != [] { NumBound(b[..|b| - 1]); }
  }

  lemma {:induction false} NumZeros(n: nat)
    ensures Num(Zeros(n)) == 0
    decreases n
  {
    if n > 0 {
      NumZeros(n - 1);
      assert Zeros(n)[..n - 1] == Zeros(n - 1);
    }
  }

  lemma SmallPowers()
    ensures Pow2(0) == 1 && Pow2(1) == 2 && Pow2(2) == 4 && Pow2(3) == 8 && Pow2(4) == 16 && Pow2(5) == 32 && Pow2(6) == 64
    ensures Pow2(7) == 128 && Pow2(8) == 256 && Pow2(9) == 512 && Pow2(10) == 1024 && Pow2(11) == 2048 && Pow2(12) == 4096
  { }

  lemma FiveDigits(b: Bits)
    requires |b| == 5
    ensures Num(b) == 16 * b[0] + 8 * b[1] + 4 * b[2] + 2 * b[3] + b[4]
  {
    assert b[..4][..3] == b[..3] && b[..3][..2] == b[..2] && b[..2][..1] == b[..1] && b[..1][..0] == [];
    assert Num(b[..1]) == b[0];
    assert Num(b[..2]) == 2 * b[0] + b[1];
    assert Num(b[..3]) == 4 * b[0] + 2 * b[1] + b[2];
    assert Num(b[..4]) == 8 * b[0] + 4 * b[1] + 2 * b[2] + b[3];
  }

  lemma ByteIsItsBits(x: nat)
    requires x < 256
    ensures Num(ByteBits(x)) == x
  {
    var b := ByteBits(x);
    assert b[..0] == [] && b[..8] == b;
    Halves(x);
    NumHalf(b, 0, x / 128);
    NumHalf(b, 1, x / 64);
    NumHalf(b, 2, x / 32);
    NumHalf(b, 3, x / 16);
    NumHalf(b, 4, x / 8);
    NumHalf(b, 5, x / 4);
    NumHalf(b, 6, x / 2);
    NumHalf(b, 7, x);
  }

  lemma Halves(x: nat)
    requires x < 256
    ensures x / 128 / 2 == 0 && x / 64 / 2 == x / 128 && x / 32 / 2 == x / 64 && x / 16 / 2 == x / 32
    ensures x / 8 / 2 == x / 16 && x / 4 / 2 == x / 8 && x / 2 / 2 == x / 4
  { }

  /** Appending the last bit of `y` to the bits of its half gives `y`. */
  lemma NumHalf(b: Bits, k: nat, y: nat)
    requires k < |b| && Num(b[..k]) == y / 2 && b[k] == y % 2
    ensures Num(b[..k + 1]) == y
  {
    assert b[..k + 1][..k] == b[..k];
  }

  // ---- the buffer ----

  lemma AtLeastOnce(d: int, m: int)
    requires d >= 1 && m >= 0
    ensures d * m >= m
  { }

  lemma ModIs(x: int, q: int, m: nat, r: nat)
    requires r < m && x == q * m + r
    ensures x % m == r && x / m == q
  {
    assert (x / m - q) * m == r - x % m;
    var d := x / m - q;
    if d >= 1 { AtLeastOnce(d, m); } else if d <= -1 { AtLeastOnce(-d, m); }
  }

  lemma ShiftMod(buffer: nat, byte: nat, m: nat, k: nat)
    requires m > 0 && byte < 256 && k * (256 * m) == U64
    ensures (buffer * 256 % U64 + byte) % (256 * m) == buffer % m * 256 + byte
  {
    var q, r, t := buffer / m, buffer % m, buffer * 256 / U64;
    assert buffer == q * m + r;
    assert buffer * 256 == q * (256 * m) + r * 256;
    assert buffer * 256 % U64 == buffer * 256 - t * U64;
    assert t * U64 == (t * k) * (256 * m);
    assert q * (256 * m) - (t * k) * (256 * m) == (q - t * k) * (256 * m);
    ModIs(buffer * 256 % U64 + byte, q - t * k, 256 * m, r * 256 + byte);
  }

  /** Shifting a byte in keeps the low bits, whatever falls off the top. */
  lemma ShiftIn(buffer: nat, bits: nat, byte: nat)
    requires bits < 5 && byte < 256
    ensures (buffer * 256 % U64 + byte) % Pow2(bits + 8) == buffer % Pow2(bits) * 256 + byte
  {
    SmallPowers();
    var m := Pow2(bits);
    var k := if bits == 0 then 72057594037927936 else if bits == 1 then 36028797018963968 else if bits == 2 then 18014398509481984
             else if bits == 3 then 9007199254740992 else 4503599627370496;
    assert k * (256 * m) == U64 && Pow2(bits + 8) == 256 * m;
    ShiftMod(buffer, byte, m, k);
  }

  lemma TakeMod(buffer: nat, m: nat, hi: nat, lo: nat)
    requires m > 0 && lo < m && hi < 32 && buffer % (32 * m) == hi * m + lo
    ensures buffer / m % 32 == hi && buffer % m == lo
  {
    var q := buffer / (32 * m);
    ModIs(buffer, 32 * q + hi, m, lo);
  }

  /** The top five of the low `bits` bits, and what stays. */
  lemma TakeFive(buffer: nat, bits: nat, hi: nat, lo: nat)
    requires 5 <= bits <= 12 && lo < Pow2(bits - 5) && hi < 32 && buffer % Pow2(bits) == hi * Pow2(bits - 5) + lo
    ensures buffer / Pow2(bits - 5) % 32 == hi && buffer % Pow2(bits - 5) == lo
  {
    PowFive(bits - 5);
    TakeMod(buffer, Pow2(bits - 5), hi, lo);
  }

  lemma PowFive(n: nat)
    ensures Pow2(n + 5) == 32 * Pow2(n)
  {
    assert Pow2(n + 1) == 2 * Pow2(n) && Pow2(n + 2) == 4 * Pow2(n) && Pow2(n + 3) == 8 * Pow2(n) && Pow2(n + 4) == 16 * Pow2(n);
  }

  lemma PadMod(buffer: nat, b: nat, p: nat)
    requires b > 0 && p > 0 && b * p == 32
    ensures buffer * p % U64 % 32 == buffer % b * p
  {
    var q, r, t := buffer / b, buffer % b, buffer * p / U64;
    assert buffer * p == q * 32 + r * p;
    assert buffer * p % U64 == buffer * p - t * U64;
    ModIs(buffer * p % U64, q - t * 576460752303423488, 32, r * p);
  }

  lemma PadLeft(buffer: nat, bits: nat)
    requires 1 <= bits <= 4
    ensures buffer * Pow2(5 - bits) % U64 % 32 == buffer % Pow2(bits) * Pow2(5 - bits)
  {
    SmallPowers();
    assert Pow2(bits) * Pow2(5 - bits) == 32 by {
      if bits == 1 { } else if bits == 2 { } else if bits == 3 { } else { assert bits == 4; }
    }
    PadMod(buffer, Pow2(bits), Pow2(5 - bits));
  }

  lemma {:induction false} BitStringPush(s: Bytes, x: nat)
    ensures BitString(s + [x]) == BitString(s) + ByteBits(x)
    decreases |s|
  {
    if s == [] {
      assert [x][1..] == [] && s + [x] == [x];
    } else {
      BitStringPush(s[1..], x);
      assert (s + [x])[1..] == s[1..] + [x] && (s + [x])[0] == s[0];
    }
  }

  /** Whole groups split off from the left. */
  lemma {:induction false} GroupsConcat(full: Bits, rest: Bits)
    requires |full| % 5 == 0
    ensures Groups(full + rest) == Groups(full) + Groups(rest)
    decreases |full|
  {
    if full == [] {
      assert full + rest == rest;
    } else {
      GroupsConcat(full[5..], rest);
      assert (full + rest)[..5] == full[..5] && (full + rest)[5..] == full[5..] + rest;
      assert Groups(full + rest) == [Num(full[..5])] + Groups(full[5..] + rest);
      assert Groups(full) == [Num(full[..5])] + Groups(full[5..]);
    }
  }

  lemma GroupPush(full: Bits, five: Bits, result: string, c: char)
    requires |full| % 5 == 0 && |five| == 5 && result == "b" + Chars(Groups(full)) && c == Digit(Num(five))
    ensures result + [c] == "b" + Chars(Groups(full + five))
  {
    GroupsConcat(full, five);
    assert five[..5] == five && five[5..] == [];
    assert Groups(five) == [Num(five)];
    assert Chars(Groups(full) + [Num(five)]) == Chars(Groups(full)) + [c];
  }

  lemma FirstFive(buffer: nat, five: Bits, rest: Bits)
    requires |five| == 5 && |rest| <= 7 && IsBits(five) && IsBits(rest) && buffer % Pow2(5 + |rest|) == Num(five + rest)
    ensures buffer / Pow2(|rest|) % 32 == Num(five) && buffer % Pow2(|rest|) == Num(rest)
  {
    NumConcat(five, rest);
    NumBound(five);
    NumBound(rest);
    SmallPowers();
    TakeFive(buffer, 5 + |rest|, Num(five), Num(rest));
  }

  /** The inner loop: emit groups while five bits are pending. */
  method Drain(buffer: nat, bits: nat, result: string, ghost full: Bits, ghost pending: Bits)
    returns (bits': nat, result': string, ghost full': Bits, ghost pending': Bits)
    requires 8 <= bits <= 12 && bits == |pending| && IsBits(pending) && |full| % 5 == 0
    requires buffer % Pow2(bits) == Num(pending) && result == "b" + Chars(Groups(full))
    ensures bits' < 5 && bits' == |pending'| && IsBits(pending') && |full'| % 5 == 0 && full' + pending' == full + pending
    ensures buffer % Pow2(bits') == Num(pending') && result' == "b" + Chars(Groups(full'))
  {
    bits', result', full', pending' := bits, result, full, pending;
    while bits' >= 5
      invariant bits' <= 12 && bits' == |pending'| && IsBits(pending') && |full'| % 5 == 0 && full' + pending' == full + pending
      invariant buffer % Pow2(bits') == Num(pending') && result' == "b" + Chars(Groups(full'))
    {
      bits', result', full', pending' := Emit(buffer, bits', result', full', pending');
    }
  }

  lemma StillWhole(full: Bits, five: Bits)
    requires |full| % 5 == 0 && |five| == 5
    ensures |full + five| % 5 == 0
  { }

  /** One letter for the top five pending bits. */
  method Emit(buffer: nat, bits: nat, result: string, ghost full: Bits, ghost pending: Bits)
    returns (bits': nat, result': string, ghost full': Bits, ghost pending': Bits)
    requires 5 <= bits <= 12 && bits == |pending| && IsBits(pending) && |full| % 5 == 0
    requires buffer % Pow2(bits) == Num(pending) && result == "b" + Chars(Groups(full))
    ensures bits' == bits - 5 && bits' == |pending'| && IsBits(pending') && |full'| % 5 == 0 && full' + pending' == full + pending
    ensures buffer % Pow2(bits') == Num(pending') && result' == "b" + Chars(Groups(full'))
  {
    full', pending' := full + pending[..5], pending[5..];
    bits' := bits - 5;
    var index := buffer / Pow2(bits') % 32;
    EmitMoves(buffer, result, full, pending, index);
    result' := result + [ALPHABET[index]];
  }

  lemma EmitMoves(buffer: nat, result: string, full: Bits, pending: Bits, index: nat)
    requires 5 <= |pending| <= 12 && IsBits(pending) && |full| % 5 == 0 && buffer % Pow2(|pending|) == Num(pending)
    requires result == "b" + Chars(Groups(full)) && index == buffer / Pow2(|pending| - 5) % 32
    ensures |full + pending[..5]| % 5 == 0 && full + pending[..5] + pending[5..] == full + pending
    ensures buffer % Pow2(|pending| - 5) == Num(pending[5..]) && index < 32
    ensures result + [ALPHABET[index]] == "b" + Chars(Groups(full + pending[..5]))
  {
    StillWhole(full, pending[..5]);
    assert pending == pending[..5] + pending[5..];
    FirstFive(buffer, pending[..5], pending[5..]);
    GroupPush(full, pending[..5], result, ALPHABET[index]);
  }

  method Feed(buffer: nat, bits: nat, byte: nat, ghost pending: Bits) returns (buffer': nat)
    requires bits < 5 && byte < 256 && bits == |pending| && buffer % Pow2(bits) == Num(pending)
    ensures buffer' < U64 && buffer' % Pow2(bits + 8) == Num(pending + ByteBits(byte))
  {
    ShiftIn(buffer, bits, byte);
    ByteIsItsBits(byte);
    NumConcat(pending, ByteBits(byte));
    SmallPowers();
    buffer' := buffer * 256 % U64 + byte;
    BufferFits(buffer', byte);
  }

  method Finish(buffer: nat, bits: nat, result: string, ghost full: Bits, ghost pending: Bits) returns (result': string)
    requires bits < 5 && bits == |pending| && |full| % 5 == 0 && buffer % Pow2(bits) == Num(pending)
    requires result == "b" + Chars(Groups(full))
    ensures result' == "b" + Chars(Groups(full + pending))
  {
    GroupsConcat(full, pending);
    result' := result;
    if bits > 0 {
      PadLeft(buffer, bits);
      NumConcat(pending, Zeros(5 - bits));
      NumZeros(5 - bits);
      var index := buffer * Pow2(5 - bits) % U64 % 32;
      assert Groups(pending) == [index];
      assert Chars(Groups(full) + [index]) == Chars(Groups(full)) + [ALPHABET[index]];
      result' := result' + [ALPHABET[index]];
    } else {
      assert Groups(full) + [] == Groups(full);
    }
  }

  lemma NextByte(input: Bytes, k: nat, full: Bits, pending: Bits)
    requires k < |input| && full + pending == BitString(input[..k])
    ensures full + (pending + ByteBits(input[k])) == BitString(input[..k + 1])
  {
    BitStringPush(input[..k], input[k]);
    assert input[..k + 1] == input[..k] + [input[k]];
    assert full + (pending + ByteBits(input[k])) == full + pending + ByteBits(input[k]);
  }

  /** `encode_base32_multibase`: for every byte string, the 5-bit groups of its
      bits, although the buffer keeps only 64 of them. */
  method EncodeBase32Multibase(input: Bytes) returns (result: string)
    requires AllBytes(input)
    ensures result == Encoded(input)
  {
    result := "b";
    var buffer, bits := 0, 0;
    ghost var full: Bits, pending: Bits := [], [];
    assert Chars(Groups([])) == "";
    for k := 0 to |input|
      invariant buffer >= 0 && 0 <= bits < 5 && bits == |pending| && IsBits(pending) && |full| % 5 == 0
      invariant full + pending == BitString(input[..k])
      invariant buffer % Pow2(bits) == Num(pending) && result == "b" + Chars(Groups(full))
    {
      NextByte(input, k, full, pending);
      buffer := Feed(buffer, bits, input[k], pending);
      bits, result, full, pending := Drain(buffer, bits + 8, result, full, pending + ByteBits(input[k]));
    }
    assert input[..|input|] == input;
    result := Finish(buffer, bits, result, full, pending);
  }

  lemma BufferFits(buffer: nat, byte: nat)
    requires byte < 256 && exists b: nat :: buffer == b * 256 % U64 + byte
    ensures buffer < U64
  {
    var b: nat :| buffer == b * 256 % U64 + byte;
    assert b * 256 % U64 % 256 == 0;
  }

  /** One letter for the prefix and one for every five bits begun. */
  lemma EncodedLength(s: Bytes)
    ensures |Encoded(s)| == 1 + (8 * |s| + 4) / 5
  { }

  // ---- decoding ----

  function IndexOf(c: char): nat {
    if 'a' <= c <= 'z' then c as nat - 'a' as nat else if '2' <= c <= '7' then c as nat - '2' as nat + 26 else 0
  }

  function FiveBits(v: nat): (b: Bits)
    ensures |b| == 5 && IsBits(b)
  {
    [v / 16 % 2, v / 8 % 2, v / 4 % 2, v / 2 % 2, v % 2]
  }

  function Unpacked(s: string): (b: Bits)
    ensures |b| == 5 * |s|
  {
    if s == "" then [] else FiveBits(IndexOf(s[0])) + Unpacked(s[1..])
  }

  function WholeBytes(b: Bits): Bytes {
    if |b| < 8 then [] else [Num(b[..8])] + WholeBytes(b[8..])
  }

  /** Drop the prefix, concatenate the 5-bit groups, keep the whole bytes. */
  function Decoded(s: string): Bytes { if s == "" then [] else WholeBytes(Unpacked(s[1..])) }

  lemma DigitIndex(v: nat)
    requires v < 32
    ensures IndexOf(Digit(v)) == v
  {
    assert ALPHABET[..26] == "abcdefghijklmnopqrstuvwxyz" && ALPHABET[26..] == "234567";
    if v >= 26 { assert ALPHABET[v] == ALPHABET[26..][v - 26]; }
  }

  lemma FiveBack(a: nat, b: nat, c: nat, d: nat, e: nat)
    requires a < 2 && b < 2 && c < 2 && d < 2 && e < 2
    ensures FiveBits(16 * a + 8 * b + 4 * c + 2 * d + e) == [a, b, c, d, e]
  {
    var v := 16 * a + 8 * b + 4 * c + 2 * d + e;
    assert v / 2 == 8 * a + 4 * b + 2 * c + d;
    assert v / 4 == 4 * a + 2 * b + c;
    assert v / 8 == 2 * a + b;
    assert v / 16 == a;
  }

  lemma FiveRoundTrip(b: Bits)
    requires |b| == 5 && IsBits(b)
    ensures Num(b) < 32 && FiveBits(Num(b)) == b
  {
    FiveDigits(b);
    FiveBack(b[0], b[1], b[2], b[3], b[4]);
    assert b == [b[0], b[1], b[2], b[3], b[4]];
  }

  lemma {:induction false} UnpackGroups(b: Bits)
    requires IsBits(b)
    ensures |b| <= |Unpacked(Chars(Groups(b)))| < |b| + 5 && Unpacked(Chars(Groups(b)))[..|b|] == b
    decreases |b|
  {
    if b != [] {
      var s := Chars(Groups(b));
      var head := if |b| < 5 then b + Zeros(5 - |b|) else b[..5];
      UnpackOne(s, head);
      if |b| < 5 {
        assert s[1..] == "";
      } else {
        assert s[1..] == Chars(Groups(b[5..]));
        UnpackGroups(b[5..]);
        PrefixAfterFive(b, head, Unpacked(s[1..]));
      }
    }
  }

  lemma UnpackOne(s: string, head: Bits)
    requires |head| == 5 && IsBits(head) && s != "" && s[0] == Digit(Num(head))
    ensures Unpacked(s) == head + Unpacked(s[1..])
  {
    FiveRoundTrip(head);
    DigitIndex(Num(head));
  }

  lemma PrefixAfterFive(b: Bits, head: Bits, u: Bits)
    requires |b| >= 5 && head == b[..5] && |u| >= |b| - 5 && u[..|b| - 5] == b[5..]
    ensures (head + u)[..|b|] == b
  {
    assert (head + u)[..|b|] == head + u[..|b| - 5];
    assert b == b[..5] + b[5..];
  }

  lemma {:induction false} BytesBack(s: Bytes, tail: Bits)
    requires AllBytes(s) && |tail| < 8
    ensures WholeBytes(BitString(s) + tail) == s
    decreases |s|
  {
    if s == [] {
      assert BitString(s) + tail == tail;
    } else {
      var b := BitString(s) + tail;
      assert b[..8] == ByteBits(s[0]) && b[8..] == BitString(s[1..]) + tail;
      ByteIsItsBits(s[0]);
      BytesBack(s[1..], tail);
      assert [s[0]] + s[1..] == s;
    }
  }

  /** Decoding gives back the bytes, whatever their number. */
  lemma DecodeEncode(s: Bytes)
    requires AllBytes(s)
    ensures Decoded(Encoded(s)) == s
  {
    var b := BitString(s);
    UnpackGroups(b);
    var u := Unpacked(Chars(Groups(b)));
    assert Encoded(s)[1..] == Chars(Groups(b));
    assert u == b + u[|b|..];
    BytesBack(s, u[|b|..]);
  }

  /** So no two byte strings share an encoding. */
  lemma EncodingIsInjective(s: Bytes, t: Bytes)
    requires AllBytes(s) && AllBytes(t) && Encoded(s) == Encoded(t)
    ensures s == t
  {
    DecodeEncode(s);
    DecodeEncode(t);
  }

  // ---- CIDs ----

  /** CIDv1, raw codec, sha2-256, 32 bytes. */
  const CID_PREFIX: Bytes := [1, 85, 18, 32]

  /** `compute_cid_from_digest`: a CID exactly for files below the limit, and one
      from which the digest can be read back. */
  method ComputeCidFromDigest(digest: Bytes, size: nat) returns (cid: Option<string>)
    requires |digest| == 32 && AllBytes(digest)
    ensures cid.None? <==> size >= 262144
    ensures cid.Some? ==> Decoded(cid.value) == [1, 85, 18, 32] + digest
    ensures cid.Some? ==> |cid.value| == 59 && cid.value[..7] == "bafkrei"
  {
    if size >= MAX_INLINE_CID_SIZE { return None; }
    var raw := CID_PREFIX + digest;
    DecodeEncode(raw);
    CidStart(digest);
    var s := EncodeBase32Multibase(raw);
    return Some(s);
  }

  lemma {:induction false} GroupValue(b: Bits, i: nat)
    requires 5 * i + 5 <= |b|
    ensures Groups(b)[i] == 16 * b[5 * i] + 8 * b[5 * i + 1] + 4 * b[5 * i + 2] + 2 * b[5 * i + 3] + b[5 * i + 4]
    decreases i
  {
    if i == 0 { FiveDigits(b[..5]); } else { GroupValue(b[5..], i - 1); }
  }

  lemma {:induction false} ByteSlice(s: Bytes, j: nat)
    requires j < |s|
    ensures BitString(s)[8 * j..8 * j + 8] == ByteBits(s[j])
    decreases j
  {
    if j > 0 {
      ByteSlice(s[1..], j - 1);
      assert BitString(s)[8..] == BitString(s[1..]);
      assert BitString(s)[8 * j..8 * j + 8] == BitString(s)[8..][8 * (j - 1)..8 * (j - 1) + 8];
    }
  }

  lemma FirstTwoBytes(b: Bits, x: Bits, y: Bits)
    requires |b| >= 32 && b[0..8] == x == [0, 0, 0, 0, 0, 0, 0, 1] && b[8..16] == y == [0, 1, 0, 1, 0, 1, 0, 1]
    ensures Groups(b)[0] == 0 && Groups(b)[1] == 5 && Groups(b)[2] == 10 && b[15] == 1
  {
    assert b[0] == x[0] && b[1] == x[1] && b[2] == x[2] && b[3] == x[3] && b[4] == x[4] && b[5] == x[5] && b[6] == x[6] && b[7] == x[7];
    assert b[8] == y[0] && b[9] == y[1] && b[10] == y[2] && b[11] == y[3] && b[12] == y[4] && b[13] == y[5] && b[14] == y[6] && b[15] == y[7];
    GroupValue(b, 0);
    GroupValue(b, 1);
    GroupValue(b, 2);
  }

  lemma NextTwoBytes(b: Bits, x: Bits, y: Bits)
    requires |b| >= 32 && b[15] == 1 && b[16..24] == x == [0, 0, 0, 1, 0, 0, 1, 0] && b[24..32] == y == [0, 0, 1, 0, 0, 0, 0, 0]
    ensures Groups(b)[3] == 17 && Groups(b)[4] == 4 && Groups(b)[5] == 8
  {
    assert b[16] == x[0] && b[17] == x[1] && b[18] == x[2] && b[19] == x[3] && b[20] == x[4] && b[21] == x[5] && b[22] == x[6] && b[23] == x[7];
    assert b[24] == y[0] && b[25] == y[1] && b[26] == y[2] && b[27] == y[3] && b[28] == y[4] && b[29] == y[5];
    GroupValue(b, 3);
    GroupValue(b, 4);
    GroupValue(b, 5);
  }

  lemma HeaderBits(raw: Bytes)
    requires |raw| >= 4 && raw[0] == 1 && raw[1] == 85 && raw[2] == 18 && raw[3] == 32
    ensures var b := BitString(raw);
      b[0..8] == ByteBits(1) && b[8..16] == ByteBits(85) && b[16..24] == ByteBits(18) && b[24..32] == ByteBits(32)
  {
    ByteSlice(raw, 0);
    ByteSlice(raw, 1);
    ByteSlice(raw, 2);
    ByteSlice(raw, 3);
  }

  lemma HeaderBytes()
    ensures ByteBits(1) == [0, 0, 0, 0, 0, 0, 0, 1] && ByteBits(85) == [0, 1, 0, 1, 0, 1, 0, 1]
    ensures ByteBits(18) == [0, 0, 0, 1, 0, 0, 1, 0] && ByteBits(32) == [0, 0, 1, 0, 0, 0, 0, 0]
  { }

  lemma CidStart(digest: Bytes)
    ensures |Encoded(CID_PREFIX + digest)| >= 7 && Encoded(CID_PREFIX + digest)[..7] == "bafkrei"
  {
    var raw := CID_PREFIX + digest;
    HeaderBits(raw);
    HeaderBytes();
    FirstTwoBytes(BitString(raw), ByteBits(1), ByteBits(85));
    NextTwoBytes(BitString(raw), ByteBits(18), ByteBits(32));
    HeadChars(Groups(BitString(raw)));
  }

  lemma HeadChars(g: seq<nat>)
    requires |g| >= 6 && g[0] == 0 && g[1] == 5 && g[2] == 10 && g[3] == 17 && g[4] == 4 && g[5] == 8
    ensures ("b" + Chars(g))[..7] == "bafkrei"
  {
    var s := "b" + Chars(g);
    assert s[0] == 'b' && s[1] == 'a' && s[2] == 'f' && s[3] == 'k' && s[4] == 'r' && s[5] == 'e' && s[6] == 'i';
    assert s[..7] == [s[0], s[1], s[2], s[3], s[4], s[5], s[6]];
  }
}
