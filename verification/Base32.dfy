/** decodeSecret of src/iologindata.cpp: base32 decoding with a 32-bit buffer. */
module Base32 {
  import opened ItemTypes
  import opened Arithmetic

  type byte = b: int | 0 <= b < 256
  type Bits = seq<bool>

  // ----- bit strings -----

  function Pow2(n: nat): (p: nat)
    ensures p > 0
  {
    if n == 0 then 1 else 2 * Pow2(n - 1)
  }

  /** The number that bits stand for, the first bit being the most significant one. */
  function Val(bits: Bits): nat {
    if bits == [] then 0 else 2 * Val(bits[..|bits| - 1]) + if bits[|bits| - 1] then 1 else 0
  }

  /** The n low bits of v. */
  function BitsOf(v: nat, n: nat): (bits: Bits)
    ensures |bits| == n
  {
    if n == 0 then [] else BitsOf(v / 2, n - 1) + [v % 2 == 1]
  }

  lemma {:induction false} ValIsBelow(bits: Bits)
    ensures Val(bits) < Pow2(|bits|)
  {
    if bits != [] {
      ValIsBelow(bits[..|bits| - 1]);
    }
  }

  lemma {:induction false} ValOfBits(v: nat, n: nat)
    requires v < Pow2(n)
    ensures Val(BitsOf(v, n)) == v
  {
    if n > 0 {
      ValOfBits(v / 2, n - 1);
      var bits := BitsOf(v, n);
      assert bits[..n - 1] == BitsOf(v / 2, n - 1);
    }
  }

  lemma {:induction false} BitsOfVal(bits: Bits)
    ensures BitsOf(Val(bits), |bits|) == bits
  {
    if bits != [] {
      BitsOfVal(bits[..|bits| - 1]);
    }
  }

  lemma {:induction false} ValOfConcat(a: Bits, b: Bits)
    ensures Val(a + b) == Val(a) * Pow2(|b|) + Val(b)
  {
    if b == [] {
      assert a + b == a;
    } else {
      var b' := b[..|b| - 1];
      assert (a + b)[..|a + b| - 1] == a + b';
      ValOfConcat(a, b');
      assert 2 * (Val(a) * Pow2(|b'|)) == Val(a) * Pow2(|b|);
    }
  }

  // ----- base32 -----

  function CharValue(ch: char): (v: Option<nat>)
    ensures v.Some? ==> v.value < 32
  {
    if 'A' <= ch <= 'Z' then Some(ch as int % 32 - 1)
    else if '2' <= ch <= '7' then Some(ch as int - 24)
    else None
  }

  /** Table 3 of RFC 4648. */
  const ALPHABET: string := "ABCDEFGHIJKLMNOPQRSTUVWXYZ234567"

  /** The characters that are accepted are those of the alphabet, and each stands for its position there. */
  lemma AlphabetIs(ch: char, v: nat)
    requires v < 32
    ensures CharValue(ch) == Some(v) <==> ALPHABET[v] == ch
  {
    var abc := ALPHABET;
    assert |abc| == 32 && abc == "ABCDEFGHIJKLMNOPQRSTUVWXYZ234567";
    assert forall i | 0 <= i < 26 :: abc[i] as int == 65 + i;
    assert forall i | 26 <= i < 32 :: abc[i] as int == 24 + i;
  }

  predicate Accepted(secret: string) {
    forall i | 0 <= i < |secret| :: CharValue(secret[i]).Some?
  }

  /** The bits of all characters, five for each. */
  function SecretBits(secret: string): (bits: Bits)
    requires Accepted(secret)
    ensures |bits| == 5 * |secret|
  {
    if secret == [] then []
    else SecretBits(secret[..|secret| - 1]) + BitsOf(CharValue(secret[|secret| - 1]).value, 5)
  }

  /** Bits in groups of eight; fewer than eight at the end are dropped. */
  function Bytes(bits: Bits): seq<byte>
    decreases |bits|
  {
    if |bits| < 8 then []
    else
      ValIsBelow(bits[..8]);
      assert Pow2(8) == 256;
      [Val(bits[..8])] + Bytes(bits[8..])
  }

  lemma {:induction false} BytesOfMore(bits: Bits, group: Bits, rest: Bits, n: nat)
    requires |bits| == 8 * n && |group| == 8 && |rest| < 8
    ensures Val(group) < 256 && Bytes(bits + group + rest) == Bytes(bits + rest) + [Val(group)]
    decreases n
  {
    ValIsBelow(group);
    assert Pow2(8) == 256;
    var all := bits + group + rest;
    if n == 0 {
      assert all[..8] == group && all[8..] == rest && bits + rest == rest;
    } else {
      assert all[..8] == bits[..8] && all[8..] == bits[8..] + group + rest;
      assert (bits + rest)[..8] == bits[..8] && (bits + rest)[8..] == bits[8..] + rest;
      BytesOfMore(bits[8..], group, rest, n - 1);
    }
  }

  const WORD: nat := 0x1_0000_0000

  /** Shifting in the 32-bit buffer is shifting in an unbounded one, narrowed to 32 bits. */
  lemma ShiftIn(all: nat, v: nat)
    requires v < 32
    ensures all % WORD * 32 % WORD + v == (all * 32 + v) % WORD
  {
    var q, r := all / WORD, all % WORD;
    var k, s := r * 32 / WORD, r * 32 % WORD;
    assert r * 32 == k * WORD + s;
    assert s == 32 * (r - k * 0x800_0000);
    assert s + v < WORD;
    assert all * 32 + v == (32 * q + k) * WORD + (s + v);
    ModIs(all * 32 + v, 32 * q + k, s + v, WORD);
  }

  /** Shifting a byte out of the 32-bit buffer is shifting it out of an unbounded one. */
  lemma ShiftOut(all: nat, high: nat, group: nat, rest: nat, left: nat)
    requires left <= 4 && all == (high * 256 + group) * Pow2(left) + rest && rest < Pow2(left) && group < 256
    ensures all % WORD / Pow2(left) % 256 == group
  {
    assert Pow2(0) == 1 && Pow2(1) == 2 && Pow2(2) == 4 && Pow2(3) == 8 && Pow2(4) == 16;
    match left
    case 0 => NarrowedGroup(high, 0x100_0000, group, rest, 1, all);
    case 1 => NarrowedGroup(high, 0x80_0000, group, rest, 2, all);
    case 2 => NarrowedGroup(high, 0x40_0000, group, rest, 4, all);
    case 3 => NarrowedGroup(high, 0x20_0000, group, rest, 8, all);
    case 4 => NarrowedGroup(high, 0x10_0000, group, rest, 16, all);
  }

  lemma NarrowedGroup(high: nat, h: nat, group: nat, rest: nat, p: nat, all: nat)
    requires 0 < p && 0 < h && rest < p && group < 256 && all == (high * 256 + group) * p + rest
    requires forall k: nat :: k * h * 256 * p == k * WORD
    ensures all % WORD / p % 256 == group
  {
    var q, l := high / h, high % h;
    assert high == q * h + l;
    LinearSplit(high, q, h, l, group, p);
    assert q * h * 256 * p == q * WORD && 1 * h * 256 * p == 1 * WORD;
    NarrowedLow(q, l, group, rest, p, all);
  }

  lemma NarrowedLow(q: nat, l: nat, group: nat, rest: nat, p: nat, all: nat)
    requires 0 < p && rest < p && group < 256
    requires all == q * WORD + (l * 256 + group) * p + rest && (l * 256 + group) * p + p <= WORD
    ensures all % WORD / p % 256 == group
  {
    var low := l * 256 + group;
    ModIs(all, q, low * p + rest, WORD);
    ModIs(low * p + rest, low, rest, p);
    ModIs(low, l, group, 256);
  }

  lemma LinearSplit(high: nat, q: nat, h: nat, l: nat, group: nat, p: nat)
    requires high == q * h + l && l < h && group < 256
    ensures (high * 256 + group) * p == q * h * 256 * p + (l * 256 + group) * p
    ensures (l * 256 + group) * p + p <= 1 * h * 256 * p
  {
    var A, B := q * h * 256, l * 256 + group;
    assert high * 256 + group == A + B;
    Distributes(A, B, p);
    Distributes(B, 1, p);
    Grows(B + 1, h * 256, p);
  }

  lemma Distributes(a: nat, b: nat, p: nat)
    ensures (a + b) * p == a * p + b * p
  {
  }

  lemma Grows(a: nat, b: nat, p: nat)
    requires a <= b
    ensures a * p <= b * p
  {
  }

  /** The byte that is taken out of the buffer stands in front of the bits that stay. */
  method TakeOut(buffer: nat, left: nat, ghost head: Bits, ghost group: Bits, ghost rest: Bits) returns (b: byte)
    requires |rest| == left <= 4 && |group| == 8 && buffer == Val(head + group + rest) % WORD
    ensures b == Val(group)
  {
    ValOfConcat(head + group, rest);
    ValOfConcat(head, group);
    ValIsBelow(rest);
    ValIsBelow(group);
    assert Pow2(8) == 256;
    ShiftOut(Val(head + group + rest), Val(head), Val(group), Val(rest), left);
    b := buffer / Pow2(left) % 256;
  }

  /** The five low bits are 0 after the shift, so the bitwise or is a sum. */
  method ShiftBits(buffer0: nat, v: nat, ghost bits: Bits) returns (buffer: nat)
    requires v < 32 && buffer0 == Val(bits) % WORD
    ensures buffer == Val(bits + BitsOf(v, 5)) % WORD
  {
    OneMoreChar(bits, v);
    buffer := buffer0 * 32 % WORD + v;
  }

  lemma OneMoreChar(bits: Bits, v: nat)
    requires v < 32
    ensures Val(bits) % WORD * 32 % WORD + v == Val(bits + BitsOf(v, 5)) % WORD
  {
    assert Pow2(5) == 32;
    ValOfBits(v, 5);
    ValOfConcat(bits, BitsOf(v, 5));
    ShiftIn(Val(bits), v);
  }

  /** buffer, left and key after the bits that have been read. */
  ghost predicate Reads(bits: Bits, buffer: nat, left: nat, key: seq<byte>) {
    buffer == Val(bits) % WORD && left < 8 && |bits| == 8 * |key| + left && key == Bytes(bits)
  }

  /** The body of the loop of decodeSecret, for a character that stands for v. */
  method ReadBits(buffer0: nat, left0: nat, key0: seq<byte>, v: nat, ghost bits: Bits)
    returns (buffer: nat, left: nat, key: seq<byte>)
    requires Reads(bits, buffer0, left0, key0) && v < 32
    ensures Reads(bits + BitsOf(v, 5), buffer, left, key)
  {
    ghost var more := bits + BitsOf(v, 5);
    key := key0;
    buffer := ShiftBits(buffer0, v, bits);
    left := left0 + 5;
    if left >= 8 {
      left := left - 8;
      ghost var m := 8 * |key|;
      ghost var head, before, group, rest := more[..m], bits[m..], more[m..m + 8], more[m + 8..];
      assert more == head + group + rest && bits == head + before;
      TakeByte(head, before, group, rest, key);
      var b := TakeOut(buffer, left, head, group, rest);
      key := key + [b];
    } else {
      NoByteYet(bits, more, key);
    }
  }

  /** A key is what base32 says it is; a broken secret gives an empty one. */
  method DecodeSecret(secret: string) returns (key: seq<byte>)
    ensures key == if Accepted(secret) then Bytes(SecretBits(secret)) else []
  {
    key := [];
    var buffer, left := 0, 0;
    ghost var bits: Bits := [];
    for i := 0 to |secret|
      invariant Accepted(secret[..i]) && bits == SecretBits(secret[..i]) && Reads(bits, buffer, left, key)
    {
      var ch := secret[i];
      assert secret[..i + 1] == secret[..i] + [ch];
      var v;
      if 'A' <= ch <= 'Z' {
        v := ch as int % 32 - 1;
      } else if '2' <= ch <= '7' {
        v := ch as int - 24;
      } else {
        assert CharValue(secret[i]).None?;
        return [];
      }
      assert CharValue(ch) == Some(v);
      SecretBitsOfMore(secret[..i], ch);
      buffer, left, key := ReadBits(buffer, left, key, v, bits);
      bits := bits + BitsOf(v, 5);
    }
    assert secret[..|secret|] == secret;
  }

  lemma TakeByte(head: Bits, before: Bits, group: Bits, rest: Bits, key: seq<byte>)
    requires |head| == 8 * |key| && |before| < 8 && |group| == 8 && |rest| < 8 && key == Bytes(head + before)
    ensures Val(group) < 256 && Bytes(head + group + rest) == key + [Val(group)]
  {
    SameBytes(head, before, |key|);
    SameBytes(head, rest, |key|);
    BytesOfMore(head, group, rest, |key|);
  }

  lemma NoByteYet(bits: Bits, more: Bits, key: seq<byte>)
    requires key == Bytes(bits) && 8 * |key| <= |bits| && bits <= more && |more| < 8 * |key| + 8
    ensures Bytes(more) == key
  {
    var m := 8 * |key|;
    assert more == more[..m] + more[m..] && bits == more[..m] + bits[m..];
    SameBytes(more[..m], more[m..], |key|);
    SameBytes(more[..m], bits[m..], |key|);
  }

  /** Fewer than eight further bits make no difference. */
  lemma {:induction false} SameBytes(bits: Bits, rest: Bits, n: nat)
    requires |bits| == 8 * n && |rest| < 8
    ensures Bytes(bits + rest) == Bytes(bits)
    decreases n
  {
    if n > 0 {
      assert (bits + rest)[..8] == bits[..8] && (bits + rest)[8..] == bits[8..] + rest;
      SameBytes(bits[8..], rest, n - 1);
    } else {
      assert bits + rest == rest;
    }
  }

  // ----- section 6 of RFC 4648, without padding -----

  function CharOf(v: nat): (ch: char)
    requires v < 32
    ensures CharValue(ch) == Some(v)
  {
    if v < 26 then (65 + v) as char else (24 + v) as char
  }

  function ByteBits(key: seq<byte>): (bits: Bits)
    ensures |bits| == 8 * |key|
  {
    if key == [] then [] else BitsOf(key[0], 8) + ByteBits(key[1..])
  }

  /** Zero bits until there are n groups of five. */
  function Filled(bits: Bits, n: nat): (r: Bits)
    requires 5 * n - 5 < |bits| <= 5 * n
    ensures |r| == 5 * n && bits <= r
  {
    bits + seq(5 * n - |bits|, _ => false)
  }

  /** The characters for n groups of five bits. */
  function Chars(bits: Bits, n: nat): (s: string)
    requires |bits| == 5 * n
  {
    if n == 0 then []
    else
      ValIsBelow(bits[5 * n - 5..]);
      assert Pow2(5) == 32;
      Chars(bits[..5 * n - 5], n - 1) + [CharOf(Val(bits[5 * n - 5..]))]
  }

  function Encode(key: seq<byte>): string {
    var n := (8 * |key| + 4) / 5;
    Chars(Filled(ByteBits(key), n), n)
  }

  lemma SecretBitsOfMore(s: string, ch: char)
    requires Accepted(s) && CharValue(ch).Some?
    ensures Accepted(s + [ch]) && SecretBits(s + [ch]) == SecretBits(s) + BitsOf(CharValue(ch).value, 5)
  {
    assert (s + [ch])[..|s|] == s;
  }

  lemma {:induction false} BitsOfChars(bits: Bits, n: nat)
    requires |bits| == 5 * n
    ensures Accepted(Chars(bits, n)) && SecretBits(Chars(bits, n)) == bits
  {
    if n > 0 {
      var front, last := bits[..5 * n - 5], bits[5 * n - 5..];
      BitsOfChars(front, n - 1);
      BitsOfOneMore(bits, n, front, last, Chars(front, n - 1));
    }
  }

  lemma BitsOfOneMore(bits: Bits, n: nat, front: Bits, last: Bits, s: string)
    requires n > 0 && |bits| == 5 * n && front == bits[..5 * n - 5] && last == bits[5 * n - 5..]
    requires s == Chars(front, n - 1) && Accepted(s) && SecretBits(s) == front
    ensures Accepted(Chars(bits, n)) && SecretBits(Chars(bits, n)) == bits
  {
    BitsOfChar(last);
    SecretBitsOfMore(s, CharOf(Val(last)));
    assert bits == front + last;
  }

  lemma BitsOfChar(group: Bits)
    requires |group| == 5
    ensures Val(group) < 32 && CharValue(CharOf(Val(group))).Some?
    ensures BitsOf(CharValue(CharOf(Val(group))).value, 5) == group
  {
    ValIsBelow(group);
    assert Pow2(5) == 32;
    BitsOfVal(group);
  }

  lemma {:induction false} BytesOfByteBits(key: seq<byte>, rest: Bits)
    requires |rest| < 8
    ensures Bytes(ByteBits(key) + rest) == key
  {
    if key == [] {
      assert ByteBits(key) + rest == rest;
    } else {
      var all := ByteBits(key) + rest;
      assert all[..8] == BitsOf(key[0], 8) && all[8..] == ByteBits(key[1..]) + rest;
      assert Pow2(8) == 256;
      ValOfBits(key[0], 8);
      BytesOfByteBits(key[1..], rest);
    }
  }

  /** Decoding an encoded key gives the key back. */
  lemma RoundTrip(key: seq<byte>)
    ensures Accepted(Encode(key)) && Bytes(SecretBits(Encode(key))) == key
  {
    var n := (8 * |key| + 4) / 5;
    var bits, filled := ByteBits(key), Filled(ByteBits(key), n);
    BitsOfChars(filled, n);
    assert filled == bits + filled[|bits|..];
    BytesOfByteBits(key, filled[|bits|..]);
  }

  lemma {:induction false} BytesLength(bits: Bits)
    ensures 8 * |Bytes(bits)| <= |bits| < 8 * |Bytes(bits)| + 8
    decreases |bits|
  {
    if |bits| >= 8 {
      BytesLength(bits[8..]);
    }
  }

  /** An accepted secret of n characters gives 5n/8 bytes, rounded down. */
  lemma KeyLength(secret: string)
    requires Accepted(secret)
    ensures |Bytes(SecretBits(secret))| == 5 * |secret| / 8
  {
    BytesLength(SecretBits(secret));
  }
}
