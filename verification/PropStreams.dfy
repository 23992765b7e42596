/** PropStream and PropWriteStream of src/fileloader.h: little-endian numbers and counted strings. */
module PropStreams {
  import opened ItemTypes
  import opened Arithmetic

  type byte = b: int | 0 <= b < 256
  type Bytes = seq<byte>

  const MAX_STRING: nat := 65535

  /** 256 to the power of n: the number of values of n bytes. */
  function Limit(n: nat): (r: nat)
    ensures r > 0
  {
    if n == 0 then 1 else 256 * Limit(n - 1)
  }

  /** The n bytes of a number, the lowest first. */
  function Little(v: nat, n: nat): (s: Bytes)
    ensures |s| == n
  {
    if n == 0 then [] else [v % 256] + Little(v / 256, n - 1)
  }

  function Value(s: Bytes): nat {
    if s == [] then 0 else s[0] + 256 * Value(s[1..])
  }

  lemma {:induction false} ValueOfLittle(v: nat, n: nat)
    requires v < Limit(n)
    ensures Value(Little(v, n)) == v
  {
    if n > 0 {
      ValueOfLittle(v / 256, n - 1);
      assert Little(v, n)[1..] == Little(v / 256, n - 1);
    }
  }

  /** The byte at position k counts 256 to the power of k. */
  lemma {:induction false} LittleAt(v: nat, n: nat, k: nat)
    requires k < n
    ensures Little(v, n)[k] == v / Limit(k) % 256
  {
    if k > 0 {
      LittleAt(v / 256, n - 1, k - 1);
      DivideTwice(v, 256, Limit(k - 1));
    }
  }

  lemma DivideTwice(v: nat, a: nat, b: nat)
    requires a > 0 && b > 0
    ensures a * b > 0 && v / a / b == v / (a * b)
  {
    var q, t := v / a, v % a;
    Nested(v, a, b, q, t, q / b, q % b);
    ModIs(v, q / b, q % b * a + t, a * b);
  }

  lemma Nested(v: nat, a: nat, b: nat, q: nat, t: nat, r: nat, u: nat)
    requires v == q * a + t && t < a && q == r * b + u && u < b
    ensures v == r * (a * b) + (u * a + t) && u * a + t < a * b
  {
    assert (u + 1) * a <= b * a;
    assert q * a == r * b * a + u * a;
    assert r * b * a == r * (a * b);
  }

  /** An integer narrowed to n bytes; negative numbers in two's complement. */
  function Narrow(v: int, n: nat): (r: nat)
    ensures r < Limit(n)
  {
    v % Limit(n)
  }

  /** n bytes read as a signed number. */
  function Signed(w: nat, n: nat): int {
    if 2 * w >= Limit(n) then w - Limit(n) else w
  }

  /** Narrowing and reading back as a signed number keeps exactly the numbers that fit. */
  lemma SignedNarrow(v: int, n: nat)
    requires n > 0
    ensures Signed(Narrow(v, n), n) == v <==> 0 - Limit(n) <= 2 * v < Limit(n)
  {
    var m := Limit(n);
    assert m == 256 * Limit(n - 1);
    if 0 <= v < m {
      SmallMod(v, m);
    } else if 0 - m <= v < 0 {
      ModOfNegative(v, m);
    }
  }

  lemma SmallMod(v: nat, m: nat)
    requires v < m
    ensures v % m == v
  {
  }

  lemma ModOfNegative(v: int, m: nat)
    requires 0 - m <= v < 0
    ensures v % m == v + m
  {
    var q := v / m;
    assert v == q * m + v % m;
    assert q * m > -2 * m && q * m <= v;
    NoMore(m, -1, q);
    NoMore(m, q, -1);
  }

  // ----- reading as a function of the bytes that are left -----

  /** A number of n bytes and what follows it; None when too little is left. */
  function TakeNumber(s: Bytes, n: nat): (r: Option<(nat, Bytes)>)
    ensures r.Some? <==> n <= |s|
    ensures r.Some? ==> |r.value.1| == |s| - n
  {
    if |s| < n then None else Some((Value(s[..n]), s[n..]))
  }

  function TakeString(s: Bytes): (r: Option<(Bytes, Bytes)>)
    ensures r.Some? ==> |r.value.1| + |r.value.0| + 2 == |s|
  {
    var length := TakeNumber(s, 2);
    if length.None? || |length.value.1| < length.value.0 then None
    else Some((length.value.1[..length.value.0], length.value.1[length.value.0..]))
  }

  function NumberBytes(v: int, n: nat): Bytes {
    Little(Narrow(v, n), n)
  }

  /** A string that is too long is written as an empty one. */
  function StringBytes(s: Bytes): Bytes {
    if |s| > MAX_STRING then NumberBytes(0, 2) else NumberBytes(|s|, 2) + s
  }

  function Shortened(s: Bytes): Bytes {
    if |s| > MAX_STRING then [] else s
  }

  lemma NumberComesBack(v: int, n: nat, rest: Bytes)
    ensures TakeNumber(NumberBytes(v, n) + rest, n) == Some((Narrow(v, n), rest))
  {
    ValueOfLittle(Narrow(v, n), n);
    assert (NumberBytes(v, n) + rest)[..n] == NumberBytes(v, n);
    assert (NumberBytes(v, n) + rest)[n..] == rest;
  }

  lemma StringComesBack(s: Bytes, rest: Bytes)
    ensures TakeString(StringBytes(s) + rest) == Some((Shortened(s), rest))
  {
    var t := Shortened(s);
    assert Limit(2) == 65536;
    SmallMod(|t|, 65536);
    assert StringBytes(s) + rest == NumberBytes(|t|, 2) + (t + rest);
    NumberComesBack(|t|, 2, t + rest);
    assert (t + rest)[..|t|] == t && (t + rest)[|t|..] == rest;
  }

  /** A written string by its bytes: its length in two bytes, the lower one first, and then itself. */
  lemma StringLayout(s: Bytes)
    ensures |s| <= 65535 ==>
              && |StringBytes(s)| == |s| + 2 && StringBytes(s)[2..] == s
              && StringBytes(s)[0] == |s| % 256 && StringBytes(s)[1] == |s| / 256
    ensures |s| > 65535 ==> StringBytes(s) == [0, 0]
  {
    var n := if |s| > 65535 then 0 else |s|;
    assert Limit(2) == 65536 && Limit(1) == 256 && Limit(0) == 1;
    SmallMod(n, 65536);
    LittleAt(n, 2, 0);
    LittleAt(n, 2, 1);
    assert |s| <= 65535 ==> StringBytes(s)[2..] == s;
  }

  /** Reading a string takes the bytes that its first two announce, and fails exactly when there are too few. */
  lemma StringTaken(s: Bytes)
    ensures TakeString(s).Some? <==> |s| >= 2 && |s| - 2 >= s[0] as int + 256 * s[1] as int
    ensures TakeString(s).Some? ==>
              var n := s[0] as int + 256 * s[1] as int; TakeString(s) == Some((s[2..2 + n], s[2 + n..]))
  {
    if |s| >= 2 {
      assert s[..2][1..] == [s[1]] && [s[1]][1..] == [];
      var n := s[0] as int + 256 * s[1] as int;
      assert Value([s[1]]) == s[1] && Value(s[..2]) == n;
      if |s| >= 2 + n {
        assert s[2..][..n] == s[2..2 + n] && s[2..][n..] == s[2 + n..];
      }
    }
  }

  // ----- the streams -----

  class PropStream {
    const data: Bytes
    var p: nat

    ghost predicate Valid()
      reads this
    {
      p <= |data|
    }

    /** The bytes that are left. */
    ghost function Rest(): Bytes
      requires Valid()
      reads this
    {
      data[p..]
    }

    constructor (data: Bytes)
      ensures Valid() && Rest() == data
    {
      this.data, p := data, 0;
    }

    /** read<T> for a number of n bytes. */
    method Read(n: nat) returns (ok: bool, value: nat)
      requires Valid()
      modifies this`p
      ensures Valid()
      ensures ok <==> TakeNumber(old(Rest()), n).Some?
      ensures ok ==> TakeNumber(old(Rest()), n) == Some((value, Rest()))
      ensures !ok ==> p == old(p) && value == 0
    {
      ok, value := false, 0;
      if |data| - p >= n {
        assert data[p..][..n] == data[p..p + n] && data[p..][n..] == data[p + n..];
        ok, value := true, Value(data[p..p + n]);
        p := p + n;
      }
    }

    /** readString; after a failure the length may have been consumed. */
    method ReadString() returns (str: Bytes, ok: bool)
      requires Valid()
      modifies this`p
      ensures Valid()
      ensures ok <==> TakeString(old(Rest())).Some?
      ensures ok ==> TakeString(old(Rest())) == Some((str, Rest()))
      ensures !ok ==> str == []
    {
      str := [];
      var strLen;
      ok, strLen := Read(2);
      if !ok {
        return;
      }
      if |data| - p < strLen {
        return [], false;
      }
      assert data[p..][..strLen] == data[p..p + strLen] && data[p..][strLen..] == data[p + strLen..];
      str := data[p..p + strLen];
      p := p + strLen;
    }

    method Skip(n: nat) returns (ok: bool)
      requires Valid()
      modifies this`p
      ensures Valid() && (ok <==> n <= |old(Rest())|)
      ensures Rest() == if ok then old(Rest())[n..] else old(Rest())
    {
      ok := |data| - p >= n;
      if ok {
        assert data[p..][n..] == data[p + n..];
        p := p + n;
      }
    }
  }

  class PropWriteStream {
    var buffer: Bytes

    constructor ()
      ensures buffer == []
    {
      buffer := [];
    }

    /** write<T> for a number of n bytes: one byte after the other, the lowest first. */
    method Write(add: int, n: nat)
      modifies this
      ensures buffer == old(buffer) + NumberBytes(add, n)
    {
      var v := Narrow(add, n);
      var i := 0;
      while i < n
        invariant 0 <= i <= n
        invariant buffer + Little(v, n - i) == old(buffer) + NumberBytes(add, n)
      {
        assert Little(v, n - i) == [v % 256] + Little(v / 256, n - i - 1);
        buffer := buffer + [v % 256];
        v := v / 256;
        i := i + 1;
      }
    }

    method WriteString(str: Bytes)
      modifies this
      ensures buffer == old(buffer) + StringBytes(str)
    {
      if |str| > MAX_STRING {
        Write(0, 2);
        return;
      }
      Write(|str|, 2);
      buffer := buffer + str;
    }
  }
}
