/** The padded base64 of section 4 of RFC 4648, as Go's standard encoding prints and reads it. */
module Base64 {
  import opened Prelude

  type byte = x: int | 0 <= x < 256

  function Char(n: int): char
    requires 0 <= n < 64
  {
    if n < 26 then 'A' + n as char
    else if n < 52 then 'a' + (n - 26) as char
    else if n < 62 then '0' + (n - 52) as char
    else if n == 62 then '+'
    else '/'
  }

  function Sextet(c: char): (r: Option<int>)
    ensures r.Some? ==> 0 <= r.value < 64
  {
    if 'A' <= c <= 'Z' then Some((c - 'A') as int)
    else if 'a' <= c <= 'z' then Some((c - 'a') as int + 26)
    else if '0' <= c <= '9' then Some((c - '0') as int + 52)
    else if c == '+' then Some(62)
    else if c == '/' then Some(63)
    else None
  }

  /** One to three bytes as four characters. */
  function Pack(b: seq<byte>): (s: string)
    requires 1 <= |b| <= 3
    ensures |s| == 4
  {
    if |b| == 1 then [Char(b[0] / 4), Char(b[0] % 4 * 16), '=', '=']
    else if |b| == 2 then [Char(b[0] / 4), Char(b[0] % 4 * 16 + b[1] / 16), Char(b[1] % 16 * 4), '=']
    else [Char(b[0] / 4), Char(b[0] % 4 * 16 + b[1] / 16), Char(b[1] % 16 * 4 + b[2] / 64), Char(b[2] % 64)]
  }

  function Encode(b: seq<byte>): string {
    if b == [] then "" else if |b| <= 3 then Pack(b) else Pack(b[..3]) + Encode(b[3..])
  }

  /** Line breaks are skipped wherever they stand. */
  function Strip(s: string): string {
    if s == "" then ""
    else if s[0] == '\n' || s[0] == '\r' then Strip(s[1..])
    else [s[0]] + Strip(s[1..])
  }

  function Bytes1(p: int, q: int): seq<byte>
    requires 0 <= p < 64 && 0 <= q < 64
  {
    [p * 4 + q / 16]
  }

  function Bytes2(p: int, q: int, r: int): seq<byte>
    requires 0 <= p < 64 && 0 <= q < 64 && 0 <= r < 64
  {
    [p * 4 + q / 16, q % 16 * 16 + r / 4]
  }

  function Bytes3(p: int, q: int, r: int, t: int): seq<byte>
    requires 0 <= p < 64 && 0 <= q < 64 && 0 <= r < 64 && 0 <= t < 64
  {
    [p * 4 + q / 16, q % 16 * 16 + r / 4, r % 4 * 64 + t]
  }

  /** Four characters; the low bits that padding leaves unused are ignored. */
  function Unpack(s: string): (r: Option<seq<byte>>)
    requires |s| == 4
    ensures r.Some? ==> 1 <= |r.value| <= 3
  {
    var p, q, r, t := Sextet(s[0]), Sextet(s[1]), Sextet(s[2]), Sextet(s[3]);
    if p.None? || q.None? then None
    else if s[2] == '=' then (if s[3] == '=' then Some(Bytes1(p.value, q.value)) else None)
    else if r.None? then None
    else if s[3] == '=' then Some(Bytes2(p.value, q.value, r.value))
    else if t.None? then None
    else Some(Bytes3(p.value, q.value, r.value, t.value))
  }

  /** Padding only closes the input. */
  function Quanta(s: string): Option<seq<byte>> {
    if s == "" then Some([])
    else if |s| < 4 then None
    else
      var u := Unpack(s[..4]);
      if u.None? then None
      else if |s| == 4 then u
      else if |u.value| < 3 then None
      else
        var rest := Quanta(s[4..]);
        if rest.None? then None else Some(u.value + rest.value)
  }

  function Decode(s: string): Option<seq<byte>> {
    Quanta(Strip(s))
  }

  // ---- Laws --------------------------------------------------------------------------------------------

  lemma CharsAreDistinct(n: int)
    requires 0 <= n < 64
    ensures Sextet(Char(n)) == Some(n)
    ensures Char(n) !in {'.', '=', '\n', '\r'} && Char(n) < 128 as char
  {
  }

  lemma CharOfSextet(c: char)
    requires Sextet(c).Some?
    ensures Char(Sextet(c).value) == c
  {
  }

  predicate Plain(s: string) {
    forall c <- s :: c !in {'.', '\n', '\r'} && c < 128 as char
  }

  lemma PackedIsPlain(b: seq<byte>)
    requires 1 <= |b| <= 3
    ensures Plain(Pack(b))
  {
    forall n | 0 <= n < 64 ensures Char(n) !in {'.', '\n', '\r'} && Char(n) < 128 as char {
      CharsAreDistinct(n);
    }
  }

  lemma {:induction false} EncodedIsPlain(b: seq<byte>)
    ensures Plain(Encode(b)) && |Encode(b)| == (|b| + 2) / 3 * 4
  {
    if 1 <= |b| <= 3 {
      PackedIsPlain(b);
    } else if |b| > 3 {
      var rest := Encode(b[3..]);
      PackedIsPlain(b[..3]);
      EncodedIsPlain(b[3..]);
      assert |Encode(b)| == 4 + |rest|;
      assert forall c <- Encode(b) :: c in Pack(b[..3]) || c in rest;
    }
  }

  lemma {:induction false} StripKeepsPlain(s: string)
    requires Plain(s)
    ensures Strip(s) == s
  {
    if s != "" {
      assert s[0] in s;
      assert forall c <- s[1..] :: c in s;
      StripKeepsPlain(s[1..]);
    }
  }

  lemma UnpackOne(x: byte)
    ensures Unpack(Pack([x])) == Some([x])
  {
    CharsAreDistinct(x / 4);
    CharsAreDistinct(x % 4 * 16);
  }

  lemma JoinTwo(x: byte, y: byte)
    ensures Bytes2(x / 4, x % 4 * 16 + y / 16, y % 16 * 4) == [x, y]
  {
    var q, r := x % 4 * 16 + y / 16, y % 16 * 4;
    assert q / 16 == x % 4 && q % 16 == y / 16 && r / 4 == y % 16;
  }

  lemma UnpackTwo(x: byte, y: byte)
    ensures Unpack(Pack([x, y])) == Some([x, y])
  {
    var p, q, r := x / 4, x % 4 * 16 + y / 16, y % 16 * 4;
    CharsAreDistinct(p);
    CharsAreDistinct(q);
    CharsAreDistinct(r);
    JoinTwo(x, y);
    assert Pack([x, y]) == [Char(p), Char(q), Char(r), '='];
  }

  lemma JoinThree(x: byte, y: byte, z: byte)
    ensures Bytes3(x / 4, x % 4 * 16 + y / 16, y % 16 * 4 + z / 64, z % 64) == [x, y, z]
  {
    var q, r := x % 4 * 16 + y / 16, y % 16 * 4 + z / 64;
    assert q / 16 == x % 4 && q % 16 == y / 16 && r / 4 == y % 16 && r % 4 == z / 64;
  }

  lemma UnpackThree(x: byte, y: byte, z: byte)
    ensures Unpack(Pack([x, y, z])) == Some([x, y, z])
  {
    var p, q, r, t := x / 4, x % 4 * 16 + y / 16, y % 16 * 4 + z / 64, z % 64;
    CharsAreDistinct(p);
    CharsAreDistinct(q);
    CharsAreDistinct(r);
    CharsAreDistinct(t);
    JoinThree(x, y, z);
    assert Pack([x, y, z]) == [Char(p), Char(q), Char(r), Char(t)];
  }

  lemma UnpackOfPack(b: seq<byte>)
    requires 1 <= |b| <= 3
    ensures Unpack(Pack(b)) == Some(b)
  {
    if |b| == 1 {
      UnpackOne(b[0]);
      assert b == [b[0]];
    } else if |b| == 2 {
      UnpackTwo(b[0], b[1]);
      assert b == [b[0], b[1]];
    } else {
      UnpackThree(b[0], b[1], b[2]);
      assert b == [b[0], b[1], b[2]];
    }
  }

  lemma {:induction false} QuantaOfEncoded(b: seq<byte>)
    ensures Quanta(Encode(b)) == Some(b)
  {
    if 1 <= |b| <= 3 {
      UnpackOfPack(b);
      assert Pack(b)[..4] == Pack(b);
    } else if |b| > 3 {
      UnpackOfPack(b[..3]);
      EncodedIsPlain(b[3..]);
      assert Encode(b)[..4] == Pack(b[..3]) && Encode(b)[4..] == Encode(b[3..]);
      QuantaOfEncoded(b[3..]);
      assert b == b[..3] + b[3..];
    }
  }

  lemma DecodeOfEncode(b: seq<byte>)
    ensures Decode(Encode(b)) == Some(b)
  {
    EncodedIsPlain(b);
    StripKeepsPlain(Encode(b));
    QuantaOfEncoded(b);
  }

  /** The bits that padding leaves unused in the last four characters are zero. */
  predicate TailIsZero(s: string)
    requires |s| == 4
  {
    s[3] == '=' ==>
      var n := Sextet(if s[2] == '=' then s[1] else s[2]);
      n.Some? && n.value % (if s[2] == '=' then 16 else 4) == 0
  }

  lemma CharIsInjective(m: int, n: int)
    requires 0 <= m < 64 && 0 <= n < 64
    ensures Char(m) == Char(n) <==> m == n
  {
    CharsAreDistinct(m);
    CharsAreDistinct(n);
  }

  lemma PackOne(p: int, q: int)
    requires 0 <= p < 64 && 0 <= q < 64
    ensures Pack(Bytes1(p, q)) == [Char(p), Char(q), '=', '='] <==> q % 16 == 0
  {
    CharIsInjective(q / 16 * 16, q);
  }

  lemma TwoBytes(p: int, q: int, r: int)
    requires 0 <= p < 64 && 0 <= q < 64 && 0 <= r < 64
    ensures var x, y := p * 4 + q / 16, q % 16 * 16 + r / 4;
      x / 4 == p && x % 4 * 16 + y / 16 == q && y % 16 * 4 == r - r % 4
  {
    var x, y := p * 4 + q / 16, q % 16 * 16 + r / 4;
    assert x / 4 == p && x % 4 == q / 16 && y / 16 == q % 16 && y % 16 == r / 4;
  }

  lemma PackedTwo(p: int, q: int, r: int)
    requires 0 <= p < 64 && 0 <= q < 64 && 0 <= r < 64
    ensures Pack(Bytes2(p, q, r)) == [Char(p), Char(q), Char(r - r % 4), '=']
  {
    TwoBytes(p, q, r);
  }

  lemma ThirdDecides(a: char, b: char, m: int, r: int)
    requires 0 <= m < 64 && 0 <= r < 64
    ensures [a, b, Char(m), '='] == [a, b, Char(r), '='] <==> m == r
  {
    CharIsInjective(m, r);
    assert [a, b, Char(m), '='][2] == Char(m);
  }

  lemma PackTwo(p: int, q: int, r: int)
    requires 0 <= p < 64 && 0 <= q < 64 && 0 <= r < 64
    ensures Pack(Bytes2(p, q, r)) == [Char(p), Char(q), Char(r), '='] <==> r % 4 == 0
  {
    PackedTwo(p, q, r);
    ThirdDecides(Char(p), Char(q), r - r % 4, r);
  }

  lemma ThreeBytes(p: int, q: int, r: int, t: int)
    requires 0 <= p < 64 && 0 <= q < 64 && 0 <= r < 64 && 0 <= t < 64
    ensures var x, y, z := p * 4 + q / 16, q % 16 * 16 + r / 4, r % 4 * 64 + t;
      x / 4 == p && x % 4 * 16 + y / 16 == q && y % 16 * 4 + z / 64 == r && z % 64 == t
  {
    var x, y, z := p * 4 + q / 16, q % 16 * 16 + r / 4, r % 4 * 64 + t;
    assert x / 4 == p && x % 4 == q / 16 && y / 16 == q % 16 && y % 16 == r / 4 && z / 64 == r % 4 && z % 64 == t;
  }

  lemma PackThree(p: int, q: int, r: int, t: int)
    requires 0 <= p < 64 && 0 <= q < 64 && 0 <= r < 64 && 0 <= t < 64
    ensures Pack(Bytes3(p, q, r, t)) == [Char(p), Char(q), Char(r), Char(t)]
  {
    ThreeBytes(p, q, r, t);
  }

  lemma Sextets(s: string)
    requires |s| == 4 && Unpack(s).Some?
    ensures Char(Sextet(s[0]).value) == s[0] && Char(Sextet(s[1]).value) == s[1]
    ensures s[2] != '=' ==> Char(Sextet(s[2]).value) == s[2]
    ensures s[3] != '=' ==> Char(Sextet(s[3]).value) == s[3]
    ensures s[2] == '=' ==> s[3] == '='
  {
    CharOfSextet(s[0]);
    CharOfSextet(s[1]);
    if s[2] != '=' {
      CharOfSextet(s[2]);
      if s[3] != '=' {
        CharOfSextet(s[3]);
      }
    }
  }

  lemma PackOfUnpackIff(s: string)
    requires |s| == 4 && Unpack(s).Some?
    ensures Pack(Unpack(s).value) == s <==> TailIsZero(s)
  {
    Sextets(s);
    var p, q := Sextet(s[0]).value, Sextet(s[1]).value;
    if s[2] == '=' {
      PackOne(p, q);
      assert s == [Char(p), Char(q), '=', '='];
    } else if s[3] == '=' {
      PackTwo(p, q, Sextet(s[2]).value);
      assert s == [Char(p), Char(q), s[2], '='];
    } else {
      PackThree(p, q, Sextet(s[2]).value, Sextet(s[3]).value);
      assert s == [Char(p), Char(q), s[2], s[3]];
    }
  }

  /** Text that reads as `b` is what prints for `b` exactly if no unused bit is set. */
  lemma {:induction false} CanonicalIff(s: string, b: seq<byte>)
    requires s != "" && Quanta(s) == Some(b)
    ensures s == Encode(b) <==> TailIsZero(Last4(s))
    decreases |s|
  {
    var u := Unpack(s[..4]).value;
    PackOfUnpackIff(s[..4]);
    if |s| > 4 {
      var rest := Quanta(s[4..]).value;
      CanonicalIff(s[4..], rest);
      assert b[..3] == u && b[3..] == rest;
      assert Last4(s[4..]) == Last4(s);
      assert TailIsZero(s[..4]);
      assert s == s[..4] + s[4..];
      EncodedIsPlain(rest);
    } else {
      assert s[..4] == s;
    }
  }

  function Last4(s: string): string
    requires |s| >= 4
  {
    s[|s| - 4..]
  }

  /** The alphabet of table 1 of RFC 4648: capital letters, small letters, digits and two signs, each run in order. */
  lemma AlphabetIs(n: int, c: char)
    requires 0 <= n < 64
    ensures Char(0) == 'A' && Char(26) == 'a' && Char(52) == '0' && Char(62) == '+' && Char(63) == '/'
    ensures n < 25 || 26 <= n < 51 || 52 <= n < 61 ==> Char(n + 1) == Char(n) + 1 as char
    ensures Sextet(c) == Some(n) <==> c == Char(n)
  {
    CharsAreDistinct(n);
    if Sextet(c) == Some(n) {
      CharOfSextet(c);
    }
  }

  /** Three bytes and their four characters are the same twenty-four bit number, most significant part first. */
  lemma ThreeBytesAreOneNumber(x: byte, y: byte, z: byte) returns (p: int, q: int, r: int, t: int)
    ensures 0 <= p < 64 && 0 <= q < 64 && 0 <= r < 64 && 0 <= t < 64
    ensures Pack([x, y, z]) == [Char(p), Char(q), Char(r), Char(t)]
    ensures p * 262144 + q * 4096 + r * 64 + t == x * 65536 + y * 256 + z
  {
    p, q, r, t := x / 4, x % 4 * 16 + y / 16, y % 16 * 4 + z / 64, z % 64;
  }

  /** Fewer bytes are padded with zero bits to a whole number of characters, and with `=` to four of them. */
  lemma FewerBytesArePadded(x: byte, y: byte) returns (p: int, q: int, q': int, r: int)
    ensures 0 <= p < 64 && 0 <= q < 64 && 0 <= q' < 64 && 0 <= r < 64
    ensures Pack([x]) == [Char(p), Char(q), '=', '='] && p * 64 + q == x * 16
    ensures Pack([x, y]) == [Char(p), Char(q'), Char(r), '='] && p * 4096 + q' * 64 + r == (x * 256 + y) * 4
  {
    p, q, q', r := x / 4, x % 4 * 16, x % 4 * 16 + y / 16, y % 16 * 4;
  }

  /** Fours of characters of the alphabet, the last of them with at most two padding characters at its end. */
  predicate WellFormed(s: string) {
    |s| % 4 == 0 &&
    (|s| > 0 ==>
      && (forall i | 0 <= i < |s| - 2 :: Sextet(s[i]).Some?)
      && (if Sextet(s[|s| - 2]).Some? then Sextet(s[|s| - 1]).Some? || s[|s| - 1] == '='
          else s[|s| - 2] == '=' && s[|s| - 1] == '='))
  }

  lemma UnpacksToThreeIff(s: string)
    requires |s| == 4
    ensures Unpack(s).Some? && |Unpack(s).value| == 3 <==> forall i | 0 <= i < 4 :: Sextet(s[i]).Some?
  {
    assert Sextet('=').None?;
  }

  predicate AllSextets(s: string) {
    forall i | 0 <= i < |s| :: Sextet(s[i]).Some?
  }

  lemma QuantaStep(s: string)
    requires |s| > 4
    ensures Quanta(s).Some? <==> AllSextets(s[..4]) && Quanta(s[4..]).Some?
  {
    UnpacksToThreeIff(s[..4]);
  }

  lemma WellFormedStep(s: string)
    requires |s| > 4 && WellFormed(s[4..])
    ensures WellFormed(s) <==> AllSextets(s[..4])
  {
    var t := s[4..];
    assert |t| % 4 == 0 && |t| >= 4;
    assert t[|t| - 1] == s[|s| - 1] && t[|t| - 2] == s[|s| - 2];
    assert forall i | 4 <= i < |s| :: s[i] == t[i - 4];
    assert AllSextets(s[..4]) ==> forall i | 0 <= i < 4 :: Sextet(s[..4][i]).Some?;
    if WellFormed(s) {
      forall i | 0 <= i < 4 ensures Sextet(s[..4][i]).Some? {
        assert s[..4][i] == s[i];
      }
    }
    if AllSextets(s[..4]) {
      forall i | 0 <= i < |s| - 2 ensures Sextet(s[i]).Some? {
        if i < 4 {
          assert s[..4][i] == s[i];
        } else {
          assert s[i] == t[i - 4];
        }
      }
    }
  }

  lemma WellFormedRest(s: string)
    requires |s| > 4 && WellFormed(s)
    ensures WellFormed(s[4..])
  {
    var t := s[4..];
    assert |t| >= 4;
    assert t[|t| - 1] == s[|s| - 1] && t[|t| - 2] == s[|s| - 2];
    forall i | 0 <= i < |t| - 2 ensures Sextet(t[i]).Some? {
      assert t[i] == s[i + 4];
    }
  }

  lemma FourAreReadIff(s: string)
    requires 0 < |s| <= 4
    ensures Quanta(s).Some? <==> WellFormed(s)
  {
    assert Sextet('=').None?;
    if |s| == 4 {
      assert s[..4] == s;
    }
  }

  /** Exactly well-formed text is read; anything else is an error. */
  lemma {:induction false} ReadsIffWellFormed(s: string)
    ensures Quanta(s).Some? <==> WellFormed(s)
    decreases |s|
  {
    if |s| > 4 {
      ReadsIffWellFormed(s[4..]);
      QuantaStep(s);
      if WellFormed(s) {
        WellFormedRest(s);
      }
      if WellFormed(s[4..]) {
        WellFormedStep(s);
      }
    } else if s != "" {
      FourAreReadIff(s);
    }
  }

  /** A line break changes nothing, wherever it stands. */
  lemma BreaksAreSkipped(a: string, c: char, b: string)
    requires c == '\n' || c == '\r'
    ensures Decode(a + [c] + b) == Decode(a + b)
  {
    StripSplits(a + [c], b);
    StripSplits(a, [c]);
    StripSplits(a, b);
    assert [c][1..] == "" && Strip([c]) == "";
    assert a + [c] + b == (a + [c]) + b;
    assert Strip(a) + "" == Strip(a);
  }

  lemma {:induction false} StripSplits(a: string, b: string)
    ensures Strip(a + b) == Strip(a) + Strip(b)
  {
    if a == "" {
      assert a + b == b;
    } else {
      assert (a + b)[1..] == a[1..] + b;
      StripSplits(a[1..], b);
    }
  }
}
