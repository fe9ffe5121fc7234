/** Base64 of section 4 of RFC 4648 for byte strings one longer than a multiple
    of three, such as a 16-byte WebSocket key: two padding characters. */
module Base64 {
  import opened Collections

  predicate InAlphabet(c: char) {
    'A' <= c <= 'Z' || 'a' <= c <= 'z' || '0' <= c <= '9' || c == '+' || c == '/'
  }

  function Sextet(c: char): (n: nat)
    requires InAlphabet(c)
    ensures n < 64
  {
    if 'A' <= c <= 'Z' then c as int - 'A' as int
    else if 'a' <= c <= 'z' then c as int - 'a' as int + 26
    else if '0' <= c <= '9' then c as int - '0' as int + 52
    else if c == '+' then 62
    else 63
  }

  function Char(n: nat): (c: char)
    requires n < 64
    ensures InAlphabet(c) && Sextet(c) == n
  {
    if n < 26 then 'A' + n as char
    else if n < 52 then 'a' + (n - 26) as char
    else if n < 62 then '0' + (n - 52) as char
    else if n == 62 then '+'
    else '/'
  }

  lemma CharOfSextet(c: char)
    requires InAlphabet(c)
    ensures Char(Sextet(c)) == c
  {
  }

  type sextet = x: int | 0 <= x < 64

  // ---- Bits ----------------------------------------------------------------------------------

  /** Three bytes as four groups of six bits. */
  function Four(a: int, b: int, c: int): seq<sextet>
    requires 0 <= a < 256 && 0 <= b < 256 && 0 <= c < 256
  {
    [a / 4, a % 4 * 16 + b / 16, b % 16 * 4 + c / 64, c % 64]
  }

  function Three(a: int, b: int, c: int, d: int): seq<byte>
    requires 0 <= a < 64 && 0 <= b < 64 && 0 <= c < 64 && 0 <= d < 64
  {
    [a * 4 + b / 16, b % 16 * 16 + c / 4, c % 4 * 64 + d]
  }

  /** The last byte gives two groups. */
  function Sextets(s: seq<byte>): seq<sextet>
    requires |s| % 3 == 1
  {
    if |s| == 1 then Four(s[0], 0, 0)[..2] else Four(s[0], s[1], s[2]) + Sextets(s[3..])
  }

  function Bytes(v: seq<sextet>): seq<byte>
    requires |v| % 4 == 2
  {
    if |v| == 2 then Three(v[0], v[1], 0, 0)[..1] else Three(v[0], v[1], v[2], v[3]) + Bytes(v[4..])
  }

  lemma {:induction false} BytesLength(v: seq<sextet>)
    requires |v| % 4 == 2
    ensures |Bytes(v)| % 3 == 1
    decreases |v|
  {
    if |v| > 2 {
      BytesLength(v[4..]);
    }
  }

  lemma FourOfThree(a: int, b: int, c: int, d: int)
    requires 0 <= a < 64 && 0 <= b < 64 && 0 <= c < 64 && 0 <= d < 64
    ensures var t := Three(a, b, c, d); Four(t[0], t[1], t[2]) == [a, b, c, d]
  {
    var x, y, z := a * 4 + b / 16, b % 16 * 16 + c / 4, c % 4 * 64 + d;
    HighBits(a, b / 16, 4);
    HighBits(b % 16, c / 4, 16);
    HighBits(c % 4, d, 64);
    assert Three(a, b, c, d) == [x, y, z];
  }

  /** Division and remainder take a sum of shifted parts apart. */
  lemma HighBits(high: int, low: int, unit: int)
    requires 0 <= high && 0 <= low < unit && unit in {4, 16, 64}
    ensures (high * unit + low) / unit == high && (high * unit + low) % unit == low
  {
  }

  lemma {:induction false} SextetsFacts(s: seq<byte>)
    requires |s| % 3 == 1
    ensures |Sextets(s)| == (|s| + 2) / 3 * 4 - 2 && Sextets(s)[|Sextets(s)| - 1] % 16 == 0
    decreases |s|
  {
    if |s| > 1 {
      SextetsFacts(s[3..]);
    }
  }

  lemma {:induction false} SextetsOfBytes(v: seq<sextet>)
    requires |v| % 4 == 2 && v[|v| - 1] % 16 == 0
    ensures |Bytes(v)| % 3 == 1 && Sextets(Bytes(v)) == v
    decreases |v|
  {
    BytesLength(v);
    FourOfThree(v[0], v[1], if |v| == 2 then 0 else v[2], if |v| == 2 then 0 else v[3]);
    if |v| > 2 {
      SextetsOfBytes(v[4..]);
      BytesStep(v);
      assert v == [v[0], v[1], v[2], v[3]] + v[4..];
    }
  }

  lemma BytesStep(v: seq<sextet>)
    requires |v| % 4 == 2 && |v| > 2
    ensures Bytes(v)[..3] == Three(v[0], v[1], v[2], v[3]) && Bytes(v)[3..] == Bytes(v[4..])
  {
  }

  // ---- Text ----------------------------------------------------------------------------------

  function Characters(v: seq<sextet>): string { seq(|v|, i requires 0 <= i < |v| => Char(v[i])) }

  function Values(t: string): seq<sextet>
    requires forall i | 0 <= i < |t| :: InAlphabet(t[i])
  {
    seq(|t|, i requires 0 <= i < |t| => Sextet(t[i]))
  }

  lemma TextOfValues(t: string)
    requires forall i | 0 <= i < |t| :: InAlphabet(t[i])
    ensures Characters(Values(t)) == t
  {
    forall i | 0 <= i < |t| ensures Characters(Values(t))[i] == t[i] {
      CharOfSextet(t[i]);
    }
  }

  function Encode(s: seq<byte>): string
    requires |s| % 3 == 1
  {
    Characters(Sextets(s)) + "=="
  }

  /** Full groups, then one byte and padding whose unused bits are zero. */
  predicate Canonical(t: string) {
    && |t| % 4 == 0 && |t| >= 4 && t[|t| - 2..] == "=="
    && (forall i | 0 <= i < |t| - 2 :: InAlphabet(t[i]))
    && Sextet(t[|t| - 3]) % 16 == 0
  }

  lemma EncodeCanonical(s: seq<byte>)
    requires |s| % 3 == 1
    ensures Canonical(Encode(s)) && |Encode(s)| == (|s| + 2) / 3 * 4
  {
    SextetsFacts(s);
  }

  lemma DecodeCanonical(t: string) returns (s: seq<byte>)
    requires Canonical(t)
    ensures |s| % 3 == 1 && (|s| + 2) / 3 * 4 == |t| && Encode(s) == t
  {
    var head := t[..|t| - 2];
    s := Bytes(Values(head));
    TextOfValues(head);
    SextetsOfBytes(Values(head));
    assert t == head + "==";
    EncodeCanonical(s);
  }

  /** A text is canonical exactly when it encodes a byte string of the length
      that fits it. */
  lemma CanonicalExact(t: string)
    ensures Canonical(t) <==> exists s: seq<byte> :: |s| % 3 == 1 && (|s| + 2) / 3 * 4 == |t| && Encode(s) == t
  {
    if Canonical(t) {
      var s := DecodeCanonical(t);
    }
    forall s: seq<byte> | |s| % 3 == 1 && Encode(s) == t ensures Canonical(t) {
      EncodeCanonical(s);
    }
  }
}
