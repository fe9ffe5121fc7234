/** Text primitives shared by the state files: decimal numbers in the one
    spelling the readers accept, first-occurrence splitting, and the
    identifier alphabet. Files are sequences of characters below 256, one per
    byte. */
module Text {

  datatype Option<+T> = None | Some(value: T)

  const U64_MAX: nat := 0xFFFF_FFFF_FFFF_FFFF
  const MAX_SAFE_INTEGER: nat := 9_007_199_254_740_991

  function Min(a: int, b: int): int { if a < b then a else b }
  function Max(a: int, b: int): int { if a < b then b else a }
  /** Saturating u64 arithmetic. */
  function SatSub(a: nat, b: nat): nat { if a < b then 0 else a - b }
  function SatAdd(a: nat, b: nat): nat { if a + b > U64_MAX then U64_MAX else a + b }

  // ---- Identifiers -------------------------------------------------------

  predicate IsDigit(c: char) { '0' <= c <= '9' }

  predicate IsIdChar(c: char) {
    IsDigit(c) || 'a' <= c <= 'z' || 'A' <= c <= 'Z' || c == '_' || c == '-'
  }

  predicate IsOpaqueId(s: string) {
    0 < |s| <= 128 && forall i | 0 <= i < |s| :: IsIdChar(s[i])
  }

  // ---- Decimal numbers ---------------------------------------------------

  predicate AllDigits(s: string) { forall i | 0 <= i < |s| :: IsDigit(s[i]) }

  function DigitChar(d: nat): char
    requires d < 10
  {
    '0' + d as char
  }

  function Digits(n: nat): (s: string)
    ensures |s| > 0 && AllDigits(s)
  {
    if n < 10 then [DigitChar(n)] else Digits(n / 10) + [DigitChar(n % 10)]
  }

  function Value(s: string): nat
    requires AllDigits(s)
  {
    if s == "" then 0 else 10 * Value(s[..|s| - 1]) + (s[|s| - 1] as int - '0' as int)
  }

  /** `str::parse::<u64>`: an optional plus sign, then digits in range. */
  function ParseU64(s: string): Option<nat> {
    var d := if s != "" && s[0] == '+' then s[1..] else s;
    if d != "" && AllDigits(d) && Value(d) <= U64_MAX then Some(Value(d)) else None
  }

  /** A number is accepted only in the spelling the writer uses. */
  function CanonicalU64(s: string): Option<nat> {
    match ParseU64(s)
    case Some(v) => if Digits(v) == s then Some(v) else None
    case None => None
  }

  lemma {:induction false} ValueOfDigits(n: nat)
    ensures Value(Digits(n)) == n
  {
    if n >= 10 {
      ValueOfDigits(n / 10);
      assert Digits(n)[..|Digits(n)| - 1] == Digits(n / 10);
    }
  }

  /** Reading a number accepts exactly the printed form of the 64-bit range. */
  lemma CanonicalExact(s: string, n: nat)
    ensures CanonicalU64(s) == Some(n) <==> n <= U64_MAX && s == Digits(n)
  {
    ValueOfDigits(n);
    if s == Digits(n) {
      assert IsDigit(s[0]);
    }
  }

  // ---- Searching ---------------------------------------------------------

  predicate Free(s: string, c: char) { forall i | 0 <= i < |s| :: s[i] != c }

  function IndexOf(s: string, sep: string): (r: Option<nat>)
    requires sep != ""
    ensures r.Some? ==> r.value + |sep| <= |s| && s[r.value..r.value + |sep|] == sep
  {
    if |s| < |sep| then None
    else if s[..|sep|] == sep then Some(0)
    else match IndexOf(s[1..], sep)
         case Some(i) => Some(i + 1)
         case None => None
  }

  function SplitOnce(s: string, sep: string): (r: Option<(string, string)>)
    requires sep != ""
    ensures r.Some? ==> s == r.value.0 + sep + r.value.1
  {
    match IndexOf(s, sep)
    case Some(i) => Some((s[..i], s[i + |sep|..]))
    case None => None
  }

  lemma {:induction false} IndexAfterFree(a: string, sep: string, b: string)
    requires sep != "" && Free(a, sep[0])
    ensures IndexOf(a + sep + b, sep) == Some(|a|)
  {
    var s := a + sep + b;
    if a == "" {
      assert s[..|sep|] == sep;
    } else {
      assert s[..|sep|][0] == a[0];
      assert s[1..] == a[1..] + sep + b;
      IndexAfterFree(a[1..], sep, b);
    }
  }

  /** A part that avoids the separator's first character is split off whole. */
  lemma SplitFree(a: string, sep: string, b: string)
    requires sep != "" && Free(a, sep[0])
    ensures SplitOnce(a + sep + b, sep) == Some((a, b))
  {
    IndexAfterFree(a, sep, b);
    assert (a + sep + b)[..|a|] == a;
    assert (a + sep + b)[|a| + |sep|..] == b;
  }

  lemma {:induction false} SplitNone(s: string, sep: string)
    requires sep != "" && Free(s, sep[0])
    ensures SplitOnce(s, sep) == None
  {
    if |s| >= |sep| {
      assert s[..|sep|][0] == s[0];
      SplitNone(s[1..], sep);
    }
  }

  function StripPrefix(s: string, p: string): (r: Option<string>)
    ensures r.Some? <==> p <= s
    ensures r.Some? ==> s == p + r.value
  {
    if p <= s then Some(s[|p|..]) else None
  }

  function StripLast(s: string, c: char): (r: Option<string>)
    ensures r.Some? ==> s == r.value + [c]
  {
    if s != "" && s[|s| - 1] == c then Some(s[..|s| - 1]) else None
  }

  // ---- Separated fields --------------------------------------------------

  /** Fields joined by one separator each. */
  function Join(fields: seq<string>, seps: seq<string>): string
    requires |fields| == |seps| + 1
  {
    if seps == [] then fields[0] else fields[0] + seps[0] + Join(fields[1..], seps[1..])
  }

  /** Split at the first occurrence of each separator in turn. */
  function SplitAll(s: string, seps: seq<string>): (r: Option<seq<string>>)
    requires forall k | 0 <= k < |seps| :: seps[k] != ""
    ensures r.Some? ==> |r.value| == |seps| + 1
  {
    if seps == [] then Some([s]) else
    match SplitOnce(s, seps[0])
    case None => None
    case Some((a, b)) =>
      match SplitAll(b, seps[1..])
      case None => None
      case Some(rest) => Some([a] + rest)
  }

  lemma {:induction false} JoinOfSplit(s: string, seps: seq<string>)
    requires forall k | 0 <= k < |seps| :: seps[k] != ""
    requires SplitAll(s, seps).Some?
    ensures Join(SplitAll(s, seps).value, seps) == s
  {
    if seps != [] {
      var (a, b) := SplitOnce(s, seps[0]).value;
      JoinOfSplit(b, seps[1..]);
      assert SplitAll(s, seps).value[1..] == SplitAll(b, seps[1..]).value;
    }
  }

  lemma {:induction false} SplitOfJoin(fields: seq<string>, seps: seq<string>)
    requires |fields| == |seps| + 1
    requires forall k | 0 <= k < |seps| :: seps[k] != "" && Free(fields[k], seps[k][0])
    ensures SplitAll(Join(fields, seps), seps) == Some(fields)
  {
    if seps == [] {
      assert fields == [fields[0]];
    } else {
      SplitFree(fields[0], seps[0], Join(fields[1..], seps[1..]));
      SplitOfJoin(fields[1..], seps[1..]);
      assert fields == [fields[0]] + fields[1..];
    }
  }
}
