/** The WebSocket upgrade is rewritten from scratch: of an accepted request only
    the key reaches the browser, and a key is accepted exactly when it is the
    base64 of sixteen bytes (section 4.1 of RFC 6455). */
module Upgrade {
  import opened Text
  import opened Collections
  import LineFile
  import Base64

  const MAX_HEADER: nat := 4_096
  const CRLF := "\r\n"
  const KEY := "sec-websocket-key"

  function Lower(c: char): char { if 'A' <= c <= 'Z' then (c as int + 32) as char else c }

  function LowerCase(s: string): string { seq(|s|, i requires 0 <= i < |s| => Lower(s[i])) }

  predicate IsSpace(c: char) { c == ' ' || 9 <= c as int <= 13 }

  function TrimStart(s: string): string { if s != "" && IsSpace(s[0]) then TrimStart(s[1..]) else s }

  function TrimEnd(s: string): string { if s != "" && IsSpace(s[|s| - 1]) then TrimEnd(s[..|s| - 1]) else s }

  function Trim(s: string): string { TrimEnd(TrimStart(s)) }

  /** All parts between separators. */
  function Split(s: string, sep: string): (parts: seq<string>)
    requires sep != ""
    ensures |parts| > 0
    decreases |s|
  {
    match SplitOnce(s, sep)
    case None => [s]
    case Some((a, b)) => [a] + Split(b, sep)
  }

  // ---- Keys ----------------------------------------------------------------------------------

  predicate KeyShape(v: string) {
    && |v| == 24 && v[22..] == "==" && v[21] in {'A', 'Q', 'g', 'w'}
    && forall i | 0 <= i < 22 :: Base64.InAlphabet(v[i])
  }

  /** The shape test accepts exactly the canonical base64 of sixteen bytes. */
  lemma KeyShapeExact(v: string)
    ensures KeyShape(v) <==> exists b: seq<byte> :: |b| == 16 && Base64.Encode(b) == v
  {
    if |v| == 24 {
      assert Base64.InAlphabet(v[21]) ==> (Base64.Sextet(v[21]) % 16 == 0 <==> v[21] in {'A', 'Q', 'g', 'w'});
    }
    assert KeyShape(v) <==> Base64.Canonical(v) && |v| == 24;
    if KeyShape(v) {
      var b := Base64.DecodeCanonical(v);
      assert |b| == 16;
    }
    forall b: seq<byte> | |b| == 16 && Base64.Encode(b) == v ensures KeyShape(v) {
      Base64.EncodeCanonical(b);
    }
  }

  // ---- Headers --------------------------------------------------------------------------------

  datatype Headers = Headers(
    seen: set<string>, key: Option<string>, version: bool, upgrade: bool, connection: bool, host: bool)

  const NONE := Headers({}, None, false, false, false, false)

  predicate NameOk(name: string) {
    name != "" && forall i | 0 <= i < |name| ::
                    IsDigit(name[i]) || 'a' <= name[i] <= 'z' || 'A' <= name[i] <= 'Z' || name[i] == '-'
  }

  predicate ValueOk(value: string) {
    forall i | 0 <= i < |value| :: value[i] == '\t' || (value[i] as int >= 32 && value[i] as int != 127)
  }

  predicate Forbidden(name: string) {
    name == "authorization" || name == "proxy-authorization" || name == "cookie" || name == "transfer-encoding"
  }

  predicate Asks(value: string) {
    exists i :: 0 <= i < |Split(value, ",")| && LowerCase(Trim(Split(value, ",")[i])) == "upgrade"
  }

  /** One header, by its lower-case name and trimmed value. */
  function Note(h: Headers, name: string, value: string): Option<Headers> {
    if name in h.seen then None else
    var h' := h.(seen := h.seen + {name});
    if name == KEY then if KeyShape(value) then Some(h'.(key := Some(value))) else None
    else if name == "sec-websocket-version" then Some(h'.(version := value == "13"))
    else if name == "upgrade" then Some(h'.(upgrade := LowerCase(value) == "websocket"))
    else if name == "connection" then Some(h'.(connection := Asks(value)))
    else if name == "host" then Some(h'.(host := value != "" && |value| <= 256))
    else if Forbidden(name) || (name == "content-length" && value != "0") then None
    else Some(h')
  }

  /** The name and value a line carries, if it is a header. */
  function HeaderOf(line: string): Option<(string, string)> {
    match SplitOnce(line, ":")
    case None => None
    case Some((name, value)) =>
      if NameOk(name) && ValueOk(value) then Some((LowerCase(name), Trim(value))) else None
  }

  function NoteLine(h: Headers, index: nat, line: string): Option<Headers> {
    match HeaderOf(line)
    case None => None
    case Some((name, value)) => Note(h, name, value)
  }

  predicate Complete(h: Headers) { h.version && h.upgrade && h.connection && h.host && h.key.Some? }

  function Rewritten(path: string, key: string): string {
    "GET " + path + " HTTP/1.1\r\nHost: localhost\r\nConnection: Upgrade\r\nUpgrade: websocket\r\n"
    + "Sec-WebSocket-Version: 13\r\nSec-WebSocket-Key: " + key + "\r\n\r\n"
  }

  /** The outer form of a request: bounded, plain and for the current session. */
  function HeaderLines(text: string): Option<seq<string>> {
    if |text| > MAX_HEADER || |text| < 4 || text[|text| - 4..] != CRLF + CRLF
       || exists i :: 0 <= i < |text| && (text[i] as int == 0 || text[i] as int > 127) then None
    else
      var lines := Split(text[..|text| - 4], CRLF);
      if lines[0] == "GET /current HTTP/1.1" then Some(lines[1..]) else None
  }

  predicate IsLowerHex(c: char) { IsDigit(c) || 'a' <= c <= 'f' }

  predicate PathOk(path: string) {
    match StripPrefix(path, "/devtools/browser/")
    case None => false
    case Some(uuid) =>
      |uuid| == 36 && forall i | 0 <= i < 36 ::
        if i == 8 || i == 13 || i == 18 || i == 23 then uuid[i] == '-' else IsLowerHex(uuid[i])
  }

  /** The key of an acceptable request. */
  function AcceptedKey(text: string): Option<string> {
    match HeaderLines(text)
    case None => None
    case Some(lines) =>
      match LineFile.Fold(NoteLine, NONE, 0, lines)
      case None => None
      case Some(h) => if Complete(h) then h.key else None
  }

  function Upgraded(text: string, path: string): Option<string> {
    if PathOk(path) && AcceptedKey(text).Some? then Some(Rewritten(path, AcceptedKey(text).value)) else None
  }

  /** The header loop, setting flags as it goes. */
  method ScanHeaders(lines: seq<string>) returns (r: Option<Headers>)
    ensures r == LineFile.Fold(NoteLine, NONE, 0, lines)
  {
    var h, i := NONE, 0;
    while i < |lines|
      invariant 0 <= i <= |lines| && LineFile.Fold(NoteLine, NONE, 0, lines[..i]) == Some(h)
    {
      assert lines[..i + 1] == lines[..i] + [lines[i]];
      LineFile.FoldOne(NoteLine, NONE, 0, lines[..i], lines[i]);
      var next := NoteLine(h, i, lines[i]);
      if next.None? {
        assert lines == lines[..i + 1] + lines[i + 1..];
        LineFile.FoldAppend(NoteLine, NONE, 0, lines[..i + 1], lines[i + 1..]);
        return None;
      }
      h, i := next.value, i + 1;
    }
    assert lines[..i] == lines;
    r := Some(h);
  }

  method RewriteUpgrade(text: string, path: string) returns (r: Option<string>)
    ensures r == Upgraded(text, path)
  {
    if !PathOk(path) {
      return None;
    }
    var lines := HeaderLines(text);
    if lines.None? {
      return None;
    }
    var h := ScanHeaders(lines.value);
    if h.None? || !Complete(h.value) {
      return None;
    }
    r := Some(Rewritten(path, h.value.key.value));
  }

  // ---- Only the key is carried over --------------------------------------------------------------

  /** Some header line carries this key. */
  ghost predicate LinesCarry(
    lines: seq<string>, header: string -> Option<(string, string)>, name: string, key: string)
  {
    exists i :: 0 <= i < |lines| && header(lines[i]) == Some((name, key))
  }

  ghost predicate CarriesKey(text: string, key: string) {
    HeaderLines(text).Some? && LinesCarry(HeaderLines(text).value, HeaderOf, KEY, key)
  }

  /** What a step does with one header, for the header `name` that is kept. */
  ghost predicate Keeps(
    step: (Headers, nat, string) -> Option<Headers>, header: string -> Option<(string, string)>, name: string)
  {
    forall h, i, line | step(h, i, line).Some? ::
      && header(line).Some? && header(line).value.0 !in h.seen
      && step(h, i, line).value.seen == h.seen + {header(line).value.0}
      && step(h, i, line).value.key == (if header(line).value.0 == name then Some(header(line).value.1) else h.key)
      && (header(line).value.0 == name ==> KeyShape(header(line).value.1))
  }

  lemma NoteKeeps()
    ensures Keeps(NoteLine, HeaderOf, KEY)
  {
    forall h, i, line | NoteLine(h, i, line).Some?
      ensures var (name, value) := HeaderOf(line).value;
              && name !in h.seen && NoteLine(h, i, line).value.seen == h.seen + {name}
              && NoteLine(h, i, line).value.key == (if name == KEY then Some(value) else h.key)
              && (name == KEY ==> KeyShape(value))
    {
      NoteKey(h, HeaderOf(line).value.0, HeaderOf(line).value.1);
    }
  }

  lemma NoteKey(h: Headers, name: string, value: string)
    requires Note(h, name, value).Some?
    ensures name !in h.seen && Note(h, name, value).value.seen == h.seen + {name}
    ensures Note(h, name, value).value.key == if name == KEY then Some(value) else h.key
    ensures name == KEY ==> KeyShape(value)
  {
  }

  /** After the lines, the key is that of the one line that carries a key. */
  lemma {:induction false} KeyOfLines(
    step: (Headers, nat, string) -> Option<Headers>, header: string -> Option<(string, string)>, name: string,
    lines: seq<string>, h: Headers)
    requires Keeps(step, header, name) && LineFile.Fold(step, NONE, 0, lines) == Some(h)
    ensures name in h.seen <==> h.key.Some?
    ensures forall key | LinesCarry(lines, header, name, key) :: h.key == Some(key)
    ensures h.key.Some? ==> KeyShape(h.key.value) && LinesCarry(lines, header, name, h.key.value)
    decreases |lines|
  {
    if lines != [] {
      var n := |lines| - 1;
      assert lines == lines[..n] + [lines[n]];
      LineFile.FoldOne(step, NONE, 0, lines[..n], lines[n]);
      var before := LineFile.Fold(step, NONE, 0, lines[..n]).value;
      KeyOfLines(step, header, name, lines[..n], before);
      CarryStep(lines, header, name);
    }
  }

  lemma CarryStep(lines: seq<string>, header: string -> Option<(string, string)>, name: string)
    requires lines != []
    ensures forall key :: LinesCarry(lines, header, name, key)
              <==> LinesCarry(lines[..|lines| - 1], header, name, key)
                   || header(lines[|lines| - 1]) == Some((name, key))
  {
    var n := |lines| - 1;
    forall key | LinesCarry(lines[..n], header, name, key) ensures LinesCarry(lines, header, name, key) {
      var i :| 0 <= i < n && header(lines[..n][i]) == Some((name, key));
      assert header(lines[i]) == Some((name, key));
    }
    forall key | LinesCarry(lines, header, name, key) && header(lines[n]) != Some((name, key))
      ensures LinesCarry(lines[..n], header, name, key)
    {
      var i :| 0 <= i < |lines| && header(lines[i]) == Some((name, key));
      assert header(lines[..n][i]) == Some((name, key));
    }
  }

  /** An accepted request carries exactly one key, of the right shape. */
  lemma AcceptedKeyExact(text: string)
    requires AcceptedKey(text).Some?
    ensures KeyShape(AcceptedKey(text).value)
    ensures forall key :: CarriesKey(text, key) <==> key == AcceptedKey(text).value
  {
    NoteKeeps();
    var lines := HeaderLines(text).value;
    KeyOfLines(NoteLine, HeaderOf, KEY, lines, LineFile.Fold(NoteLine, NONE, 0, lines).value);
  }

  /** Two accepted requests with the same key give the same output, whatever
      their other headers say. */
  lemma OnlyKeyMatters(a: string, b: string, path: string, key: string)
    requires Upgraded(a, path).Some? && Upgraded(b, path).Some? && CarriesKey(a, key) && CarriesKey(b, key)
    ensures Upgraded(a, path) == Upgraded(b, path) == Some(Rewritten(path, key))
  {
    AcceptedKeyExact(a);
    AcceptedKeyExact(b);
  }

  // ---- What an accepted request must and must not say -------------------------------------------

  lemma ForbiddenNote(h: Headers, name: string, value: string)
    requires Forbidden(name) || (name == "content-length" && value != "0")
    ensures Note(h, name, value).None?
  {
    assert "transfer-encoding"[0] == 't' && KEY[0] == 's';
  }

  /** A malformed line, a credential header or a body refuses the request. */
  lemma ForbiddenRefused(text: string, k: nat)
    requires HeaderLines(text).Some? && k < |HeaderLines(text).value|
    requires var header := HeaderOf(HeaderLines(text).value[k]);
             header.None? || Forbidden(header.value.0) || (header.value.0 == "content-length" && header.value.1 != "0")
    ensures AcceptedKey(text).None?
  {
    var lines := HeaderLines(text).value;
    var header := HeaderOf(lines[k]);
    forall h: Headers, i: nat ensures NoteLine(h, i, lines[k]).None? {
      if header.Some? {
        ForbiddenNote(h, header.value.0, header.value.1);
      }
    }
    hide NoteLine, HeaderOf, HeaderLines;
    LineFile.FoldRefuses(NoteLine, NONE, 0, lines, k);
  }

  /** Some header of this name has an acceptable value. */
  ghost predicate LinesHave(
    lines: seq<string>, header: string -> Option<(string, string)>, name: string, good: string -> bool)
  {
    exists i :: 0 <= i < |lines| && header(lines[i]).Some?
                && header(lines[i]).value.0 == name && good(header(lines[i]).value.1)
  }

  /** The flag is what the latest header of that name said. */
  ghost predicate Tracks(
    step: (Headers, nat, string) -> Option<Headers>, header: string -> Option<(string, string)>,
    flag: Headers -> bool, name: string, good: string -> bool)
  {
    forall h, i, line | step(h, i, line).Some? ::
      && header(line).Some?
      && flag(step(h, i, line).value) == (if header(line).value.0 == name then good(header(line).value.1) else flag(h))
  }

  lemma {:induction false} FlagOfLines(
    step: (Headers, nat, string) -> Option<Headers>, header: string -> Option<(string, string)>,
    flag: Headers -> bool, name: string, good: string -> bool, lines: seq<string>, h: Headers)
    requires Tracks(step, header, flag, name, good) && !flag(NONE)
    requires LineFile.Fold(step, NONE, 0, lines) == Some(h) && flag(h)
    ensures LinesHave(lines, header, name, good)
    decreases |lines|
  {
    if lines != [] {
      var n := |lines| - 1;
      assert lines == lines[..n] + [lines[n]];
      LineFile.FoldOne(step, NONE, 0, lines[..n], lines[n]);
      if header(lines[n]).value.0 != name {
        FlagOfLines(step, header, flag, name, good, lines[..n], LineFile.Fold(step, NONE, 0, lines[..n]).value);
        var i :| 0 <= i < n && header(lines[..n][i]).Some? && header(lines[..n][i]).value.0 == name
                 && good(header(lines[..n][i]).value.1);
        assert lines[..n][i] == lines[i];
      }
    }
  }

  lemma NoteFlags(h: Headers, name: string, value: string)
    requires Note(h, name, value).Some?
    ensures var x := Note(h, name, value).value;
            && x.version == (if name == "sec-websocket-version" then value == "13" else h.version)
            && x.upgrade == (if name == "upgrade" then LowerCase(value) == "websocket" else h.upgrade)
            && x.connection == (if name == "connection" then Asks(value) else h.connection)
            && x.host == (if name == "host" then value != "" && |value| <= 256 else h.host)
  {
  }

  lemma NoteTracks()
    ensures Tracks(NoteLine, HeaderOf, (h: Headers) => h.version, "sec-websocket-version", (v: string) => v == "13")
    ensures Tracks(NoteLine, HeaderOf, (h: Headers) => h.upgrade, "upgrade", (v: string) => LowerCase(v) == "websocket")
    ensures Tracks(NoteLine, HeaderOf, (h: Headers) => h.connection, "connection", Asks)
    ensures Tracks(NoteLine, HeaderOf, (h: Headers) => h.host, "host", (v: string) => v != "" && |v| <= 256)
  {
    forall h, i, line | NoteLine(h, i, line).Some?
      ensures var (name, value), x := HeaderOf(line).value, NoteLine(h, i, line).value;
              && x.version == (if name == "sec-websocket-version" then value == "13" else h.version)
              && x.upgrade == (if name == "upgrade" then LowerCase(value) == "websocket" else h.upgrade)
              && x.connection == (if name == "connection" then Asks(value) else h.connection)
              && x.host == (if name == "host" then value != "" && |value| <= 256 else h.host)
    {
      NoteFlags(h, HeaderOf(line).value.0, HeaderOf(line).value.1);
    }
  }

  /** An accepted request is a version 13 WebSocket upgrade with a host. */
  lemma AcceptedIsUpgrade(text: string)
    requires AcceptedKey(text).Some?
    ensures var lines := HeaderLines(text).value;
            && LinesHave(lines, HeaderOf, "sec-websocket-version", (v: string) => v == "13")
            && LinesHave(lines, HeaderOf, "upgrade", (v: string) => LowerCase(v) == "websocket")
            && LinesHave(lines, HeaderOf, "connection", Asks)
            && LinesHave(lines, HeaderOf, "host", (v: string) => v != "" && |v| <= 256)
  {
    var lines := HeaderLines(text).value;
    var h := LineFile.Fold(NoteLine, NONE, 0, lines).value;
    NoteTracks();
    FlagOfLines(NoteLine, HeaderOf, (x: Headers) => x.version, "sec-websocket-version", (v: string) => v == "13",
                lines, h);
    FlagOfLines(NoteLine, HeaderOf, (x: Headers) => x.upgrade, "upgrade", (v: string) => LowerCase(v) == "websocket",
                lines, h);
    FlagOfLines(NoteLine, HeaderOf, (x: Headers) => x.connection, "connection", Asks, lines, h);
    FlagOfLines(NoteLine, HeaderOf, (x: Headers) => x.host, "host", (v: string) => v != "" && |v| <= 256, lines, h);
  }
}
