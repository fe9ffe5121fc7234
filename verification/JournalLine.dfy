/** The one-line records of the durable journals: consumption intents, the
    consumption-history header and revocation tombstones. Each printer and its
    reader are proved to be exact inverses: a reader accepts a line if and only
    if the printer writes it for a valid record. */
module JournalLine {
  import opened Text

  type Id = string

  // ---- The shape both record kinds share ----------------------------------

  /** An identifier, a number, and optionally a word with a second number. */
  datatype Raw = Raw(id: string, number: nat, extra: Option<(string, nat)>)

  /** The literal text around a record's fields. */
  datatype Shape = Shape(open: string, numberSep: string, wordSep: string, lastSep: string)

  predicate ValidShape(sh: Shape) {
    && sh.numberSep != "" && sh.numberSep[0] == '"'
    && sh.wordSep != "" && sh.wordSep[0] == ','
    && sh.lastSep != "" && sh.lastSep[0] == '"'
  }

  predicate IsWord(s: string) { forall i | 0 <= i < |s| :: IsIdChar(s[i]) }

  predicate ValidRaw(r: Raw) {
    && IsWord(r.id) && 1 <= r.number <= U64_MAX
    && (r.extra.Some? ==> IsWord(r.extra.value.0) && 1 <= r.extra.value.1 <= U64_MAX)
  }

  function ExtraText(sh: Shape, extra: Option<(string, nat)>): string {
    match extra
    case None => ""
    case Some((word, n)) => sh.wordSep + (word + sh.lastSep + Digits(n))
  }

  function RawBody(sh: Shape, r: Raw): string {
    sh.open + (r.id + sh.numberSep + (Digits(r.number) + ExtraText(sh, r.extra)) + "}")
  }

  function Positive(s: string): Option<nat> {
    match CanonicalU64(s)
    case Some(n) => if n > 0 then Some(n) else None
    case None => None
  }

  function ParseExtra(sh: Shape, text: string): Option<(string, nat)>
    requires ValidShape(sh)
  {
    match SplitOnce(text, sh.lastSep)
    case None => None
    case Some((word, last)) =>
      match Positive(last)
      case Some(n) => if IsWord(word) then Some((word, n)) else None
      case None => None
  }

  function ParseRest(sh: Shape, id: string, rest: string): Option<Raw>
    requires ValidShape(sh)
  {
    match SplitOnce(rest, sh.wordSep)
    case Some((number, text)) =>
      (match (Positive(number), ParseExtra(sh, text))
       case (Some(n), Some(e)) => Some(Raw(id, n, Some(e)))
       case _ => None)
    case None =>
      match Positive(rest)
      case Some(n) => Some(Raw(id, n, None))
      case None => None
  }

  function ParseRaw(sh: Shape, line: string): Option<Raw>
    requires ValidShape(sh)
  {
    match StripPrefix(line, sh.open)
    case None => None
    case Some(rest) =>
      match StripLast(rest, '}')
      case None => None
      case Some(text) =>
        match SplitOnce(text, sh.numberSep)
        case None => None
        case Some((id, rest)) => if IsWord(id) then ParseRest(sh, id, rest) else None
  }

  lemma PositiveExact(s: string, n: nat)
    ensures Positive(s) == Some(n) <==> 1 <= n <= U64_MAX && s == Digits(n)
  {
    CanonicalExact(s, n);
  }

  lemma ParseExtraExact(sh: Shape, text: string, word: string, n: nat)
    requires ValidShape(sh)
    ensures ParseExtra(sh, text) == Some((word, n))
      <==> IsWord(word) && 1 <= n <= U64_MAX && text == word + sh.lastSep + Digits(n)
  {
    PositiveExact(Digits(n), n);
    if IsWord(word) && 1 <= n <= U64_MAX && text == word + sh.lastSep + Digits(n) {
      SplitFree(word, sh.lastSep, Digits(n));
    }
    if ParseExtra(sh, text) == Some((word, n)) {
      PositiveExact(SplitOnce(text, sh.lastSep).value.1, n);
    }
  }

  lemma RestOfPrinted(sh: Shape, r: Raw)
    requires ValidShape(sh) && ValidRaw(r)
    ensures ParseRest(sh, r.id, Digits(r.number) + ExtraText(sh, r.extra)) == Some(r)
  {
    var rest := Digits(r.number) + ExtraText(sh, r.extra);
    PositiveExact(Digits(r.number), r.number);
    match r.extra {
      case None =>
        assert rest == Digits(r.number);
        SplitNone(rest, sh.wordSep);
      case Some((word, n)) =>
        var text := word + sh.lastSep + Digits(n);
        assert rest == Digits(r.number) + sh.wordSep + text;
        SplitFree(Digits(r.number), sh.wordSep, text);
        ParseExtraExact(sh, text, word, n);
    }
  }

  lemma Regroup(a: string, b: string, c: string)
    ensures a + b + c == a + (b + c)
  {
  }

  lemma RestAccepted(sh: Shape, id: string, rest: string, r: Raw)
    requires ValidShape(sh) && ParseRest(sh, id, rest) == Some(r)
    ensures r.id == id && 1 <= r.number <= U64_MAX
    ensures r.extra.Some? ==> IsWord(r.extra.value.0) && 1 <= r.extra.value.1 <= U64_MAX
    ensures rest == Digits(r.number) + ExtraText(sh, r.extra)
  {
    var split := SplitOnce(rest, sh.wordSep);
    if split.Some? {
      var (number, text) := split.value;
      PositiveExact(number, r.number);
      ParseExtraExact(sh, text, r.extra.value.0, r.extra.value.1);
      Regroup(number, sh.wordSep, text);
      assert ExtraText(sh, r.extra) == sh.wordSep + text;
    } else {
      PositiveExact(rest, r.number);
      assert ExtraText(sh, r.extra) == "";
    }
  }

  /** A line reads as a record exactly when the record prints as the line. */
  lemma RawExact(sh: Shape, line: string, r: Raw)
    requires ValidShape(sh)
    ensures ParseRaw(sh, line) == Some(r) <==> ValidRaw(r) && line == RawBody(sh, r)
  {
    if ValidRaw(r) && line == RawBody(sh, r) {
      var rest := Digits(r.number) + ExtraText(sh, r.extra);
      var text := r.id + sh.numberSep + rest;
      assert line[|sh.open|..] == text + "}";
      assert (text + "}")[..|text|] == text;
      SplitFree(r.id, sh.numberSep, rest);
      RestOfPrinted(sh, r);
    }
    if ParseRaw(sh, line) == Some(r) {
      var text := StripLast(StripPrefix(line, sh.open).value, '}').value;
      var (id, rest) := SplitOnce(text, sh.numberSep).value;
      RestAccepted(sh, id, rest, r);
    }
  }

  // ---- Consumption intents -------------------------------------------------

  datatype Binding = Binding(operationId: Id, issuerEpoch: nat)

  datatype Consumption = Consumption(id: Id, expiresAt: nat, binding: Option<Binding>)

  predicate ValidConsumption(c: Consumption) {
    && IsOpaqueId(c.id) && 1 <= c.expiresAt <= U64_MAX
    && (c.binding.Some? ==>
          IsOpaqueId(c.binding.value.operationId) && 1 <= c.binding.value.issuerEpoch <= MAX_SAFE_INTEGER)
  }

  const CONSUMPTION_SHAPE :=
    Shape("{\"grant_id\":\"", "\",\"expires_at_ms\":", ",\"operation_id\":\"", "\",\"issuer_epoch\":")

  /** A consumption line without its newline. */
  function ConsumptionBody(c: Consumption): string {
    var extra := if c.binding.None? then None
                 else Some((c.binding.value.operationId, c.binding.value.issuerEpoch));
    RawBody(CONSUMPTION_SHAPE, Raw(c.id, c.expiresAt, extra))
  }

  function ParseConsumption(line: string): Option<Consumption> {
    match ParseRaw(CONSUMPTION_SHAPE, line)
    case None => None
    case Some(raw) =>
      var binding := if raw.extra.None? then None else Some(Binding(raw.extra.value.0, raw.extra.value.1));
      var c := Consumption(raw.id, raw.number, binding);
      if ValidConsumption(c) then Some(c) else None
  }

  /** Printing and reading a consumption line undo each other on exactly the
      valid records. */
  lemma ConsumptionLineExact(line: string, c: Consumption)
    ensures ParseConsumption(line) == Some(c) <==> ValidConsumption(c) && line == ConsumptionBody(c)
  {
    var extra := if c.binding.None? then None
                 else Some((c.binding.value.operationId, c.binding.value.issuerEpoch));
    RawExact(CONSUMPTION_SHAPE, line, Raw(c.id, c.expiresAt, extra));
  }

  // ---- Revocation tombstones ---------------------------------------------

  datatype Outcome = RevokedBeforeConsumption | AlreadyConsumed | NotReceived

  datatype Observation = Observation(outcome: Outcome, observedAt: nat)

  datatype Tombstone = Tombstone(id: Id, retainUntil: nat, observation: Option<Observation>)

  predicate ValidTombstone(t: Tombstone) {
    && IsOpaqueId(t.id) && 1 <= t.retainUntil <= U64_MAX
    && (t.observation.Some? ==> 1 <= t.observation.value.observedAt <= U64_MAX)
  }

  const TOMBSTONE_SHAPE :=
    Shape("{\"grant_id\":\"", "\",\"retain_until_ms\":", ",\"outcome\":\"", "\",\"observed_at_ms\":")

  function OutcomeName(o: Outcome): string {
    match o
    case RevokedBeforeConsumption => "revoked_before_consumption"
    case AlreadyConsumed => "already_consumed"
    case NotReceived => "not_received"
  }

  function ParseOutcome(s: string): Option<Outcome> {
    if s == "revoked_before_consumption" then Some(RevokedBeforeConsumption)
    else if s == "already_consumed" then Some(AlreadyConsumed)
    else if s == "not_received" then Some(NotReceived)
    else None
  }

  lemma OutcomeNameExact(s: string, o: Outcome)
    ensures ParseOutcome(s) == Some(o) <==> s == OutcomeName(o)
    ensures IsWord(OutcomeName(o))
  {
    assert |OutcomeName(RevokedBeforeConsumption)| == 26;
    assert |OutcomeName(AlreadyConsumed)| == 16;
    assert |OutcomeName(NotReceived)| == 12;
  }

  /** A tombstone line without its newline. */
  function TombstoneBody(t: Tombstone): string {
    var extra := if t.observation.None? then None
                 else Some((OutcomeName(t.observation.value.outcome), t.observation.value.observedAt));
    RawBody(TOMBSTONE_SHAPE, Raw(t.id, t.retainUntil, extra))
  }

  function ParseTombstone(line: string): Option<Tombstone> {
    match ParseRaw(TOMBSTONE_SHAPE, line)
    case None => None
    case Some(raw) =>
      if !IsOpaqueId(raw.id) then None
      else if raw.extra.None? then Some(Tombstone(raw.id, raw.number, None))
      else match ParseOutcome(raw.extra.value.0)
           case Some(o) => Some(Tombstone(raw.id, raw.number, Some(Observation(o, raw.extra.value.1))))
           case None => None
  }

  /** Printing and reading a tombstone line undo each other on exactly the
      valid tombstones. */
  lemma TombstoneLineExact(line: string, t: Tombstone)
    ensures ParseTombstone(line) == Some(t) <==> ValidTombstone(t) && line == TombstoneBody(t)
  {
    match t.observation {
      case None =>
        RawExact(TOMBSTONE_SHAPE, line, Raw(t.id, t.retainUntil, None));
      case Some(o) =>
        OutcomeNameExact(OutcomeName(o.outcome), o.outcome);
        RawExact(TOMBSTONE_SHAPE, line, Raw(t.id, t.retainUntil, Some((OutcomeName(o.outcome), o.observedAt))));
        if ParseTombstone(line) == Some(t) {
          OutcomeNameExact(ParseRaw(TOMBSTONE_SHAPE, line).value.extra.value.0, o.outcome);
        }
    }
  }

  // ---- History header ----------------------------------------------------

  datatype History = History(
    historyId: string, tenantId: string, nodeId: string, issuerKeyId: string,
    prunedThrough: nat, highestEpoch: nat)
  {
    predicate IsBound() { tenantId != "" }

    predicate SameScope(other: History) {
      tenantId == other.tenantId && nodeId == other.nodeId && issuerKeyId == other.issuerKeyId
    }
  }

  /** The base64url spelling of 32 bytes: 43 characters, the last of which
      carries four significant bits. */
  predicate IsNonce(s: string) {
    |s| == 43 && IsWord(s) && s[42] in "AEIMQUYcgkosw048"
  }

  predicate ValidHistory(h: History) {
    && IsNonce(h.historyId)
    && (h.tenantId == h.nodeId == h.issuerKeyId == ""
        || (IsOpaqueId(h.tenantId) && IsOpaqueId(h.nodeId) && IsOpaqueId(h.issuerKeyId)))
    && h.prunedThrough <= MAX_SAFE_INTEGER && h.highestEpoch <= MAX_SAFE_INTEGER
    && (h.IsBound() ==> h.highestEpoch > 0)
    && (!h.IsBound() ==> h.prunedThrough == 0 && h.highestEpoch == 0)
  }

  const HISTORY_OPEN := "{\"history_version\":"
  const HISTORY_FIRST := "1,\"history_id\":\""
  const HISTORY_SEPS := [
    "\",\"tenant_id\":\"", "\",\"node_id\":\"", "\",\"issuer_key_id\":\"",
    "\",\"pruned_through_ms\":", ",\"highest_issuer_epoch\":"]

  function HistoryFields(h: History): seq<string> {
    [h.historyId, h.tenantId, h.nodeId, h.issuerKeyId, Digits(h.prunedThrough), Digits(h.highestEpoch)]
  }

  function HistoryText(open: string, seps: seq<string>, h: History): string
    requires |seps| == 5
  {
    open + (Join(HistoryFields(h), seps) + "}")
  }

  function ParseHistoryText(open: string, seps: seq<string>, line: string): Option<History>
    requires |seps| == 5 && forall k | 0 <= k < 5 :: seps[k] != ""
  {
    match StripPrefix(line, open)
    case None => None
    case Some(rest) =>
      match StripLast(rest, '}')
      case None => None
      case Some(text) =>
        match SplitAll(text, seps)
        case None => None
        case Some(f) =>
          match (CanonicalU64(f[4]), CanonicalU64(f[5]))
          case (Some(p), Some(e)) =>
            var h := History(f[0], f[1], f[2], f[3], p, e);
            if ValidHistory(h) then Some(h) else None
          case _ => None
  }

  lemma FieldsFree(h: History, seps: seq<string>)
    requires ValidHistory(h)
    requires |seps| == 5 && forall k | 0 <= k < 5 :: seps[k] != "" && (seps[k][0] == '"' || seps[k][0] == ',')
    ensures forall k | 0 <= k < 5 :: Free(HistoryFields(h)[k], seps[k][0])
  {
    forall k | 0 <= k < 5 ensures Free(HistoryFields(h)[k], seps[k][0]) {
      assert IsWord(HistoryFields(h)[k]);
    }
  }

  lemma HistoryOfPrinted(open: string, seps: seq<string>, h: History)
    requires |seps| == 5 && forall k | 0 <= k < 5 :: seps[k] != "" && (seps[k][0] == '"' || seps[k][0] == ',')
    requires ValidHistory(h)
    ensures ParseHistoryText(open, seps, HistoryText(open, seps, h)) == Some(h)
  {
    CanonicalExact(Digits(h.prunedThrough), h.prunedThrough);
    CanonicalExact(Digits(h.highestEpoch), h.highestEpoch);
    FieldsFree(h, seps);
    SplitOfJoin(HistoryFields(h), seps);
    var text := Join(HistoryFields(h), seps);
    var line := HistoryText(open, seps, h);
    assert line[|open|..] == text + "}";
    assert (text + "}")[..|text|] == text;
  }

  lemma FieldsAccepted(seps: seq<string>, text: string, h: History)
    requires |seps| == 5 && forall k | 0 <= k < 5 :: seps[k] != ""
    requires SplitAll(text, seps).Some?
    requires var f := SplitAll(text, seps).value;
             && h.historyId == f[0] && h.tenantId == f[1] && h.nodeId == f[2] && h.issuerKeyId == f[3]
             && CanonicalU64(f[4]) == Some(h.prunedThrough) && CanonicalU64(f[5]) == Some(h.highestEpoch)
    ensures text == Join(HistoryFields(h), seps)
  {
    var f := SplitAll(text, seps).value;
    CanonicalExact(f[4], h.prunedThrough);
    CanonicalExact(f[5], h.highestEpoch);
    assert f == HistoryFields(h);
    JoinOfSplit(text, seps);
  }

  lemma HistoryAccepted(open: string, seps: seq<string>, line: string, h: History)
    requires |seps| == 5 && forall k | 0 <= k < 5 :: seps[k] != ""
    requires ParseHistoryText(open, seps, line) == Some(h)
    ensures ValidHistory(h) && line == HistoryText(open, seps, h)
  {
    var text := StripLast(StripPrefix(line, open).value, '}').value;
    FieldsAccepted(seps, text, h);
  }

  /** The header line without its newline. */
  function HistoryBody(h: History): string {
    HistoryText(HISTORY_OPEN + HISTORY_FIRST, HISTORY_SEPS, h)
  }

  /** The header reader demands the writer's exact spelling. */
  function ParseHistory(line: string): Option<History> {
    ParseHistoryText(HISTORY_OPEN + HISTORY_FIRST, HISTORY_SEPS, line)
  }

  /** Printing and reading the history header undo each other on exactly the
      valid headers. */
  lemma HistoryLineExact(line: string, h: History)
    ensures ParseHistory(line) == Some(h) <==> ValidHistory(h) && line == HistoryBody(h)
  {
    if ValidHistory(h) {
      HistoryOfPrinted(HISTORY_OPEN + HISTORY_FIRST, HISTORY_SEPS, h);
    }
    if ParseHistory(line) == Some(h) {
      HistoryAccepted(HISTORY_OPEN + HISTORY_FIRST, HISTORY_SEPS, line, h);
    }
  }
}
