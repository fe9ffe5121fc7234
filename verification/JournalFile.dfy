/** The consumption journal as a file: splitting into lines, cutting a torn
    tail, loading, appending and compacting. The main results: a crash at any
    byte of an append leaves the old records or the old records plus the new
    one, and a compacted file loads back as exactly the state it was written
    from. */
module JournalFile {
  import opened Text
  import opened Collections
  import opened JournalLine
  import opened LineFile

  const MAX_BYTES: nat := 64 * 1024 * 1024
  const MAX_RECORDS: nat := 1_000_000
  const MAX_HEADER_BYTES: nat := 2_047

  /** What one journal instance holds after reading the file. */
  datatype Loaded = Loaded(consumed: map<Id, nat>, bindings: map<Id, Binding>, history: Option<History>)

  const EMPTY := Loaded(map[], map[], None)

  // ---- Printed lines -----------------------------------------------------

  function ConsumptionLine(c: Consumption): string { ConsumptionBody(c) + "\n" }

  function HistoryLine(h: History): string { HistoryBody(h) + "\n" }

  lemma RawFree(sh: Shape, r: Raw, c: char)
    requires ValidRaw(r) && !IsIdChar(c) && c != '}'
    requires Free(sh.open, c) && Free(sh.numberSep, c) && Free(sh.wordSep, c) && Free(sh.lastSep, c)
    ensures Free(RawBody(sh, r), c)
  {
    assert Free(Digits(r.number), c);
    assert Free(ExtraText(sh, r.extra), c);
  }

  lemma ConsumptionShapeFree()
    ensures Free(CONSUMPTION_SHAPE.open, '\n') && Free(CONSUMPTION_SHAPE.numberSep, '\n')
    ensures Free(CONSUMPTION_SHAPE.wordSep, '\n') && Free(CONSUMPTION_SHAPE.lastSep, '\n')
  {
  }

  lemma ConsumptionBodyFacts(c: Consumption)
    requires ValidConsumption(c)
    ensures ConsumptionBody(c) != "" && Free(ConsumptionBody(c), '\n')
    ensures |ConsumptionBody(c)| > 2 && ConsumptionBody(c)[2] == 'g'
  {
    var extra := if c.binding.None? then None
                 else Some((c.binding.value.operationId, c.binding.value.issuerEpoch));
    ConsumptionShapeFree();
    RawFree(CONSUMPTION_SHAPE, Raw(c.id, c.expiresAt, extra), '\n');
  }

  lemma {:induction false} JoinFree(fields: seq<string>, seps: seq<string>, c: char)
    requires |fields| == |seps| + 1
    requires forall k | 0 <= k < |fields| :: Free(fields[k], c)
    requires forall k | 0 <= k < |seps| :: Free(seps[k], c)
    ensures Free(Join(fields, seps), c)
  {
    if seps != [] {
      JoinFree(fields[1..], seps[1..], c);
    }
  }

  function Total(parts: seq<string>): nat {
    if parts == [] then 0 else |parts[0]| + Total(parts[1..])
  }

  lemma {:induction false} JoinLength(fields: seq<string>, seps: seq<string>)
    requires |fields| == |seps| + 1
    ensures |Join(fields, seps)| == Total(fields) + Total(seps)
  {
    if seps == [] {
      assert fields[1..] == [];
    } else {
      JoinLength(fields[1..], seps[1..]);
    }
  }

  lemma {:induction false} DigitsLength(n: nat, d: nat, bound: nat)
    requires n < bound && bound == Power10(d) && d > 0
    ensures |Digits(n)| <= d
    decreases d
  {
    if n >= 10 {
      assert d > 1;
      DigitsLength(n / 10, d - 1, Power10(d - 1));
    }
  }

  function Power10(d: nat): nat { if d == 0 then 1 else 10 * Power10(d - 1) }

  lemma SafeDigits(n: nat)
    requires n <= MAX_SAFE_INTEGER
    ensures |Digits(n)| <= 16
  {
    assert Power10(4) == 10_000;
    assert Power10(8) == 100_000_000;
    assert Power10(12) == 1_000_000_000_000;
    assert Power10(16) == 10_000_000_000_000_000;
    DigitsLength(n, 16, Power10(16));
  }

  lemma HistorySepsFacts()
    ensures |HISTORY_SEPS| == 5 && Total(HISTORY_SEPS) <= 100
    ensures forall k | 0 <= k < 5 :: Free(HISTORY_SEPS[k], '\n')
    ensures Free(HISTORY_OPEN, '\n') && Free(HISTORY_FIRST, '\n')
    ensures |HISTORY_OPEN| == 19 && |HISTORY_FIRST| == 16
  {
    var s := HISTORY_SEPS;
    assert s[1..][1..][1..][1..][1..] == [];
    assert Total(s[1..][1..][1..][1..]) == |s[4]|;
    assert Total(s[1..][1..][1..]) == |s[3]| + |s[4]|;
    assert Total(s[1..][1..]) == |s[2]| + |s[3]| + |s[4]|;
    assert Total(s[1..]) == |s[1]| + |s[2]| + |s[3]| + |s[4]|;
  }

  lemma HistoryFieldsTotal(h: History)
    requires ValidHistory(h)
    ensures Total(HistoryFields(h)) <= 459
  {
    var f := HistoryFields(h);
    SafeDigits(h.prunedThrough);
    SafeDigits(h.highestEpoch);
    assert f[1..][1..][1..][1..][1..][1..] == [];
    assert Total(f[1..][1..][1..][1..][1..]) == |f[5]|;
    assert Total(f[1..][1..][1..][1..]) == |f[4]| + |f[5]|;
    assert Total(f[1..][1..][1..]) == |f[3]| + |f[4]| + |f[5]|;
    assert Total(f[1..][1..]) == |f[2]| + |f[3]| + |f[4]| + |f[5]|;
    assert Total(f[1..]) == |f[1]| + |f[2]| + |f[3]| + |f[4]| + |f[5]|;
  }

  /** Every valid header fits the reader's header bound. */
  lemma HistoryBodyFacts(h: History)
    requires ValidHistory(h)
    ensures HistoryBody(h) != "" && Free(HistoryBody(h), '\n')
    ensures HISTORY_OPEN <= HistoryBody(h) && |HistoryBody(h)| <= MAX_HEADER_BYTES
  {
    HistorySepsFacts();
    HistoryFieldsTotal(h);
    var f := HistoryFields(h);
    JoinLength(f, HISTORY_SEPS);
    forall k | 0 <= k < 6 ensures Free(f[k], '\n') {
      assert IsWord(f[k]);
    }
    JoinFree(f, HISTORY_SEPS, '\n');
    var open := HISTORY_OPEN + HISTORY_FIRST;
    assert HistoryBody(h) == open + (Join(f, HISTORY_SEPS) + "}");
    assert HistoryBody(h)[..|HISTORY_OPEN|] == HISTORY_OPEN;
  }

  lemma NotHeader(line: string)
    requires |line| <= 2 || line[2] == 'g'
    ensures !(HISTORY_OPEN <= line)
  {
    assert HISTORY_OPEN[2] == 'h';
  }

  // ---- Loading -----------------------------------------------------------

  function BindingOf(l: Loaded, id: Id): Option<Binding> {
    if id in l.bindings then Some(l.bindings[id]) else None
  }

  function RaiseEpoch(h: Option<History>, epoch: nat): Option<History> {
    match h
    case None => None
    case Some(h) => Some(h.(highestEpoch := Max(h.highestEpoch, epoch)))
  }

  /** The state after one more consumption intent. */
  function With(l: Loaded, c: Consumption): Loaded {
    match c.binding
    case None => l.(consumed := l.consumed[c.id := c.expiresAt])
    case Some(b) =>
      Loaded(l.consumed[c.id := c.expiresAt], l.bindings[c.id := b], RaiseEpoch(l.history, b.issuerEpoch))
  }

  function LoadHeader(l: Loaded, index: nat, size: nat, header: Option<History>): Option<Loaded> {
    if index != 0 || l.history.Some? || size > MAX_HEADER_BYTES || header.None? then None
    else Some(l.(history := header))
  }

  function LoadRecord(l: Loaded, record: Option<Consumption>): Option<Loaded> {
    match record
    case None => None
    case Some(c) =>
      if c.id !in l.consumed then Some(With(l, c))
      else if l.consumed[c.id] == c.expiresAt && BindingOf(l, c.id) == c.binding then Some(l)
      else None
  }

  function LoadLine(l: Loaded, index: nat, line: string): Option<Loaded> {
    if HISTORY_OPEN <= line then LoadHeader(l, index, |line|, ParseHistory(line))
    else LoadRecord(l, ParseConsumption(line))
  }

  function LoadLines(lines: seq<string>): Option<Loaded> {
    Fold(LoadLine, EMPTY, 0, lines)
  }

  /** A header may only be the complete first line of the file. */
  predicate HeaderPlaced(s: string) {
    (exists line | line in Lines(s) :: HISTORY_OPEN <= line) ==> HISTORY_OPEN <= s && '\n' in s
  }

  /** Checks made before the torn tail is cut. */
  predicate Readable(s: string) { |s| <= MAX_BYTES && HeaderPlaced(s) }

  predicate Admissible(l: Loaded) {
    |l.consumed| <= MAX_RECORDS && (l.history.Some? && !l.history.value.IsBound() ==> l.consumed == map[])
  }

  /** What reading the file yields; None is the fail-closed refusal. */
  function Load(s: string): Option<Loaded> {
    if !Readable(s) then None else
    match LoadLines(Lines(Repair(s)))
    case None => None
    case Some(l) => if Admissible(l) then Some(l) else None
  }

  /** The file after a read: the torn tail is gone once the early checks pass. */
  function AfterRead(s: string): string { if Readable(s) then Repair(s) else s }

  /** Reading checks size and header placement, cuts the torn tail, then scans. */
  method ReadLocked(contents: string) returns (r: Option<Loaded>, kept: string)
    ensures r == Load(contents) && kept == AfterRead(contents)
  {
    if !Readable(contents) {
      return None, contents;
    }
    kept := CutTornTail(contents);
    r := ScanLines(LoadLine, EMPTY, kept);
    if r.Some? && !Admissible(r.value) {
      r := None;
    }
  }

  // ---- Crash-atomic append -----------------------------------------------

  lemma PlacedAfterAppend(base: string, more: string)
    requires Boundary(base) && HeaderPlaced(base)
    requires forall line | line in Lines(more) :: !(HISTORY_OPEN <= line)
    ensures HeaderPlaced(base + more)
  {
    LinesAppend(base, more);
    if exists line | line in Lines(base + more) :: HISTORY_OPEN <= line {
      var line :| line in Lines(base + more) && HISTORY_OPEN <= line;
      assert line in Lines(base);
      assert (base + more)[..|HISTORY_OPEN|] == HISTORY_OPEN;
      assert '\n' in base;
    }
  }

  /** The record the journal may append to a loaded state. */
  predicate Appendable(base: string, l: Loaded, c: Consumption) {
    && ValidConsumption(c) && c.id !in l.consumed
    && |l.consumed| < MAX_RECORDS && |base| + |ConsumptionLine(c)| <= MAX_BYTES
    && (l.history.Some? ==> l.history.value.IsBound())
  }

  lemma TornAppend(base: string, l: Loaded, c: Consumption, k: nat)
    requires Boundary(base) && Load(base) == Some(l) && Appendable(base, l, c)
    requires k < |ConsumptionLine(c)|
    ensures Load(base + ConsumptionLine(c)[..k]) == Some(l)
    ensures AfterRead(base + ConsumptionLine(c)[..k]) == base
  {
    ConsumptionBodyFacts(c);
    var torn := ConsumptionLine(c)[..k];
    assert torn == ConsumptionBody(c)[..k];
    LinesOfTorn(torn);
    NotHeader(torn);
    PlacedAfterAppend(base, torn);
    KeepTorn(base, torn);
    RepairedWhole(base);
  }

  lemma LoadPrinted(l: Loaded, index: nat, c: Consumption)
    requires ValidConsumption(c) && c.id !in l.consumed
    ensures LoadLine(l, index, ConsumptionBody(c)) == Some(With(l, c))
  {
    ConsumptionBodyFacts(c);
    NotHeader(ConsumptionBody(c));
    ConsumptionLineExact(ConsumptionBody(c), c);
  }

  /** One more complete line extends the loaded state by one record. */
  lemma LineAppended(s: string, l: Loaded, c: Consumption)
    requires Boundary(s) && HeaderPlaced(s) && LoadLines(Lines(s)) == Some(l)
    requires ValidConsumption(c) && c.id !in l.consumed
    ensures Boundary(s + ConsumptionLine(c)) && HeaderPlaced(s + ConsumptionLine(c))
    ensures LoadLines(Lines(s + ConsumptionLine(c))) == Some(With(l, c))
  {
    ConsumptionBodyFacts(c);
    LinesOfOne(ConsumptionBody(c));
    NotHeader(ConsumptionBody(c));
    PlacedAfterAppend(s, ConsumptionLine(c));
    LinesAppend(s, ConsumptionLine(c));
    FoldOne(LoadLine, EMPTY, 0, Lines(s), ConsumptionBody(c));
    LoadPrinted(l, |Lines(s)|, c);
  }

  lemma WholeAppend(base: string, l: Loaded, c: Consumption)
    requires Boundary(base) && Load(base) == Some(l) && Appendable(base, l, c)
    ensures Load(base + ConsumptionLine(c)) == Some(With(l, c))
    ensures Boundary(base + ConsumptionLine(c))
  {
    RepairedWhole(base);
    LineAppended(base, l, c);
    RepairedWhole(base + ConsumptionLine(c));
    assert |With(l, c).consumed| == |l.consumed| + 1;
  }

  /** A crash at byte `k` of an append leaves, on the next read, exactly the
      old records or the old records plus the new one, and a file that ends on
      a record boundary. */
  lemma CrashAtomicAppend(base: string, l: Loaded, c: Consumption, k: nat)
    requires Boundary(base) && Load(base) == Some(l) && Appendable(base, l, c)
    requires k <= |ConsumptionLine(c)|
    ensures var crashed := base + ConsumptionLine(c)[..k];
            && Load(crashed) == Some(if k < |ConsumptionLine(c)| then l else With(l, c))
            && AfterRead(crashed) == (if k < |ConsumptionLine(c)| then base else crashed)
            && Boundary(AfterRead(crashed))
  {
    if k < |ConsumptionLine(c)| {
      TornAppend(base, l, c, k);
    } else {
      assert ConsumptionLine(c)[..k] == ConsumptionLine(c);
      WholeAppend(base, l, c);
      RepairedWhole(base + ConsumptionLine(c));
    }
  }

  // ---- Compaction ----------------------------------------------------------

  function Entry(l: Loaded, id: Id): Consumption
    requires id in l.consumed
  {
    Consumption(id, l.consumed[id], BindingOf(l, id))
  }

  /** Records are valid and no record is newer than the header's epoch. */
  predicate Sound(l: Loaded) {
    && l.bindings.Keys <= l.consumed.Keys
    && (forall id | id in l.consumed :: ValidConsumption(Entry(l, id)))
    && (l.history.Some? ==>
          && (l.history.value.IsBound() || l.consumed == map[] ==> ValidHistory(l.history.value))
          && forall id | id in l.bindings :: l.bindings[id].issuerEpoch <= l.history.value.highestEpoch)
  }

  predicate Consistent(l: Loaded) { Sound(l) && Admissible(l) }

  lemma WithKeepsSound(l: Loaded, c: Consumption)
    requires Sound(l) && ValidConsumption(c) && c.id !in l.consumed
    ensures Sound(With(l, c))
  {
    var m := With(l, c);
    forall id | id in m.consumed ensures ValidConsumption(Entry(m, id)) {
      if id == c.id {
        assert Entry(m, id) == c;
      } else {
        assert Entry(m, id) == Entry(l, id);
      }
    }
  }

  /** Nothing was read before the first line. */
  predicate SoundAt(l: Loaded, index: nat) { Sound(l) && (index == 0 ==> l == EMPTY) }

  lemma LoadRecordKeepsSound(l: Loaded, c: Consumption)
    requires Sound(l) && ValidConsumption(c) && LoadRecord(l, Some(c)).Some?
    ensures Sound(LoadRecord(l, Some(c)).value)
  {
    if c.id !in l.consumed {
      WithKeepsSound(l, c);
    }
  }

  lemma LoadLineKeepsSound(l: Loaded, index: nat, line: string)
    requires SoundAt(l, index) && LoadLine(l, index, line).Some?
    ensures SoundAt(LoadLine(l, index, line).value, index + 1)
  {
    if HISTORY_OPEN <= line {
      var h := ParseHistory(line);
      HistoryLineExact(line, h.value);
      assert LoadLine(l, index, line) == LoadHeader(l, index, |line|, h);
    } else {
      var c := ParseConsumption(line);
      assert LoadLine(l, index, line) == LoadRecord(l, c);
      ConsumptionLineExact(line, c.value);
      LoadRecordKeepsSound(l, c.value);
    }
  }

  /** Whatever the file holds, an accepted read is consistent. */
  lemma LoadConsistent(s: string)
    requires Load(s).Some?
    ensures Consistent(Load(s).value)
  {
    forall t, i: nat, line | SoundAt(t, i) && LoadLine(t, i, line).Some?
      ensures SoundAt(LoadLine(t, i, line).value, i + 1)
    {
      LoadLineKeepsSound(t, i, line);
    }
    FoldKeeps(LoadLine, SoundAt, EMPTY, 0, Lines(Repair(s)));
  }

  ghost function Elements(order: seq<Id>): set<Id> { set id | id in order }

  /** `order` lists each element of `ids` exactly once. */
  ghost predicate Enumerates(order: seq<Id>, ids: set<Id>) { Distinct(order) && Elements(order) == ids }

  lemma ElementsStep(order: seq<Id>)
    requires order != [] && Distinct(order)
    ensures var n := |order| - 1;
            && Elements(order) == Elements(order[..n]) + {order[n]}
            && order[n] !in Elements(order[..n]) && Distinct(order[..n])
  {
    var n := |order| - 1;
    assert order == order[..n] + [order[n]];
  }

  function HeaderText(h: Option<History>): string {
    match h case None => "" case Some(h) => HistoryLine(h)
  }

  /** The compacted file: the header, then one line per record. */
  function Rendered(l: Loaded, order: seq<Id>): string
    requires forall id | id in order :: id in l.consumed
  {
    if order == [] then HeaderText(l.history)
    else Rendered(l, order[..|order| - 1]) + ConsumptionLine(Entry(l, order[|order| - 1]))
  }

  ghost function Restricted(l: Loaded, ids: set<Id>): Loaded {
    Loaded(map id | id in l.consumed && id in ids :: l.consumed[id],
           map id | id in l.bindings && id in ids :: l.bindings[id],
           l.history)
  }

  lemma RestrictedStep(l: Loaded, ids: set<Id>, id: Id)
    requires Sound(l) && id in l.consumed && id !in ids
    ensures id !in Restricted(l, ids).consumed
    ensures With(Restricted(l, ids), Entry(l, id)) == Restricted(l, ids + {id})
  {
    var a, b := With(Restricted(l, ids), Entry(l, id)), Restricted(l, ids + {id});
    assert a.consumed == b.consumed;
    assert a.bindings == b.bindings;
  }

  lemma RestrictedAll(l: Loaded)
    requires Sound(l)
    ensures Restricted(l, l.consumed.Keys) == l
  {
    assert Restricted(l, l.consumed.Keys).consumed == l.consumed;
    assert Restricted(l, l.consumed.Keys).bindings == l.bindings;
  }

  lemma RenderedHeader(l: Loaded)
    requires Consistent(l)
    ensures Boundary(HeaderText(l.history)) && HeaderPlaced(HeaderText(l.history))
    ensures LoadLines(Lines(HeaderText(l.history))) == Some(EMPTY.(history := l.history))
    ensures l.history.None? ==> forall line | line in Lines(HeaderText(l.history)) :: !(HISTORY_OPEN <= line)
  {
    match l.history {
      case None =>
      case Some(h) =>
        HistoryBodyFacts(h);
        var body := HistoryBody(h);
        LinesOfOne(body);
        HistoryLineExact(body, h);
        assert (body + "\n")[..|HISTORY_OPEN|] == HISTORY_OPEN;
        assert (body + "\n")[|body|] == '\n';
        FoldOne(LoadLine, EMPTY, 0, [], body);
        assert [] + [body] == [body];
    }
  }

  lemma {:induction false} RenderedPrefixLoads(l: Loaded, order: seq<Id>)
    requires Consistent(l) && Distinct(order) && forall id | id in order :: id in l.consumed
    ensures Boundary(Rendered(l, order)) && HeaderPlaced(Rendered(l, order))
    ensures LoadLines(Lines(Rendered(l, order))) == Some(Restricted(l, Elements(order)))
    decreases |order|
  {
    if order == [] {
      RenderedHeader(l);
      assert Restricted(l, {}) == EMPTY.(history := l.history);
    } else {
      var n := |order| - 1;
      var most := order[..n];
      ElementsStep(order);
      RenderedPrefixLoads(l, most);
      RestrictedStep(l, Elements(most), order[n]);
      LineAppended(Rendered(l, most), Restricted(l, Elements(most)), Entry(l, order[n]));
    }
  }

  /** A compacted file that fits its bound loads back as exactly the state it
      was written from, whatever order the records were written in. */
  lemma RenderedLoads(l: Loaded, order: seq<Id>)
    requires Consistent(l) && Enumerates(order, l.consumed.Keys)
    requires forall id | id in order :: id in l.consumed
    requires |Rendered(l, order)| <= MAX_BYTES
    ensures Load(Rendered(l, order)) == Some(l) && Boundary(Rendered(l, order))
  {
    RenderedPrefixLoads(l, order);
    RepairedWhole(Rendered(l, order));
    RestrictedAll(l);
  }
}
