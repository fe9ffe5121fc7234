/** The size of a compacted journal: pruning a readable file never needs more
    bytes than the file had, although the header may grow, so a compaction is
    never refused for its size. */
module JournalSize {
  import opened Text
  import opened Collections
  import opened JournalLine
  import opened LineFile
  import opened JournalFile
  import G = GrantJournal

  // ---- Bytes of a file ---------------------------------------------------------

  /** The bytes of these lines with their newlines. */
  function LineBytes(lines: seq<string>): nat {
    if lines == [] then 0 else LineBytes(lines[..|lines| - 1]) + |lines[|lines| - 1]| + 1
  }

  lemma {:induction false} LineBytesAppend(a: seq<string>, b: seq<string>)
    ensures LineBytes(a + b) == LineBytes(a) + LineBytes(b)
    decreases |b|
  {
    if b == [] {
      assert a + b == a;
    } else {
      var n := |b| - 1;
      LineBytesAppend(a, b[..n]);
      assert (a + b)[..|a + b| - 1] == a + b[..n];
    }
  }

  /** The nonempty lines take no more than the file. */
  lemma {:induction false} LinesFromBytes(current: string, s: string)
    requires s != "" && s[|s| - 1] == '\n'
    ensures LineBytes(LinesFrom(current, s)) <= |current| + |s|
    decreases |s|
  {
    var rest := s[1..];
    if s[0] == '\n' {
      LineBytesAppend(FirstLine(current), LinesFrom("", rest));
      assert FirstLine(current) != [] ==> FirstLine(current)[..0] == [];
      if rest != "" {
        LinesFromBytes("", rest);
      }
    } else {
      LinesFromBytes(current + [s[0]], rest);
    }
  }

  // ---- Bytes of the records ------------------------------------------------------

  function RecordBytes(l: Loaded, id: Id): nat
    requires id in l.consumed
  {
    |ConsumptionLine(Entry(l, id))|
  }

  /** The bytes of the records `ids`. */
  ghost function Bytes(l: Loaded, ids: set<Id>): nat
    requires ids <= l.consumed.Keys
  {
    if ids == {} then 0 else
    var id :| id in ids;
    RecordBytes(l, id) + Bytes(l, ids - {id})
  }

  lemma {:induction false} BytesWithout(l: Loaded, ids: set<Id>, id: Id)
    requires id in ids && ids <= l.consumed.Keys
    ensures Bytes(l, ids) == RecordBytes(l, id) + Bytes(l, ids - {id})
    decreases |ids|
  {
    hide RecordBytes;
    var x :| x in ids && Bytes(l, ids) == RecordBytes(l, x) + Bytes(l, ids - {x});
    if x != id {
      BytesWithout(l, ids - {x}, id);
      BytesWithout(l, ids - {id}, x);
      assert ids - {x} - {id} == ids - {id} - {x};
    }
  }

  lemma {:induction false} BytesSplit(l: Loaded, a: set<Id>, b: set<Id>)
    requires a + b <= l.consumed.Keys && a !! b
    ensures Bytes(l, a + b) == Bytes(l, a) + Bytes(l, b)
    decreases |a|
  {
    if a == {} {
      assert a + b == b;
    } else {
      var id :| id in a;
      BytesSplit(l, a - {id}, b);
      BytesWithout(l, a, id);
      BytesWithout(l, a + b, id);
      assert a + b - {id} == a - {id} + b;
    }
  }

  lemma {:induction false} BytesSame(l: Loaded, m: Loaded, ids: set<Id>)
    requires ids <= l.consumed.Keys && ids <= m.consumed.Keys
    requires forall id | id in ids :: Entry(l, id) == Entry(m, id)
    ensures Bytes(l, ids) == Bytes(m, ids)
    decreases |ids|
  {
    hide ConsumptionLine, Entry;
    if ids != {} {
      var id :| id in ids;
      BytesSame(l, m, ids - {id});
      BytesWithout(l, ids, id);
      BytesWithout(m, ids, id);
    }
  }

  /** The size of a compacted file does not depend on the order. */
  lemma {:induction false} RenderedBytes(l: Loaded, order: seq<Id>)
    requires Distinct(order) && forall id | id in order :: id in l.consumed
    ensures Elements(order) <= l.consumed.Keys
    ensures |Rendered(l, order)| == |HeaderText(l.history)| + Bytes(l, Elements(order))
    decreases |order|
  {
    hide ConsumptionLine, Entry, HeaderText;
    if order != [] {
      var n := |order| - 1;
      ElementsStep(order);
      RenderedBytes(l, order[..n]);
      BytesWithout(l, Elements(order), order[n]);
      assert Elements(order) - {order[n]} == Elements(order[..n]);
    }
  }

  // ---- The header ------------------------------------------------------------------

  /** The bytes of a header apart from its two numbers. */
  function FixedBytes(h: History): nat {
    |HISTORY_OPEN + HISTORY_FIRST| + Total(HISTORY_SEPS)
    + |h.historyId| + |h.tenantId| + |h.nodeId| + |h.issuerKeyId| + 2
  }

  lemma HeaderBytes(h: History)
    ensures |HistoryLine(h)| == FixedBytes(h) + |Digits(h.prunedThrough)| + |Digits(h.highestEpoch)|
  {
    hide Digits;
    var f := HistoryFields(h);
    JoinLength(f, HISTORY_SEPS);
    assert f[1..][1..][1..][1..][1..][1..] == [];
    assert Total(f[1..][1..][1..][1..][1..]) == |f[5]|;
    assert Total(f[1..][1..][1..][1..]) == |f[4]| + |f[5]|;
    assert Total(f[1..][1..][1..]) == |f[3]| + |f[4]| + |f[5]|;
    assert Total(f[1..][1..]) == |f[2]| + |f[3]| + |f[4]| + |f[5]|;
    assert Total(f[1..]) == |f[1]| + |f[2]| + |f[3]| + |f[4]| + |f[5]|;
  }

  /** Raising the two numbers changes nothing else. */
  lemma FixedSame(h: History, prunedThrough: nat, highestEpoch: nat)
    ensures FixedBytes(h.(prunedThrough := prunedThrough, highestEpoch := highestEpoch)) == FixedBytes(h)
  {
  }

  /** A header with a one-digit epoch: what reading records cannot lengthen. */
  function BaseBytes(h: Option<History>): nat {
    match h case None => 0 case Some(h) => FixedBytes(h) + |Digits(h.prunedThrough)| + 1
  }

  ghost function Weight(l: Loaded): nat { BaseBytes(l.history) + Bytes(l, l.consumed.Keys) }

  // ---- What a readable file holds -----------------------------------------------------

  lemma WeightWith(l: Loaded, c: Consumption)
    requires c.id !in l.consumed && l.bindings.Keys <= l.consumed.Keys
    ensures Weight(With(l, c)) == Weight(l) + |ConsumptionLine(c)|
  {
    hide ConsumptionLine, Digits, FixedBytes;
    var m := With(l, c);
    if l.history.Some? {
      FixedSame(l.history.value, l.history.value.prunedThrough,
                if c.binding.Some? then Max(l.history.value.highestEpoch, c.binding.value.issuerEpoch)
                else l.history.value.highestEpoch);
    }
    assert Entry(m, c.id) == c;
    BytesWithout(m, m.consumed.Keys, c.id);
    assert m.consumed.Keys - {c.id} == l.consumed.Keys;
    BytesSame(l, m, l.consumed.Keys);
  }

  lemma LineWeighs(l: Loaded, index: nat, line: string)
    requires SoundAt(l, index) && LoadLine(l, index, line).Some?
    ensures Weight(LoadLine(l, index, line).value) <= Weight(l) + |line| + 1
  {
    if HISTORY_OPEN <= line {
      var h := ParseHistory(line).value;
      HistoryLineExact(line, h);
      HeaderBytes(h);
      assert LoadLine(l, index, line) == LoadHeader(l, index, |line|, Some(h));
    } else {
      var c := ParseConsumption(line).value;
      ConsumptionLineExact(line, c);
      assert LoadLine(l, index, line) == LoadRecord(l, Some(c));
      if c.id !in l.consumed {
        WeightWith(l, c);
      }
    }
  }

  lemma {:induction false} LoadedWeight(lines: seq<string>)
    requires LoadLines(lines).Some?
    ensures SoundAt(LoadLines(lines).value, |lines|) && Weight(LoadLines(lines).value) <= LineBytes(lines)
    decreases |lines|
  {
    hide LoadLine, SoundAt, Weight;
    if lines == [] {
      EmptyWeight();
    } else {
      var n := |lines| - 1;
      assert lines == lines[..n] + [lines[n]];
      FoldOne(LoadLine, EMPTY, 0, lines[..n], lines[n]);
      LoadedWeight(lines[..n]);
      LineWeighs(LoadLines(lines[..n]).value, n, lines[n]);
      LoadLineKeepsSound(LoadLines(lines[..n]).value, n, lines[n]);
    }
  }

  lemma EmptyWeight()
    ensures SoundAt(EMPTY, 0) && Weight(EMPTY) == 0
  {
  }

  lemma FileWeight(s: string)
    requires Load(s).Some?
    ensures Weight(Load(s).value) <= |s| <= MAX_BYTES
  {
    hide Weight, LoadLines;
    var kept := Repair(s);
    LoadedWeight(Lines(kept));
    if kept != "" {
      LinesFromBytes("", kept);
    }
  }

  // ---- Pruning ---------------------------------------------------------------------------

  lemma RecordIsLong(l: Loaded, id: Id)
    requires id in l.consumed
    ensures RecordBytes(l, id) >= |Digits(l.consumed[id])| + 16
  {
    hide Digits;
    assert |CONSUMPTION_SHAPE.open| == 13 && |CONSUMPTION_SHAPE.numberSep| == 18;
  }

  lemma BytesAtLeast(l: Loaded, ids: set<Id>, id: Id)
    requires id in ids && ids <= l.consumed.Keys
    ensures Bytes(l, ids) >= RecordBytes(l, id)
  {
    BytesWithout(l, ids, id);
  }

  /** A raised boundary is the expiry of a removed record. */
  lemma BoundaryRemoved(l: Loaded, t: nat) returns (id: Id)
    requires G.KeptIds(l, t) != l.consumed.Keys
    ensures id in l.consumed.Keys - G.KeptIds(l, t)
    ensures l.history.Some? ==>
              G.Pruned(l, t).history == Some(l.history.value.(
                prunedThrough := Max(l.history.value.prunedThrough, l.consumed[id])))
  {
    var gone := l.consumed.Keys - G.KeptIds(l, t);
    var boundary := G.Largest(l.consumed, gone);
    id :| id in gone;
    assert l.consumed[id] <= boundary;
    if boundary > 0 {
      id :| id in gone && l.consumed[id] == boundary;
    }
  }

  /** The header gains at most the digits of the new boundary and of the epoch,
      which the removed records outweigh. */
  lemma HeaderGrowth(l: Loaded, t: nat)
    requires Consistent(l) && G.KeptIds(l, t) != l.consumed.Keys
    ensures |HeaderText(G.Pruned(l, t).history)|
         <= BaseBytes(l.history) + Bytes(l, l.consumed.Keys - G.KeptIds(l, t))
  {
    hide Digits, FixedBytes, HistoryLine, G.Pruned, G.KeptIds, RecordBytes;
    var id := BoundaryRemoved(l, t);
    RecordIsLong(l, id);
    BytesAtLeast(l, l.consumed.Keys - G.KeptIds(l, t), id);
    if l.history.Some? {
      var h := l.history.value;
      var p := Max(h.prunedThrough, l.consumed[id]);
      HeaderBytes(h.(prunedThrough := p));
      FixedSame(h, p, h.highestEpoch);
      SafeDigits(h.highestEpoch);
    } else {
      NoHeader(l, t);
    }
  }

  lemma NoHeader(l: Loaded, t: nat)
    requires l.history.None?
    ensures G.Pruned(l, t).history.None?
  {
  }

  /** Compacting a readable file always fits its bound. */
  lemma PruneFits(s: string, t: nat, order: seq<Id>)
    requires Load(s).Some? && G.KeptIds(Load(s).value, t) != Load(s).value.consumed.Keys
    requires Enumerates(order, G.KeptIds(Load(s).value, t))
    requires forall id | id in order :: id in G.Pruned(Load(s).value, t).consumed
    ensures |Rendered(G.Pruned(Load(s).value, t), order)| <= |s| <= MAX_BYTES
  {
    hide HeaderText, Bytes, BaseBytes, Load, ConsumptionLine, Rendered;
    var l := Load(s).value;
    var m, kept := G.Pruned(l, t), G.KeptIds(l, t);
    LoadConsistent(s);
    FileWeight(s);
    HeaderGrowth(l, t);
    RenderedBytes(m, order);
    BytesSame(l, m, kept);
    BytesSplit(l, kept, l.consumed.Keys - kept);
    assert kept + (l.consumed.Keys - kept) == l.consumed.Keys;
  }
}
