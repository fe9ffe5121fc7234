/** The pinned controller issuer and the consumption history it is bound to:
    the history is bound before the pin is written, so at every crash point the
    durable history epoch is at least the durable pin epoch. */
module PinHistory {
  import opened Text
  import opened JournalLine
  import opened JournalFile
  import G = GrantJournal
  import J = JournalRuns
  import opened KeyMaterial
  import K = KeyRotation

  /** `pin` is what the running process holds; None while none runs. */
  datatype Store = Store(text: Option<string>, disk: G.Disk, pin: Option<Option<Pin>>)

  function JournalPin(p: Pin): G.Pin { G.Pin(p.tenantId, p.nodeId, p.keyId, p.epoch) }

  // ---- Pinning ---------------------------------------------------------------------------

  datatype Pinned = Unchanged | Stored | Refused | NotStored

  /** The checks before anything is written. */
  function Judge(pin: Option<Pin>, candidate: Pin): Option<Pinned> {
    if !ValidPin(candidate) then Some(Refused)
    else if pin == Some(candidate) then Some(Unchanged)
    else if pin.Some? && (pin.value.nodeId != candidate.nodeId || candidate.epoch <= pin.value.epoch) then Some(Refused)
    else None
  }

  /** The pin file and memory; `bound` says whether the history was bound. */
  function PinStep(text: Option<string>, pin: Option<Pin>, candidate: Pin, bound: bool, io: K.WriteIo)
    : (Option<string>, Option<Pin>, Pinned)
  {
    match Judge(pin, candidate)
    case Some(result) => (text, pin, result)
    case None =>
      if !bound || io.Lost? then (text, pin, NotStored)
      else if io.Written? then (Some(PinText(candidate)), Some(candidate), Stored)
      else (Some(PinText(candidate)), pin, NotStored)
  }

  /** The pin a recovery report asks for: the same issuer at a higher epoch. */
  function Recovery(p: Pin, generation: nat): Pin { p.(epoch := Max(p.epoch, generation)) }

  datatype Event =
    | Starts(empty: bool, historyId: string)
    | Crashes
    | Pins(candidate: Pin, order: seq<Id>, bindIo: G.RewriteIo, io: K.WriteIo)
    | Recovers(generation: nat, order: seq<Id>, bindIo: G.RewriteIo, io: K.WriteIo)
    | Journals(disk: G.Disk, change: J.Change)

  ghost predicate OrderOk(s: Store, order: seq<Id>) {
    G.Open(s.disk).1.Some? ==> Enumerates(order, G.Open(s.disk).1.value.state.consumed.Keys)
  }

  /** Other uses of the journal only add or remove consumptions. */
  ghost predicate Enabled(s: Store, e: Event) {
    match e
    case Starts(empty, historyId) =>
      s.pin.None? && (empty ==> s.text.None? && s.disk.file.None? && IsNonce(historyId))
    case Crashes => s.pin.Some?
    case Pins(_, order, _, _) => s.pin.Some? && OrderOk(s, order)
    case Recovers(generation, order, _, _) =>
      s.pin.Some? && s.pin.value.Some? && generation <= U64_MAX && OrderOk(s, order)
    case Journals(disk, change) => J.Moved(s.disk, disk, change) && !change.Founded? && !change.Rebound?
  }

  /** Bind the history, then write the pin. */
  ghost function Pin0(s: Store, candidate: Pin, order: seq<Id>, bindIo: G.RewriteIo, io: K.WriteIo): Store
    requires s.pin.Some?
  {
    if Judge(s.pin.value, candidate).Some? then s else
    var (disk, bound) := G.Bind(s.disk, JournalPin(candidate), order, bindIo);
    var (text, pin, _) := PinStep(s.text, s.pin.value, candidate, bound, io);
    Store(text, disk, Some(pin))
  }

  /** Recovery binds in any case and writes only a higher epoch. */
  ghost function Recover0(s: Store, generation: nat, order: seq<Id>, bindIo: G.RewriteIo, io: K.WriteIo): Store
    requires s.pin.Some? && s.pin.value.Some?
  {
    var p := s.pin.value.value;
    var candidate := Recovery(p, generation);
    var (disk, bound) := G.Bind(s.disk, JournalPin(candidate), order, bindIo);
    if !bound || candidate.epoch == p.epoch || io.Lost? then s.(disk := disk)
    else Store(Some(PinText(candidate)), disk, if io.Written? then Some(Some(candidate)) else s.pin)
  }

  ghost function Step(s: Store, e: Event): Store
    requires Enabled(s, e)
  {
    match e
    case Starts(empty, historyId) =>
      var disk := if empty then G.Genesis(s.disk, historyId) else s.disk;
      (match s.text
       case None => Store(None, disk, Some(None))
       case Some(text) => Store(s.text, disk, if ReadPin(text).Some? then Some(ReadPin(text)) else None))
    case Crashes => s.(pin := None)
    case Pins(candidate, order, bindIo, io) => Pin0(s, candidate, order, bindIo, io)
    case Recovers(generation, order, bindIo, io) => Recover0(s, generation, order, bindIo, io)
    case Journals(disk, _) => s.(disk := disk)
  }

  // ---- The invariant ---------------------------------------------------------------------------

  function DurablePin(s: Store): Option<Pin> { match s.text case None => None case Some(t) => ReadPin(t) }

  predicate Covers(disk: G.Disk, epoch: nat) {
    J.Current(disk).history.Some? ==> J.Current(disk).history.value.highestEpoch >= epoch
  }

  /** Memory may lag behind the file, never the reverse. */
  predicate Inv(s: Store) {
    && J.DiskOk(s.disk) && (s.text.Some? ==> DurablePin(s).Some?)
    && (DurablePin(s).Some? ==> Covers(s.disk, DurablePin(s).value.epoch))
    && (s.pin.Some? && s.pin.value.Some? ==>
          && ValidPin(s.pin.value.value) && DurablePin(s).Some?
          && s.pin.value.value.epoch <= DurablePin(s).value.epoch)
  }

  /** Binding succeeds only with a history epoch at least the pin's, and never
      lowers it. */
  lemma BindCovers(d: G.Disk, p: Pin, order: seq<Id>, io: G.RewriteIo, epoch: nat)
    requires J.DiskOk(d) && ValidPin(p) && Covers(d, epoch)
    requires G.Open(d).1.Some? ==> Enumerates(order, G.Open(d).1.value.state.consumed.Keys)
    ensures var (e, ok) := G.Bind(d, JournalPin(p), order, io);
            J.DiskOk(e) && Covers(e, epoch) && (ok ==> Covers(e, p.epoch))
  {
    if p.epoch <= MAX_SAFE_INTEGER {
      J.BindStep(d, JournalPin(p), order, io);
    } else {
      J.OpenReads(d);
      var j := G.Open(d).1.value;
      if j.state.history.Some? {
        assert !G.Printable(G.Bound(j.state, JournalPin(p)).history);
        if G.MayBind(j.state, JournalPin(p)) && G.Bound(j.state, JournalPin(p)) != j.state {
          G.OrderWithin(order, j.state.consumed);
        }
      }
    }
  }

  lemma WrittenPinReads(p: Pin)
    requires ValidPin(p)
    ensures ReadPin(PinText(p)) == Some(p)
  {
    PinExact(PinText(p), p);
  }

  /** Where a write leaves the store, apart from how the text is made. */
  lemma WriteKeeps(s: Store, x: Store, candidate: Pin)
    requires Inv(s) && s.pin.Some? && ValidPin(candidate) && J.DiskOk(x.disk)
    requires DurablePin(s).Some? ==> Covers(x.disk, DurablePin(s).value.epoch)
    requires s.pin.value.Some? ==> s.pin.value.value.epoch <= candidate.epoch
    requires x.text == s.text || (DurablePin(x) == Some(candidate) && Covers(x.disk, candidate.epoch))
    requires x.pin == s.pin || (x.pin == Some(Some(candidate)) && x.text.Some? && DurablePin(x) == Some(candidate))
    ensures Inv(x)
  {
  }

  lemma PinsKeeps(s: Store, e: Event)
    requires Inv(s) && Enabled(s, e) && e.Pins?
    ensures Inv(Step(s, e))
  {
    hide PinText, ReadPin, G.Bind, J.Current;
    if Judge(s.pin.value, e.candidate).None? {
      WrittenPinReads(e.candidate);
      BindCovers(s.disk, e.candidate, e.order, e.bindIo,
                 if DurablePin(s).Some? then DurablePin(s).value.epoch else 0);
      WriteKeeps(s, Step(s, e), e.candidate);
    }
  }

  lemma RecoversKeeps(s: Store, e: Event)
    requires Inv(s) && Enabled(s, e) && e.Recovers?
    ensures Inv(Step(s, e))
  {
    var candidate := Recovery(s.pin.value.value, e.generation);
    WrittenPinReads(candidate);
    BindCovers(s.disk, candidate, e.order, e.bindIo, DurablePin(s).value.epoch);
  }

  lemma JournalKeeps(s: Store, e: Event)
    requires Inv(s) && Enabled(s, e) && e.Journals?
    ensures Inv(Step(s, e))
  {
  }

  lemma StartKeeps(s: Store, e: Event)
    requires Inv(s) && Enabled(s, e) && e.Starts?
    ensures Inv(Step(s, e)) && Step(s, e).pin == Some(DurablePin(s))
  {
    if e.empty {
      J.GenesisStep(s.disk, e.historyId);
    }
    if s.text.Some? {
      PinExact(s.text.value, DurablePin(s).value);
    }
  }

  lemma StepKeepsInv(s: Store, e: Event)
    requires Inv(s) && Enabled(s, e)
    ensures Inv(Step(s, e))
  {
    match e {
      case Starts(_, _) => StartKeeps(s, e);
      case Pins(_, _, _, _) => PinsKeeps(s, e);
      case Recovers(_, _, _, _) => RecoversKeeps(s, e);
      case Journals(_, _) => JournalKeeps(s, e);
      case Crashes =>
    }
  }

  // ---- Runs ------------------------------------------------------------------------------------

  ghost predicate IsRun(ss: seq<Store>, es: seq<Event>) {
    && |ss| == |es| + 1 && ss[0] == Store(None, G.Disk(None, 0), None)
    && forall i | 0 <= i < |es| :: Enabled(ss[i], es[i]) && ss[i + 1] == Step(ss[i], es[i])
  }

  lemma {:induction false} RunInv(ss: seq<Store>, es: seq<Event>, i: nat)
    requires IsRun(ss, es) && i < |ss|
    ensures Inv(ss[i])
  {
    if i > 0 {
      RunInv(ss, es, i - 1);
      StepKeepsInv(ss[i - 1], es[i - 1]);
    }
  }

  /** At every point of every run, so at every crash point, the durable pin can
      be read and the durable history epoch is at least its epoch. */
  lemma HistoryCoversPin(ss: seq<Store>, es: seq<Event>, i: nat)
    requires IsRun(ss, es) && i < |ss|
    ensures ss[i].text.Some? ==> DurablePin(ss[i]).Some? && Covers(ss[i].disk, DurablePin(ss[i]).value.epoch)
  {
    RunInv(ss, es, i);
  }

  /** Within a process the pinned epoch only rises. */
  lemma MemoryPinRises(s: Store, e: Event)
    requires Inv(s) && Enabled(s, e) && s.pin.Some? && s.pin.value.Some? && !e.Crashes?
    ensures var x := Step(s, e).pin;
            x.Some? && x.value.Some? && x.value.value.epoch >= s.pin.value.value.epoch
  {
  }

  // ---- The durable epoch -------------------------------------------------------------------------

  predicate Falls(before: Option<Pin>, after: Option<Pin>) {
    before.Some? && (after.None? || after.value.epoch < before.value.epoch)
  }

  /** The pin the step would write. */
  function Candidate(s: Store, e: Event): Option<Pin>
    requires e.Recovers? ==> s.pin.Some? && s.pin.value.Some?
  {
    match e
    case Pins(candidate, _, _, _) => Some(candidate)
    case Recovers(generation, _, _, _) => Some(Recovery(s.pin.value.value, generation))
    case _ => None
  }

  /** The candidate is written: it passes the checks, or is a recovery to a
      higher epoch; the history is not bound to another issuer; and the write
      gets as far as the rename. */
  ghost predicate Writes(s: Store, e: Event)
    requires Enabled(s, e)
  {
    match e
    case Pins(candidate, _, _, io) =>
      && Judge(s.pin.value, candidate).None? && !io.Lost?
      && G.MayBind(J.Current(s.disk), JournalPin(candidate))
    case Recovers(generation, _, _, io) =>
      && generation > s.pin.value.value.epoch && !io.Lost?
      && G.MayBind(J.Current(s.disk), JournalPin(s.pin.value.value))
    case _ => false
  }

  /** Binding to an older epoch than the history's writes nothing and succeeds
      exactly when the history is not bound to another issuer. */
  lemma BindOlder(d: G.Disk, p: Pin, order: seq<Id>, io: G.RewriteIo, epoch: nat)
    requires J.DiskOk(d) && Covers(d, epoch) && p.epoch < epoch
    ensures G.Bind(d, JournalPin(p), order, io).1 <==> G.MayBind(J.Current(d), JournalPin(p))
  {
    J.OpenReads(d);
    var l := G.Open(d).1.value.state;
    if l.history.Some? {
      LoadConsistent(d.file.value);
      assert l.history.value.IsBound();
      assert G.MayBind(l, JournalPin(p)) ==> G.Bound(l, JournalPin(p)) == l;
    }
  }

  /** The durable pin falls exactly when a pin is written that is newer than
      memory but older than the file. */
  lemma PinFallsExactly(s: Store, e: Event)
    requires Inv(s) && Enabled(s, e)
    ensures Falls(DurablePin(s), DurablePin(Step(s, e)))
      <==> Writes(s, e) && DurablePin(s).Some? && Candidate(s, e).value.epoch < DurablePin(s).value.epoch
  {
    TextStep(s, e);
    if DurablePin(s).Some? && Candidate(s, e).Some? && Candidate(s, e).value.epoch < DurablePin(s).value.epoch {
      OlderWritten(s, e);
    }
  }

  /** A candidate older than the file replaces it exactly when it is written. */
  lemma OlderWritten(s: Store, e: Event)
    requires Inv(s) && Enabled(s, e) && DurablePin(s).Some? && Candidate(s, e).Some?
    requires Candidate(s, e).value.epoch < DurablePin(s).value.epoch
    ensures DurablePin(Step(s, e)) == if Writes(s, e) then Candidate(s, e) else DurablePin(s)
  {
    hide ReadPin, PinText, G.Bind, Covers, G.MayBind, J.Current;
    var p := Candidate(s, e).value;
    BindOlder(s.disk, p, e.order, e.bindIo, DurablePin(s).value.epoch);
    if e.Recovers? {
      SameIssuer(s, e);
    }
    if ValidPin(p) {
      WrittenPinReads(p);
    }
  }

  /** A recovery keeps the issuer, so whether it may bind does not depend on the
      generation. */
  lemma SameIssuer(s: Store, e: Event)
    requires Enabled(s, e) && e.Recovers?
    ensures G.MayBind(J.Current(s.disk), JournalPin(s.pin.value.value))
      <==> G.MayBind(J.Current(s.disk), JournalPin(Recovery(s.pin.value.value, e.generation)))
  {
    hide J.Current;
  }

  /** The file is left alone or holds the candidate. */
  lemma TextStep(s: Store, e: Event)
    requires Inv(s) && Enabled(s, e)
    ensures Step(s, e).text == s.text
            || (Candidate(s, e).Some? && DurablePin(Step(s, e)) == Some(Candidate(s, e).value))
  {
    hide PinText, ReadPin, G.Bind, J.Current;
    if Candidate(s, e).Some? && ValidPin(Candidate(s, e).value) {
      WrittenPinReads(Candidate(s, e).value);
    }
  }

  predicate PinInStep(s: Store) { s.pin.Some? ==> s.pin.value == DurablePin(s) }

  /** The rename happened but the write was reported as failed. */
  predicate HalfWritten(e: Event) { (e.Pins? || e.Recovers?) && e.io.Renamed? }

  lemma MemoryFollows(s: Store, e: Event)
    requires Inv(s) && Enabled(s, e) && PinInStep(s) && !HalfWritten(e) && (e.Pins? || e.Recovers?)
    ensures Step(s, e).pin == Some(DurablePin(Step(s, e)))
  {
    if ValidPin(Candidate(s, e).value) {
      WrittenPinReads(Candidate(s, e).value);
    }
  }

  lemma InStepKept(s: Store, e: Event)
    requires Inv(s) && Enabled(s, e) && PinInStep(s) && !HalfWritten(e)
    ensures PinInStep(Step(s, e))
  {
    if e.Starts? {
      StartKeeps(s, e);
    } else if e.Pins? || e.Recovers? {
      MemoryFollows(s, e);
    }
  }

  /** A half-written pin is the end of its process. */
  ghost predicate EndsHalfWritten(ss: seq<Store>, es: seq<Event>)
    requires IsRun(ss, es)
  {
    forall i | 0 <= i && i + 1 < |es| && HalfWritten(es[i]) :: es[i + 1].Crashes?
  }

  lemma {:induction false} RunInStep(ss: seq<Store>, es: seq<Event>, i: nat)
    requires IsRun(ss, es) && EndsHalfWritten(ss, es) && i < |ss| && (i > 0 ==> !HalfWritten(es[i - 1]))
    ensures PinInStep(ss[i])
  {
    if i > 0 && !es[i - 1].Crashes? {
      RunInStep(ss, es, i - 1);
      RunInv(ss, es, i - 1);
      InStepKept(ss[i - 1], es[i - 1]);
    }
  }

  /** Over every run in which a half-written pin is followed by a crash, the
      durable pin epoch never falls. */
  lemma PinNeverFalls(ss: seq<Store>, es: seq<Event>, i: nat)
    requires IsRun(ss, es) && EndsHalfWritten(ss, es) && i < |es|
    ensures !Falls(DurablePin(ss[i]), DurablePin(ss[i + 1]))
  {
    RunInv(ss, es, i);
    if !es[i].Crashes? {
      RunInStep(ss, es, i);
      PinFallsExactly(ss[i], es[i]);
    }
  }

  /** Otherwise it can: a pin at epoch 5 is half written, then one at epoch 3
      is accepted against a memory still at epoch 1. */
  lemma PinCanFall(p: Pin)
    requires ValidPin(p)
    ensures exists ss, es :: IsRun(ss, es) && |es| == 4 && Falls(DurablePin(ss[3]), DurablePin(ss[4]))
  {
    hide Step, Enabled, PinText, ReadPin, IsRun, Bare, DurablePin;
    var p1, p5, p3 := p.(epoch := 1), p.(epoch := 5), p.(epoch := 3);
    var es := [Starts(false, ""), Pinning(p1, K.Written), Pinning(p5, K.Renamed), Pinning(p3, K.Written)];
    var s0, s1, s2 := Bare(None, None), Bare(None, Some(None)), Bare(Some(p1), Some(Some(p1)));
    var s3, s4 := Bare(Some(p5), Some(Some(p1))), Bare(Some(p3), Some(Some(p3)));
    StartBare();
    PinningStep(None, None, p1, K.Written);
    PinningStep(Some(p1), Some(p1), p5, K.Renamed);
    PinningStep(Some(p5), Some(p1), p3, K.Written);
    FourSteps(s0, s1, s2, s3, s4, es);
    BareReads(p5, Some(Some(p1)));
    BareReads(p3, Some(Some(p3)));
    var ss := [s0, s1, s2, s3, s4];
    assert IsRun(ss, es) && Falls(DurablePin(ss[3]), DurablePin(ss[4]));
  }

  lemma StartBare()
    ensures Bare(None, None) == Store(None, G.Disk(None, 0), None)
    ensures Enabled(Bare(None, None), Starts(false, ""))
    ensures Step(Bare(None, None), Starts(false, "")) == Bare(None, Some(None))
  {
  }

  lemma BareReads(p: Pin, pin: Option<Option<Pin>>)
    requires ValidPin(p)
    ensures DurablePin(Bare(Some(p), pin)) == Some(p)
  {
    WrittenPinReads(p);
  }

  lemma FourSteps(s0: Store, s1: Store, s2: Store, s3: Store, s4: Store, es: seq<Event>)
    requires |es| == 4 && s0 == Store(None, G.Disk(None, 0), None)
    requires Enabled(s0, es[0]) && s1 == Step(s0, es[0]) && Enabled(s1, es[1]) && s2 == Step(s1, es[1])
    requires Enabled(s2, es[2]) && s3 == Step(s2, es[2]) && Enabled(s3, es[3]) && s4 == Step(s3, es[3])
    ensures IsRun([s0, s1, s2, s3, s4], es)
  {
  }

  function Pinning(p: Pin, io: K.WriteIo): Event { Pins(p, [], G.Committed, io) }

  /** A store without a journal. */
  function Bare(file: Option<Pin>, pin: Option<Option<Pin>>): Store {
    Store(match file case None => None case Some(p) => Some(PinText(p)), G.Disk(None, 0), pin)
  }

  lemma PinningStep(file: Option<Pin>, pin: Option<Pin>, p: Pin, io: K.WriteIo)
    requires ValidPin(p) && (pin.Some? ==> pin.value.nodeId == p.nodeId && pin.value.epoch < p.epoch) && !io.Lost?
    ensures var s := Bare(file, Some(pin));
            && Enabled(s, Pinning(p, io))
            && Step(s, Pinning(p, io)) == Bare(Some(p), Some(if io.Written? then Some(p) else pin))
  {
    var d := G.Disk(None, 0);
    assert G.Open(d).1.value.state.consumed.Keys == {} && Elements([]) == {};
    assert G.Bind(d, JournalPin(p), [], G.Committed) == (d, true);
  }

  // ---- The object ----------------------------------------------------------------------------------

  class IssuerPin {
    var pin: Option<Pin>
    var text: Option<string>

    /** `pin_issuer`; `bound` is the outcome of binding the history, which
        happens before the pin is written. */
    method PinIssuer(candidate: Pin, bound: bool, io: K.WriteIo) returns (result: Pinned)
      modifies this
      ensures (text, pin, result) == PinStep(old(text), old(pin), candidate, bound, io)
    {
      if !ValidPin(candidate) {
        return Refused;
      }
      if pin.Some? {
        if pin.value == candidate {
          return Unchanged;
        }
        if pin.value.nodeId != candidate.nodeId || candidate.epoch <= pin.value.epoch {
          return Refused;
        }
      }
      if !bound || io.Lost? {
        return NotStored;
      }
      text := Some(PinText(candidate));
      if io.Renamed? {
        return NotStored;
      }
      pin := Some(candidate);
      result := Stored;
    }
  }
}
