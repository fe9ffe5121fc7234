/** Offers on top of the grant verifier: the deadline an offer is made for is
    the one the verifier holds for the accepted grant, so between two offers of
    one grant the grant was accepted anew. */
module OfferRuns {
  import opened Text
  import opened JournalLine
  import opened GrantVerifier
  import V = VerifierRuns
  import O = Offers

  datatype State = State(w: V.World, b: O.State)

  datatype Event =
    | OfWorld(e: V.Event)
    | OfBook(o: O.Event, a: Authorization, policyVersion: nat)

  /** `preview_consumption_deadline`: the deadline of a grant that may be
      consumed right now. */
  function PreviewDeadline(v: Verifier, id: Id, a: Authorization, policyVersion: nat, boot: nat): Option<nat> {
    if Validate(v, id, a, policyVersion, boot).Some? then None else Some(v.accepted[id].deadline)
  }

  ghost predicate Enabled(s: State, e: Event) {
    match e
    case OfWorld(x) => V.Enabled(s.w, x)
    case OfBook(o, a, policyVersion) =>
      && s.w.process.Some? && O.Enabled(s.b, o)
      && (o.Mints? ==> o.q.deadline == PreviewDeadline(s.w.process.value, o.q.grantId, a, policyVersion, o.q.boot))
  }

  predicate Restarts(e: Event) { e.OfWorld? && (e.e.Crashes? || e.e.Starts?) }

  /** The book lives in memory and is empty after a restart. */
  ghost function Step(s: State, e: Event): State
    requires Enabled(s, e)
  {
    match e
    case OfWorld(x) =>
      State(V.Step(s.w, x), if Restarts(e) then O.State(map[], 0, [], [], s.b.offers) else s.b)
    case OfBook(o, _, _) => s.(b := O.Step(s.b, o))
  }

  ghost predicate IsRun(ss: seq<State>, es: seq<Event>) {
    && |ss| == |es| + 1 && ss[0].w.process.None? && O.Inv(ss[0].b)
    && forall i | 0 <= i < |es| :: Enabled(ss[i], es[i]) && ss[i + 1] == Step(ss[i], es[i])
  }

  lemma {:induction false} RunBook(ss: seq<State>, es: seq<Event>, i: nat)
    requires IsRun(ss, es) && i < |ss|
    ensures O.Inv(ss[i].b)
  {
    hide V.Enabled, V.Step, O.Step, O.Enabled;
    if i > 0 {
      RunBook(ss, es, i - 1);
      if es[i - 1].OfBook? {
        O.StepKeepsInv(ss[i - 1].b, es[i - 1].o);
      }
    }
  }

  // ---- Acceptances --------------------------------------------------------------------

  /** The verifier holds the grant as accepted. */
  predicate Holds(s: State, id: Id) { s.w.process.Some? && id in s.w.process.value.accepted }

  /** This delivery newly accepts the grant. */
  ghost predicate Accepts(s: State, e: Event, id: Id)
    requires Enabled(s, e)
  {
    e.OfWorld? && e.e.Delivers? && e.e.g.id == id && !Holds(s, id) && Holds(Step(s, e), id)
  }

  /** A grant held after a step was held before it, unchanged, or is newly
      accepted. */
  lemma WorldEntry(w: V.World, e: V.Event, id: Id)
    requires V.Enabled(w, e)
    ensures var x := V.Step(w, e);
            x.process.Some? && id in x.process.value.accepted ==>
              !e.Crashes? && !e.Starts? && w.process.Some?
              && if id in w.process.value.accepted then x.process.value.accepted[id] == w.process.value.accepted[id]
                 else e.Delivers? && e.g.id == id
  {
    if e.Replies? {
      V.ReplyMemory(w, e);
    } else if w.process.Some? && !e.Starts? && !e.Crashes? {
      V.OtherMemory(w, e);
      if e.Delivers? {
        V.AcceptFacts(w, e);
      }
    }
  }

  lemma HeldEntry(s: State, e: Event, id: Id)
    requires Enabled(s, e) && Holds(Step(s, e), id)
    ensures Accepts(s, e, id)
            || (!Restarts(e) && Holds(s, id)
                && Step(s, e).w.process.value.accepted[id] == s.w.process.value.accepted[id])
  {
    hide V.Enabled, V.Step, O.Step;
    if e.OfWorld? {
      WorldEntry(s.w, e.e, id);
    }
  }

  /** Nothing restarted and the grant was not accepted anew from `i` on. */
  ghost predicate SameAcceptance(ss: seq<State>, es: seq<Event>, i: nat, j: nat, id: Id)
    requires IsRun(ss, es) && i <= j < |ss|
  {
    forall m | i <= m < j :: !Restarts(es[m]) && !Accepts(ss[m], es[m], id)
  }

  lemma {:induction false} EntryStays(ss: seq<State>, es: seq<Event>, i: nat, j: nat, id: Id)
    requires IsRun(ss, es) && i <= j < |ss| && Holds(ss[j], id)
    requires forall m | i <= m < j :: !Accepts(ss[m], es[m], id)
    ensures SameAcceptance(ss, es, i, j, id) && Holds(ss[i], id)
    ensures ss[j].w.process.value.accepted[id] == ss[i].w.process.value.accepted[id]
    decreases j
  {
    hide Enabled, Step, Accepts;
    if i < j {
      HeldEntry(ss[j - 1], es[j - 1], id);
      EntryStays(ss, es, i, j - 1, id);
    }
  }

  // ---- Offers ----------------------------------------------------------------------------

  /** This request makes a new offer for the grant. */
  predicate Makes(s: State, e: Event, id: Id) {
    e.OfBook? && e.o.Mints? && e.o.q.grantId == id && O.Makes(s.b.entries, e.o.q)
  }

  /** The offer is made for the acceptance the verifier holds, before its
      deadline. */
  lemma MadeForAcceptance(s: State, e: Event, id: Id)
    requires Enabled(s, e) && Makes(s, e, id)
    ensures Holds(s, id) && e.o.q.deadline == Some(s.w.process.value.accepted[id].deadline)
    ensures e.o.q.boot < s.w.process.value.accepted[id].deadline
    ensures (id, e.o.q.deadline.value) in Step(s, e).b.minted
  {
    O.LogsGrow(s.b, e.o);
  }

  lemma {:induction false} LogStays(ss: seq<State>, es: seq<Event>, i: nat, j: nat, x: (Id, nat))
    requires IsRun(ss, es) && i <= j < |ss| && x in ss[i].b.minted
    requires forall m | i <= m < j :: !Restarts(es[m])
    ensures x in ss[j].b.minted
    decreases j
  {
    hide V.Enabled, V.Step, O.Step, O.Enabled;
    if i < j {
      LogStays(ss, es, i, j - 1, x);
      if es[j - 1].OfBook? {
        O.LogsGrow(ss[j - 1].b, es[j - 1].o);
      }
    }
  }

  /** What is logged and no longer on the book is over. */
  lemma LoggedIsOver(s: State, e: Event, id: Id, deadline: nat)
    requires Enabled(s, e) && Makes(s, e, id) && O.Inv(s.b) && (id, deadline) in s.b.minted
    ensures deadline <= e.o.q.boot
  {
    O.PurgeKeeps(s.b, e.o.q.boot);
  }

  /** Over every run of verifier and book, with crashes and restarts, between two
      offers made for one grant the grant was accepted anew. */
  lemma OneOfferPerAcceptance(ss: seq<State>, es: seq<Event>, i: nat, j: nat, id: Id)
    requires IsRun(ss, es) && i < j < |es| && Makes(ss[i], es[i], id) && Makes(ss[j], es[j], id)
    ensures exists m :: i < m < j && Accepts(ss[m], es[m], id)
  {
    hide Enabled, Step, Accepts, Makes, O.Inv, V.Step;
    MadeForAcceptance(ss[i], es[i], id);
    MadeForAcceptance(ss[j], es[j], id);
    BookEvent(ss[i], es[i], id);
    if forall m | i < m < j :: !Accepts(ss[m], es[m], id) {
      EntryStays(ss, es, i, j, id);
      LogStays(ss, es, i + 1, j, (id, es[i].o.q.deadline.value));
      RunBook(ss, es, j);
      LoggedIsOver(ss[j], es[j], id, es[i].o.q.deadline.value);
      assert false;
    }
  }

  lemma BookEvent(s: State, e: Event, id: Id)
    requires Enabled(s, e) && Makes(s, e, id)
    ensures e.OfBook? && e.o.Mints? && !Accepts(s, e, id)
  {
  }
}
