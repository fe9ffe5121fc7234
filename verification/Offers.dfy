/** One-use browser offers: per acceptance of a grant at most one offer is
    minted, its key is used at most once and never after its deadline, and a
    full book refuses rather than evicting. */
module Offers {
  import opened Text
  import opened Collections

  type Id = string

  const MAX_OFFERS: nat := 16
  const MAX_SOURCE_BYTES: nat := 65_536

  /** What an offer is bound to. */
  datatype Binding = Binding(
    offerId: Id, grantId: Id, unit: string, credential: string, expiresAt: nat, grantExpiresAt: nat)

  /** `key` says whether the private key is still in custody. */
  datatype Offer = Offer(
    binding: Binding, key: bool, grantDeadline: nat, offerDeadline: nat, attempted: bool, receipt: Option<string>)

  // ---- Purging and maintenance ------------------------------------------------------------

  /** Custody drops an expired key by itself. */
  function Aged(o: Offer, boot: nat): Offer { o.(key := o.key && boot < o.offerDeadline) }

  /** Offers stay until the grant's own deadline, spent or not. */
  function Purged(entries: map<Id, Offer>, boot: nat): map<Id, Offer> {
    map id | id in entries && boot < entries[id].grantDeadline :: Aged(entries[id], boot)
  }

  function Withdrawn(o: Offer): Offer { o.(key := false, attempted := true) }

  /** No clock, or no authority: the key is gone. */
  function Maintained(entries: map<Id, Offer>, boot: Option<nat>, authorized: set<Id>): map<Id, Offer> {
    if boot.None? then Restricted(entries, {}) else Restricted(Purged(entries, boot.value), authorized)
  }

  function Restricted(entries: map<Id, Offer>, authorized: set<Id>): map<Id, Offer> {
    map id | id in entries :: if id in authorized then entries[id] else Withdrawn(entries[id])
  }

  // ---- Minting -----------------------------------------------------------------------------

  /** What the broker knows when an offer is asked for. `ready`: the grant is a
      live candidate with a valid destination and the clock is anchored;
      `deadline` is its local deadline while it may still be consumed;
      `matching`: a stored binding still matches it. */
  datatype Request = Request(
    grantId: Id, ready: bool, matching: bool, boot: nat, now: nat, deadline: Option<nat>, expiresAt: nat,
    lifetime: nat, offerId: Id, unit: string, credential: string, signs: bool)

  function Remaining(q: Request): Option<nat> {
    if q.deadline.None? || q.deadline.value < q.boot || q.expiresAt < q.now then None
    else
      var left := Min(q.deadline.value - q.boot, Min(q.expiresAt - q.now, q.lifetime));
      if left == 0 || q.now + left > U64_MAX || q.boot + left > U64_MAX then None else Some(left)
  }

  function NewOffer(q: Request, left: nat): Offer
    requires q.deadline.Some?
  {
    Offer(Binding(q.offerId, q.grantId, q.unit, q.credential, q.now + left, q.expiresAt), true, q.deadline.value,
          q.boot + left, false, None)
  }

  /** The stored offer again, unchanged, as long as it can still be answered. */
  predicate Reusable(o: Offer, q: Request) {
    q.matching && !o.attempted && q.boot < o.offerDeadline
    && o.binding.unit == q.unit && o.binding.credential == q.credential && q.signs
  }

  predicate Mintable(entries: map<Id, Offer>, q: Request) {
    q.grantId !in entries && |entries| < MAX_OFFERS && Remaining(q).Some? && q.signs
  }

  /** The book afterwards, and the offer handed out. */
  function Mint(entries: map<Id, Offer>, q: Request): (map<Id, Offer>, Option<Offer>) {
    if !q.ready then (entries, None) else
    var kept := Purged(entries, q.boot);
    if q.grantId in kept then (kept, if Reusable(kept[q.grantId], q) then Some(kept[q.grantId]) else None)
    else if Mintable(kept, q) then
      var o := NewOffer(q, Remaining(q).value);
      (kept[q.grantId := o], Some(o))
    else (kept, None)
  }

  // ---- Admitting a source -------------------------------------------------------------------

  /** A delivery: `valid` covers its signature, epoch and node binding,
      `candidate` and `again` whether the grant is a live candidate with this
      destination before and after opening, `opens` whether the ciphertext
      opens, to `size` bytes of text. */
  datatype Delivery = Delivery(
    binding: Binding, digest: string, valid: bool, candidate: bool, boot: nat, opens: bool, size: nat, text: bool,
    boot2: nat, now2: nat, again: bool, stores: bool)

  datatype Admission = Accepted | Acknowledged | Denied

  predicate Attempts(entries: map<Id, Offer>, d: Delivery) {
    && d.valid && d.binding.grantId in entries && entries[d.binding.grantId].binding == d.binding
    && entries[d.binding.grantId].receipt != Some(d.digest)
    && !entries[d.binding.grantId].attempted && d.candidate && d.boot < entries[d.binding.grantId].offerDeadline
  }

  /** The source may be stored: it used, is text of a proper size, and neither
      deadline passed meanwhile. */
  predicate Storable(o: Offer, d: Delivery) {
    && o.key && d.opens && 0 < d.size <= MAX_SOURCE_BYTES && d.text
    && d.boot2 < o.offerDeadline && d.now2 < o.binding.expiresAt && d.again && d.stores
  }

  function Admit(entries: map<Id, Offer>, d: Delivery): (map<Id, Offer>, Admission) {
    var id := d.binding.grantId;
    if d.valid && id in entries && entries[id].binding == d.binding && entries[id].receipt == Some(d.digest)
    then (entries, Acknowledged)
    else if !Attempts(entries, d) then (entries, Denied)
    else
      var spent := entries[id].(attempted := true, key := false);
      if Storable(Aged(entries[id], d.boot), d)
      then (entries[id := spent.(receipt := Some(d.digest))], Accepted)
      else (entries[id := spent], Denied)
  }

  // ---- The book ---------------------------------------------------------------------------------

  class OfferBook {
    var entries: map<Id, Offer>

    constructor ()
      ensures entries == map[]
    {
      entries := map[];
    }

    method Purge(boot: nat)
      modifies this
      ensures entries == Purged(old(entries), boot)
    {
      var todo := entries.Keys;
      while todo != {}
        invariant todo <= old(entries).Keys
        invariant forall id | id in todo :: id in entries && entries[id] == old(entries)[id]
        invariant forall id | id in entries && id !in todo ::
                    && id in old(entries) && boot < old(entries)[id].grantDeadline
                    && entries[id] == Aged(old(entries)[id], boot)
        invariant forall id | id in old(entries) && id !in todo && boot < old(entries)[id].grantDeadline ::
                    id in entries
        decreases |todo|
      {
        var id :| id in todo;
        todo := todo - {id};
        var aged := Aged(entries[id], boot);
        entries := if boot < aged.grantDeadline then entries[id := aged] else entries - {id};
      }
    }

    method Maintain(boot: Option<nat>, authorized: set<Id>)
      modifies this
      ensures entries == Maintained(old(entries), boot, authorized)
    {
      if boot.Some? {
        Purge(boot.value);
      }
      Restrict(if boot.None? then {} else authorized);
    }

    method Restrict(authorized: set<Id>)
      modifies this
      ensures entries == Restricted(old(entries), authorized)
    {
      var todo := entries.Keys;
      while todo != {}
        invariant todo <= old(entries).Keys && entries.Keys == old(entries).Keys
        invariant forall id | id in todo :: entries[id] == old(entries)[id]
        invariant forall id | id in entries && id !in todo ::
                    entries[id] == if id in authorized then old(entries)[id] else Withdrawn(old(entries)[id])
        decreases |todo|
      {
        var id :| id in todo;
        todo := todo - {id};
        if id !in authorized {
          entries := entries[id := Withdrawn(entries[id])];
        }
      }
    }

    method MintOffer(q: Request) returns (o: Option<Offer>)
      modifies this
      ensures (entries, o) == Mint(old(entries), q)
    {
      if !q.ready {
        return None;
      }
      Purge(q.boot);
      if q.grantId in entries {
        var stored := entries[q.grantId];
        return if Reusable(stored, q) then Some(stored) else None;
      }
      if |entries| >= MAX_OFFERS || Remaining(q).None? || !q.signs {
        return None;
      }
      var minted := NewOffer(q, Remaining(q).value);
      entries := entries[q.grantId := minted];
      o := Some(minted);
    }

    method AdmitSource(d: Delivery) returns (r: Admission)
      modifies this
      ensures (entries, r) == Admit(old(entries), d)
    {
      var id := d.binding.grantId;
      if !d.valid || id !in entries || entries[id].binding != d.binding {
        return Denied;
      }
      if entries[id].receipt == Some(d.digest) {
        return Acknowledged;
      }
      if entries[id].attempted || !d.candidate || d.boot >= entries[id].offerDeadline {
        return Denied;
      }
      var before := entries[id];
      entries := entries[id := entries[id].(attempted := true)];
      entries := entries[id := entries[id].(key := false)];
      assert entries == old(entries)[id := before.(attempted := true, key := false)];
      if !Storable(Aged(before, d.boot), d) {
        return Denied;
      }
      entries := entries[id := entries[id].(receipt := Some(d.digest))];
      assert entries == old(entries)[id := before.(attempted := true, key := false, receipt := Some(d.digest))];
      r := Accepted;
    }
  }

  // ---- Runs ----------------------------------------------------------------------------------------

  /** `minted` logs the grant and acceptance deadline of every offer made,
      `used` the offers whose key was used, `offers` all offer ids. */
  datatype State = State(entries: map<Id, Offer>, boot: nat, minted: seq<(Id, nat)>, used: seq<Id>, offers: set<Id>)

  datatype Event = Mints(q: Request) | Admits(d: Delivery) | Maintains(boot: Option<nat>, authorized: set<Id>)

  /** Boottime does not run backwards, and offer ids are random. */
  predicate Enabled(s: State, e: Event) {
    match e
    case Mints(q) => q.boot >= s.boot && q.offerId !in s.offers
    case Admits(d) => d.boot >= s.boot && d.boot2 >= d.boot
    case Maintains(boot, _) => boot.Some? ==> boot.value >= s.boot
  }

  /** This request makes a new offer. */
  predicate Makes(entries: map<Id, Offer>, q: Request) { q.ready && Mintable(Purged(entries, q.boot), q) }

  /** This delivery uses the private key. */
  predicate Opens(entries: map<Id, Offer>, d: Delivery) {
    d.binding.grantId in entries && entries[d.binding.grantId].receipt != Some(d.digest) && Attempts(entries, d)
    && Aged(entries[d.binding.grantId], d.boot).key
  }

  function Step(s: State, e: Event): State
    requires Enabled(s, e)
  {
    match e
    case Mints(q) =>
      var entries := Mint(s.entries, q).0;
      if Makes(s.entries, q) then
        State(entries, q.boot, s.minted + [(q.grantId, q.deadline.value)], s.used, s.offers + {q.offerId})
      else s.(entries := entries, boot := q.boot)
    case Admits(d) =>
      State(Admit(s.entries, d).0, d.boot2, s.minted,
            if Opens(s.entries, d) then s.used + [d.binding.offerId] else s.used, s.offers)
    case Maintains(boot, authorized) =>
      s.(entries := Maintained(s.entries, boot, authorized), boot := if boot.Some? then boot.value else s.boot)
  }

  /** Entries are filed under their grant, end by its deadline, and hold a key
      only before an attempt. */
  predicate EntriesOk(entries: map<Id, Offer>, offers: set<Id>) {
    && |entries| <= MAX_OFFERS
    && (forall id | id in entries ::
          && entries[id].binding.grantId == id && entries[id].offerDeadline <= entries[id].grantDeadline
          && entries[id].binding.expiresAt <= entries[id].binding.grantExpiresAt
          && entries[id].binding.offerId in offers && (entries[id].key ==> !entries[id].attempted))
    && (forall a, b | a in entries && b in entries && entries[a].binding.offerId == entries[b].binding.offerId ::
          a == b)
  }

  /** Each offer made is still on the book, or its acceptance is over. */
  predicate MintedOk(entries: map<Id, Offer>, boot: nat, minted: seq<(Id, nat)>) {
    forall x | x in minted :: boot >= x.1 || (x.0 in entries && entries[x.0].grantDeadline == x.1)
  }

  /** A key that was used is gone. */
  predicate UsedOk(entries: map<Id, Offer>, used: seq<Id>, offers: set<Id>) {
    && (forall x | x in used :: x in offers)
    && (forall id | id in entries && entries[id].binding.offerId in used :: entries[id].attempted)
  }

  predicate Inv(s: State) {
    EntriesOk(s.entries, s.offers) && MintedOk(s.entries, s.boot, s.minted) && UsedOk(s.entries, s.used, s.offers)
  }

  /** Fewer entries, each only older: keys and attempts move one way. */
  predicate Older(a: map<Id, Offer>, b: map<Id, Offer>) {
    && b.Keys <= a.Keys
    && forall id | id in b ::
         && b[id].binding == a[id].binding && b[id].grantDeadline == a[id].grantDeadline
         && b[id].offerDeadline == a[id].offerDeadline && (a[id].attempted ==> b[id].attempted)
         && (b[id].key ==> a[id].key && !b[id].attempted)
  }

  lemma OlderEntries(a: map<Id, Offer>, b: map<Id, Offer>, offers: set<Id>)
    requires EntriesOk(a, offers) && Older(a, b)
    ensures EntriesOk(b, offers)
  {
    SubmapSize(b, a);
  }

  lemma OlderUsed(a: map<Id, Offer>, b: map<Id, Offer>, used: seq<Id>, offers: set<Id>)
    requires UsedOk(a, used, offers) && Older(a, b)
    ensures UsedOk(b, used, offers)
  {
  }

  lemma PurgedOlder(entries: map<Id, Offer>, boot: nat, offers: set<Id>)
    requires EntriesOk(entries, offers)
    ensures Older(entries, Purged(entries, boot))
  {
  }

  lemma RestrictedOlder(entries: map<Id, Offer>, authorized: set<Id>, offers: set<Id>)
    requires EntriesOk(entries, offers)
    ensures Older(entries, Restricted(entries, authorized)) && Restricted(entries, authorized).Keys == entries.Keys
  {
  }

  lemma PurgeKeeps(s: State, boot: nat)
    requires Inv(s) && boot >= s.boot
    ensures Inv(s.(entries := Purged(s.entries, boot), boot := boot))
  {
    var kept := Purged(s.entries, boot);
    PurgedOlder(s.entries, boot, s.offers);
    OlderEntries(s.entries, kept, s.offers);
    OlderUsed(s.entries, kept, s.used, s.offers);
  }

  lemma RestrictKeeps(s: State, authorized: set<Id>)
    requires Inv(s)
    ensures Inv(s.(entries := Restricted(s.entries, authorized)))
  {
    var kept := Restricted(s.entries, authorized);
    RestrictedOlder(s.entries, authorized, s.offers);
    OlderEntries(s.entries, kept, s.offers);
    OlderUsed(s.entries, kept, s.used, s.offers);
  }

  lemma MaintainKeeps(s: State, e: Event)
    requires Inv(s) && Enabled(s, e) && e.Maintains?
    ensures Inv(Step(s, e))
  {
    if e.boot.Some? {
      PurgeKeeps(s, e.boot.value);
      RestrictKeeps(s.(entries := Purged(s.entries, e.boot.value), boot := e.boot.value), e.authorized);
    } else {
      RestrictKeeps(s, {});
    }
  }

  /** A new offer on a purged book. */
  lemma AddKeeps(s: State, q: Request)
    requires Inv(s) && q.boot == s.boot && q.offerId !in s.offers && Mintable(s.entries, q)
    ensures var o := NewOffer(q, Remaining(q).value);
            Inv(State(s.entries[q.grantId := o], s.boot, s.minted + [(q.grantId, q.deadline.value)], s.used,
                      s.offers + {q.offerId}))
    ensures (q.grantId, q.deadline.value) !in s.minted
  {
    var o := NewOffer(q, Remaining(q).value);
    var entries := s.entries[q.grantId := o];
    assert entries.Keys == s.entries.Keys + {q.grantId};
    AddEntry(s.entries, q.grantId, o, s.offers);
    assert UsedOk(entries, s.used, s.offers + {q.offerId});
  }

  lemma AddEntry(entries: map<Id, Offer>, id: Id, o: Offer, offers: set<Id>)
    requires EntriesOk(entries, offers) && id !in entries && |entries| < MAX_OFFERS
    requires o.binding.grantId == id && o.offerDeadline <= o.grantDeadline && !o.attempted
    requires o.binding.offerId !in offers && o.binding.expiresAt <= o.binding.grantExpiresAt
    ensures EntriesOk(entries[id := o], offers + {o.binding.offerId})
  {
    OneMoreEntry(entries, id, o);
    forall a | a in entries ensures entries[a].binding.offerId != o.binding.offerId {
      assert entries[a].binding.offerId in offers;
    }
  }

  lemma OneMoreEntry(entries: map<Id, Offer>, id: Id, o: Offer)
    requires id !in entries
    ensures |entries[id := o]| == |entries| + 1
  {
    assert entries[id := o].Keys == entries.Keys + {id};
    assert |entries[id := o].Keys| == |entries.Keys| + 1;
  }

  lemma MintKeeps(s: State, e: Event)
    requires Inv(s) && Enabled(s, e) && e.Mints?
    ensures Inv(Step(s, e))
    ensures Makes(s.entries, e.q) ==> (e.q.grantId, e.q.deadline.value) !in s.minted
  {
    var kept := s.(entries := Purged(s.entries, e.q.boot), boot := e.q.boot);
    PurgeKeeps(s, e.q.boot);
    if Makes(s.entries, e.q) {
      AddKeeps(kept, e.q);
    } else if !e.q.ready {
      assert MintedOk(s.entries, e.q.boot, s.minted);
    }
  }

  lemma AdmitOlder(entries: map<Id, Offer>, d: Delivery, offers: set<Id>)
    requires EntriesOk(entries, offers)
    ensures Older(entries, Admit(entries, d).0) && Admit(entries, d).0.Keys == entries.Keys
    ensures Opens(entries, d) ==> Admit(entries, d).0[d.binding.grantId].attempted
  {
    if Attempts(entries, d) {
      var o := entries[d.binding.grantId];
      SpentOlder(entries, d.binding.grantId, o.receipt);
      SpentOlder(entries, d.binding.grantId, Some(d.digest));
    } else {
      assert Admit(entries, d).0 == entries;
    }
  }

  lemma SpentOlder(entries: map<Id, Offer>, id: Id, receipt: Option<string>)
    requires id in entries && forall x | x in entries :: entries[x].key ==> !entries[x].attempted
    ensures var after := entries[id := entries[id].(attempted := true, key := false, receipt := receipt)];
            Older(entries, after) && after.Keys == entries.Keys
  {
  }

  lemma AdmitKeeps(s: State, e: Event)
    requires Inv(s) && Enabled(s, e) && e.Admits?
    ensures Inv(Step(s, e))
    ensures Opens(s.entries, e.d) ==> e.d.binding.offerId !in s.used
  {
    var after := Admit(s.entries, e.d).0;
    AdmitOlder(s.entries, e.d, s.offers);
    OlderEntries(s.entries, after, s.offers);
    OlderUsed(s.entries, after, s.used, s.offers);
  }

  lemma StepKeepsInv(s: State, e: Event)
    requires Inv(s) && Enabled(s, e)
    ensures Inv(Step(s, e))
  {
    match e {
      case Mints(_) => MintKeeps(s, e);
      case Admits(_) => AdmitKeeps(s, e);
      case Maintains(_, _) => MaintainKeeps(s, e);
    }
  }

  predicate IsRun(ss: seq<State>, es: seq<Event>) {
    && |ss| == |es| + 1 && ss[0].entries == map[] && ss[0].minted == [] && ss[0].used == []
    && forall i | 0 <= i < |es| :: Enabled(ss[i], es[i]) && ss[i + 1] == Step(ss[i], es[i])
  }

  lemma {:induction false} RunInv(ss: seq<State>, es: seq<Event>, i: nat)
    requires IsRun(ss, es) && i < |ss|
    ensures Inv(ss[i])
  {
    if i > 0 {
      RunInv(ss, es, i - 1);
      StepKeepsInv(ss[i - 1], es[i - 1]);
    }
  }

  lemma LogsGrow(s: State, e: Event)
    requires Enabled(s, e)
    ensures forall x | x in s.minted :: x in Step(s, e).minted
    ensures forall x | x in s.used :: x in Step(s, e).used
    ensures e.Mints? && Makes(s.entries, e.q) ==> (e.q.grantId, e.q.deadline.value) in Step(s, e).minted
    ensures e.Admits? && Opens(s.entries, e.d) ==> e.d.binding.offerId in Step(s, e).used
  {
  }

  lemma {:induction false} LogsStay(ss: seq<State>, es: seq<Event>, i: nat, j: nat)
    requires IsRun(ss, es) && i <= j < |ss|
    ensures forall x | x in ss[i].minted :: x in ss[j].minted
    ensures forall x | x in ss[i].used :: x in ss[j].used
  {
    if i < j {
      LogsStay(ss, es, i, j - 1);
      LogsGrow(ss[j - 1], es[j - 1]);
    }
  }

  /** Over every run a second offer for a grant is made only when the local
      deadline of the first one's acceptance has passed, whatever is purged or
      withdrawn meanwhile. */
  lemma OneOfferPerDeadline(ss: seq<State>, es: seq<Event>, i: nat, j: nat)
    requires IsRun(ss, es) && i < j < |es| && es[i].Mints? && es[j].Mints?
    requires Makes(ss[i].entries, es[i].q) && Makes(ss[j].entries, es[j].q) && es[i].q.grantId == es[j].q.grantId
    ensures es[i].q.deadline.value <= es[j].q.boot < es[j].q.deadline.value
  {
    RunInv(ss, es, j);
    PurgeKeeps(ss[j], es[j].q.boot);
    LogsGrow(ss[i], es[i]);
    LogsStay(ss, es, i + 1, j);
  }

  /** Over every run, the key of an offer is used at most once. */
  lemma OpenedAtMostOnce(ss: seq<State>, es: seq<Event>, i: nat, j: nat)
    requires IsRun(ss, es) && i < j < |es| && es[i].Admits? && es[j].Admits?
    requires Opens(ss[i].entries, es[i].d) && Opens(ss[j].entries, es[j].d)
    ensures es[i].d.binding.offerId != es[j].d.binding.offerId
  {
    RunInv(ss, es, j);
    AdmitKeeps(ss[j], es[j]);
    LogsGrow(ss[i], es[i]);
    LogsStay(ss, es, i + 1, j);
  }

  /** A key is used, and a source stored, only before the offer's deadline,
      which is at most the grant's. */
  lemma OpenedInTime(ss: seq<State>, es: seq<Event>, i: nat)
    requires IsRun(ss, es) && i < |es| && es[i].Admits?
    ensures Opens(ss[i].entries, es[i].d) ==>
              var o := ss[i].entries[es[i].d.binding.grantId];
              es[i].d.boot < o.offerDeadline <= o.grantDeadline
    ensures Admit(ss[i].entries, es[i].d).1 == Accepted ==>
              && Opens(ss[i].entries, es[i].d)
              && es[i].d.boot2 < ss[i].entries[es[i].d.binding.grantId].offerDeadline
              && es[i].d.now2 < es[i].d.binding.grantExpiresAt
  {
    RunInv(ss, es, i);
  }

  /** If the offer is on the book, it holds this receipt. */
  predicate Receipted(entries: map<Id, Offer>, binding: Binding, digest: string) {
    binding.grantId in entries && entries[binding.grantId].binding == binding ==>
      entries[binding.grantId].receipt == Some(digest) && entries[binding.grantId].attempted
  }

  /** A receipt is never replaced or lost while its offer is on the book. */
  lemma ReceiptStays(s: State, e: Event, binding: Binding, digest: string)
    requires Inv(s) && Enabled(s, e) && binding.offerId in s.offers && Receipted(s.entries, binding, digest)
    ensures Receipted(Step(s, e).entries, binding, digest) && binding.offerId in Step(s, e).offers
  {
    hide Mint, Admit, Inv;
    match e {
      case Mints(q) => MintReceipt(s, q, binding, digest);
      case Admits(d) => AdmitReceipt(s.entries, d, binding, digest);
      case Maintains(boot, authorized) =>
    }
  }

  lemma MintReceipt(s: State, q: Request, binding: Binding, digest: string)
    requires binding.offerId in s.offers && q.offerId !in s.offers && Receipted(s.entries, binding, digest)
    ensures Receipted(Mint(s.entries, q).0, binding, digest)
  {
  }

  lemma AdmitReceipt(entries: map<Id, Offer>, d: Delivery, binding: Binding, digest: string)
    requires Receipted(entries, binding, digest)
    ensures Receipted(Admit(entries, d).0, binding, digest)
  {
  }

  lemma AcceptedReceipt(s: State, e: Event)
    requires Inv(s) && Enabled(s, e) && e.Admits? && Admit(s.entries, e.d).1 == Accepted
    ensures Receipted(Step(s, e).entries, e.d.binding, e.d.digest) && e.d.binding.offerId in Step(s, e).offers
  {
  }

  lemma {:induction false} ReceiptLasts(ss: seq<State>, es: seq<Event>, i: nat, j: nat)
    requires IsRun(ss, es) && i < j < |ss| && es[i].Admits? && Admit(ss[i].entries, es[i].d).1 == Accepted
    ensures Receipted(ss[j].entries, es[i].d.binding, es[i].d.digest) && es[i].d.binding.offerId in ss[j].offers
    decreases j
  {
    hide Enabled, Step, Receipted, Inv, Admit;
    RunInv(ss, es, j - 1);
    if j == i + 1 {
      AcceptedReceipt(ss[i], es[i]);
    } else {
      ReceiptLasts(ss, es, i, j - 1);
      ReceiptStays(ss[j - 1], es[j - 1], es[i].d.binding, es[i].d.digest);
    }
  }

  /** The exact retry of an accepted delivery is acknowledged and changes nothing,
      at any later point of the run and whatever has happened to the grant or the
      clock since, as long as the offer is on the book. */
  lemma RetryChangesNothing(ss: seq<State>, es: seq<Event>, i: nat, j: nat, d: Delivery)
    requires IsRun(ss, es) && i < j < |ss| && es[i].Admits? && Admit(ss[i].entries, es[i].d).1 == Accepted
    requires d.binding == es[i].d.binding && d.digest == es[i].d.digest && d.valid
    requires d.binding.grantId in ss[j].entries && ss[j].entries[d.binding.grantId].binding == d.binding
    ensures Admit(ss[j].entries, d) == (ss[j].entries, Acknowledged)
  {
    ReceiptLasts(ss, es, i, j);
  }

  /** Capacity never evicts: minting changes no other offer that its grant's
      deadline has not passed, however full the book is. */
  lemma MintingEvictsNothing(ss: seq<State>, es: seq<Event>, i: nat, id: Id)
    requires IsRun(ss, es) && i < |es| && es[i].Mints? && id in ss[i].entries
    requires es[i].q.boot < ss[i].entries[id].offerDeadline
    ensures id in ss[i + 1].entries && ss[i + 1].entries[id] == ss[i].entries[id]
    ensures |ss[i + 1].entries| <= MAX_OFFERS
  {
    RunInv(ss, es, i);
    RunInv(ss, es, i + 1);
  }
}
