/** Bounded retention of operation owners: which owners are finished, and how
    admission reclaims the oldest of them in batches until there is room. */
module Owners {
  import opened Text
  import opened Collections

  type Key = string

  const MAX_OPERATION_RECORDS: nat := 10_000
  const EVICTION_BATCH: nat := 64
  const MAX_HEADER_BYTES: nat := 1_048_576
  const NEW_OWNER_RESERVE: nat := 2_560
  const CLOSURE_RESERVE: nat := 96
  const SIZE_CHECK_FLOOR: nat := 256
  const HEADER_FIXED_BYTES: nat := 192
  const HIGH_WATER: nat := 9_000
  const TICK_BATCH: nat := 256

  // ---- Insertion-ordered records --------------------------------------------------------

  datatype Bounded<V> = Bounded(values: map<Key, V>, order: seq<Key>)

  /** The order lists each key once, within the bound. */
  ghost predicate WellFormed<V>(b: Bounded<V>) {
    Distinct(b.order) && (forall k :: k in b.order <==> k in b.values) && |b.order| <= MAX_OPERATION_RECORDS
  }

  function Minus(order: seq<Key>, key: Key): seq<Key> {
    if order == [] then []
    else Minus(order[..|order| - 1], key) + (if order[|order| - 1] == key then [] else [order[|order| - 1]])
  }

  function Remove<V>(b: Bounded<V>, key: Key): Bounded<V> { Bounded(b.values - {key}, Minus(b.order, key)) }

  function Insert<V>(b: Bounded<V>, key: Key, value: V): Bounded<V> {
    var order := if key in b.values then b.order else b.order + [key];
    var (values, kept) := EvictOldest(b.values[key := value], order, MAX_OPERATION_RECORDS);
    Bounded(values, kept)
  }

  /** The insertion loop: drop from the front while over the bound. */
  method InsertInto<V>(b: Bounded<V>, key: Key, value: V) returns (r: Bounded<V>)
    ensures r == Insert(b, key, value)
  {
    var values := b.values[key := value];
    var order := if key in b.values then b.order else b.order + [key];
    while |order| > MAX_OPERATION_RECORDS
      invariant var (v, kept) := EvictOldest(values, order, MAX_OPERATION_RECORDS);
                Insert(b, key, value) == Bounded(v, kept)
      decreases |order|
    {
      values, order := values - {order[0]}, order[1..];
    }
    r := Bounded(values, order);
  }

  lemma {:induction false} MinusFacts(order: seq<Key>, key: Key)
    requires Distinct(order)
    ensures Distinct(Minus(order, key)) && |Minus(order, key)| == |order| - (if key in order then 1 else 0)
    ensures forall k :: k in Minus(order, key) <==> k in order && k != key
    decreases |order|
  {
    if order != [] {
      var n := |order| - 1;
      MinusFacts(order[..n], key);
      assert order == order[..n] + [order[n]];
      assert order[n] !in order[..n];
    }
  }

  lemma RemoveFacts<V>(b: Bounded<V>, key: Key)
    requires WellFormed(b)
    ensures WellFormed(Remove(b, key))
  {
    MinusFacts(b.order, key);
  }

  /** Below the bound an insertion keeps every other record. */
  lemma InsertFacts<V>(b: Bounded<V>, key: Key, value: V)
    requires WellFormed(b) && (key in b.values || |b.order| < MAX_OPERATION_RECORDS)
    ensures WellFormed(Insert(b, key, value))
    ensures Insert(b, key, value)
         == Bounded(b.values[key := value], if key in b.values then b.order else b.order + [key])
  {
    if key !in b.values {
      assert forall k :: k in b.order + [key] <==> k in b.order || k == key;
    }
  }

  // ---- Owners -----------------------------------------------------------------------------

  /** `fingerprint` is absent for a withdrawal before admission. */
  datatype Binding = Binding(
    nodeId: string, unit: string, requestKey: Option<string>, fingerprint: Option<string>,
    resourceId: Option<string>, recipeFingerprint: Option<string>)

  datatype Mode = File | Socket | BrowserSession

  datatype Owner = Owner(
    workloadId: string, invocationId: string, mode: Option<Mode>,
    cancelRequested: bool, cancelAcknowledged: bool, request: Option<Binding>)

  datatype Tables = Tables(owners: Bounded<Owner>, closures: Bounded<string>)

  /** A queued node event: its own key and the request it refers to. */
  datatype NodeEvent = NodeEvent(idempotencyKey: Key, requestKey: Option<Key>)

  /** What else keeps an owner: leases, ready contexts, unfinished journal
      records and queued events. */
  datatype Ties = Ties(leases: set<Key>, ready: set<Key>, unresolved: set<Key>, events: seq<NodeEvent>)

  function Queued(events: seq<NodeEvent>): set<Key> {
    (set e | e in events :: e.idempotencyKey) + (set e | e in events && e.requestKey.Some? :: e.requestKey.value)
  }

  method QueuedReferences(events: seq<NodeEvent>) returns (keys: set<Key>)
    ensures keys == Queued(events)
  {
    keys := {};
    for i := 0 to |events|
      invariant keys == Queued(events[..i])
    {
      assert events[..i + 1] == events[..i] + [events[i]];
      keys := keys + {events[i].idempotencyKey};
      if events[i].requestKey.Some? {
        keys := keys + {events[i].requestKey.value};
      }
    }
    assert events[..|events|] == events;
  }

  /** Provably finished: all six conditions. */
  predicate Terminal(t: Tables, ties: Ties, queued: set<Key>, key: Key) {
    && key in t.owners.values
    && var owner := t.owners.values[key];
    && !(owner.request.Some? && owner.request.value.fingerprint.None?)
    && key in t.closures.values
    && !(owner.cancelRequested && !owner.cancelAcknowledged)
    && key !in ties.leases && key !in ties.ready && key !in ties.unresolved && key !in queued
  }

  /** The terminal keys of a sequence, in its order. */
  function Terminals(t: Tables, ties: Ties, queued: set<Key>, keys: seq<Key>): seq<Key> {
    if keys == [] then []
    else
      var n := |keys| - 1;
      Terminals(t, ties, queued, keys[..n]) + (if Terminal(t, ties, queued, keys[n]) then [keys[n]] else [])
  }

  /** The tables without the owners `victims` and their closures. */
  function Without(t: Tables, victims: seq<Key>): Tables {
    if victims == [] then t
    else
      var n := |victims| - 1;
      var rest := Without(t, victims[..n]);
      Tables(Remove(rest.owners, victims[n]), Remove(rest.closures, victims[n]))
  }

  // ---- Projected size of the durable header --------------------------------------------------

  function Plain(s: string): nat { 2 + |s| }

  function Optional(s: Option<string>): nat { match s case None => 4 case Some(v) => Plain(v) }

  function BindingBound(b: Binding): nat {
    87 + (if b.fingerprint.None? then 4 else 66) + (if b.recipeFingerprint.None? then 4 else 66)
    + Plain(b.nodeId) + Optional(b.requestKey) + Optional(b.resourceId) + 2 + |b.unit| * 2
  }

  function OwnerBound(key: Key, o: Owner): nat {
    133 + |key| + |o.invocationId| + |o.workloadId| + (if o.mode.None? then 4 else 17)
    + (match o.request case None => 4 case Some(b) => BindingBound(b))
  }

  function ClosureBound(key: Key, status: string): nat { 29 + |key| + |status| }

  function Sum(order: seq<Key>, size: Key -> nat): nat {
    if order == [] then 0 else Sum(order[..|order| - 1], size) + size(order[|order| - 1])
  }

  function OwnerSize(t: Tables): Key -> nat {
    k => if k in t.owners.values then OwnerBound(k, t.owners.values[k]) else 0
  }

  function ClosureSize(t: Tables): Key -> nat {
    k => if k in t.closures.values then ClosureBound(k, t.closures.values[k]) else 0
  }

  function Unclosed(t: Tables): nat { SatSub(|t.owners.order|, |t.closures.order|) }

  function Projected(t: Tables): nat {
    HEADER_FIXED_BYTES + Sum(t.owners.order, OwnerSize(t)) + Sum(t.closures.order, ClosureSize(t))
    + Unclosed(t) * CLOSURE_RESERVE
  }

  predicate Full(t: Tables) {
    |t.owners.order| >= MAX_OPERATION_RECORDS
    || (|t.owners.order| >= SIZE_CHECK_FLOOR && Projected(t) + NEW_OWNER_RESERVE > MAX_HEADER_BYTES)
  }

  predicate Crowded(t: Tables) {
    |t.owners.order| >= HIGH_WATER
    || (|t.owners.order| >= SIZE_CHECK_FLOOR && Projected(t) >= MAX_HEADER_BYTES / 4 * 3)
  }

  // ---- What reclaiming does -------------------------------------------------------------------

  /** How many of the terminal owners go: batch after batch while the table is
      full and any is left. */
  function EvictCount(t: Tables, terminals: seq<Key>, n: nat): (r: nat)
    requires n <= |terminals|
    ensures n <= r <= |terminals|
    decreases |terminals| - n
  {
    if !Full(Without(t, terminals[..n])) || n == |terminals| then n
    else EvictCount(t, terminals, Min(n + EVICTION_BATCH, |terminals|))
  }

  /** The count is exact: full before every batch taken, and afterwards either
      there is room or no terminal owner is left. */
  lemma {:induction false} EvictCountExact(t: Tables, terminals: seq<Key>, n: nat)
    requires n <= |terminals|
    ensures var r := EvictCount(t, terminals, n);
            && (Full(Without(t, terminals[..r])) ==> r == |terminals|)
            && (r == |terminals| || (r - n) % EVICTION_BATCH == 0)
            && (r > n ==> exists m :: n <= m < r && r <= m + EVICTION_BATCH && Full(Without(t, terminals[..m])))
    decreases |terminals| - n
  {
    hide Full, Without;
    if Full(Without(t, terminals[..n])) && n < |terminals| {
      var m := Min(n + EVICTION_BATCH, |terminals|);
      EvictCountExact(t, terminals, m);
      if EvictCount(t, terminals, n) == m {
        assert n <= n < m && m <= n + EVICTION_BATCH;
      }
    }
  }

  // ---- Scanning and removing ---------------------------------------------------------------

  lemma {:induction false} TerminalsSplit(t: Tables, ties: Ties, queued: set<Key>, a: seq<Key>, b: seq<Key>)
    ensures Terminals(t, ties, queued, a + b) == Terminals(t, ties, queued, a) + Terminals(t, ties, queued, b)
    decreases |b|
  {
    if b == [] {
      assert a + b == a;
    } else {
      var n := |b| - 1;
      assert (a + b)[..|a| + n] == a + b[..n];
      TerminalsSplit(t, ties, queued, a, b[..n]);
    }
  }

  lemma TerminalsNext(t: Tables, ties: Ties, queued: set<Key>, keys: seq<Key>, key: Key)
    ensures Terminals(t, ties, queued, keys + [key])
         == Terminals(t, ties, queued, keys) + (if Terminal(t, ties, queued, key) then [key] else [])
  {
    TerminalsSplit(t, ties, queued, keys, [key]);
    assert [key][..0] == [];
  }

  lemma {:induction false} TerminalsFrom(t: Tables, ties: Ties, queued: set<Key>, keys: seq<Key>)
    ensures forall k | k in Terminals(t, ties, queued, keys) :: k in keys && Terminal(t, ties, queued, k)
    ensures forall k | k in keys && Terminal(t, ties, queued, k) :: k in Terminals(t, ties, queued, keys)
    decreases |keys|
  {
    if keys != [] {
      var n := |keys| - 1;
      TerminalsFrom(t, ties, queued, keys[..n]);
      assert keys == keys[..n] + [keys[n]];
    }
  }

  lemma {:induction false} SameTerminals(t: Tables, c: Tables, ties: Ties, queued: set<Key>, keys: seq<Key>)
    requires forall k | k in keys :: Terminal(t, ties, queued, k) == Terminal(c, ties, queued, k)
    ensures Terminals(t, ties, queued, keys) == Terminals(c, ties, queued, keys)
    decreases |keys|
  {
    if keys != [] {
      var n := |keys| - 1;
      SameTerminals(t, c, ties, queued, keys[..n]);
      assert keys[n] in keys;
    }
  }

  /** Removing victims changes nothing about the other owners. */
  lemma {:induction false} WithoutOthers(t: Tables, victims: seq<Key>, key: Key)
    ensures var c := Without(t, victims);
            && (key in c.owners.values <==> key in t.owners.values && key !in victims)
            && (key in c.closures.values <==> key in t.closures.values && key !in victims)
            && (key in c.owners.values ==> c.owners.values[key] == t.owners.values[key])
            && (key in c.closures.values ==> c.closures.values[key] == t.closures.values[key])
    decreases |victims|
  {
    if victims != [] {
      var n := |victims| - 1;
      WithoutOthers(t, victims[..n], key);
      assert victims == victims[..n] + [victims[n]];
    }
  }

  lemma {:induction false} WithoutWellFormed(t: Tables, victims: seq<Key>)
    requires WellFormed(t.owners) && WellFormed(t.closures)
    ensures WellFormed(Without(t, victims).owners) && WellFormed(Without(t, victims).closures)
    decreases |victims|
  {
    if victims != [] {
      var rest := Without(t, victims[..|victims| - 1]);
      WithoutWellFormed(t, victims[..|victims| - 1]);
      RemoveFacts(rest.owners, victims[|victims| - 1]);
      RemoveFacts(rest.closures, victims[|victims| - 1]);
    }
  }

  lemma {:induction false} WithoutMore(t: Tables, a: seq<Key>, b: seq<Key>)
    ensures Without(Without(t, a), b) == Without(t, a + b)
    decreases |b|
  {
    if b == [] {
      assert a + b == a;
    } else {
      var n := |b| - 1;
      var ab := a + b;
      WithoutMore(t, a, b[..n]);
      assert ab[..|ab| - 1] == a + b[..n] && ab[|ab| - 1] == b[n];
    }
  }

  /** The scan goes on over tables from which earlier terminals are gone. */
  lemma ScanUnaffected(t: Tables, ties: Ties, queued: set<Key>, keys: seq<Key>, cursor: nat, next: nat)
    requires Distinct(keys) && cursor <= next <= |keys|
    ensures var gone := Terminals(t, ties, queued, keys[..cursor]);
            Terminals(Without(t, gone), ties, queued, keys[cursor..next])
            == Terminals(t, ties, queued, keys[cursor..next])
  {
    var gone := Terminals(t, ties, queued, keys[..cursor]);
    TerminalsFrom(t, ties, queued, keys[..cursor]);
    forall k | k in keys[cursor..next]
      ensures Terminal(t, ties, queued, k) == Terminal(Without(t, gone), ties, queued, k)
    {
      WithoutOthers(t, gone, k);
      assert k !in keys[..cursor];
    }
    SameTerminals(t, Without(t, gone), ties, queued, keys[cursor..next]);
  }

  /** The terminals up to `next` extend those up to `cursor` by one batch. */
  lemma ScanExtends(t: Tables, ties: Ties, queued: set<Key>, keys: seq<Key>, cursor: nat, next: nat)
    requires cursor <= next <= |keys|
    ensures Terminals(t, ties, queued, keys[..next])
         == Terminals(t, ties, queued, keys[..cursor]) + Terminals(t, ties, queued, keys[cursor..next])
    ensures Terminals(t, ties, queued, keys[..next]) <= Terminals(t, ties, queued, keys)
  {
    assert keys[..next] == keys[..cursor] + keys[cursor..next];
    TerminalsSplit(t, ties, queued, keys[..cursor], keys[cursor..next]);
    assert keys == keys[..next] + keys[next..];
    TerminalsSplit(t, ties, queued, keys[..next], keys[next..]);
  }

  lemma CountAdvances(t: Tables, terminals: seq<Key>, n: nat, m: nat)
    requires n < m <= |terminals| && m <= n + EVICTION_BATCH && Full(Without(t, terminals[..n]))
    requires m == n + EVICTION_BATCH || m == |terminals|
    ensures EvictCount(t, terminals, n) == EvictCount(t, terminals, m)
  {
  }

  /** The scan has passed `cursor` keys and removed the `n` terminal ones. */
  ghost predicate Scanned(t: Tables, ties: Ties, queued: set<Key>, cursor: nat, n: nat, now: Tables) {
    var terminals := Terminals(t, ties, queued, t.owners.order);
    && cursor <= |t.owners.order| && n <= |terminals|
    && terminals[..n] == Terminals(t, ties, queued, t.owners.order[..cursor])
    && now == Without(t, terminals[..n])
    && EvictCount(t, terminals, n) == EvictCount(t, terminals, 0)
  }

  /** A batch is the next stretch of the terminal keys. */
  lemma BatchTaken(
    t: Tables, ties: Ties, queued: set<Key>, keys: seq<Key>, cursor: nat, next: nat, n: nat, batch: seq<Key>)
    requires Distinct(keys) && cursor <= next <= |keys| && n <= |Terminals(t, ties, queued, keys)|
    requires var terminals := Terminals(t, ties, queued, keys);
             && terminals[..n] == Terminals(t, ties, queued, keys[..cursor])
             && batch == Terminals(Without(t, terminals[..n]), ties, queued, keys[cursor..next])
    ensures var terminals := Terminals(t, ties, queued, keys);
            && n + |batch| <= |terminals| && terminals[..n] + batch == terminals[..n + |batch|]
            && terminals[..n + |batch|] == Terminals(t, ties, queued, keys[..next])
            && (next == |keys| ==> n + |batch| == |terminals|)
  {
    ScanUnaffected(t, ties, queued, keys, cursor, next);
    ScanExtends(t, ties, queued, keys, cursor, next);
    assert next == |keys| ==> keys[..next] == keys;
  }

  /** One batch of the scan. */
  lemma BatchStep(
    t: Tables, ties: Ties, queued: set<Key>, cursor: nat, next: nat, n: nat, now: Tables, batch: seq<Key>)
    requires WellFormed(t.owners) && Scanned(t, ties, queued, cursor, n, now) && Full(now)
    requires cursor <= next <= |t.owners.order| && batch == Terminals(now, ties, queued, t.owners.order[cursor..next])
    requires |batch| <= EVICTION_BATCH && (|batch| == EVICTION_BATCH || next == |t.owners.order|)
    ensures Scanned(t, ties, queued, next, n + |batch|, Without(now, batch))
    ensures batch == [] ==> Reclaimed(t, ties, queued, n, now)
  {
    hide Full, Without, Terminals;
    var terminals := Terminals(t, ties, queued, t.owners.order);
    BatchTaken(t, ties, queued, t.owners.order, cursor, next, n, batch);
    WithoutMore(t, terminals[..n], batch);
    if batch != [] {
      CountAdvances(t, terminals, n, n + |batch|);
    }
  }

  lemma ScanStart(t: Tables, ties: Ties, queued: set<Key>)
    ensures Scanned(t, ties, queued, 0, 0, t)
  {
    var terminals := Terminals(t, ties, queued, t.owners.order);
    assert terminals[..0] == [] && t.owners.order[..0] == [];
  }

  /** What reclaiming is to achieve. */
  ghost predicate Reclaimed(t: Tables, ties: Ties, queued: set<Key>, n: nat, now: Tables) {
    var terminals := Terminals(t, ties, queued, t.owners.order);
    n == EvictCount(t, terminals, 0) && now == Without(t, terminals[..n])
  }

  lemma ScanDone(t: Tables, ties: Ties, queued: set<Key>, cursor: nat, n: nat, now: Tables)
    requires Scanned(t, ties, queued, cursor, n, now) && !Full(now)
    ensures Reclaimed(t, ties, queued, n, now)
  {
  }

  /** Room was made, none could be, or the durable write failed. */
  datatype Admission = Room | NoCapacity | WriteFailed

  // ---- The table --------------------------------------------------------------------------------

  class OwnerTable {
    var owners: Bounded<Owner>
    var closures: Bounded<string>
    var ties: Ties

    function Contents(): Tables
      reads this
    {
      Tables(owners, closures)
    }

    /** The next terminal keys from `cursor` on, at most one batch. */
    method NextBatch(candidates: seq<Key>, cursor: nat, queued: set<Key>) returns (batch: seq<Key>, next: nat)
      requires cursor <= |candidates|
      ensures cursor <= next <= |candidates| && |batch| <= EVICTION_BATCH
      ensures batch == Terminals(Contents(), ties, queued, candidates[cursor..next])
      ensures |batch| == EVICTION_BATCH || next == |candidates|
      ensures cursor < |candidates| ==> cursor < next
    {
      batch, next := [], cursor;
      assert Terminals(Contents(), ties, queued, candidates[cursor..cursor]) == [];
      hide Terminals, Terminal;
      while next < |candidates| && |batch| < EVICTION_BATCH
        invariant cursor <= next <= |candidates| && |batch| <= EVICTION_BATCH
        invariant batch == Terminals(Contents(), ties, queued, candidates[cursor..next])
        invariant |batch| <= next - cursor
      {
        var key := candidates[next];
        assert candidates[cursor..next + 1] == candidates[cursor..next] + [key];
        TerminalsNext(Contents(), ties, queued, candidates[cursor..next], key);
        next := next + 1;
        if Terminal(Contents(), ties, queued, key) {
          batch := batch + [key];
        }
      }
    }

    /** Remove the victims and their closures. */
    method Drop(victims: seq<Key>)
      modifies `owners, `closures
      ensures Contents() == Without(old(Contents()), victims)
    {
      for i := 0 to |victims|
        invariant Contents() == Without(old(Contents()), victims[..i])
      {
        assert victims[..i + 1][..i] == victims[..i];
        owners := Remove(owners, victims[i]);
        closures := Remove(closures, victims[i]);
      }
      assert victims[..|victims|] == victims;
    }

    /** Take and remove one batch; zero when no terminal owner is left. */
    method EvictBatch(candidates: seq<Key>, cursor: nat, queued: set<Key>, ghost t: Tables, ghost n: nat)
      returns (next: nat, count: nat)
      requires WellFormed(t.owners) && candidates == t.owners.order
      requires Scanned(t, ties, queued, cursor, n, Contents()) && Full(Contents())
      modifies `owners, `closures
      ensures count == 0 ==> Contents() == old(Contents()) && Reclaimed(t, ties, queued, n, Contents())
      ensures count > 0 ==> cursor < next && Scanned(t, ties, queued, next, n + count, Contents())
    {
      hide Full, EvictCount, Terminals, Without;
      ghost var now := Contents();
      var batch;
      batch, next := NextBatch(candidates, cursor, queued);
      BatchStep(t, ties, queued, cursor, next, n, now, batch);
      count := |batch|;
      if batch != [] {
        Drop(batch);
        assert Contents() == Without(now, batch);
      }
    }

    /** Remove batches of the oldest terminal owners while the table is full. */
    method Reclaim(queued: set<Key>) returns (evicted: nat)
      requires WellFormed(owners)
      modifies `owners, `closures
      ensures Reclaimed(old(Contents()), ties, queued, evicted, Contents())
    {
      hide Full, EvictCount, Terminals, Without;
      ghost var t := Contents();
      var candidates := owners.order;
      var cursor: nat := 0;
      evicted := 0;
      ScanStart(t, ties, queued);
      while Full(Contents())
        invariant Scanned(t, ties, queued, cursor, evicted, Contents())
        decreases |candidates| - cursor
      {
        var next, count := EvictBatch(candidates, cursor, queued, t, evicted);
        if count == 0 {
          return;
        }
        cursor, evicted := next, evicted + count;
      }
      ScanDone(t, ties, queued, cursor, evicted, Contents());
    }

    /** Make room for one more owner. Victims are the oldest terminal owners,
        batch by batch; a failed durable write restores both tables exactly.
        `persisted` is the outcome of that write. */
    method EnsureCapacity(persisted: bool) returns (r: Admission)
      requires WellFormed(owners)
      modifies `owners, `closures
      ensures var t := old(Contents());
              var terminals := Terminals(t, ties, Queued(ties.events), t.owners.order);
              var n := EvictCount(t, terminals, 0);
              if !Full(t) then r == Room && Contents() == t
              else if n == 0 then r == NoCapacity && Contents() == t
              else if !persisted then r == WriteFailed && Contents() == t
              else Contents() == Without(t, terminals[..n]) && r == if Full(Contents()) then NoCapacity else Room
    {
      if !Full(Contents()) {
        return Room;
      }
      var previousOwners, previousClosures := owners, closures;
      var queued := QueuedReferences(ties.events);
      var evicted := Reclaim(queued);
      if evicted == 0 {
        return NoCapacity;
      }
      if !persisted {
        owners, closures := previousOwners, previousClosures;
        return WriteFailed;
      }
      r := if Full(Contents()) then NoCapacity else Room;
    }

    /** The first terminal owners, at most `limit`. */
    method Victims(limit: nat, queued: set<Key>) returns (victims: seq<Key>)
      ensures var terminals := Terminals(Contents(), ties, queued, owners.order);
              victims == terminals[..Min(limit, |terminals|)]
    {
      ghost var t := Contents();
      victims := [];
      var i := 0;
      while i < |owners.order| && |victims| < limit
        invariant i <= |owners.order| && |victims| <= limit
        invariant victims == Terminals(t, ties, queued, owners.order[..i])
      {
        assert owners.order[..i + 1][..i] == owners.order[..i];
        if Terminal(Contents(), ties, queued, owners.order[i]) {
          victims := victims + [owners.order[i]];
        }
        i := i + 1;
      }
      ScanExtends(t, ties, queued, owners.order, i, i);
      assert i == |owners.order| ==> owners.order[..i] == owners.order;
    }

    /** The tick: remove at most `limit` of the oldest terminal owners. */
    method EvictTerminal(limit: nat, persisted: bool) returns (removed: Option<nat>)
      modifies `owners, `closures
      ensures var t := old(Contents());
              var terminals := Terminals(t, ties, Queued(ties.events), t.owners.order);
              var n := Min(limit, |terminals|);
              && Contents() == (if persisted then Without(t, terminals[..n]) else t)
              && removed == if n == 0 || persisted then Some(n) else None
    {
      if limit == 0 {
        return Some(0);
      }
      var queued := QueuedReferences(ties.events);
      var victims := Victims(limit, queued);
      if victims == [] {
        return Some(0);
      }
      var previousOwners, previousClosures := owners, closures;
      Drop(victims);
      if !persisted {
        owners, closures := previousOwners, previousClosures;
        return None;
      }
      removed := Some(|victims|);
    }

    /** Reclaim only when the table is crowded by count or by size. */
    method PruneCrowded(persisted: bool) returns (removed: Option<nat>)
      modifies `owners, `closures
      ensures var t := old(Contents());
              var terminals := Terminals(t, ties, Queued(ties.events), t.owners.order);
              var n := if Crowded(t) then Min(TICK_BATCH, |terminals|) else 0;
              && Contents() == (if persisted then Without(t, terminals[..n]) else t)
              && removed == if n == 0 || persisted then Some(n) else None
    {
      if !Crowded(Contents()) {
        return Some(0);
      }
      removed := EvictTerminal(TICK_BATCH, persisted);
    }
  }

  // ---- What admission's outcome means ---------------------------------------------------------------

  /** Only finished owners are removed, oldest first. */
  lemma VictimsAreOldestTerminals(t: Tables, ties: Ties, queued: set<Key>, n: nat, i: nat)
    requires n <= |Terminals(t, ties, queued, t.owners.order)| && i < n && WellFormed(t.owners)
    ensures var victims := Terminals(t, ties, queued, t.owners.order)[..n];
            && Terminal(t, ties, queued, victims[i])
            && forall k | k in t.owners.order && Terminal(t, ties, queued, k) && k !in victims ::
                 Before(t.owners.order, victims[i], k)
  {
    var all := Terminals(t, ties, queued, t.owners.order);
    TerminalsFrom(t, ties, queued, t.owners.order);
    assert forall m | 0 <= m < n :: all[..n][m] == all[m];
    forall k | k in t.owners.order && Terminal(t, ties, queued, k) && k !in all[..n]
      ensures Before(t.owners.order, all[i], k)
    {
      var j :| 0 <= j < |all| && all[j] == k;
      TerminalsInOrder(t, ties, queued, t.owners.order, i, j);
    }
  }

  ghost predicate Before(order: seq<Key>, a: Key, b: Key) {
    exists i, j :: 0 <= i < j < |order| && order[i] == a && order[j] == b
  }

  lemma {:induction false} TerminalsInOrder(t: Tables, ties: Ties, queued: set<Key>, keys: seq<Key>, i: nat, j: nat)
    requires i < j < |Terminals(t, ties, queued, keys)|
    ensures Before(keys, Terminals(t, ties, queued, keys)[i], Terminals(t, ties, queued, keys)[j])
    decreases |keys|
  {
    var n := |keys| - 1;
    var all, rest := Terminals(t, ties, queued, keys), Terminals(t, ties, queued, keys[..n]);
    if j < |rest| {
      TerminalsInOrder(t, ties, queued, keys[..n], i, j);
      var a, b :| 0 <= a < b < n && keys[..n][a] == all[i] && keys[..n][b] == all[j];
      assert keys[a] == all[i] && keys[b] == all[j];
    } else {
      TerminalsFrom(t, ties, queued, keys[..n]);
      assert all[i] == rest[i] && rest[i] in rest;
      var a :| 0 <= a < n && keys[..n][a] == all[i];
      assert keys[a] == all[i] && keys[n] == all[j];
    }
  }

  /** What still ties an owner to the broker. */
  predicate InUse(t: Tables, ties: Ties, key: Key)
    requires key in t.owners.values
  {
    var owner := t.owners.values[key];
    || (owner.request.Some? && owner.request.value.fingerprint.None?)
    || key !in t.closures.values
    || (owner.cancelRequested && !owner.cancelAcknowledged)
    || key in ties.leases || key in ties.ready || key in ties.unresolved
    || exists e :: e in ties.events && (e.idempotencyKey == key || e.requestKey == Some(key))
  }

  /** However many are evicted, an owner in use stays with its record. */
  lemma OwnersInUseStay(t: Tables, ties: Ties, n: nat, key: Key)
    requires WellFormed(t.owners) && key in t.owners.values && InUse(t, ties, key)
    requires n <= |Terminals(t, ties, Queued(ties.events), t.owners.order)|
    ensures var c := Without(t, Terminals(t, ties, Queued(ties.events), t.owners.order)[..n]);
            key in c.owners.values && c.owners.values[key] == t.owners.values[key]
  {
    var all := Terminals(t, ties, Queued(ties.events), t.owners.order);
    TerminalsFrom(t, ties, Queued(ties.events), t.owners.order);
    assert forall k | k in all[..n] :: k in all;
    WithoutOthers(t, all[..n], key);
  }

  /** A refusal for capacity means that no terminal owner is left. */
  lemma RefusedMeansNoneLeft(t: Tables, ties: Ties, queued: set<Key>, key: Key)
    requires WellFormed(t.owners) && WellFormed(t.closures) && Full(t)
    requires var terminals := Terminals(t, ties, queued, t.owners.order);
             Full(Without(t, terminals[..EvictCount(t, terminals, 0)]))
    ensures var terminals := Terminals(t, ties, queued, t.owners.order);
            !Terminal(Without(t, terminals[..EvictCount(t, terminals, 0)]), ties, queued, key)
  {
    var terminals := Terminals(t, ties, queued, t.owners.order);
    EvictCountExact(t, terminals, 0);
    assert terminals[..EvictCount(t, terminals, 0)] == terminals;
    TerminalsFrom(t, ties, queued, t.owners.order);
    WithoutOthers(t, terminals, key);
  }
}
