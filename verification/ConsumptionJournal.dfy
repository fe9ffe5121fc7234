/** The journal as the broker holds it: an object over a shared file. Each
    method is proved to be one atomic step of `GrantJournal`. */
module ConsumptionJournal {
  import opened Text
  import opened JournalLine
  import opened JournalFile
  import G = GrantJournal

  /** The journal file and the revision that changes with every write. */
  class Store {
    var file: Option<string>
    var version: nat

    function View(): G.Disk
      reads this
    {
      G.Disk(file, version)
    }

    constructor ()
      ensures View() == G.Disk(None, 0)
    {
      file, version := None, 0;
    }

    method Write(contents: string)
      modifies this
      ensures View() == G.Disk(Some(contents), old(version) + 1)
    {
      file, version := Some(contents), version + 1;
    }

    /** Read the whole file, cutting a torn tail in place. */
    method Read() returns (r: Option<Loaded>)
      requires file.Some?
      modifies this
      ensures View() == G.ReadDisk(old(View())) && r == Load(old(file).value)
    {
      var kept;
      r, kept := ReadLocked(file.value);
      if kept != file.value {
        Write(kept);
      }
    }
  }

  class Journal {
    const store: Store
    var state: Loaded
    var revision: Option<nat>

    function View(): G.Journal
      reads this
    {
      G.Journal(state, revision)
    }

    /** Adopt a state read from the store; `Open` is the public entry. */
    constructor (store: Store, state: Loaded, revision: Option<nat>)
      ensures this.store == store && View() == G.Journal(state, revision)
    {
      this.store, this.state, this.revision := store, state, revision;
    }

    method Synchronize() returns (ok: bool)
      modifies this, store
      ensures (store.View(), View(), ok) == G.Synchronize(old(store.View()), old(View()))
    {
      if store.file.None? {
        return revision.None?;
      }
      if revision == Some(store.version) {
        return true;
      }
      var current := store.Read();
      if current.None? || !G.Continues(state, current.value) {
        return false;
      }
      state, revision := G.Merge(state, current.value), Some(store.version);
      return true;
    }

    /** Write one line and flush it; memory follows the durable line. */
    method Append(c: Consumption, io: G.AppendIo) returns (ok: bool)
      modifies this, store
      ensures (store.View(), View(), ok) == G.Append(old(store.View()), old(View()), c, io)
    {
      if io.Unopened? {
        return false;
      }
      var base, line := G.Text0(store.file), ConsumptionLine(c);
      if io.Torn? {
        store.Write(base + line[..Min(io.k, |line|)]);
        return false;
      }
      store.Write(base + line);
      state := With(state, c);
      if io.DirectoryUnsynced? || io.MetadataLost? {
        return false;
      }
      revision := Some(store.version);
      return true;
    }

    /** Record one consumption intent before its effect may run. */
    method Record(c: Consumption, nodeId: string, io: G.AppendIo) returns (ok: bool)
      modifies this, store
      ensures (store.View(), View(), ok) == G.Record(old(store.View()), old(View()), c, nodeId, io)
    {
      ok := Synchronize();
      if ok && G.MayRecord(state, |G.Text0(store.file)|, c, nodeId) {
        ok := Append(c, io);
      } else {
        ok := false;
      }
    }

    /** Replace the file by `next`; `order` is the order its records were
        written in. */
    method Rewrite(next: Loaded, io: G.RewriteIo) returns (ok: bool, ghost order: seq<Id>)
      modifies this, store
      ensures Enumerates(order, next.consumed.Keys) && (forall id | id in order :: id in next.consumed)
      ensures (store.View(), View(), ok) == G.Rewrite(old(store.View()), old(View()), next, order, io)
    {
      var text;
      text, order := Render(next);
      ok := false;
      if io.NotCommitted? || !G.Printable(next.history) || |text| > MAX_BYTES {
        return;
      }
      store.Write(text);
      if io.CommittedUnsynced? {
        return;
      }
      state := next;
      if io.CommittedUnread? {
        return;
      }
      revision := Some(store.version);
      ok := true;
    }

    /** Drop records whose expiry plus the replay retention has passed, then
        rewrite the file. */
    method Prune(t: nat, io: G.RewriteIo) returns (ok: bool, ghost order: seq<Id>)
      modifies this, store
      ensures (store.View(), View(), ok) == G.Prune(old(store.View()), old(View()), t, order, io)
      ensures Enumerates(order, G.KeptIds(G.Synchronize(old(store.View()), old(View())).1.state, t))
    {
      ok := Synchronize();
      order := AnyOrder(G.KeptIds(state, t));
      if ok {
        var next := PrunedState(state, t);
        if next.consumed.Keys != state.consumed.Keys {
          ok, order := Rewrite(next, io);
        }
      }
    }
  }

  /** `GrantJournal::open`. */
  method Open(store: Store) returns (j: Option<Journal>)
    modifies store
    ensures store.View() == G.Open(old(store.View())).0
    ensures j.Some? <==> G.Open(old(store.View())).1.Some?
    ensures j.Some? ==> fresh(j.value) && j.value.store == store && j.value.View() == G.Open(old(store.View())).1.value
  {
    if store.file.None? {
      var empty := new Journal(store, EMPTY, None);
      return Some(empty);
    }
    var loaded := store.Read();
    if loaded.None? {
      return None;
    }
    var instance := new Journal(store, loaded.value, Some(store.version));
    return Some(instance);
  }

  lemma {:induction false} AnyOrder(ids: set<Id>) returns (order: seq<Id>)
    ensures Enumerates(order, ids)
  {
    order := [];
    if ids != {} {
      var id :| id in ids;
      var rest := AnyOrder(ids - {id});
      order := rest + [id];
      assert id !in Elements(rest);
      assert Elements(order) == Elements(rest) + {id};
    }
  }

  lemma LargestUnique(m: map<Id, nat>, ids: set<Id>, n: nat)
    requires ids <= m.Keys && (forall id | id in ids :: m[id] <= n)
    requires n == 0 || exists id :: id in ids && m[id] == n
    ensures n == G.Largest(m, ids)
  {
  }

  /** One pass over the records: keep the retained ones and remember the
      latest expiry among the dropped. */
  method FilterRetained(m: map<Id, nat>, t: nat) returns (kept: map<Id, nat>, boundary: nat)
    ensures kept == map id | id in m && G.Retained(m[id], t) :: m[id]
    ensures forall id | id in m && !G.Retained(m[id], t) :: m[id] <= boundary
    ensures boundary == 0 || exists id :: id in m && !G.Retained(m[id], t) && m[id] == boundary
  {
    kept, boundary := map[], 0;
    var left := m.Keys;
    while left != {}
      invariant left <= m.Keys
      invariant kept == map id | id in m && id !in left && G.Retained(m[id], t) :: m[id]
      invariant forall id | id in m && id !in left && !G.Retained(m[id], t) :: m[id] <= boundary
      invariant boundary == 0 || exists id :: id in m && !G.Retained(m[id], t) && m[id] == boundary
      decreases left
    {
      var id :| id in left;
      left := left - {id};
      if G.Retained(m[id], t) {
        kept := kept[id := m[id]];
      } else if m[id] > boundary {
        boundary := m[id];
      }
    }
  }

  /** The state a prune at `t` leaves. */
  method PrunedState(l: Loaded, t: nat) returns (next: Loaded)
    ensures next == G.Pruned(l, t) && next.consumed.Keys == G.KeptIds(l, t)
  {
    var consumed, boundary := FilterRetained(l.consumed, t);
    var history := match l.history
      case None => None
      case Some(h) => Some(h.(prunedThrough := Max(h.prunedThrough, boundary)));
    next := Loaded(consumed, map id | id in l.bindings && id in consumed :: l.bindings[id], history);
    LargestUnique(l.consumed, l.consumed.Keys - G.KeptIds(l, t), boundary);
    assert next.bindings == G.Pruned(l, t).bindings;
    assert next.consumed == G.Pruned(l, t).consumed;
  }

  /** Write the header and then every record. */
  method Render(l: Loaded) returns (text: string, ghost order: seq<Id>)
    ensures Enumerates(order, l.consumed.Keys) && (forall id | id in order :: id in l.consumed)
    ensures text == Rendered(l, order)
  {
    text, order := HeaderText(l.history), [];
    var left := l.consumed.Keys;
    while left != {}
      invariant left <= l.consumed.Keys
      invariant Enumerates(order, l.consumed.Keys - left)
      invariant forall id | id in order :: id in l.consumed
      invariant text == Rendered(l, order)
      decreases left
    {
      var id :| id in left;
      left := left - {id};
      text := text + ConsumptionLine(Entry(l, id));
      assert id !in Elements(order);
      ghost var longer := order + [id];
      assert Elements(longer) == Elements(order) + {id};
      assert longer[..|longer| - 1] == order;
      order := longer;
    }
  }
}
