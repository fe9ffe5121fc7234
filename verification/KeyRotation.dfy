/** Node key rotation over every crash point: the identity file is replaced
    atomically, a staged candidate survives, and reloading gives the old
    identity with the same candidate or the new one with nothing staged. */
module KeyRotation {
  import opened Text
  import opened Collections
  import opened KeyMaterial

  /** A private file replaced through a temporary one: the write is lost, the
      rename happened but was reported as failed, or all is durable. */
  datatype WriteIo = Lost | Renamed | Written

  datatype Files = Files(identity: Option<seq<byte>>, pending: Option<seq<byte>>)

  datatype Memory = Memory(keys: Keys, staged: Option<Keys>)

  /** `last` is the version of the identity last in use, zero before any. */
  datatype Node = Node(files: Files, memory: Option<Memory>, last: nat)

  /** A signed rotation; the public keys it names stand for the seeds. */
  datatype Rotation = Rotation(id: string, from: nat, to: nat, signing: seq<byte>, recipient: seq<byte>)

  predicate SameKey(a: Keys, b: Keys) {
    a.signing == b.signing && a.recipient == b.recipient && a.version == b.version
  }

  function WriteKeys(file: Option<seq<byte>>, k: Keys, io: WriteIo): (Option<seq<byte>>, bool)
    requires WellFormed(k)
  {
    if EncodeKeys(k).None? || io.Lost? then (file, false) else (EncodeKeys(k), io.Written?)
  }

  // ---- Steps ------------------------------------------------------------------------------

  /** The staged candidate a reload finds. */
  function ReadStaged(files: Files, keys: Keys, removed: bool): (Files, Option<Memory>) {
    match files.pending
    case None => (files, Some(Memory(keys, None)))
    case Some(b) =>
      match DecodeKeys(b)
      case None => (files, None)
      case Some(p) =>
        if p.version == SatAdd(keys.version, 1) then (files, Some(Memory(keys, Some(p))))
        else if p.version <= keys.version then
          (if removed then files.(pending := None) else files, Some(Memory(keys, None)))
        else (files, None)
  }

  /** `load_or_create`: a missing identity is created from new keys. */
  function Load(files: Files, generated: Keys, io: WriteIo, removed: bool): (Files, Option<Memory>)
    requires WellFormed(generated)
  {
    match files.identity
    case Some(b) =>
      (match DecodeKeys(b)
       case None => (files, None)
       case Some(keys) => ReadStaged(files, keys, removed))
    case None =>
      var (identity, ok) := WriteKeys(None, generated, io);
      if ok then ReadStaged(files.(identity := identity), generated, removed)
      else (files.(identity := identity), None)
  }

  /** Stage a candidate unless one is staged already. */
  function Prepare(files: Files, m: Memory, candidate: Keys, io: WriteIo): (Files, Memory, bool)
    requires WellFormed(candidate)
  {
    if m.staged.Some? then (files, m, true)
    else if m.keys.version >= U64_MAX then (files, m, false)
    else
      var (pending, ok) := WriteKeys(files.pending, candidate, io);
      (files.(pending := pending), if ok then m.(staged := Some(candidate)) else m, ok)
  }

  predicate AlreadyApplied(keys: Keys, r: Rotation) {
    keys.version == r.to && keys.rotation == Some(r.id) && keys.signing == r.signing && keys.recipient == r.recipient
  }

  predicate Matches(keys: Keys, candidate: Keys, r: Rotation) {
    && r.from == keys.version && r.to == candidate.version && r.to == SatAdd(r.from, 1)
    && candidate.signing == r.signing && candidate.recipient == r.recipient
  }

  /** How an application ends; `Unsynced` is reported as an error although the
      new key is already active. */
  datatype Applied = Done | Unsynced | Failed

  function Apply(files: Files, m: Memory, r: Rotation, io: WriteIo, removed: bool, synced: bool)
    : (Files, Memory, Applied)
    requires m.staged.Some? ==> WellFormed(m.staged.value.(rotation := Some(r.id)))
  {
    if AlreadyApplied(m.keys, r) then (files, m, Done)
    else if m.staged.None? || !Matches(m.keys, m.staged.value, r) then (files, m, Failed)
    else
      var replacement := m.staged.value.(rotation := Some(r.id));
      var (identity, ok) := WriteKeys(files.identity, replacement, io);
      if !ok then (files.(identity := identity), m.(staged := Some(replacement)), Failed)
      else
        (Files(identity, if removed then None else files.pending), Memory(replacement, None),
         if synced then Done else Unsynced)
  }

  /** The controller saw the rotation: forget its id. */
  function Acknowledge(files: Files, m: Memory, named: bool, io: WriteIo): (Files, Memory, bool)
    requires WellFormed(m.keys)
  {
    if m.keys.rotation.None? || !named then (files, m, true)
    else
      var (identity, ok) := WriteKeys(files.identity, m.keys.(rotation := None), io);
      (files.(identity := identity), if ok then m.(keys := m.keys.(rotation := None)) else m, ok)
  }

  // ---- The invariant ------------------------------------------------------------------------

  /** The identity on disk. */
  function Durable(files: Files): Option<Keys> {
    match files.identity case None => None case Some(b) => DecodeKeys(b)
  }

  function Pending(files: Files): Option<Keys> {
    match files.pending case None => None case Some(b) => DecodeKeys(b)
  }

  /** Reloading will be possible. */
  predicate FilesOk(files: Files) {
    && (files.identity.Some? ==> Durable(files).Some?)
    && (files.pending.Some? ==>
          && Durable(files).Some? && Pending(files).Some?
          && Pending(files).value.version <= Durable(files).value.version + 1)
  }

  predicate UsableKeys(k: Keys) {
    WellFormed(k) && k.version >= 1 && (k.rotation.Some? ==> IsOpaqueId(k.rotation.value))
  }

  predicate Inv(n: Node) {
    && FilesOk(n.files)
    && (n.memory.Some? ==>
          var m := n.memory.value;
          && Durable(n.files).Some? && UsableKeys(m.keys)
          && (SameKey(Durable(n.files).value, m.keys)
              || (m.staged.Some? && SameKey(Durable(n.files).value, m.staged.value)))
          && (m.staged.Some? ==>
                && UsableKeys(m.staged.value.(rotation := None))
                && m.staged.value.version == SatAdd(m.keys.version, 1)
                && Pending(n.files).Some? && SameKey(Pending(n.files).value, m.staged.value)))
    && (if n.memory.Some? then n.last == n.memory.value.keys.version
        else n.last > 0 ==> Durable(n.files).Some? && n.last <= Durable(n.files).value.version <= n.last + 1)
  }

  lemma WriteKeysReads(file: Option<seq<byte>>, k: Keys, io: WriteIo)
    requires UsableKeys(k)
    ensures var (f, ok) := WriteKeys(file, k, io);
            && (ok ==> f.Some? && DecodeKeys(f.value) == Some(k))
            && (f == file || (f.Some? && DecodeKeys(f.value) == Some(k)))
  {
    if EncodeKeys(k).Some? {
      KeysRoundTrip(k);
    }
  }

  // ---- Every step keeps it ------------------------------------------------------------------------

  /** `Applies` and the other steps happen in a running process. */
  datatype Event =
    | Loads(generated: Keys, io: WriteIo, removed: bool)
    | Crashes
    | Prepares(candidate: Keys, io: WriteIo)
    | Applies(r: Rotation, io: WriteIo, removed: bool, synced: bool)
    | Acknowledges(named: bool, io: WriteIo)

  /** Generated keys are new and carry no rotation; rotations are well formed. */
  predicate Enabled(n: Node, e: Event) {
    match e
    case Loads(generated, _, _) =>
      n.memory.None? && UsableKeys(generated) && generated.version == 1 && generated.rotation.None?
    case Crashes => n.memory.Some?
    case Prepares(candidate, _) =>
      && n.memory.Some? && UsableKeys(candidate) && candidate.rotation.None?
      && candidate.version == n.memory.value.keys.version + 1
    case Applies(r, _, _, _) =>
      n.memory.Some? && IsOpaqueId(r.id) && r.to == r.from + 1 && (forall i | 0 <= i < |r.id| :: r.id[i] as int < 256)
      && (n.memory.value.staged.Some? ==> WellFormed(n.memory.value.staged.value.(rotation := Some(r.id))))
    case Acknowledges(_, _) => n.memory.Some? && WellFormed(n.memory.value.keys)
  }

  function Step(n: Node, e: Event): Node
    requires Enabled(n, e)
  {
    match e
    case Loads(generated, io, removed) =>
      var (files, memory) := Load(n.files, generated, io, removed);
      Node(files, memory, if memory.Some? then memory.value.keys.version else n.last)
    case Crashes => n.(memory := None)
    case Prepares(candidate, io) =>
      var (files, m, _) := Prepare(n.files, n.memory.value, candidate, io);
      Node(files, Some(m), m.keys.version)
    case Applies(r, io, removed, synced) =>
      var (files, m, _) := Apply(n.files, n.memory.value, r, io, removed, synced);
      Node(files, Some(m), m.keys.version)
    case Acknowledges(named, io) =>
      var (files, m, _) := Acknowledge(n.files, n.memory.value, named, io);
      Node(files, Some(m), m.keys.version)
  }

  lemma LoadKeeps(n: Node, e: Event)
    requires Inv(n) && Enabled(n, e) && e.Loads?
    ensures Inv(Step(n, e))
  {
    if n.files.identity.None? {
      WriteKeysReads(None, e.generated, e.io);
    } else {
      KeysReadBack(n.files.identity.value);
    }
    if n.files.pending.Some? {
      KeysReadBack(n.files.pending.value);
    }
  }

  lemma PrepareKeeps(n: Node, e: Event)
    requires Inv(n) && Enabled(n, e) && e.Prepares?
    ensures Inv(Step(n, e))
  {
    WriteKeysReads(n.files.pending, e.candidate, e.io);
  }

  lemma ApplyKeeps(n: Node, e: Event)
    requires Inv(n) && Enabled(n, e) && e.Applies?
    ensures Inv(Step(n, e))
  {
    var m := n.memory.value;
    if m.staged.Some? {
      WriteKeysReads(n.files.identity, m.staged.value.(rotation := Some(e.r.id)), e.io);
    }
  }

  lemma AcknowledgeKeeps(n: Node, e: Event)
    requires Inv(n) && Enabled(n, e) && e.Acknowledges?
    ensures Inv(Step(n, e))
  {
    WriteKeysReads(n.files.identity, n.memory.value.keys.(rotation := None), e.io);
  }

  /** Every step keeps the files loadable and in step with memory, the identity
      in use advances by at most one version, and a staged candidate stays until
      it becomes the identity. */
  lemma StepKeepsInv(n: Node, e: Event)
    requires Inv(n) && Enabled(n, e)
    ensures Inv(Step(n, e))
    ensures n.last > 0 ==> n.last <= Step(n, e).last <= n.last + 1
    ensures !e.Crashes? && n.memory.Some? && n.memory.value.staged.Some? ==>
              var c, m := n.memory.value.staged.value, Step(n, e).memory.value;
              (m.staged.Some? && SameKey(m.staged.value, c)) || (m.staged.None? && SameKey(m.keys, c))
  {
    match e {
      case Loads(_, _, _) => LoadKeeps(n, e);
      case Prepares(_, _) => PrepareKeeps(n, e);
      case Applies(_, _, _, _) => ApplyKeeps(n, e);
      case Acknowledges(_, _) => AcknowledgeKeeps(n, e);
      case Crashes =>
    }
  }

  ghost predicate IsRun(ns: seq<Node>, es: seq<Event>) {
    && |ns| == |es| + 1 && ns[0] == Node(Files(None, None), None, 0)
    && forall i | 0 <= i < |es| :: Enabled(ns[i], es[i]) && ns[i + 1] == Step(ns[i], es[i])
  }

  lemma {:induction false} RunInv(ns: seq<Node>, es: seq<Event>, i: nat)
    requires IsRun(ns, es) && i < |ns|
    ensures Inv(ns[i])
  {
    if i > 0 {
      RunInv(ns, es, i - 1);
      StepKeepsInv(ns[i - 1], es[i - 1]);
    }
  }

  /** Key versions in use never fall and rise one at a time, whatever crashes. */
  lemma VersionsRiseByOne(ns: seq<Node>, es: seq<Event>, i: nat)
    requires IsRun(ns, es) && i < |es| && ns[i].last > 0
    ensures ns[i].last <= ns[i + 1].last <= ns[i].last + 1
  {
    RunInv(ns, es, i);
    StepKeepsInv(ns[i], es[i]);
  }

  /** Memory holds no candidate, but the pending file has one of the next
      version. */
  predicate Leftover(n: Node) {
    && n.memory.Some? && n.memory.value.staged.None? && Pending(n.files).Some?
    && Pending(n.files).value.version == SatAdd(n.memory.value.keys.version, 1)
  }

  /** Staging was renamed but reported as failed, or the last representable
      version was applied and the pending file not removed. */
  predicate LeavesLeftover(n: Node, e: Event)
    requires Enabled(n, e)
  {
    match e
    case Prepares(candidate, io) =>
      && n.memory.value.staged.None? && n.memory.value.keys.version < U64_MAX
      && EncodeKeys(candidate).Some? && io.Renamed?
    case Applies(r, io, removed, _) =>
      var m := n.memory.value;
      && !AlreadyApplied(m.keys, r) && m.staged.Some? && Matches(m.keys, m.staged.value, r)
      && EncodeKeys(m.staged.value.(rotation := Some(r.id))).Some? && io.Written? && !removed && r.to == U64_MAX
    case _ => false
  }

  /** From a state without one, a step leaves such a file exactly in these two
      ways. */
  lemma LeftoverExactly(n: Node, e: Event)
    requires Inv(n) && Enabled(n, e) && !Leftover(n)
    ensures Leftover(Step(n, e)) <==> LeavesLeftover(n, e)
  {
    match e {
      case Prepares(candidate, io) => if EncodeKeys(candidate).Some? { KeysRoundTrip(candidate); }
      case Applies(r, io, _, _) =>
        if n.memory.value.staged.Some? {
          WriteKeysReads(n.files.identity, n.memory.value.staged.value.(rotation := Some(r.id)), io);
        }
      case _ =>
    }
  }

  /** A crash at any point of any run: reloading succeeds and gives the old
      identity with the same staged candidate, or that candidate as the new
      identity with nothing staged. Only at the last representable version may a
      leftover file count as staged again. When memory held no candidate, one is
      staged exactly when a leftover file has it. */
  lemma ReloadAfterCrash(ns: seq<Node>, es: seq<Event>, i: nat, generated: Keys, io: WriteIo, removed: bool)
    requires IsRun(ns, es) && i < |ns| && ns[i].memory.Some? && WellFormed(generated)
    ensures var m, m' := ns[i].memory.value, Load(ns[i].files, generated, io, removed).1;
            && m'.Some?
            && (|| (SameKey(m'.value.keys, m.keys)
                    && (m.staged.Some? ==> m'.value.staged.Some? && SameKey(m'.value.staged.value, m.staged.value)))
                || (m.staged.Some? && SameKey(m'.value.keys, m.staged.value)
                    && (m'.value.keys.version < U64_MAX ==> m'.value.staged.None?)))
            && (m.staged.None? ==> m'.value.staged == if Leftover(ns[i]) then Pending(ns[i].files) else None)
  {
    RunInv(ns, es, i);
    KeysReadBack(ns[i].files.identity.value);
    if ns[i].files.pending.Some? {
      KeysReadBack(ns[i].files.pending.value);
    }
  }

  // ---- The object -----------------------------------------------------------------------------------

  /** The running identity; the locks make each method one step. */
  class NodeIdentity {
    var keys: Keys
    var staged: Option<Keys>
    var files: Files

    function Contents(): Memory
      reads this
    {
      Memory(keys, staged)
    }

    constructor (m: Memory, f: Files)
      ensures Contents() == m && files == f
    {
      keys, staged, files := m.keys, m.staged, f;
    }

    method PrepareRotation(candidate: Keys, io: WriteIo) returns (version: Option<nat>)
      requires WellFormed(candidate)
      modifies this
      ensures (files, Contents(), version.Some?) == Prepare(old(files), old(Contents()), candidate, io)
      ensures version.Some? ==> staged.Some? && version.value == staged.value.version
    {
      if staged.None? {
        if keys.version >= U64_MAX {
          return None;
        }
        var (pending, ok) := WriteKeys(files.pending, candidate, io);
        files := files.(pending := pending);
        if !ok {
          return None;
        }
        staged := Some(candidate);
      }
      version := Some(staged.value.version);
    }

    method ApplyKeyRotation(r: Rotation, io: WriteIo, removed: bool, synced: bool) returns (result: Applied)
      requires staged.Some? ==> WellFormed(staged.value.(rotation := Some(r.id)))
      modifies this
      ensures (files, Contents(), result) == Apply(old(files), old(Contents()), r, io, removed, synced)
    {
      if AlreadyApplied(keys, r) {
        return Done;
      }
      if staged.None? {
        return Failed;
      }
      var candidate := staged.value;
      staged := None;
      if !Matches(keys, candidate, r) {
        staged := Some(candidate);
        return Failed;
      }
      var replacement := candidate.(rotation := Some(r.id));
      var (identity, ok) := WriteKeys(files.identity, replacement, io);
      files := files.(identity := identity);
      if !ok {
        staged := Some(replacement);
        return Failed;
      }
      keys := replacement;
      if removed {
        files := files.(pending := None);
      }
      result := if synced then Done else Unsynced;
    }

    method AcknowledgeRotation(named: bool, io: WriteIo) returns (ok: bool)
      requires WellFormed(keys)
      modifies this
      ensures (files, Contents(), ok) == Acknowledge(old(files), old(Contents()), named, io)
    {
      if keys.rotation.None? || !named {
        return true;
      }
      var previous := keys.rotation;
      keys := keys.(rotation := None);
      var (identity, written) := WriteKeys(files.identity, keys, io);
      files := files.(identity := identity);
      if !written {
        keys := keys.(rotation := previous);
      }
      ok := written;
    }
  }
}
