/** A run in which a key rotation is interrupted at its last flush: the new key is
    active while a grant for the old one stays accepted; delivering the rotation
    again drops it. */
module InterruptedRotation {
  import opened Text
  import opened JournalLine
  import opened JournalFile
  import V = VerifierRuns
  import opened GrantVerifier
  import D = DoubleUse
  import opened AuthorityRuns

  /** The parties of `DoubleUse`, with a grant for key version 1 of node `n`. */
  function Party(): D.Cast {
    var c := D.Sample();
    c.(g := c.g.(recipientKeyId := KeyId("n", 1)), keyId := KeyId("n", 1))
  }

  lemma PartyValid()
    ensures D.ValidCast(Party())
  {
    D.SampleValid();
    hide KeyId, ConsumptionLine;
    assert Intent(Party().g) == Intent(D.Sample().g);
  }

  function Setup(version: nat): Config {
    Config("n", Some(1), version, Some(Party().p), map["w" := Party().reg])
  }

  function Waiting(held: bool): V.World { D.At(Party(), D.Disk0(None), D.Journal0(None), D.T0, true, held, false) }

  function Deliver(): Event { Document(1, GrantDoc(Party().g, "d"), 0, true, false, [], []) }

  const ROTATE := Document(1, RotationDoc("n", 2, true), 0, true, false, [], [])

  /** Observing the epoch that is already observed changes nothing. */
  lemma ObservedAgain(held: bool)
    ensures V.Enabled(Waiting(held), Observe(1, [])) && V.Step(Waiting(held), Observe(1, [])) == Waiting(held)
  {
    hide D.Disk0, D.Journal0, KeyId;
    assert HitIds(Waiting(held).process.value, NewEpoch(1)) == {};
  }

  lemma Delivered()
    ensures Enabled(Broker(Waiting(false), Setup(1)), Deliver())
    ensures Step(Broker(Waiting(false), Setup(1)), Deliver()) == Broker(Waiting(true), Setup(1))
  {
    PartyValid();
    ObservedAgain(false);
    D.Delivered(Party(), D.Disk0(None), D.Journal0(None), D.T0, false);
    hide V.Step, V.Enabled, KeyId, D.At, D.Disk0, D.Journal0, D.ValidCast;
    WaitingRuns(false);
    assert BodyEvent(Setup(1), Deliver()) == Some(D.Delivery(Party()));
  }

  lemma WaitingRuns(held: bool)
    ensures Waiting(held).process.Some?
    ensures held ==> Party().g.id in Waiting(held).process.value.accepted
                     && Waiting(held).process.value.accepted[Party().g.id].grant == Party().g
    ensures !held ==> Waiting(held).process.value.accepted == map[]
  {
    hide KeyId, D.Disk0, D.Journal0;
  }

  lemma Interrupts()
    ensures Enabled(Broker(Waiting(true), Setup(1)), ROTATE)
    ensures Step(Broker(Waiting(true), Setup(1)), ROTATE) == Broker(Waiting(true), Setup(2))
  {
    ObservedAgain(true);
    hide V.Step, V.Enabled, KeyId, Waiting, Party;
    WaitingRuns(true);
    assert BodyEvent(Setup(1), ROTATE) == None;
  }

  /** The old key's grant is held under the new key. */
  lemma OldKeyHeld()
    ensures Waiting(true).process.Some? && !KeyExact(Waiting(true).process.value, Setup(2))
    ensures KeyExact(Waiting(true).process.value, Setup(1))
  {
    WaitingRuns(true);
    if KeyId("n", 1) == KeyId("n", 2) {
      KeyIdInjective("n", 1, 2);
      assert false;
    }
  }

  lemma RotationCanLeaveOldKey()
    ensures exists bs: seq<Broker>, es: seq<Event>, content: Id -> Grant ::
              && IsRun(bs, es, content) && |es| == 2 && |bs| == 3 && LeavesInPlace(bs, es)
  {
    Delivered();
    Interrupts();
    OldKeyHeld();
    WaitingRuns(false);
    WaitingRuns(true);
    hide Step, Enabled, KeyExact, Waiting, Party;
    var bs := [Broker(Waiting(false), Setup(1)), Broker(Waiting(true), Setup(1)), Broker(Waiting(true), Setup(2))];
    var es := [Deliver(), ROTATE];
    var content := (id: Id) => Party().g;
    assert forall i | 0 <= i < 2 :: Enabled(bs[i], es[i]) && Genuine(es[i], content) && bs[i + 1] == Step(bs[i], es[i]);
    assert IsRun(bs, es, content) && LeavesInPlace(bs, es);
  }

  /** The last step interrupts a rotation and a grant for the old key is still
      accepted. */
  ghost predicate LeavesInPlace(bs: seq<Broker>, es: seq<Event>)
    requires |es| == 2 && |bs| == 3
  {
    && bs[1].w.process.Some? && bs[2].w.process.Some? && es[1].Document? && Interrupted(bs[1].c, es[1].body)
    && KeyExact(Ver(bs[1]), bs[1].c) && !KeyExact(Ver(bs[2]), bs[2].c)
  }
}
