/** The end of an actor: what it may claim about its helper and browser, and
    the deadline it gives the browser it imports a session into. */
module ActorCleanup {
  import opened Text

  datatype Facts = Facts(
    helperIdentified: bool, helperAttempted: bool, browserVerified: bool, supervisorConnected: bool)

  /** What each request returned, or would have returned. */
  datatype Results = Results(
    helperTerminated: bool, websiteRevoked: bool, stopAcknowledged: bool, browserTerminated: bool)

  datatype Outcome = Outcome(websiteRevoked: bool, helperStopped: bool, browserStopped: bool)

  function RunCleanup(f: Facts, r: Results): Outcome {
    Outcome(
      r.websiteRevoked,
      if f.helperIdentified then r.helperTerminated else !f.helperAttempted,
      if f.browserVerified then r.browserTerminated
      else !f.supervisorConnected || (f.supervisorConnected && r.stopAcknowledged))
  }

  /** Which of the actor's processes are up. */
  datatype Processes = Processes(helper: bool, browser: bool)

  /** A helper is started only in the helper stage, which also precedes
      identifying it; a browser only over the supervisor channel. */
  predicate Consistent(f: Facts, p: Processes) {
    && (p.helper || f.helperIdentified ==> f.helperAttempted)
    && (p.browser || f.browserVerified ==> f.supervisorConnected)
  }

  /** What the requests leave, each ending its process when it succeeds. */
  function Left(f: Facts, r: Results, p: Processes): Processes {
    Processes(
      p.helper && !(f.helperIdentified && r.helperTerminated),
      p.browser && !(f.supervisorConnected && r.stopAcknowledged) && !(f.browserVerified && r.browserTerminated))
  }

  /** The actor's record is closed only when neither process is left: the two
      claims together are never made while a process the facts allow is up. */
  lemma CleanupProvesStop(f: Facts, r: Results, p: Processes)
    requires Consistent(f, p)
    ensures RunCleanup(f, r).helperStopped && RunCleanup(f, r).browserStopped ==>
              Left(f, r, p) == Processes(false, false)
  {
    var left := Left(f, r, p);
    assert RunCleanup(f, r).helperStopped ==> !left.helper;
    assert RunCleanup(f, r).browserStopped ==> !left.browser;
  }

  /** Exactly when a claim is made: the helper is claimed stopped when no helper
      the facts allow can be left, and the browser when the same holds and a
      verified browser was itself terminated, whatever the supervisor said. */
  lemma CleanupClaimsExactly(f: Facts, r: Results)
    requires Consistent(f, Processes(false, false))
    ensures RunCleanup(f, r).helperStopped <==> forall p | Consistent(f, p) :: !Left(f, r, p).helper
    ensures RunCleanup(f, r).browserStopped
      <==> (forall p | Consistent(f, p) :: !Left(f, r, p).browser) && (f.browserVerified ==> r.browserTerminated)
  {
    assert !RunCleanup(f, r).helperStopped ==>
        Consistent(f, Processes(true, false)) && Left(f, r, Processes(true, false)).helper;
    assert !RunCleanup(f, r).browserStopped && !f.browserVerified ==>
        Consistent(f, Processes(false, true)) && Left(f, r, Processes(false, true)).browser;
  }

  const MAX_SESSION_MS: nat := 1_800_000
  const CLOCK_QUANTA_MS: nat := 20

  function SessionBootDeadline(original: nat, controller: nat, boot: nat): Option<nat> {
    if original < controller || original - controller > MAX_SESSION_MS then None else
    var remaining := original - controller;
    if remaining <= CLOCK_QUANTA_MS || boot + (remaining - CLOCK_QUANTA_MS) > U64_MAX then None
    else Some(boot + (remaining - CLOCK_QUANTA_MS))
  }

  /** Boottime sampled up to 20 ms apart from controller time never extends the
      website's own deadline: at the local deadline true controller time is at
      most the original one. */
  lemma DeadlineNeverExtended(original: nat, controller: nat, boot: nat, trueBoot: nat)
    requires SessionBootDeadline(original, controller, boot).Some? && trueBoot <= boot <= trueBoot + CLOCK_QUANTA_MS
    ensures var deadline := SessionBootDeadline(original, controller, boot).value;
            boot < deadline && controller + (deadline - trueBoot) <= original
  {
  }
}
