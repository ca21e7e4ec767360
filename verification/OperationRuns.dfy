/** What every run of the session's operations keeps: at most one unresolved identity, no new identity
    while one is unresolved, no identity dropped without proof of what became of it, and every request
    sent under the identity, and with the content, that was first minted.
 */
module OperationRuns {
  import opened Basics
  import opened Operations

  // ----- The audit of a log -----------------------------------------------------------------------

  /** `ok` until a rule is broken; `last` is the latest minted operation, `open` says it is unresolved, `proven`
      that a note told what became of it, `shown` that a snapshot did. */
  datatype Track = Track(ok: bool, last: Option<Pending>, open: bool, proven: bool, shown: bool)

  const START := Track(true, None, false, false, false)

  /** A reply that tells what became of the operation. */
  predicate Settles(p: Pending, reply: Reply) {
    if reply.Failed? then Definitive(reply.failure)
    else match p
      case OfTurn(_) => true
      case OfControl(c) => reply.receipt.jobID == c.jobID
      case OfPlan(_) => reply.receipt.exact
  }

  /** A snapshot that shows the operation persisted as it was asked for. */
  predicate Shows(turns: map<ID, TurnRecord>, controls: map<ID, ControlRecord>, p: Pending) {
    match p
    case OfTurn(t) => t.id in turns && TurnMatches(turns[t.id], t)
    case OfControl(c) => c.id in controls && ControlMatches(controls[c.id], c)
    case OfPlan(_) => false
  }

  predicate Proof(n: Note, p: Pending) {
    match n
    case Sent(q, reply) => q == p && Settles(p, reply)
    case Saw(snapshot) => Shows(snapshot.turns, snapshot.controls, p)
    case _ => false
  }

  function Next(t: Track, n: Note): Track {
    match n
    case Minted(p) => Track(t.ok && !t.open, Some(p), true, false, false)
    case Sent(p, _) =>
      Track(t.ok && t.last == Some(p) && Live(t), t.last, t.open, t.proven || (t.last.Some? && Proof(n, t.last.value)), t.shown)
    case Saw(_) =>
      var proof := t.last.Some? && Proof(n, t.last.value);
      Track(t.ok, t.last, t.open, t.proven || proof, t.shown || proof)
    case Forgot(p) => Track(t.ok && t.open && t.proven && t.last == Some(p), t.last, false, t.proven, t.shown)
  }

  /** The last operation may still be sent: it is unresolved, or a snapshot has shown that sending does nothing. */
  predicate Live(t: Track) {
    t.open || t.shown
  }

  function Audit(log: seq<Note>): Track {
    if log == [] then START else Next(Audit(log[..|log| - 1]), log[|log| - 1])
  }

  lemma AuditAppend(log: seq<Note>, n: Note)
    ensures Audit(log + [n]) == Next(Audit(log), n)
  {
    assert (log + [n])[..|log|] == log;
  }

  // ----- The invariant ----------------------------------------------------------------------------

  function PendingOf(s: Session): Option<Pending> {
    if s.turn.Some? then Some(OfTurn(s.turn.value))
    else if s.control.Some? then Some(OfControl(s.control.value))
    else if s.plan.Some? then Some(OfPlan(s.plan.value))
    else None
  }

  /** The track agrees with the session. */
  predicate Agrees(t: Track, s: Session) {
    && t.ok
    && Pendings(s) <= 1
    && (t.open ==> t.last.Some?)
    && PendingOf(s) == (if t.open then t.last else None)
    && (t.last.Some? && Shows(s.turns, s.controls, t.last.value) ==> t.proven && t.shown)
  }

  predicate Tracked(o: Out) {
    Agrees(Audit(o.log), o.s)
  }

  /** The state an operation leaves when nothing of it can still be in flight unaccounted for. */
  predicate Settled(o: Out) {
    PendingOf(o.s).None? || Audit(o.log).proven
  }

  // ----- Steps on the log -------------------------------------------------------------------------

  lemma FailsKeeps(o: Out, f: Failure)
    requires Tracked(o)
    ensures Tracked(Fails(o, f)) && Tracked(o.(failure := None))
  {
  }

  lemma SendsKeeps(o: Out, p: Pending, reply: Reply)
    requires Tracked(o) && Audit(o.log).last == Some(p) && Live(Audit(o.log))
    ensures Tracked(Sends(o, p, reply)) && Audit(Sends(o, p, reply).log).last == Some(p)
    ensures Audit(Sends(o, p, reply).log).proven == (Audit(o.log).proven || Settles(p, reply))
  {
    AuditAppend(o.log, Sent(p, reply));
  }

  lemma ForgetTurnKeeps(o: Out)
    requires Tracked(o) && (o.s.turn.Some? ==> Audit(o.log).proven)
    ensures Tracked(ForgetTurn(o)) && ForgetTurn(o).s == o.s.(turn := None)
    ensures Audit(ForgetTurn(o).log) == Audit(o.log).(open := PendingOf(ForgetTurn(o).s).Some?)
  {
    if o.s.turn.Some? {
      AuditAppend(o.log, Forgot(OfTurn(o.s.turn.value)));
    }
  }

  lemma ForgetControlKeeps(o: Out)
    requires Tracked(o) && (o.s.control.Some? ==> Audit(o.log).proven)
    ensures Tracked(ForgetControl(o)) && ForgetControl(o).s == o.s.(control := None)
    ensures Audit(ForgetControl(o).log) == Audit(o.log).(open := PendingOf(ForgetControl(o).s).Some?)
  {
    if o.s.control.Some? {
      AuditAppend(o.log, Forgot(OfControl(o.s.control.value)));
    }
  }

  lemma ForgetPlanKeeps(o: Out)
    requires Tracked(o) && (o.s.plan.Some? ==> Audit(o.log).proven)
    ensures Tracked(ForgetPlan(o)) && ForgetPlan(o).s == o.s.(plan := None)
    ensures Audit(ForgetPlan(o).log) == Audit(o.log).(open := PendingOf(ForgetPlan(o).s).Some?)
  {
    if o.s.plan.Some? {
      AuditAppend(o.log, Forgot(OfPlan(o.s.plan.value)));
    }
  }

  // ----- Reloads ----------------------------------------------------------------------------------

  /** A reload mints nothing, and never takes a proof away. */
  predicate Later(before: Out, after: Out) {
    && Audit(after.log).last == Audit(before.log).last && (Audit(before.log).shown ==> Audit(after.log).shown)
    && (Audit(before.log).proven ==> Audit(after.log).proven)
    && (Live(Audit(before.log)) ==> Live(Audit(after.log)))
    && (after.s.turn.None? || after.s.turn == before.s.turn)
    && (after.s.control.None? || after.s.control == before.s.control)
    && (after.s.plan.None? || after.s.plan == before.s.plan)
  }

  /** What merged records show, one of the two showed. */
  lemma MergedShows(turns: map<ID, TurnRecord>, controls: map<ID, ControlRecord>, snapshot: Snapshot, p: Pending)
    requires Shows(turns + snapshot.turns, controls + snapshot.controls, p)
    ensures Shows(turns, controls, p) || Shows(snapshot.turns, snapshot.controls, p)
  {
  }

  lemma MergeKeeps(o: Out, snapshot: Snapshot)
    requires Tracked(o)
    ensures Tracked(Merge(o, snapshot)) && Later(o, Merge(o, snapshot))
    ensures var p := Audit(o.log).last; p.Some? && Shows(snapshot.turns, snapshot.controls, p.value) ==> Audit(Merge(o, snapshot).log).proven && Audit(Merge(o, snapshot).log).shown
  {
    AuditAppend(o.log, Saw(snapshot));
    var last := Audit(o.log).last;
    if last.Some? && Shows(o.s.turns + snapshot.turns, o.s.controls + snapshot.controls, last.value) {
      MergedShows(o.s.turns, o.s.controls, snapshot, last.value);
    }
  }

  lemma PersistedKeeps(o: Out)
    requires Tracked(o)
    ensures Tracked(ReconcilePersisted(o)) && Later(o, ReconcilePersisted(o))
  {
    if o.s.turn.Some? && o.s.turn.value.id in o.s.turns && TurnMatches(o.s.turns[o.s.turn.value.id], o.s.turn.value) {
      ForgetTurnKeeps(o);
    } else if o.s.control.Some? && o.s.control.value.id in o.s.controls && ControlMatches(o.s.controls[o.s.control.value.id], o.s.control.value) {
      ForgetControlKeeps(o);
    }
  }

  lemma AdoptKeeps(o: Out, snapshot: Snapshot)
    requires Tracked(o)
    requires var p := Audit(o.log).last; p.Some? && Shows(snapshot.turns, snapshot.controls, p.value) ==> Audit(o.log).proven && Audit(o.log).shown
    ensures Tracked(Adopt(o, snapshot)) && Later(o, Adopt(o, snapshot))
  {
  }

  lemma ReconcileKeeps(o: Out, snapshot: Snapshot)
    requires Tracked(o)
    ensures Tracked(Reconcile(o, snapshot)) && Later(o, Reconcile(o, snapshot))
  {
    MergeKeeps(o, snapshot);
    var merged := Merge(o, snapshot);
    var seen := Observe(merged, snapshot.active);
    assert Tracked(seen) && Later(o, seen);
    PersistedKeeps(seen);
    var checked := ReconcilePersisted(seen);
    if checked.failure.None? {
      AdoptKeeps(checked, snapshot);
    }
  }

  lemma ReloadKeeps(o: Out, reload: Reload)
    requires Tracked(o)
    ensures Tracked(DoReload(o, reload)) && Later(o, DoReload(o, reload))
  {
    match reload
    case Unreachable(f) =>
    case Refused(snapshot) => MergeKeeps(o, snapshot);
    case Loaded(snapshot, after) => ReconcileKeeps(o, snapshot);
  }

  // ----- New identities ---------------------------------------------------------------------------

  /** A new identity is one that no snapshot has shown. */
  predicate Unseen(s: Session, next: ID) {
    next !in s.turns && next !in s.controls
  }

  predicate NewTo(reload: Reload, next: ID) {
    reload.Unreachable? || (next !in reload.snapshot.turns && next !in reload.snapshot.controls)
  }

  lemma ReloadShowsNoNew(o: Out, reload: Reload, next: ID)
    requires Unseen(o.s, next) && NewTo(reload, next)
    ensures Unseen(DoReload(o, reload).s, next)
  {
  }

  lemma NamedTurnKeeps(o: Out, text: string, valid: bool, next: ID)
    requires Tracked(o) && Unseen(o.s, next)
    ensures Tracked(NameTurn(o, text, valid, next))
  {
    var job := if o.s.active.Some? && o.s.active.value.running then Some((o.s.active.value.id, o.s.active.value.generation)) else None;
    AuditAppend(o.log, Minted(OfTurn(PendingTurn(text, next, job))));
  }

  /** No unresolved control is taken up again here, so none has its revision replaced. */
  lemma NamedControlKeeps(o: Out, jobID: nat, action: Action, text: string, revision: nat, next: ID)
    requires Tracked(o) && Unseen(o.s, next) && o.failure.None?
    requires o.s.control.Some? ==> o.s.control.value.action != action || o.s.control.value.text != text
    ensures Tracked(NameControl(o, jobID, action, text, revision, next))
    ensures var named := NameControl(o, jobID, action, text, revision, next);
            named.failure.None? && named.s.control.Some? ==> named.s.control.value.jobID == jobID && o.s.control.None?
  {
    AuditAppend(o.log, Minted(OfControl(PendingControl(jobID, action, text, next, revision))));
  }

  lemma NamedPlanKeeps(o: Out, change: PlanChange, jobID: nat, generation: nat, revision: nat, next: ID)
    requires Tracked(o)
    ensures Tracked(NamePlan(o, change, jobID, generation, revision, next))
  {
    AuditAppend(o.log, Minted(OfPlan(PendingPlan(change, jobID, generation, revision, next))));
  }

  // ----- Operations -------------------------------------------------------------------------------

  lemma SubmitTurnKeeps(o: Out, pending: PendingTurn, reply: Reply, reload: Reload)
    requires Tracked(o) && o.s.turn == Some(pending)
    ensures Tracked(SubmitTurn(o, pending, reply, reload))
  {
    var sent := Sends(o, OfTurn(pending), reply);
    SendsKeeps(o, OfTurn(pending), reply);
    if reply.Failed? {
      if Definitive(reply.failure) {
        ForgetTurnKeeps(sent);
      }
    } else {
      ReloadKeeps(sent, reload);
      ForgetTurnKeeps(DoReload(sent, reload));
    }
  }

  lemma AcceptTextKeeps(o: Out, text: string, valid: bool, next: ID, reply: Reply, reload: Reload)
    requires Tracked(o) && Unseen(o.s, next)
    ensures Tracked(AcceptText(o, text, valid, next, reply, reload))
  {
    NamedTurnKeeps(o, text, valid, next);
    var named := NameTurn(o, text, valid, next);
    if named.failure.None? && named.s.turn.Some? {
      SubmitTurnKeeps(named, named.s.turn.value, reply, reload);
    }
  }

  /** Once accepted, whatever the reload does leaves the control either released or proven. */
  lemma AwaitControlKeeps(o: Out, id: ID, reload: Reload)
    requires Tracked(o) && Audit(o.log).proven
    ensures Tracked(AwaitControl(o, id, reload)) && Settled(AwaitControl(o, id, reload))
  {
    ReloadKeeps(o, reload);
    ForgetControlKeeps(DoReload(o, reload));
  }

  lemma ReplayControlKeeps(o: Out, pending: PendingControl, replay: Reply, reload: Reload)
    requires Tracked(o) && Audit(o.log).last == Some(OfControl(pending)) && Live(Audit(o.log))
    ensures Tracked(ReplayControl(o, pending, replay, reload))
  {
    if pending.id in o.s.controls {
      if ControlMatches(o.s.controls[pending.id], pending) {
        ForgetControlKeeps(o);
      }
    } else {
      SendsKeeps(o, OfControl(pending), replay);
      if replay.Ok? && replay.receipt.jobID == pending.jobID {
        AwaitControlKeeps(Sends(o, OfControl(pending), replay), pending.id, reload);
      }
    }
  }

  lemma SubmitControlKeeps(o: Out, pending: PendingControl, submit: Reply, reload: Reload)
    requires Tracked(o) && o.s.control == Some(pending) && o.failure.None?
    ensures var done := SubmitControl(o, pending, submit, reload);
            Tracked(done) && (done.failure.Some? && Definitive(done.failure.value) ==> Settled(done))
  {
    var sent := Sends(o, OfControl(pending), submit);
    SendsKeeps(o, OfControl(pending), submit);
    if submit.Failed? {
      if Definitive(submit.failure) {
        ForgetControlKeeps(sent);
      }
    } else if submit.receipt.jobID == pending.jobID {
      AwaitControlKeeps(sent, pending.id, reload);
    }
  }

  lemma NewControlKeeps(o: Out, action: Action, text: string, expected: Option<nat>, next: ID, net: ControlNet)
    requires Tracked(o) && Unseen(o.s, next) && o.failure.None?
    requires o.s.control.Some? ==> o.s.control.value.action != action || o.s.control.value.text != text
    ensures var done := NewControl(o, action, text, expected, next, net);
            && Tracked(done)
            && (PendingOf(o.s).None? && done.failure.Some? && Definitive(done.failure.value) ==> Settled(done))
  {
    if o.s.active.Some? && (expected.None? || o.s.active.value.id == expected.value) && (action == Redirect ==> net.revision.Observed?) {
      var jobID := o.s.active.value.id;
      var revision := if action == Redirect then net.revision.revision else 0;
      NamedControlKeeps(o, jobID, action, text, revision, next);
      var named := NameControl(o, jobID, action, text, revision, next);
      if named.failure.None? && named.s.control.Some? {
        SubmitControlKeeps(named, named.s.control.value, net.submit, net.third);
      }
    }
  }

  lemma ControlKeeps(o: Out, action: Action, text: string, valid: bool, expected: Option<nat>, next: ID, net: ControlNet)
    requires Tracked(o) && Unseen(o.s, next) && NewTo(net.first, next) && o.failure.None?
    ensures var done := Control(o, action, text, valid, expected, next, net);
            && Tracked(done)
            && (PendingOf(o.s).None? && done.failure.Some? && Definitive(done.failure.value) ==> Settled(done))
  {
    ReloadKeeps(o, net.first);
    ReloadShowsNoNew(o, net.first, next);
    var reloaded := DoReload(o, net.first);
    if reloaded.failure.None? {
      if o.s.control.Some? && o.s.control.value.action == action && o.s.control.value.text == text {
        ReplayControlKeeps(reloaded, o.s.control.value, net.replay, net.second);
      } else {
        NewControlKeeps(reloaded, action, text, expected, next, net);
      }
    }
  }

  lemma SubmitPlanKeeps(o: Out, pending: PendingPlan, reply: Reply)
    requires Tracked(o) && o.s.plan == Some(pending) && o.failure.None?
    ensures Tracked(SubmitPlan(o, pending, reply))
  {
    SendsKeeps(o, OfPlan(pending), reply);
    var sent := ReplayPlan(o, pending, reply);
    if sent.failure.None? || Definitive(sent.failure.value) {
      ForgetPlanKeeps(sent);
    }
  }

  lemma MutatePlanKeeps(o: Out, change: PlanChange, jobID: nat, generation: nat, revision: nat, next: ID, reply: Reply, reload: Reload)
    requires Tracked(o) && o.failure.None?
    ensures Tracked(MutatePlan(o, change, jobID, generation, revision, next, reply, reload))
  {
    NamedPlanKeeps(o, change, jobID, generation, revision, next);
    SendPlanKeeps(NamePlan(o, change, jobID, generation, revision, next), change, reply, reload);
  }

  lemma SendPlanKeeps(named: Out, change: PlanChange, reply: Reply, reload: Reload)
    requires Tracked(named)
    ensures Tracked(SendPlan(named, change, reply, reload))
  {
    if named.failure.None? && named.s.plan.Some? {
      SubmitPlanKeeps(named, named.s.plan.value, reply);
      AfterPlanKeeps(SubmitPlan(named, named.s.plan.value, reply), change, reload);
    }
  }

  lemma AfterPlanKeeps(o: Out, change: PlanChange, reload: Reload)
    requires Tracked(o)
    ensures Tracked(AfterPlan(o, change, reload))
  {
    ReloadKeeps(o, reload);
  }

  // ----- Interrupts -------------------------------------------------------------------------------

  /** What a resolution says, the track has as proven. */
  predicate Warranted(o: Out, r: Resolution) {
    match r
    case NoneResolved => PendingOf(o.s).None?
    case TurnResolved(_, _, _, _) => Audit(o.log).proven && o.s.control.None? && o.s.plan.None?
    case ControlResolved(_, _, _, _) => Audit(o.log).proven && o.s.turn.None? && o.s.plan.None?
    case PlanResolved(_) => PendingOf(o.s).None?
  }

  lemma ResolvePendingKeeps(o: Out, reply: Reply)
    requires Tracked(o) && o.failure.None?
    ensures var (sent, r) := ResolvePending(o, reply);
            && Tracked(sent)
            && (sent.failure.None? ==> Warranted(sent, r))
            && (sent.failure.Some? && Definitive(sent.failure.value) ==> Audit(sent.log).proven)
            && (Unchanged(o, sent))
  {
    if PendingOf(o.s).Some? {
      SendsKeeps(o, PendingOf(o.s).value, reply);
      if o.s.plan.Some? && reply.Ok? && reply.receipt.exact {
        ForgetPlanKeeps(ReplayPlan(o, o.s.plan.value, reply));
      }
    }
  }

  predicate Unchanged(before: Out, after: Out) {
    before.s.turns == after.s.turns && before.s.controls == after.s.controls
  }

  lemma ReleaseKeeps(o: Out)
    requires Tracked(o) && Audit(o.log).proven
    ensures Tracked(Release(o)) && PendingOf(Release(o).s).None? && Release(o).failure.None? && Unchanged(o, Release(o))
  {
    var start := o.(failure := None);
    ForgetTurnKeeps(start);
    ForgetControlKeeps(ForgetTurn(start));
    ForgetPlanKeeps(ForgetControl(ForgetTurn(start)));
  }

  lemma AcknowledgeKeeps(o: Out, r: Resolution)
    requires Tracked(o) && Warranted(o, r) && o.failure.None?
    ensures var done := Acknowledge(o, r); Tracked(done) && Unchanged(o, done) && (done.failure.None? ==> PendingOf(done.s).None?)
  {
    if r.TurnResolved? {
      ForgetTurnKeeps(o);
    } else if r.ControlResolved? {
      ForgetControlKeeps(o);
    }
  }

  /** When the resolution ends well nothing is left unresolved. */
  lemma ResolveKeeps(o: Out, net: InterruptNet, next: ID)
    requires Tracked(o) && o.failure.None? && Unseen(o.s, next) && NewTo(net.reload, next)
    ensures var (done, _) := Resolve(o, net);
            Tracked(done) && Unseen(done.s, next) && (done.failure.None? ==> PendingOf(done.s).None?)
  {
    ResolvePendingKeeps(o, net.resolve);
    var (sent, resolution) := ResolvePending(o, net.resolve);
    if sent.failure.None? {
      ResolvedKeeps(sent, resolution, net.reload, next);
    } else if Definitive(sent.failure.value) {
      ReleaseKeeps(sent);
      ResolvedKeeps(Release(sent), NoneResolved, net.reload, next);
    }
  }

  lemma ResolvedKeeps(o: Out, r: Resolution, reload: Reload, next: ID)
    requires Tracked(o) && Warranted(o, r) && o.failure.None? && Unseen(o.s, next) && NewTo(reload, next)
    ensures var reloaded := DoReload(o, reload);
            var done := if reloaded.failure.Some? then reloaded else Acknowledge(reloaded, r);
            Tracked(done) && Unseen(done.s, next) && (done.failure.None? ==> PendingOf(done.s).None?)
  {
    ReloadKeeps(o, reload);
    ReloadShowsNoNew(o, reload, next);
    var reloaded := DoReload(o, reload);
    if reloaded.failure.None? {
      AcknowledgeKeeps(reloaded, r);
    }
  }

  lemma AfterInterruptKeeps(o: Out, target: nat, again: Reload)
    requires Tracked(o) && (o.failure.Some? && Definitive(o.failure.value) ==> Settled(o))
    ensures Tracked(AfterInterrupt(o, target, again))
  {
    if o.failure.Some? && Definitive(o.failure.value) {
      var quiet := o.(failure := None);
      ReloadKeeps(quiet, again);
      ForgetControlKeeps(DoReload(quiet, again));
    }
  }

  lemma ResolveErrorKeeps(o: Out, error: Failure, next: ID, net: InterruptNet)
    requires Tracked(o) && o.failure.None? && Unseen(o.s, next) && NewTo(net.reload, next) && NewTo(net.control.first, next)
    ensures Tracked(ResolveError(o, error, next, net))
  {
    ResolveKeeps(o, net, next);
    var (done, resolution) := Resolve(o, net);
    if error == Interrupted && done.failure.None? && done.s.active.Some? {
      var target := done.s.active.value.id;
      ControlKeeps(done, Interrupt, CTRL_C, true, Some(target), next, net.control);
      AfterInterruptKeeps(Control(done, Interrupt, CTRL_C, true, Some(target), next, net.control), target, net.again);
    }
  }

  // ----- Success ----------------------------------------------------------------------------------

  /** A reload that ends well has resolved what it shows, as it was asked for. */
  lemma LoadedShows(o: Out, reload: Reload)
    requires Tracked(o) && DoReload(o, reload).failure.None?
    ensures var after := DoReload(o, reload).s;
            && (o.s.turn.Some? && o.s.turn.value.id in after.turns
                ==> after.turn.None? && TurnMatches(after.turns[o.s.turn.value.id], o.s.turn.value))
            && (o.s.control.Some? && o.s.control.value.id in after.controls
                ==> after.control.None? && ControlMatches(after.controls[o.s.control.value.id], o.s.control.value))
  {
    var snapshot := reload.snapshot;
    MergeKeeps(o, snapshot);
    var merged := Observe(Merge(o, snapshot), snapshot.active);
    assert merged.s.turn == o.s.turn && merged.s.control == o.s.control;
  }

  lemma SubmittedTurnIsPersisted(o: Out, pending: PendingTurn, reply: Reply, reload: Reload)
    requires Tracked(o) && o.s.turn == Some(pending) && o.failure.None?
    ensures var done := SubmitTurn(o, pending, reply, reload);
            done.failure.None? ==> reply.Ok? && done.s.turn.None? && pending.id in done.s.turns && TurnMatches(done.s.turns[pending.id], pending)
  {
    SendsKeeps(o, OfTurn(pending), reply);
    var sent := Sends(o, OfTurn(pending), reply);
    if reply.Ok? && DoReload(sent, reload).failure.None? {
      LoadedShows(sent, reload);
    }
  }

  lemma NamedTurnIs(o: Out, text: string, valid: bool, next: ID)
    requires o.failure.None?
    ensures var named := NameTurn(o, text, valid, next);
            && (named.failure.None? ==> named.s.turn.Some? && named.s.turn.value.text == text)
            && (named.failure.None? ==> named.s.turn.value.id == if o.s.turn.Some? then o.s.turn.value.id else next)
  {
  }

  /** A turn that ends without an error is persisted as it was typed, and nothing of it is left pending. */
  lemma AcceptedTurnIsPersisted(o: Out, text: string, valid: bool, next: ID, reply: Reply, reload: Reload)
    requires Tracked(o) && Unseen(o.s, next) && o.failure.None?
    ensures var done := AcceptText(o, text, valid, next, reply, reload);
            var id := if o.s.turn.Some? then o.s.turn.value.id else next;
            done.failure.None? ==> reply.Ok? && done.s.turn.None? && id in done.s.turns && done.s.turns[id].text == text
  {
    NamedTurnKeeps(o, text, valid, next);
    NamedTurnIs(o, text, valid, next);
    var named := NameTurn(o, text, valid, next);
    if named.failure.None? {
      SubmittedTurnIsPersisted(named, named.s.turn.value, reply, reload);
    }
  }

  /** Likewise a control, which moreover was accepted for the job it was asked of. */
  lemma AcceptedControlIsPersisted(o: Out, pending: PendingControl, submit: Reply, reload: Reload)
    requires Tracked(o) && o.s.control == Some(pending) && o.failure.None?
    ensures var done := SubmitControl(o, pending, submit, reload);
            done.failure.None? ==> submit.Ok? && submit.receipt.jobID == pending.jobID && done.s.control.None?
                                   && pending.id in done.s.controls && ControlMatches(done.s.controls[pending.id], pending)
  {
    SendsKeeps(o, OfControl(pending), submit);
    var sent := Sends(o, OfControl(pending), submit);
    if submit.Ok? && submit.receipt.jobID == pending.jobID && DoReload(sent, reload).failure.None? {
      LoadedShows(sent, reload);
    }
  }

  // ----- Runs -------------------------------------------------------------------------------------

  datatype Act =
    | Say(text: string, valid: bool, next: ID, reply: Reply, reload: Reload)
    | Ask(action: Action, text: string, valid: bool, expected: Option<nat>, next: ID, net: ControlNet)
    | Change(change: PlanChange, jobID: nat, generation: nat, revision: nat, next: ID, reply: Reply, reload: Reload)
    | Recover(error: Failure, next: ID, attempt: InterruptNet)
    | Refresh(reload: Reload)

  function Do(o: Out, a: Act): Out {
    match a
    case Say(text, valid, next, reply, reload) => AcceptText(o, text, valid, next, reply, reload)
    case Ask(action, text, valid, expected, next, net) => Control(o, action, text, valid, expected, next, net)
    case Change(change, jobID, generation, revision, next, reply, reload) =>
      MutatePlan(o, change, jobID, generation, revision, next, reply, reload)
    case Recover(error, next, attempt) => ResolveError(o, error, next, attempt)
    case Refresh(reload) => DoReload(o, reload)
  }

  /** The identity that the act would mint is one that no snapshot has shown up to its minting. */
  predicate Legal(o: Out, a: Act) {
    match a
    case Say(_, _, next, _, _) => Unseen(o.s, next)
    case Ask(_, _, _, _, next, net) => Unseen(o.s, next) && NewTo(net.first, next)
    case Recover(_, next, attempt) => Unseen(o.s, next) && NewTo(attempt.reload, next) && NewTo(attempt.control.first, next)
    case _ => true
  }

  const EMPTY := Out(Session(None, None, None, map[], map[], None), [], None)

  /** Acts follow one another whatever became of the one before. */
  function Run(acts: seq<Act>): Out {
    if acts == [] then EMPTY else Do(Run(acts[..|acts| - 1]).(failure := None), acts[|acts| - 1])
  }

  predicate LegalRun(acts: seq<Act>) {
    acts == [] || (LegalRun(acts[..|acts| - 1]) && Legal(Run(acts[..|acts| - 1]), acts[|acts| - 1]))
  }

  lemma DoKeeps(o: Out, a: Act)
    requires Tracked(o) && Legal(o, a) && o.failure.None?
    ensures Tracked(Do(o, a))
  {
    match a
    case Say(text, valid, next, reply, reload) => AcceptTextKeeps(o, text, valid, next, reply, reload);
    case Ask(action, text, valid, expected, next, net) => ControlKeeps(o, action, text, valid, expected, next, net);
    case Change(change, jobID, generation, revision, next, reply, reload) =>
      MutatePlanKeeps(o, change, jobID, generation, revision, next, reply, reload);
    case Recover(error, next, attempt) => ResolveErrorKeeps(o, error, next, attempt);
    case Refresh(reload) => ReloadKeeps(o, reload);
  }

  /** In every run, at most one identity is unresolved, and the audit finds it and no rule broken. */
  lemma {:induction false} RunKeeps(acts: seq<Act>)
    requires LegalRun(acts)
    ensures Tracked(Run(acts))
    ensures Pendings(Run(acts).s) <= 1
  {
    if acts != [] {
      var before := Run(acts[..|acts| - 1]);
      RunKeeps(acts[..|acts| - 1]);
      FailsKeeps(before, Local);
      DoKeeps(before.(failure := None), acts[|acts| - 1]);
    }
  }

  // ----- What the audit means ---------------------------------------------------------------------

  /** `log[i]` minted `p`, and nothing has been minted since, up to `j`. */
  predicate Mints(log: seq<Note>, i: int, j: int, p: Pending) {
    && 0 <= i < j <= |log| && log[i] == Minted(p)
    && forall k :: i < k < j ==> !log[k].Minted?
  }

  /** Where the audit's facts come from: the minting, the proof, and the release after the proof. */
  lemma {:induction false} Trace(log: seq<Note>) returns (i: int, m: int, k: int)
    requires Audit(log).ok && Audit(log).last.Some?
    ensures Mints(log, i, |log|, Audit(log).last.value)
    ensures Audit(log).proven ==> i < m < |log| && Proof(log[m], Audit(log).last.value)
    ensures !Audit(log).open ==> i < m < k < |log| && Proof(log[m], Audit(log).last.value) && log[k] == Forgot(Audit(log).last.value)
  {
    var n := |log| - 1;
    var before := log[..n];
    if log[n].Minted? {
      i, m, k := n, n, n;
    } else {
      i, m, k := Trace(before);
      if !Audit(before).proven && Audit(before).open {
        m := n;
      }
      if Audit(before).open {
        k := n;
      }
    }
  }

  /** Likewise the snapshot that showed the latest operation. */
  lemma {:induction false} ShownAt(log: seq<Note>) returns (i: int, m: int)
    requires Audit(log).ok && Audit(log).last.Some? && Audit(log).shown
    ensures Mints(log, i, |log|, Audit(log).last.value)
    ensures i < m < |log| && log[m].Saw? && Proof(log[m], Audit(log).last.value)
  {
    var n := |log| - 1;
    var before := log[..n];
    if Audit(before).shown {
      i, m := ShownAt(before);
    } else {
      var k, h;
      i, k, h := Trace(before);
      m := n;
    }
  }

  lemma {:induction false} OkBefore(log: seq<Note>, j: nat)
    requires Audit(log).ok && j <= |log|
    ensures Audit(log[..j]).ok
  {
    if j == |log| {
      assert log[..j] == log;
    } else {
      OkBefore(log[..|log| - 1], j);
      assert log[..|log| - 1][..j] == log[..j];
    }
  }

  lemma OkStep(log: seq<Note>, j: nat)
    requires Audit(log).ok && j < |log|
    ensures Audit(log[..j]).ok && Next(Audit(log[..j]), log[j]).ok
  {
    OkBefore(log, j);
    OkBefore(log, j + 1);
    assert log[..j + 1][..j] == log[..j];
  }

  predicate LogOf(acts: seq<Act>, log: seq<Note>) {
    LegalRun(acts) && log == Run(acts).log
  }

  lemma LogIsOk(acts: seq<Act>, log: seq<Note>)
    requires LogOf(acts, log)
    ensures Audit(log).ok
  {
    RunKeeps(acts);
  }

  lemma TraceBefore(log: seq<Note>, j: nat) returns (i: int, m: int, k: int)
    requires Audit(log).ok && j < |log| && Audit(log[..j]).last.Some?
    ensures Next(Audit(log[..j]), log[j]).ok
    ensures var t := Audit(log[..j]);
            && Mints(log, i, j, t.last.value)
            && (t.proven ==> i < m < j && Proof(log[m], t.last.value))
            && (!t.open ==> i < m < k < j && Proof(log[m], t.last.value) && log[k] == Forgot(t.last.value))
  {
    OkStep(log, j);
    i, m, k := Trace(log[..j]);
  }

  /** Every request goes out under the identity that was minted last, with the content it was minted with. */
  lemma RequestsKeepTheirIdentity(acts: seq<Act>, log: seq<Note>, j: nat) returns (i: int)
    requires LogOf(acts, log) && j < |log| && log[j].Sent?
    ensures Mints(log, i, j, log[j].pending)
  {
    LogIsOk(acts, log);
    OkStep(log, j);
    var m, k;
    i, m, k := TraceBefore(log, j);
  }

  /** An identity is released only after a definitive or matching reply to it, or a snapshot showing it. */
  lemma ReleasedOnlyWithProof(acts: seq<Act>, log: seq<Note>, j: nat) returns (i: int, m: int)
    requires LogOf(acts, log) && j < |log| && log[j].Forgot?
    ensures Mints(log, i, j, log[j].pending)
    ensures i < m < j && Proof(log[m], log[j].pending)
  {
    LogIsOk(acts, log);
    OkStep(log, j);
    var k;
    i, m, k := TraceBefore(log, j);
  }

  /** Before anything new is minted, what was minted before was proven and then released. */
  lemma NoIdentityIsAbandoned(acts: seq<Act>, log: seq<Note>, h: nat, j: nat) returns (i: int, m: int, k: int, p: Pending)
    requires LogOf(acts, log) && h < j < |log| && log[h].Minted? && log[j].Minted?
    ensures h <= i < m < k < j && Mints(log, i, j, p)
    ensures Proof(log[m], p) && log[k] == Forgot(p)
  {
    LogIsOk(acts, log);
    MintedIsLast(log[..j], h);
    p := Audit(log[..j]).last.value;
    i, m, k := TraceBefore(log, j);
  }

  lemma {:induction false} MintedIsLast(log: seq<Note>, h: nat)
    requires h < |log| && log[h].Minted?
    ensures Audit(log).last.Some?
  {
    if h < |log| - 1 {
      MintedIsLast(log[..|log| - 1], h);
    }
  }

  // ----- What is minted ---------------------------------------------------------------------------

  /** The operations a log minted, in order. */
  function Mintings(log: seq<Note>): seq<Pending> {
    if log == [] then []
    else Mintings(log[..|log| - 1]) + if log[|log| - 1].Minted? then [log[|log| - 1].pending] else []
  }

  lemma MintAppend(log: seq<Note>, n: Note)
    ensures Mintings(log + [n]) == Mintings(log) + if n.Minted? then [n.pending] else []
  {
    assert (log + [n])[..|log|] == log;
  }

  /** Of an operation, that it minted nothing. */
  predicate MintsNothing(o: Out, done: Out) {
    Mintings(done.log) == Mintings(o.log)
  }

  lemma ForgetMints(o: Out)
    ensures MintsNothing(o, ForgetTurn(o)) && MintsNothing(o, ForgetControl(o)) && MintsNothing(o, ForgetPlan(o))
  {
    if o.s.turn.Some? {
      MintAppend(o.log, Forgot(OfTurn(o.s.turn.value)));
    }
    if o.s.control.Some? {
      MintAppend(o.log, Forgot(OfControl(o.s.control.value)));
    }
    if o.s.plan.Some? {
      MintAppend(o.log, Forgot(OfPlan(o.s.plan.value)));
    }
  }

  lemma PersistedMints(o: Out)
    ensures MintsNothing(o, ReconcilePersisted(o))
  {
    ForgetMints(o);
  }

  lemma ReconcileMints(o: Out, snapshot: Snapshot)
    ensures MintsNothing(o, Merge(o, snapshot)) && MintsNothing(o, Reconcile(o, snapshot))
  {
    MintAppend(o.log, Saw(snapshot));
    PersistedMints(Observe(Merge(o, snapshot), snapshot.active));
  }

  lemma ReloadMints(o: Out, reload: Reload)
    ensures MintsNothing(o, DoReload(o, reload))
  {
    if !reload.Unreachable? {
      ReconcileMints(o, reload.snapshot);
    }
  }

  lemma SendMints(o: Out, p: Pending, reply: Reply)
    ensures MintsNothing(o, Sends(o, p, reply))
  {
    MintAppend(o.log, Sent(p, reply));
  }

  lemma SubmitTurnMints(o: Out, pending: PendingTurn, reply: Reply, reload: Reload)
    ensures MintsNothing(o, SubmitTurn(o, pending, reply, reload))
  {
    var sent := Sends(o, OfTurn(pending), reply);
    SendMints(o, OfTurn(pending), reply);
    ForgetMints(sent);
    ReloadMints(sent, reload);
    ForgetMints(DoReload(sent, reload));
  }

  /** A turn mints an identity exactly when nothing is unresolved: asked again, it reuses the one it has. */
  lemma TurnMintsOnlyWhenClear(o: Out, text: string, valid: bool, next: ID, reply: Reply, reload: Reload)
    requires o.failure.None?
    ensures var minted := Mintings(AcceptText(o, text, valid, next, reply, reload).log);
            if valid && Pendings(o.s) == 0
            then |minted| == |Mintings(o.log)| + 1 && minted[..|Mintings(o.log)|] == Mintings(o.log)
                 && minted[|Mintings(o.log)|].OfTurn? && minted[|Mintings(o.log)|].turn.id == next && minted[|Mintings(o.log)|].turn.text == text
            else minted == Mintings(o.log)
  {
    var named := NameTurn(o, text, valid, next);
    if valid && Pendings(o.s) == 0 {
      MintAppend(o.log, named.log[|o.log|]);
    }
    if named.failure.None? && named.s.turn.Some? {
      SubmitTurnMints(named, named.s.turn.value, reply, reload);
    }
  }

  lemma AwaitMints(o: Out, id: ID, reload: Reload)
    ensures MintsNothing(o, AwaitControl(o, id, reload))
  {
    ReloadMints(o, reload);
    ForgetMints(DoReload(o, reload));
  }

  lemma SubmitControlMints(o: Out, pending: PendingControl, submit: Reply, reload: Reload)
    ensures MintsNothing(o, SubmitControl(o, pending, submit, reload))
  {
    var sent := Sends(o, OfControl(pending), submit);
    SendMints(o, OfControl(pending), submit);
    if submit.Failed? {
      ForgetMints(sent);
    } else {
      AwaitMints(sent, pending.id, reload);
    }
  }

  lemma ReplayControlMints(o: Out, pending: PendingControl, replay: Reply, reload: Reload)
    ensures MintsNothing(o, ReplayControl(o, pending, replay, reload))
  {
    if pending.id in o.s.controls {
      ForgetMints(o);
    } else {
      SendMints(o, OfControl(pending), replay);
      AwaitMints(Sends(o, OfControl(pending), replay), pending.id, reload);
    }
  }

  /** An operation minted nothing, or one control of a given kind for a given job. */
  predicate MintsFor(o: Out, done: Out, jobID: nat, action: Action, text: string) {
    var before, after := Mintings(o.log), Mintings(done.log);
    || after == before
    || (&& |after| == |before| + 1 && after[..|before|] == before && after[|before|].OfControl?
        && after[|before|].control.jobID == jobID && after[|before|].control.action == action && after[|before|].control.text == text)
  }

  lemma NamedControlMints(o: Out, jobID: nat, action: Action, text: string, revision: nat, next: ID)
    ensures MintsFor(o, NameControl(o, jobID, action, text, revision, next), jobID, action, text)
  {
    MintAppend(o.log, Minted(OfControl(PendingControl(jobID, action, text, next, revision))));
  }

  lemma NewControlMints(o: Out, action: Action, text: string, target: nat, next: ID, net: ControlNet)
    ensures MintsFor(o, NewControl(o, action, text, Some(target), next, net), target, action, text)
  {
    if o.s.active.Some? && o.s.active.value.id == target && (action == Redirect ==> net.revision.Observed?) {
      var revision := if action == Redirect then net.revision.revision else 0;
      NamedControlMints(o, target, action, text, revision, next);
      var named := NameControl(o, target, action, text, revision, next);
      if named.failure.None? && named.s.control.Some? {
        SubmitControlMints(named, named.s.control.value, net.submit, net.third);
      }
    }
  }

  /** A control asked of one job never becomes a control of another, whatever the reload shows active; and
      while the same control is unresolved nothing new is minted. */
  lemma ControlStaysOnTarget(o: Out, action: Action, text: string, valid: bool, target: nat, next: ID, net: ControlNet)
    ensures var done := Control(o, action, text, valid, Some(target), next, net);
            && MintsFor(o, done, target, action, text)
            && (o.s.control.Some? && o.s.control.value.action == action && o.s.control.value.text == text ==> MintsNothing(o, done))
  {
    ReloadMints(o, net.first);
    var reloaded := DoReload(o, net.first);
    if valid && reloaded.failure.None? {
      if o.s.control.Some? && o.s.control.value.action == action && o.s.control.value.text == text {
        ReplayControlMints(reloaded, o.s.control.value, net.replay, net.second);
      } else {
        NewControlMints(reloaded, action, text, target, next, net);
      }
    }
  }

  lemma AcknowledgeMints(o: Out, r: Resolution)
    ensures MintsNothing(o, Acknowledge(o, r))
  {
    ForgetMints(o);
  }

  lemma ResolvedMints(o: Out, r: Resolution, reload: Reload)
    ensures var reloaded := DoReload(o, reload);
            MintsNothing(o, if reloaded.failure.Some? then reloaded else Acknowledge(reloaded, r))
  {
    ReloadMints(o, reload);
    AcknowledgeMints(DoReload(o, reload), r);
  }

  lemma ResolveMints(o: Out, net: InterruptNet)
    ensures MintsNothing(o, Resolve(o, net).0)
  {
    var (sent, resolution) := ResolvePending(o, net.resolve);
    ResolvePendingMints(o, net.resolve);
    if sent.failure.None? {
      ResolvedMints(sent, resolution, net.reload);
    } else if Definitive(sent.failure.value) {
      ReleaseMints(sent);
      ResolvedMints(Release(sent), NoneResolved, net.reload);
    }
  }

  lemma ReleaseMints(o: Out)
    ensures MintsNothing(o, Release(o))
  {
    var start := o.(failure := None);
    ForgetMints(start);
    ForgetMints(ForgetTurn(start));
    ForgetMints(ForgetControl(ForgetTurn(start)));
  }

  lemma ResolvePendingMints(o: Out, reply: Reply)
    ensures MintsNothing(o, ResolvePending(o, reply).0)
  {
    if PendingOf(o.s).Some? {
      SendMints(o, PendingOf(o.s).value, reply);
      if o.s.plan.Some? {
        SendMints(o, OfPlan(o.s.plan.value), reply);
        ForgetMints(ReplayPlan(o, o.s.plan.value, reply));
      }
    }
  }

  lemma AfterInterruptMints(o: Out, target: nat, again: Reload)
    ensures MintsNothing(o, AfterInterrupt(o, target, again))
  {
    ReloadMints(o.(failure := None), again);
    ForgetMints(DoReload(o.(failure := None), again));
  }

  /** A Ctrl-C mints at most an interrupt of the job that is active once everything else is resolved; none if
      that job waits, if there is none, if the resolved operation belonged to another job, or if it was
      itself an interrupt or a cancellation. */
  lemma InterruptOnlyTheResolvedJob(o: Out, error: Failure, next: ID, net: InterruptNet)
    requires Tracked(o) && o.failure.None? && Unseen(o.s, next) && NewTo(net.reload, next)
    ensures var done := ResolveError(o, error, next, net);
            var (resolved, resolution) := Resolve(o, net);
            || MintsNothing(o, done)
            || (&& error == Interrupted && resolved.failure.None? && resolved.s.active.Some? && !resolved.s.active.value.waiting
                && (resolution.NoneResolved? || resolution.jobID == resolved.s.active.value.id)
                && !(resolution.ControlResolved? && resolution.action != Redirect)
                && MintsFor(o, done, resolved.s.active.value.id, Interrupt, CTRL_C))
  {
    ResolveMints(o, net);
    ResolveKeeps(o, net, next);
    var (resolved, resolution) := Resolve(o, net);
    if error == Interrupted && resolved.failure.None? && resolved.s.active.Some? {
      var target := resolved.s.active.value.id;
      ControlStaysOnTarget(resolved, Interrupt, CTRL_C, true, target, next, net.control);
      AfterInterruptMints(Control(resolved, Interrupt, CTRL_C, true, Some(target), next, net.control), target, net.again);
    }
  }
}
