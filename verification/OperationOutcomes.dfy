/** What an operation leaves behind: what was pending is given up only with proof of what became of it, and an
    operation that ends well leaves nothing of itself pending.
 */
module OperationOutcomes {
  import opened Basics
  import opened Operations
  import opened OperationRuns

  // ----- Custody ----------------------------------------------------------------------------------

  /** Since the `n`-th note an operation was released, after a proof of what became of it. */
  ghost predicate ReleasedSince(log: seq<Note>, n: nat, p: Pending) {
    exists m, k :: ReleaseAt(log, n, p, m, k)
  }

  predicate ReleaseAt(log: seq<Note>, n: nat, p: Pending, m: int, k: int) {
    n <= k < |log| && 0 <= m < k && log[k] == Forgot(p) && Proof(log[m], p)
  }

  /** The track has an operation open. */
  predicate Holds(t: Track, p: Pending) {
    t.open && t.last == Some(p)
  }

  /** What is open stays open until it is released with a proof. */
  lemma {:induction false} HeldUntilReleased(log: seq<Note>, n: nat, p: Pending)
    requires n <= |log| && Audit(log).ok && Holds(Audit(log[..n]), p)
    ensures Holds(Audit(log), p) || ReleasedSince(log, n, p)
  {
    if n == |log| {
      assert log[..n] == log;
    } else {
      var front := log[..|log| - 1];
      assert front[..n] == log[..n];
      HeldUntilReleased(front, n, p);
      if Holds(Audit(front), p) {
        if log[|log| - 1].Forgot? {
          var i, m, k := Trace(front);
          assert ReleaseAt(log, n, p, m, |log| - 1);
        }
      } else {
        var m, k :| ReleaseAt(front, n, p, m, k);
        assert ReleaseAt(log, n, p, m, k);
      }
    }
  }

  /** From one state to a later one nothing pending is given up without proof. */
  ghost predicate Custody(before: Out, after: Out) {
    && before.log <= after.log
    && (PendingOf(before.s).Some? && PendingOf(after.s) != PendingOf(before.s) ==> ReleasedSince(after.log, |before.log|, PendingOf(before.s).value))
  }

  lemma CustodyKept(before: Out, after: Out)
    requires Tracked(before) && Tracked(after) && before.log <= after.log
    ensures Custody(before, after)
  {
    if PendingOf(before.s).Some? {
      assert after.log[..|before.log|] == before.log;
      HeldUntilReleased(after.log, |before.log|, PendingOf(before.s).value);
    }
  }

  // ----- What ends an operation -------------------------------------------------------------------

  /** The records know the operation's identity, as it was asked for or otherwise. */
  predicate Recorded(turns: map<ID, TurnRecord>, controls: map<ID, ControlRecord>, p: Pending) {
    match p
    case OfTurn(t) => t.id in turns
    case OfControl(c) => c.id in controls
    case OfPlan(_) => false
  }

  /** Reconciling resolves exactly what the records show as asked for, and fails exactly on what they show
      otherwise. */
  lemma ReconciledIff(o: Out)
    requires Tracked(o) && o.failure.None?
    ensures var p, done := PendingOf(o.s), ReconcilePersisted(o);
            && (done.failure.Some? <==> p.Some? && Recorded(o.s.turns, o.s.controls, p.value) && !Shows(o.s.turns, o.s.controls, p.value))
            && PendingOf(done.s) == (if p.Some? && Shows(o.s.turns, o.s.controls, p.value) then None else p)
            && done.s.turns == o.s.turns && done.s.controls == o.s.controls && done.s.active == o.s.active
  {
  }

  /** A reload that ends well knows the snapshot and leaves nothing pending that it shows. */
  lemma LoadedKnows(o: Out, reload: Reload)
    requires Tracked(o) && o.failure.None? && DoReload(o, reload).failure.None?
    ensures reload.Loaded?
    ensures var after := DoReload(o, reload).s;
            && after.turns == reload.snapshot.turns && after.controls == reload.snapshot.controls && after.active == reload.snapshot.active
            && (PendingOf(after).Some? ==> PendingOf(after) == PendingOf(o.s) && !Recorded(after.turns, after.controls, PendingOf(after).value))
  {
    var snapshot := reload.snapshot;
    MergeKeeps(o, snapshot);
    ReconciledIff(Observe(Merge(o, snapshot), snapshot.active));
  }

  lemma ReloadAddsNothing(o: Out, reload: Reload)
    ensures var after := DoReload(o, reload).s;
            && (o.s.turn.None? ==> after.turn.None?) && (o.s.control.None? ==> after.control.None?) && (o.s.plan.None? ==> after.plan.None?)
  {
  }

  /** A control that ends well is no longer pending, and nothing else has become so. */
  lemma ControlClears(o: Out, action: Action, text: string, valid: bool, expected: Option<nat>, next: ID, net: ControlNet)
    requires o.failure.None?
    ensures var done := Control(o, action, text, valid, expected, next, net);
            done.failure.None? ==> done.s.control.None? && (o.s.turn.None? ==> done.s.turn.None?) && (o.s.plan.None? ==> done.s.plan.None?)
  {
    ReloadAddsNothing(o, net.first);
    var reloaded := DoReload(o, net.first);
    if valid && reloaded.failure.None? {
      if o.s.control.Some? && o.s.control.value.action == action && o.s.control.value.text == text {
        ReplayClears(reloaded, o.s.control.value, net.replay, net.second);
      } else {
        NewControlClears(reloaded, action, text, expected, next, net);
      }
    }
  }

  lemma AwaitClears(o: Out, id: ID, reload: Reload)
    ensures var done := AwaitControl(o, id, reload);
            done.failure.None? ==> done.s.control.None? && id in done.s.controls
                                   && (o.s.turn.None? ==> done.s.turn.None?) && (o.s.plan.None? ==> done.s.plan.None?)
  {
    ReloadAddsNothing(o, reload);
  }

  lemma ReplayClears(o: Out, pending: PendingControl, replay: Reply, reload: Reload)
    requires o.failure.None?
    ensures var done := ReplayControl(o, pending, replay, reload);
            done.failure.None? ==> done.s.control.None? && pending.id in done.s.controls
                                   && (o.s.turn.None? ==> done.s.turn.None?) && (o.s.plan.None? ==> done.s.plan.None?)
  {
    AwaitClears(Sends(o, OfControl(pending), replay), pending.id, reload);
  }

  lemma NewControlClears(o: Out, action: Action, text: string, expected: Option<nat>, next: ID, net: ControlNet)
    requires o.failure.None?
    ensures var done := NewControl(o, action, text, expected, next, net);
            done.failure.None? ==> done.s.control.None? && (o.s.turn.None? ==> done.s.turn.None?) && (o.s.plan.None? ==> done.s.plan.None?)
  {
    if o.s.active.Some? && (action == Redirect ==> net.revision.Observed?) {
      var revision := if action == Redirect then net.revision.revision else 0;
      var named := NameControl(o, o.s.active.value.id, action, text, revision, next);
      if named.failure.None? {
        AwaitClears(Sends(named, OfControl(named.s.control.value), net.submit), named.s.control.value.id, net.third);
      }
    }
  }

  /** An interrupt that is dealt with leaves nothing pending. */
  lemma ResolvedLeavesNothing(o: Out, error: Failure, next: ID, net: InterruptNet)
    requires Tracked(o) && o.failure.None? && Unseen(o.s, next) && NewTo(net.reload, next)
    ensures error == Interrupted && ResolveError(o, error, next, net).failure.None? ==> PendingOf(ResolveError(o, error, next, net).s).None?
  {
    ResolveKeeps(o, net, next);
    var (resolved, resolution) := Resolve(o, net);
    if error == Interrupted && resolved.failure.None? && resolved.s.active.Some? {
      var target := resolved.s.active.value.id;
      ControlClears(resolved, Interrupt, CTRL_C, true, Some(target), next, net.control);
      AfterInterruptClears(Control(resolved, Interrupt, CTRL_C, true, Some(target), next, net.control), target, net.again);
      ControlAddsNoOther(resolved, Interrupt, CTRL_C, true, Some(target), next, net.control);
    }
  }

  /** A control, well ended or not, leaves no turn or plan change pending that was not. */
  lemma ControlAddsNoOther(o: Out, action: Action, text: string, valid: bool, expected: Option<nat>, next: ID, net: ControlNet)
    requires o.s.turn.None? && o.s.plan.None? && o.s.control.None?
    ensures var done := Control(o, action, text, valid, expected, next, net).s; done.turn.None? && done.plan.None?
  {
    ReloadAddsNothing(o, net.first);
    NewControlAddsNoOther(DoReload(o, net.first), action, text, expected, next, net);
  }

  lemma NewControlAddsNoOther(o: Out, action: Action, text: string, expected: Option<nat>, next: ID, net: ControlNet)
    requires o.s.turn.None? && o.s.plan.None?
    ensures var done := NewControl(o, action, text, expected, next, net).s; done.turn.None? && done.plan.None?
  {
    if o.s.active.Some? && (action == Redirect ==> net.revision.Observed?) {
      var revision := if action == Redirect then net.revision.revision else 0;
      var named := NameControl(o, o.s.active.value.id, action, text, revision, next);
      if named.s.control.Some? {
        SubmitAddsNoOther(named, named.s.control.value, net.submit, net.third);
      }
    }
  }

  lemma SubmitAddsNoOther(o: Out, pending: PendingControl, submit: Reply, reload: Reload)
    requires o.s.turn.None? && o.s.plan.None?
    ensures var done := SubmitControl(o, pending, submit, reload).s; done.turn.None? && done.plan.None?
  {
    ReloadAddsNothing(Sends(o, OfControl(pending), submit), reload);
  }

  lemma AfterInterruptClears(o: Out, target: nat, again: Reload)
    requires o.failure.None? ==> o.s.control.None?
    ensures var done := AfterInterrupt(o, target, again);
            && (done.failure.None? ==> done.s.control.None?)
            && (o.s.turn.None? ==> done.s.turn.None?) && (o.s.plan.None? ==> done.s.plan.None?)
  {
    ReloadAddsNothing(o.(failure := None), again);
  }

  /** A turn left pending is the one that was, or the one that was named. */
  lemma TurnLeftPending(o: Out, text: string, valid: bool, next: ID, reply: Reply, reload: Reload)
    requires o.failure.None?
    ensures var done := AcceptText(o, text, valid, next, reply, reload);
            done.s.turn.Some? ==> done.s.turn.value.id == if o.s.turn.Some? then o.s.turn.value.id else next
  {
    var named := NameTurn(o, text, valid, next);
    if named.failure.None? && named.s.turn.Some? {
      var sent := Sends(named, OfTurn(named.s.turn.value), reply);
      TurnKept(sent, reload);
    }
  }

  lemma TurnKept(o: Out, reload: Reload)
    ensures DoReload(o, reload).s.turn.None? || DoReload(o, reload).s.turn == o.s.turn
  {
  }

  /** The records show the operation as it was resolved. */
  predicate Acknowledged(turns: map<ID, TurnRecord>, controls: map<ID, ControlRecord>, r: Resolution) {
    match r
    case TurnResolved(id, jobID, queued, text) => id in turns && turns[id] == TurnRecord(text, jobID, turns[id].generation, queued)
    case ControlResolved(id, jobID, action, text) => id in controls && controls[id] == ControlRecord(jobID, action, text)
    case _ => true
  }

  /** A turn that ends well was the only operation, and one refused for another that is pending changes nothing. */
  lemma TurnAlone(o: Out, text: string, valid: bool, next: ID, reply: Reply, reload: Reload)
    requires Pendings(o.s) <= 1 && o.failure.None?
    ensures var done := AcceptText(o, text, valid, next, reply, reload);
            && (done.failure.None? ==> PendingOf(done.s).None?)
            && (PendingOf(o.s).Some? && !(o.s.turn.Some? && o.s.turn.value.text == text) ==> done.s == o.s && done.log == o.log)
  {
    var named := NameTurn(o, text, valid, next);
    if named.failure.None? && named.s.turn.Some? {
      ReloadAddsNothing(Sends(named, OfTurn(named.s.turn.value), reply), reload);
    }
  }

  /** A replay that ends well finds the control persisted, as it was asked for if it was still pending. */
  lemma ReplayedIsPersisted(o: Out, pending: PendingControl, replay: Reply, reload: Reload)
    requires Tracked(o) && Audit(o.log).last == Some(OfControl(pending)) && Live(Audit(o.log)) && o.failure.None?
    ensures var done := ReplayControl(o, pending, replay, reload);
            && (done.failure.None? ==> done.s.control.None? && pending.id in done.s.controls)
            && (done.failure.None? && o.s.control == Some(pending) ==> ControlMatches(done.s.controls[pending.id], pending))
  {
    ReplayClears(o, pending, replay, reload);
    SendsKeeps(o, OfControl(pending), replay);
    var sent := Sends(o, OfControl(pending), replay);
    if DoReload(sent, reload).failure.None? {
      LoadedShows(sent, reload);
    }
  }

  lemma ResolvedKnows(o: Out, net: InterruptNet)
    requires Tracked(o) && o.failure.None? && Resolve(o, net).0.failure.None?
    ensures var s := Resolve(o, net).0.s;
            net.reload.Loaded? && Snapshot(s.turns, s.controls, s.active) == net.reload.snapshot
  {
    ResolvePendingKeeps(o, net.resolve);
    var (sent, resolution) := ResolvePending(o, net.resolve);
    if sent.failure.None? {
      LoadedKnows(sent, net.reload);
    } else {
      ReleaseKeeps(sent);
      LoadedKnows(Release(sent), net.reload);
    }
  }

  lemma ReconcileOutcome(o: Out, snapshot: Snapshot, done: Out)
    requires Tracked(o) && o.failure.None? && done == Reconcile(o, snapshot)
    ensures Tracked(done)
    ensures done.failure.None? ==> done.s.turns == snapshot.turns && done.s.controls == snapshot.controls && done.s.active == snapshot.active
    ensures done.failure.None? && PendingOf(done.s).Some?
            ==> PendingOf(done.s) == PendingOf(o.s) && !Recorded(done.s.turns, done.s.controls, PendingOf(done.s).value)
    ensures done.failure.Some? ==> PendingOf(done.s) == PendingOf(o.s)
  {
    ReconcileKeeps(o, snapshot);
    MergeKeeps(o, snapshot);
    ReconciledIff(Observe(Merge(o, snapshot), snapshot.active));
    if done.failure.None? {
      LoadedKnows(o, Loaded(snapshot, None));
    }
  }

  /** A plan change that ends well was answered for exactly; one left pending keeps its identity. */
  lemma PlanOutcome(o: Out, change: PlanChange, jobID: nat, generation: nat, revision: nat, next: ID, reply: Reply, reload: Reload, done: Out)
    requires Tracked(o) && o.failure.None? && done == MutatePlan(o, change, jobID, generation, revision, next, reply, reload)
    ensures Tracked(done)
    ensures done.failure.None? ==> reply.Ok? && reply.receipt.exact && PendingOf(done.s).None?
    ensures done.failure.None? && change == Freeze
            ==> reload.Loaded? && done.s.turns == reload.snapshot.turns && done.s.controls == reload.snapshot.controls && done.s.active == reload.snapshot.active
    ensures done.s.plan.Some? && done.(failure := None) != o
            ==> done.s.plan.value == PendingPlan(change, jobID, generation, revision, if o.s.plan.Some? then o.s.plan.value.id else next)
  {
    MutatePlanKeeps(o, change, jobID, generation, revision, next, reply, reload);
    NamedPlanKeeps(o, change, jobID, generation, revision, next);
    var named := NamePlan(o, change, jobID, generation, revision, next);
    if named.failure.None? {
      SubmitPlanKeeps(named, named.s.plan.value, reply);
      var sent := SubmitPlan(named, named.s.plan.value, reply);
      SentPlan(named, named.s.plan.value, reply, sent);
      if sent.failure.None? && change == Freeze {
        ReloadAddsNothing(sent, reload);
        if DoReload(sent, reload).failure.None? {
          LoadedKnows(sent, reload);
        }
      }
    }
  }

  lemma SentPlan(o: Out, pending: PendingPlan, reply: Reply, sent: Out)
    requires Tracked(o) && o.failure.None? && o.s.plan == Some(pending) && sent == SubmitPlan(o, pending, reply)
    ensures sent.failure.None? ==> reply.Ok? && reply.receipt.exact && PendingOf(sent.s).None?
    ensures sent.s.plan.None? || sent.s.plan == o.s.plan
  {
  }

  lemma ReplayOutcome(o: Out, pending: PendingControl, replay: Reply, reload: Reload, done: Out)
    requires Tracked(o) && Audit(o.log).last == Some(OfControl(pending)) && Live(Audit(o.log)) && o.failure.None? && done == ReplayControl(o, pending, replay, reload)
    ensures Tracked(done) && MintsNothing(o, done)
    ensures done.failure.None? ==> done.s.control.None? && pending.id in done.s.controls
    ensures done.failure.None? && o.s.control == Some(pending) ==> ControlMatches(done.s.controls[pending.id], pending)
  {
    ReplayedIsPersisted(o, pending, replay, reload);
    ReplayControlKeeps(o, pending, replay, reload);
    ReplayControlMints(o, pending, replay, reload);
  }

  /** What is pending is sent once, under its own identity, and nothing else is. */
  lemma ResolvePendingOutcome(o: Out, reply: Reply, done: Out, r: Resolution)
    requires Tracked(o) && o.failure.None? && (done, r) == ResolvePending(o, reply)
    ensures Tracked(done)
    ensures PendingOf(o.s).None? ==> done == o && r.NoneResolved?
    ensures PendingOf(o.s).Some?
            ==> var p := PendingOf(o.s).value;
                var sent := o.log + [Sent(p, reply)];
                && done.log == (if PendingOf(done.s) == Some(p) then sent else sent + [Forgot(p)])
                && (done.failure.None? <==> reply.Ok? && Settles(p, reply))
    ensures done.failure.None? ==> Warranted(done, r)
    ensures done.failure.Some? && Definitive(done.failure.value) ==> Audit(done.log).proven
    ensures PendingOf(done.s) == if done.failure.None? && o.s.plan.Some? then None else PendingOf(o.s)
  {
    ResolvePendingKeeps(o, reply);
  }

  /** A decision whose answer the session does not take for settled stays pending, and while it does a freeze is
      refused and not sent. */
  lemma UnsettledDecisionBlocksFreeze(o: Out, pending: PendingPlan, reply: Reply, jobID: nat, generation: nat, revision: nat, next: ID, again: Reply, reload: Reload)
    requires o.s.plan == Some(pending) && pending.change.Decision? && o.failure.None? && reply.Ok? && !reply.receipt.exact
    ensures var sent := SubmitPlan(o, pending, reply);
            var after := sent.(failure := None);
            && sent.failure.Some? && after.s == o.s
            && MutatePlan(after, Freeze, jobID, generation, revision, next, again, reload) == Fails(after, Local)
  {
  }
}
