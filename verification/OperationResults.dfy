/** When the session's operations end well, and what each sends: the exact conditions, in terms of the replies and snapshots. */
module OperationResults {
  import opened Basics
  import opened Operations
  import opened OperationRuns
  import opened OperationOutcomes

  /** The record under the operation's identity, if there is one, is of that operation. */
  predicate Fits(turns: map<ID, TurnRecord>, controls: map<ID, ControlRecord>, p: Pending) {
    match p
    case OfTurn(t) => t.id in turns ==>
      && turns[t.id].text == t.text
      && (t.job.Some? ==> turns[t.id].queued && turns[t.id].jobID == t.job.value.0 && turns[t.id].generation == t.job.value.1)
    case OfControl(c) => c.id in controls ==> controls[c.id] == ControlRecord(c.jobID, c.action, c.text)
    case OfPlan(_) => true
  }

  /** The snapshot arrives, is displayed, and with what was known before contradicts nothing that is pending. */
  predicate Good(turns: map<ID, TurnRecord>, controls: map<ID, ControlRecord>, p: Option<Pending>, reload: Reload) {
    && reload.Loaded? && reload.after.None?
    && (p.Some? ==> Fits(turns + reload.snapshot.turns, controls + reload.snapshot.controls, p.value))
  }

  /** What is still pending after the snapshot. */
  function Left(s: Session, reload: Reload): Option<Pending> {
    if PendingOf(s).Some? && reload.Loaded? && Recorded(s.turns + reload.snapshot.turns, s.controls + reload.snapshot.controls, PendingOf(s).value)
    then None else PendingOf(s)
  }

  lemma ReloadSucceedsIff(o: Out, reload: Reload)
    requires Tracked(o) && o.failure.None?
    ensures DoReload(o, reload).failure.None? <==> Good(o.s.turns, o.s.controls, PendingOf(o.s), reload)
    ensures Good(o.s.turns, o.s.controls, PendingOf(o.s), reload)
            ==> var s := DoReload(o, reload).s;
                PendingOf(s) == Left(o.s, reload) && s.turns == reload.snapshot.turns && s.controls == reload.snapshot.controls && s.active == reload.snapshot.active
  {
    if reload.Loaded? {
      var merged := Observe(Merge(o, reload.snapshot), reload.snapshot.active);
      ReconciledIff(merged);
    }
  }

  // ----- Turns ------------------------------------------------------------------------------------

  /** A turn for the active job if that is running, else for a new one. */
  function TurnFor(s: Session, text: string, next: ID): PendingTurn {
    if s.turn.Some? then s.turn.value
    else if s.active.Some? && s.active.value.running then PendingTurn(text, next, Some((s.active.value.id, s.active.value.generation)))
    else PendingTurn(text, next, None)
  }

  /** Whether the turn is sent: nothing else is pending. */
  predicate TurnGoes(s: Session, text: string, valid: bool) {
    valid && (PendingOf(s).None? || (s.turn.Some? && s.turn.value.text == text))
  }

  /** A turn is sent exactly when it is valid and nothing else is pending, newly minted for the running job or
      resent as it was. It ends well exactly when it is accepted and the snapshot after it has it as asked. */
  lemma TurnSucceedsIff(o: Out, text: string, valid: bool, next: ID, reply: Reply, reload: Reload)
    requires Tracked(o) && o.failure.None? && Unseen(o.s, next)
    ensures var done, turn := AcceptText(o, text, valid, next, reply, reload), TurnFor(o.s, text, next);
            && (done.failure.None? <==> TurnGoes(o.s, text, valid) && reply.Ok? && Good(o.s.turns, o.s.controls, Some(OfTurn(turn)), reload) && turn.id in reload.snapshot.turns)
            && if TurnGoes(o.s, text, valid)
               then Sending(o, o.s.turn.None?, OfTurn(turn), reply) <= done.log
               else done == Fails(o, Local)
  {
    NamedTurnFor(o, text, valid, next);
    if TurnGoes(o.s, text, valid) {
      var named := NameTurn(o, text, valid, next);
      NamedTurnKeeps(o, text, valid, next);
      TurnSubmitted(named, named.s.turn.value, reply, reload);
    }
  }

  lemma NamedTurnFor(o: Out, text: string, valid: bool, next: ID)
    requires Pendings(o.s) <= 1 && o.failure.None?
    ensures var named, turn := NameTurn(o, text, valid, next), TurnFor(o.s, text, next);
            if TurnGoes(o.s, text, valid)
            then && named.s == o.s.(turn := Some(turn)) && named.failure.None?
                 && named.log == if o.s.turn.None? then o.log + [Minted(OfTurn(turn))] else o.log
            else named == Fails(o, Local)
  {
  }

  /** The log once an operation is sent, newly minted or not. */
  function Sending(o: Out, minted: bool, p: Pending, reply: Reply): seq<Note> {
    if minted then (o.log + [Minted(p)]) + [Sent(p, reply)] else o.log + [Sent(p, reply)]
  }

  lemma TurnSubmitted(o: Out, turn: PendingTurn, reply: Reply, reload: Reload)
    requires Tracked(o) && o.failure.None? && o.s.turn == Some(turn)
    ensures var done := SubmitTurn(o, turn, reply, reload);
            && (done.failure.None? <==> reply.Ok? && Good(o.s.turns, o.s.controls, Some(OfTurn(turn)), reload) && turn.id in reload.snapshot.turns)
            && o.log + [Sent(OfTurn(turn), reply)] <= done.log
  {
    var sent := Sends(o, OfTurn(turn), reply);
    SendsKeeps(o, OfTurn(turn), reply);
    ReloadSucceedsIff(sent, reload);
    Growing(sent, reload);
  }

  lemma Growing(o: Out, reload: Reload)
    ensures o.log <= DoReload(o, reload).log <= ForgetTurn(DoReload(o, reload)).log
    ensures DoReload(o, reload).log <= ForgetControl(DoReload(o, reload)).log
  {
  }

  /** The server says that it has not committed: a bad request, nothing found, a conflict, or too large. */
  predicate Uncommitted(f: Failure) {
    f == Http(400) || f == Http(404) || f == Http(409) || f == Http(413)
  }

  /** A failed turn stays pending as it was sent, unless the server has said that it did not commit it. */
  lemma TurnReleasedIff(o: Out, text: string, valid: bool, next: ID, failure: Failure, reload: Reload)
    requires o.failure.None? && TurnGoes(o.s, text, valid) && Pendings(o.s) <= 1
    ensures var done := AcceptText(o, text, valid, next, Failed(failure), reload);
            && done.failure == Some(failure)
            && done.s.turn == if Uncommitted(failure) then None else Some(TurnFor(o.s, text, next))
  {
    NamedTurnFor(o, text, valid, next);
    var named, turn := NameTurn(o, text, valid, next), TurnFor(o.s, text, next);
    assert AcceptText(o, text, valid, next, Failed(failure), reload) == SubmitTurn(named, turn, Failed(failure), reload);
  }

  // ----- Controls ---------------------------------------------------------------------------------

  lemma AwaitSucceedsIff(o: Out, id: ID, reload: Reload)
    requires Tracked(o) && o.failure.None?
    ensures var done := AwaitControl(o, id, reload);
            && (done.failure.None? <==> Good(o.s.turns, o.s.controls, PendingOf(o.s), reload) && id in reload.snapshot.controls)
            && o.log <= done.log
  {
    ReloadSucceedsIff(o, reload);
    Growing(o, reload);
  }

  /** The control of the active job, against the plan revision that was observed for a redirect. */
  function ControlFor(job: Job, action: Action, text: string, next: ID, net: ControlNet): PendingControl {
    PendingControl(job.id, action, text, next, if action == Redirect && net.revision.Observed? then net.revision.revision else 0)
  }

  /** Whether a control is sent: nothing is pending, the job asked for is active, and a redirect knows its revision. */
  predicate ControlGoes(pending: Option<Pending>, active: Option<Job>, action: Action, expected: Option<nat>, net: ControlNet) {
    && pending.None? && active.Some? && (expected.Some? ==> active.value.id == expected.value)
    && (action == Redirect ==> net.revision.Observed?)
  }

  predicate NewEndsWell(known: Snapshot, c: PendingControl, net: ControlNet) {
    && net.submit.Ok? && net.submit.receipt.jobID == c.jobID
    && Good(known.turns, known.controls, Some(OfControl(c)), net.third) && c.id in net.third.snapshot.controls
  }

  lemma NewControlSucceedsIff(o: Out, action: Action, text: string, expected: Option<nat>, next: ID, net: ControlNet)
    requires Tracked(o) && o.failure.None? && Unseen(o.s, next)
    requires o.s.control.Some? ==> o.s.control.value.action != action || o.s.control.value.text != text
    ensures var done := NewControl(o, action, text, expected, next, net);
            if ControlGoes(PendingOf(o.s), o.s.active, action, expected, net)
            then var c := ControlFor(o.s.active.value, action, text, next, net);
                 && (done.failure.None? <==> NewEndsWell(Snapshot(o.s.turns, o.s.controls, o.s.active), c, net))
                 && Sending(o, true, OfControl(c), net.submit) <= done.log
            else done.failure.Some? && done.s == o.s && done.log == o.log
  {
    if ControlGoes(PendingOf(o.s), o.s.active, action, expected, net) {
      var c := ControlFor(o.s.active.value, action, text, next, net);
      var named := NameControl(o, c.jobID, action, text, c.revision, next);
      NamedControlKeeps(o, c.jobID, action, text, c.revision, next);
      assert named == o.(s := o.s.(control := Some(c)), log := o.log + [Minted(OfControl(c))]);
      assert NewControl(o, action, text, expected, next, net) == SubmitControl(named, c, net.submit, net.third);
      ControlSubmitted(named, c, net.submit, net.third);
    }
  }

  lemma ControlSubmitted(o: Out, c: PendingControl, submit: Reply, reload: Reload)
    requires Tracked(o) && o.failure.None? && o.s.control == Some(c)
    ensures var done := SubmitControl(o, c, submit, reload);
            && (done.failure.None? <==> && submit.Ok? && submit.receipt.jobID == c.jobID
                                        && Good(o.s.turns, o.s.controls, Some(OfControl(c)), reload) && c.id in reload.snapshot.controls)
            && o.log + [Sent(OfControl(c), submit)] <= done.log
  {
    SendsKeeps(o, OfControl(c), submit);
    AwaitSucceedsIff(Sends(o, OfControl(c), submit), c.id, reload);
  }

  /** Asked for again: found in the first snapshot, or resent and found in the second. */
  predicate AgainEndsWell(known: Snapshot, left: Option<Pending>, c: PendingControl, net: ControlNet) {
    || c.id in known.controls
    || (&& net.replay.Ok? && net.replay.receipt.jobID == c.jobID
        && Good(known.turns, known.controls, left, net.second) && c.id in net.second.snapshot.controls)
  }

  lemma AgainSucceedsIff(o: Out, c: PendingControl, net: ControlNet)
    requires Tracked(o) && o.failure.None? && Audit(o.log).last == Some(OfControl(c)) && Live(Audit(o.log))
    requires c.id in o.s.controls ==> o.s.controls[c.id] == ControlRecord(c.jobID, c.action, c.text)
    ensures var done := ReplayControl(o, c, net.replay, net.second);
            && (done.failure.None? <==> AgainEndsWell(Snapshot(o.s.turns, o.s.controls, o.s.active), PendingOf(o.s), c, net))
            && (c.id !in o.s.controls ==> o.log + [Sent(OfControl(c), net.replay)] <= done.log)
  {
    if c.id !in o.s.controls {
      SendsKeeps(o, OfControl(c), net.replay);
      AwaitSucceedsIff(Sends(o, OfControl(c), net.replay), c.id, net.second);
    }
  }

  predicate SameControl(s: Session, action: Action, text: string) {
    s.control.Some? && s.control.value.action == action && s.control.value.text == text
  }

  /** A control ends well exactly when it is valid, the first snapshot is good, and then: asked for again, it is found
      or resent and found; asked for anew, it goes, is accepted for its job and found. What goes is sent. */
  lemma ControlSucceedsIff(o: Out, action: Action, text: string, valid: bool, expected: Option<nat>, next: ID, net: ControlNet)
    requires Tracked(o) && o.failure.None? && Unseen(o.s, next) && NewTo(net.first, next)
    ensures var done := Control(o, action, text, valid, expected, next, net);
            if !valid || !Good(o.s.turns, o.s.controls, PendingOf(o.s), net.first)
            then done == if valid then DoReload(o, net.first) else Fails(o, Local)
            else var known, left, reloaded := net.first.snapshot, Left(o.s, net.first), DoReload(o, net.first);
                 if SameControl(o.s, action, text)
                 then var c := o.s.control.value;
                      && (done.failure.None? <==> AgainEndsWell(known, left, c, net))
                      && (c.id !in known.controls ==> reloaded.log + [Sent(OfControl(c), net.replay)] <= done.log)
                 else if ControlGoes(left, known.active, action, expected, net)
                 then var c := ControlFor(known.active.value, action, text, next, net);
                      && (done.failure.None? <==> NewEndsWell(known, c, net))
                      && Sending(reloaded, true, OfControl(c), net.submit) <= done.log
                 else done.failure.Some? && done.s == reloaded.s && done.log == reloaded.log
  {
    ReloadSucceedsIff(o, net.first);
    ReloadKeeps(o, net.first);
    ReloadShowsNoNew(o, net.first, next);
    var reloaded := DoReload(o, net.first);
    if valid && reloaded.failure.None? {
      if SameControl(o.s, action, text) {
        AgainSucceedsIff(reloaded, o.s.control.value, net);
      } else {
        NewControlSucceedsIff(reloaded, action, text, expected, next, net);
      }
    }
  }

  /** A new control that fails at the server stays pending as it was sent, unless the server did not commit it. */
  lemma ControlReleasedIff(o: Out, action: Action, text: string, expected: Option<nat>, next: ID, net: ControlNet, failure: Failure)
    requires o.failure.None? && Pendings(o.s) == 0 && ControlGoes(None, o.s.active, action, expected, net) && net.submit == Failed(failure)
    ensures var done, c := NewControl(o, action, text, expected, next, net), ControlFor(o.s.active.value, action, text, next, net);
            done.failure == Some(failure) && done.s.control == if Uncommitted(failure) then None else Some(c)
  {
    var c := ControlFor(o.s.active.value, action, text, next, net);
    var named := NameControl(o, c.jobID, action, text, c.revision, next);
    assert named.s.control == Some(c) && named.failure.None?;
    assert NewControl(o, action, text, expected, next, net) == SubmitControl(named, c, net.submit, net.third);
  }

  // ----- Plan changes -----------------------------------------------------------------------------

  /** Whether a plan change is sent: nothing else is pending. */
  predicate PlanGoes(s: Session, p: PendingPlan) {
    PendingOf(s).None? || PendingOf(s) == Some(OfPlan(p))
  }

  function PlanFor(s: Session, change: PlanChange, jobID: nat, generation: nat, revision: nat, next: ID): PendingPlan {
    PendingPlan(change, jobID, generation, revision, if s.plan.Some? then s.plan.value.id else next)
  }

  /** A plan change is sent exactly when nothing else is pending. It ends well exactly when it is answered for
      exactly and, if it is the freeze, the reload after it is good. A failed one stays pending, unless the
      server did not commit it. */
  lemma PlanSucceedsIff(o: Out, change: PlanChange, jobID: nat, generation: nat, revision: nat, next: ID, reply: Reply, reload: Reload)
    requires Tracked(o) && o.failure.None?
    ensures var done := MutatePlan(o, change, jobID, generation, revision, next, reply, reload);
            var p := PlanFor(o.s, change, jobID, generation, revision, next);
            if PlanGoes(o.s, p)
            then && (done.failure.None? <==> reply.Ok? && reply.receipt.exact && (change == Freeze ==> Good(o.s.turns, o.s.controls, None, reload)))
                 && Sending(o, o.s.plan.None?, OfPlan(p), reply) <= done.log
                 && (reply.Failed? || !reply.receipt.exact ==> done.s.plan == if reply.Failed? && Uncommitted(reply.failure) then None else Some(p))
            else done == Fails(o, Local)
  {
    var p := PlanFor(o.s, change, jobID, generation, revision, next);
    if PlanGoes(o.s, p) {
      var named := NamePlan(o, change, jobID, generation, revision, next);
      assert named.s == o.s.(plan := Some(p)) && named.failure.None?;
      NamedPlanKeeps(o, change, jobID, generation, revision, next);
      PlanSubmitted(named, p, change, reply, reload);
    }
  }

  lemma PlanSubmitted(o: Out, p: PendingPlan, change: PlanChange, reply: Reply, reload: Reload)
    requires Tracked(o) && o.failure.None? && o.s.plan == Some(p)
    ensures var done := SendPlan(o, change, reply, reload);
            && (done.failure.None? <==> reply.Ok? && reply.receipt.exact && (change == Freeze ==> Good(o.s.turns, o.s.controls, None, reload)))
            && o.log + [Sent(OfPlan(p), reply)] <= done.log
            && (reply.Failed? || !reply.receipt.exact ==> done.s.plan == if reply.Failed? && Uncommitted(reply.failure) then None else Some(p))
  {
    SubmitPlanKeeps(o, p, reply);
    var sent := SubmitPlan(o, p, reply);
    if sent.failure.None? && change == Freeze {
      ReloadSucceedsIff(sent, reload);
      Growing(sent, reload);
    }
  }

  // ----- Resolving --------------------------------------------------------------------------------

  /** The resent operation was answered for, and the snapshot has it so. */
  predicate ShownResolved(p: Pending, reply: Reply, known: Snapshot)
    requires reply.Ok?
  {
    match p
    case OfTurn(t) =>
      && t.id in known.turns && known.turns[t.id].text == t.text
      && known.turns[t.id].jobID == reply.receipt.jobID && known.turns[t.id].queued == reply.receipt.queued
    case OfControl(c) => reply.receipt.jobID == c.jobID && c.id in known.controls
    case OfPlan(_) => reply.receipt.exact
  }

  /** What is pending was not committed, or is answered for and shown so, and the reload is good. */
  predicate Resolvable(s: Session, net: InterruptNet) {
    var p := PendingOf(s);
    if p.Some? && net.resolve.Ok?
    then Good(s.turns, s.controls, p, net.reload) && ShownResolved(p.value, net.resolve, net.reload.snapshot)
    else (p.Some? ==> Uncommitted(net.resolve.failure)) && Good(s.turns, s.controls, None, net.reload)
  }

  lemma ResolveSucceedsIff(o: Out, net: InterruptNet)
    requires Tracked(o) && o.failure.None?
    ensures Resolve(o, net).0.failure.None? <==> Resolvable(o.s, net)
  {
    if PendingOf(o.s).Some? && net.resolve.Ok? {
      AnsweredSucceedsIff(o, PendingOf(o.s).value, net);
    } else {
      ResolvePendingKeeps(o, net.resolve);
      var sent := ResolvePending(o, net.resolve).0;
      if sent.failure.None? {
        ReloadSucceedsIff(sent, net.reload);
      } else if Definitive(sent.failure.value) {
        ReleaseKeeps(sent);
        ReloadSucceedsIff(Release(sent), net.reload);
      }
    }
  }

  lemma AnsweredSucceedsIff(o: Out, p: Pending, net: InterruptNet)
    requires Tracked(o) && o.failure.None? && PendingOf(o.s) == Some(p) && net.resolve.Ok?
    ensures Resolve(o, net).0.failure.None?
            <==> Good(o.s.turns, o.s.controls, Some(p), net.reload) && ShownResolved(p, net.resolve, net.reload.snapshot)
  {
    ResolvePendingKeeps(o, net.resolve);
    var sent := ResolvePending(o, net.resolve).0;
    if sent.failure.None? {
      ReloadSucceedsIff(sent, net.reload);
    }
  }
}
