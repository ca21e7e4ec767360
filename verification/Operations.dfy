/** The session's operations: a chat turn, a control of the active job, or a plan mutation, each under an
    operation identity that must survive lost replies.

    Every request's outcome is given, so a run may lose any reply, fail any reload and be interrupted at
    any request. Each operation also appends to a log of what it did with identities and what it was shown.
 */
module Operations {
  import opened Basics

  type ID = nat

  datatype Action = Interrupt | Redirect | Cancel

  datatype Failure = Local | Http(status: nat) | Transport | Interrupted | Terminated

  /** The statuses with which the server says that it has not committed. */
  predicate Definitive(f: Failure) {
    f.Http? && f.status in {400, 404, 409, 413}
  }

  datatype Job = Job(id: nat, generation: nat, running: bool, waiting: bool)

  datatype PendingTurn = PendingTurn(text: string, id: ID, job: Option<(nat, nat)>)
  datatype PendingControl = PendingControl(jobID: nat, action: Action, text: string, id: ID, revision: nat)
  datatype PlanChange = Decision(leaf: string, approved: bool) | Freeze
  datatype PendingPlan = PendingPlan(change: PlanChange, jobID: nat, generation: nat, revision: nat, id: ID)

  datatype Pending = OfTurn(turn: PendingTurn) | OfControl(control: PendingControl) | OfPlan(plan: PendingPlan)

  datatype TurnRecord = TurnRecord(text: string, jobID: nat, generation: nat, queued: bool)
  datatype ControlRecord = ControlRecord(jobID: nat, action: Action, text: string)

  datatype Session = Session(
    turn: Option<PendingTurn>, control: Option<PendingControl>, plan: Option<PendingPlan>,
    turns: map<ID, TurnRecord>, controls: map<ID, ControlRecord>, active: Option<Job>)

  datatype Snapshot = Snapshot(turns: map<ID, TurnRecord>, controls: map<ID, ControlRecord>, active: Option<Job>)

  /** A request's reply. `exact` says that a plan response matched the authority it answers. */
  datatype Receipt = Receipt(jobID: nat, queued: bool, exact: bool)
  datatype Reply = Ok(receipt: Receipt) | Failed(failure: Failure)

  /** A snapshot reload: the request fails, the snapshot is refused after a part of it was merged, or it is
      adopted and the display that follows may fail. */
  datatype Reload = Unreachable(failure: Failure) | Refused(snapshot: Snapshot) | Loaded(snapshot: Snapshot, after: Option<Failure>)

  /** What an operation did with an identity, and what it was shown. */
  datatype Note = Minted(pending: Pending) | Sent(pending: Pending, reply: Reply) | Saw(snapshot: Snapshot) | Forgot(pending: Pending)

  /** The session with its log so far, and how the last operation ended. */
  datatype Out = Out(s: Session, log: seq<Note>, failure: Option<Failure>)

  function Pendings(s: Session): nat {
    (if s.turn.Some? then 1 else 0) + (if s.control.Some? then 1 else 0) + (if s.plan.Some? then 1 else 0)
  }

  function ForgetTurn(o: Out): Out {
    if o.s.turn.None? then o else o.(s := o.s.(turn := None), log := o.log + [Forgot(OfTurn(o.s.turn.value))])
  }

  function ForgetControl(o: Out): Out {
    if o.s.control.None? then o else o.(s := o.s.(control := None), log := o.log + [Forgot(OfControl(o.s.control.value))])
  }

  function ForgetPlan(o: Out): Out {
    if o.s.plan.None? then o else o.(s := o.s.(plan := None), log := o.log + [Forgot(OfPlan(o.s.plan.value))])
  }

  function Fails(o: Out, f: Failure): Out {
    o.(failure := Some(f))
  }

  function Sends(o: Out, p: Pending, reply: Reply): Out {
    o.(log := o.log + [Sent(p, reply)])
  }

  // ----- Snapshots --------------------------------------------------------------------------------

  predicate TurnMatches(record: TurnRecord, pending: PendingTurn) {
    && record.text == pending.text
    && (pending.job.Some? ==> record.queued && (record.jobID, record.generation) == pending.job.value)
  }

  predicate ControlMatches(record: ControlRecord, pending: PendingControl) {
    record.jobID == pending.jobID && record.action == pending.action && record.text == pending.text
  }

  /** An unresolved operation found persisted is resolved, unless it was persisted differently. */
  function ReconcilePersisted(o: Out): Out {
    if Pendings(o.s) > 1 then Fails(o, Local)
    else if o.s.turn.Some? then
      var pending := o.s.turn.value;
      if pending.id !in o.s.turns then o
      else if !TurnMatches(o.s.turns[pending.id], pending) then Fails(o, Local)
      else ForgetTurn(o)
    else if o.s.control.Some? then
      var pending := o.s.control.value;
      if pending.id !in o.s.controls then o
      else if !ControlMatches(o.s.controls[pending.id], pending) then Fails(o, Local)
      else ForgetControl(o)
    else o
  }

  /** Entries are merged as they are read; the snapshot replaces what was known only at the end. */
  function Merge(o: Out, snapshot: Snapshot): Out {
    Out(o.s.(turns := o.s.turns + snapshot.turns, controls := o.s.controls + snapshot.controls),
        o.log + [Saw(snapshot)], o.failure)
  }

  function Adopt(o: Out, snapshot: Snapshot): Out {
    o.(s := o.s.(turns := snapshot.turns, controls := snapshot.controls))
  }

  function Observe(o: Out, active: Option<Job>): Out {
    o.(s := o.s.(active := active))
  }

  function Reconcile(o: Out, snapshot: Snapshot): Out {
    var checked := ReconcilePersisted(Observe(Merge(o, snapshot), snapshot.active));
    if checked.failure.Some? then checked else Adopt(checked, snapshot)
  }

  function DoReload(o: Out, reload: Reload): Out {
    match reload
    case Unreachable(f) => Fails(o, f)
    case Refused(snapshot) => Fails(Merge(o, snapshot), Local)
    case Loaded(snapshot, after) =>
      var next := Reconcile(o, snapshot);
      if next.failure.Some? || after.None? then next else Fails(next, after.value)
  }

  // ----- Turns ------------------------------------------------------------------------------------

  /** The identity for a turn: the unresolved one for the same text, a new one if nothing is unresolved. */
  function NameTurn(o: Out, text: string, valid: bool, next: ID): Out {
    if !valid then Fails(o, Local)
    else if o.s.turn.Some? && o.s.turn.value.text == text then o
    else if Pendings(o.s) > 0 then Fails(o, Local)
    else
      var job := if o.s.active.Some? && o.s.active.value.running then Some((o.s.active.value.id, o.s.active.value.generation)) else None;
      var pending := PendingTurn(text, next, job);
      o.(s := o.s.(turn := Some(pending)), log := o.log + [Minted(OfTurn(pending))])
  }

  function SubmitTurn(o: Out, pending: PendingTurn, reply: Reply, reload: Reload): Out {
    var sent := Sends(o, OfTurn(pending), reply);
    if reply.Failed? then
      Fails(if Definitive(reply.failure) then ForgetTurn(sent) else sent, reply.failure)
    else
      var reloaded := DoReload(sent, reload);
      if reloaded.failure.Some? then reloaded
      else if pending.id !in reloaded.s.turns then Fails(reloaded, Local)
      else ForgetTurn(reloaded)
  }

  function AcceptText(o: Out, text: string, valid: bool, next: ID, reply: Reply, reload: Reload): Out {
    var named := NameTurn(o, text, valid, next);
    if named.failure.Some? || named.s.turn.None? then named
    else SubmitTurn(named, named.s.turn.value, reply, reload)
  }

  // ----- Controls ---------------------------------------------------------------------------------

  /** The identity for a control. The plan revision it was asked against is recorded with it. */
  function NameControl(o: Out, jobID: nat, action: Action, text: string, revision: nat, next: ID): Out {
    var s := o.s;
    if s.turn.Some? || s.plan.Some? then Fails(o, Local)
    else if s.control.Some? && s.control.value.jobID == jobID && s.control.value.action == action && s.control.value.text == text
    then o.(s := s.(control := Some(s.control.value.(revision := revision))))
    else if s.control.Some? then Fails(o, Local)
    else
      var pending := PendingControl(jobID, action, text, next, revision);
      o.(s := s.(control := Some(pending)), log := o.log + [Minted(OfControl(pending))])
  }

  datatype Revision = Observed(revision: nat) | Unknown(failure: Failure)

  /** The outcomes of a control's requests, in the order they may be made. */
  datatype ControlNet = ControlNet(
    first: Reload, replay: Reply, second: Reload, revision: Revision, submit: Reply, third: Reload)

  /** A control that was accepted is over only when a later reload shows it. */
  function AwaitControl(o: Out, id: ID, reload: Reload): Out {
    var reloaded := DoReload(o, reload);
    if reloaded.failure.Some? then reloaded
    else if id !in reloaded.s.controls then Fails(reloaded, Local)
    else ForgetControl(reloaded)
  }

  /** The unresolved control is asked for again: look for it, else replay it under its identity. */
  function ReplayControl(o: Out, pending: PendingControl, replay: Reply, reload: Reload): Out {
    if pending.id in o.s.controls then
      if !ControlMatches(o.s.controls[pending.id], pending) then Fails(o, Local) else ForgetControl(o)
    else
      var sent := Sends(o, OfControl(pending), replay);
      if replay.Failed? then Fails(sent, replay.failure)
      else if replay.receipt.jobID != pending.jobID then Fails(sent, Local)
      else AwaitControl(sent, pending.id, reload)
  }

  function SubmitControl(o: Out, pending: PendingControl, submit: Reply, reload: Reload): Out {
    var sent := Sends(o, OfControl(pending), submit);
    if submit.Failed? then
      Fails(if Definitive(submit.failure) then ForgetControl(sent) else sent, submit.failure)
    else if submit.receipt.jobID != pending.jobID then Fails(sent, Local)
    else AwaitControl(sent, pending.id, reload)
  }

  /** A control for the job that the reload shows active. */
  function NewControl(o: Out, action: Action, text: string, expected: Option<nat>, next: ID, net: ControlNet): Out {
    if o.s.active.None? then Fails(o, Local)
    else
      var jobID := o.s.active.value.id;
      if expected.Some? && jobID != expected.value then Fails(o, Local)
      else if action == Redirect && net.revision.Unknown? then Fails(o, net.revision.failure)
      else
        var revision := if action == Redirect then net.revision.revision else 0;
        var named := NameControl(o, jobID, action, text, revision, next);
        if named.failure.Some? || named.s.control.None? then named
        else SubmitControl(named, named.s.control.value, net.submit, net.third)
  }

  function Control(o: Out, action: Action, text: string, valid: bool, expected: Option<nat>, next: ID, net: ControlNet): Out {
    if !valid then Fails(o, Local)
    else
      var unresolved := o.s.control;
      var reloaded := DoReload(o, net.first);
      if reloaded.failure.Some? then reloaded
      else if unresolved.Some? && unresolved.value.action == action && unresolved.value.text == text
      then ReplayControl(reloaded, unresolved.value, net.replay, net.second)
      else NewControl(reloaded, action, text, expected, next, net)
  }

  // ----- Plan mutations ---------------------------------------------------------------------------

  function NamePlan(o: Out, change: PlanChange, jobID: nat, generation: nat, revision: nat, next: ID): Out {
    if o.s.turn.Some? || o.s.control.Some? then Fails(o, Local)
    else if o.s.plan.Some? then
      if o.s.plan.value == PendingPlan(change, jobID, generation, revision, o.s.plan.value.id) then o else Fails(o, Local)
    else
      var pending := PendingPlan(change, jobID, generation, revision, next);
      o.(s := o.s.(plan := Some(pending)), log := o.log + [Minted(OfPlan(pending))])
  }

  /** Sends the pending plan mutation; a response that does not match it resolves nothing. */
  function ReplayPlan(o: Out, pending: PendingPlan, reply: Reply): Out {
    var sent := Sends(o, OfPlan(pending), reply);
    if reply.Failed? then Fails(sent, reply.failure)
    else if !reply.receipt.exact then Fails(sent, Local)
    else sent
  }

  function SubmitPlan(o: Out, pending: PendingPlan, reply: Reply): Out {
    var sent := ReplayPlan(o, pending, reply);
    if sent.failure.None? || Definitive(sent.failure.value) then ForgetPlan(sent) else sent
  }

  /** A decision on a leaf, or the freeze; a freeze reloads the session afterwards. */
  function MutatePlan(o: Out, change: PlanChange, jobID: nat, generation: nat, revision: nat, next: ID, reply: Reply, reload: Reload): Out {
    SendPlan(NamePlan(o, change, jobID, generation, revision, next), change, reply, reload)
  }

  function SendPlan(named: Out, change: PlanChange, reply: Reply, reload: Reload): Out {
    if named.failure.Some? || named.s.plan.None? then named
    else AfterPlan(SubmitPlan(named, named.s.plan.value, reply), change, reload)
  }

  function AfterPlan(o: Out, change: PlanChange, reload: Reload): Out {
    if o.failure.None? && change == Freeze then DoReload(o, reload) else o
  }

  // ----- Interrupts -------------------------------------------------------------------------------

  datatype Resolution = NoneResolved | TurnResolved(id: ID, jobID: nat, queued: bool, text: string)
                      | ControlResolved(id: ID, jobID: nat, action: Action, text: string) | PlanResolved(jobID: nat)

  /** Sends whatever is unresolved once more, under its own identity. */
  function ResolvePending(o: Out, reply: Reply): (Out, Resolution) {
    if Pendings(o.s) > 1 then (Fails(o, Local), NoneResolved)
    else if o.s.turn.Some? then
      var p := o.s.turn.value;
      var sent := Sends(o, OfTurn(p), reply);
      if reply.Failed? then (Fails(sent, reply.failure), NoneResolved)
      else (sent, TurnResolved(p.id, reply.receipt.jobID, reply.receipt.queued, p.text))
    else if o.s.control.Some? then
      var p := o.s.control.value;
      var sent := Sends(o, OfControl(p), reply);
      if reply.Failed? then (Fails(sent, reply.failure), NoneResolved)
      else if reply.receipt.jobID != p.jobID then (Fails(sent, Local), NoneResolved)
      else (sent, ControlResolved(p.id, p.jobID, p.action, p.text))
    else if o.s.plan.Some? then
      var p := o.s.plan.value;
      var sent := ReplayPlan(o, p, reply);
      if sent.failure.Some? then (sent, NoneResolved) else (ForgetPlan(sent), PlanResolved(p.jobID))
    else (o, NoneResolved)
  }

  /** Releases a resolved identity only if the reloaded state shows exactly that operation. */
  function Acknowledge(o: Out, resolution: Resolution): Out {
    match resolution
    case TurnResolved(id, jobID, queued, text) =>
      if id !in o.s.turns || o.s.turns[id].jobID != jobID || o.s.turns[id].queued != queued || o.s.turns[id].text != text
      then Fails(o, Local) else ForgetTurn(o)
    case ControlResolved(id, jobID, action, text) =>
      if id !in o.s.controls || o.s.controls[id] != ControlRecord(jobID, action, text)
      then Fails(o, Local) else ForgetControl(o)
    case _ => o
  }

  datatype InterruptNet = InterruptNet(resolve: Reply, reload: Reload, control: ControlNet, again: Reload)

  const CTRL_C := "User interrupted the active objective from omni chat."

  /** A definitive answer to the resent operation releases it. */
  function Release(o: Out): Out {
    ForgetPlan(ForgetControl(ForgetTurn(o.(failure := None))))
  }

  /** What was unresolved is sent once more, then the session is reloaded and shown to agree. */
  function Resolve(o: Out, net: InterruptNet): (Out, Resolution) {
    var (sent, resolution) := ResolvePending(o, net.resolve);
    if sent.failure.Some? && !Definitive(sent.failure.value) then (sent, NoneResolved)
    else
      var released := if sent.failure.Some? then Release(sent) else sent;
      var settled := if sent.failure.Some? then NoneResolved else resolution;
      var reloaded := DoReload(released, net.reload);
      if reloaded.failure.Some? then (reloaded, settled) else (Acknowledge(reloaded, settled), settled)
  }

  /** After an error. Only an interrupted request is resolved; the Ctrl-C then goes to the active job. */
  function ResolveError(o: Out, error: Failure, next: ID, net: InterruptNet): Out {
    if error != Interrupted then o
    else
      var (resolved, resolution) := Resolve(o, net);
      if resolved.failure.Some? then resolved else InterruptActive(resolved, resolution, next, net)
  }

  function InterruptActive(o: Out, resolution: Resolution, next: ID, net: InterruptNet): Out {
    if resolution.ControlResolved? && resolution.action != Redirect then o
    else if o.s.active.None? || o.s.active.value.waiting then o
    else if !resolution.NoneResolved? && o.s.active.value.id != resolution.jobID then o
    else
      var target := o.s.active.value.id;
      var reason := if o.s.control.Some? && o.s.control.value.action == Interrupt then o.s.control.value.text else CTRL_C;
      AfterInterrupt(Control(o, Interrupt, reason, true, Some(target), next, net.control), target, net.again)
  }

  /** The job may have begun waiting before the interrupt reached it. */
  function AfterInterrupt(o: Out, target: nat, again: Reload): Out {
    if o.failure.None? || (o.failure.value != Http(400) && o.failure.value != Http(409)) then o
    else
      var reloaded := DoReload(o.(failure := None), again);
      if reloaded.failure.None? && reloaded.s.active.Some? && reloaded.s.active.value.id == target && reloaded.s.active.value.waiting
      then ForgetControl(reloaded)
      else reloaded.(failure := o.failure)
  }
}
