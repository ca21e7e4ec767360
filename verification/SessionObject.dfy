/** The chat session that updates its pending operations and known records in place, step by step as the
    requests return. Every method keeps the session's log accountable, and says what its caller may rely on:
    when it fails, what is then still pending and under which identity, and what is known once it succeeds.
 */
module SessionObject {
  import opened Basics
  import opened Operations
  import opened OperationRuns
  import opened OperationOutcomes
  import opened OperationResults
  import opened Interrupts

  class ChatSession {
    var turn: Option<PendingTurn>
    var control: Option<PendingControl>
    var plan: Option<PendingPlan>
    var turns: map<ID, TurnRecord>
    var controls: map<ID, ControlRecord>
    var active: Option<Job>
    ghost var log: seq<Note>

    /** The session as a value, after an operation that ended with `failure`. */
    ghost function Value(failure: Option<Failure>): Out
      reads this
    {
      Out(Session(turn, control, plan, turns, controls, active), log, failure)
    }

    /** At most one operation is pending; it is the last one minted, was sent only as it was minted, and no
        other was given up without proof. */
    ghost predicate Valid()
      reads this
    {
      Tracked(Value(None))
    }

    ghost function Pending(): Option<Pending>
      reads this
    {
      PendingOf(Value(None).s)
    }

    ghost predicate Known(snapshot: Snapshot)
      reads this
    {
      turns == snapshot.turns && controls == snapshot.controls && active == snapshot.active
    }

    /** What is still pending was so before, and the records do not know it. */
    ghost predicate Unanswered(was: Option<Pending>)
      reads this
    {
      Pending().Some? ==> Pending() == was && !Recorded(turns, controls, Pending().value)
    }

    /** The new identity is one that no snapshot has shown. */
    ghost predicate Fresh(next: ID)
      reads this
    {
      Unseen(Value(None).s, next)
    }

    constructor ()
      ensures Valid() && Pending().None?
      ensures Value(None) == EMPTY
    {
      turn, control, plan := None, None, None;
      turns, controls, active := map[], map[], None;
      log := [];
    }

    // ----- Forgetting -----------------------------------------------------------------------------

    method DropTurn()
      requires Valid() && (turn.Some? ==> Audit(log).proven)
      modifies this`turn, this`log
      ensures Valid() && old(log) <= log
      ensures forall f :: Value(f) == ForgetTurn(old(Value(f)))
    {
      ForgetTurnKeeps(Value(None));
      log := if turn.Some? then log + [Forgot(OfTurn(turn.value))] else log;
      turn := None;
    }

    method DropControl()
      requires Valid() && (control.Some? ==> Audit(log).proven)
      modifies this`control, this`log
      ensures Valid() && old(log) <= log
      ensures forall f :: Value(f) == ForgetControl(old(Value(f)))
    {
      ForgetControlKeeps(Value(None));
      log := if control.Some? then log + [Forgot(OfControl(control.value))] else log;
      control := None;
    }

    method DropPlan()
      requires Valid() && (plan.Some? ==> Audit(log).proven)
      modifies this`plan, this`log
      ensures Valid() && old(log) <= log
      ensures forall f :: Value(f) == ForgetPlan(old(Value(f)))
    {
      ForgetPlanKeeps(Value(None));
      log := if plan.Some? then log + [Forgot(OfPlan(plan.value))] else log;
      plan := None;
    }

    // ----- Sending --------------------------------------------------------------------------------

    /** Only the last operation minted is ever sent, and only as it was minted. */
    method Transmit(ghost p: Pending, reply: Reply)
      requires Valid() && Audit(log).last == Some(p) && Live(Audit(log))
      modifies this`log
      ensures Valid() && Audit(log).last == Some(p) && Live(Audit(log))
      ensures Audit(log).proven == (old(Audit(log).proven) || Settles(p, reply))
      ensures log == old(log) + [Sent(p, reply)]
    {
      SendsKeeps(Value(None), p, reply);
      log := log + [Sent(p, reply)];
    }

    // ----- Snapshots ------------------------------------------------------------------------------

    method PendingOperationCount() returns (count: nat)
      ensures count == Pendings(Value(None).s)
      ensures Valid() ==> count <= 1 && (count == 0 <==> Pending().None?)
    {
      count := 0;
      if turn.Some? {
        count := count + 1;
      }
      if control.Some? {
        count := count + 1;
      }
      if plan.Some? {
        count := count + 1;
      }
    }

    /** Fails exactly when the records show what is pending otherwise than it was asked for, and then changes
        nothing; releases it exactly when they show it as it was asked for. */
    method ReconcilePersistedPending() returns (failure: Option<Failure>)
      requires Valid()
      modifies this`turn, this`control, this`log
      ensures Valid() && Custody(old(Value(None)), Value(None))
      ensures failure.Some? <==> old(Pending()).Some? && Recorded(turns, controls, old(Pending()).value) && !Shows(turns, controls, old(Pending()).value)
      ensures Pending() == if old(Pending()).Some? && Shows(turns, controls, old(Pending()).value) then None else old(Pending())
      ensures Value(failure) == ReconcilePersisted(old(Value(None)))
    {
      PersistedKeeps(Value(None));
      ReconciledIff(Value(None));
      failure := None;
      var count := PendingOperationCount();
      if count > 1 {
        return Some(Local);
      }
      if turn.Some? {
        if turn.value.id !in turns {
          return None;
        }
        if !TurnMatches(turns[turn.value.id], turn.value) {
          return Some(Local);
        }
        DropTurn();
        CustodyKept(old(Value(None)), Value(None));
      } else if control.Some? {
        if control.value.id !in controls {
          return None;
        }
        if !ControlMatches(controls[control.value.id], control.value) {
          return Some(Local);
        }
        DropControl();
        CustodyKept(old(Value(None)), Value(None));
      }
    }

    /** Entries are merged before they are checked. */
    method MergeSnapshot(snapshot: Snapshot)
      requires Valid()
      modifies this`turns, this`controls, this`log, this`active
      ensures Valid() && old(log) <= log
      ensures Value(None) == Observe(Merge(old(Value(None)), snapshot), snapshot.active)
    {
      MergeKeeps(Value(None), snapshot);
      turns := turns + snapshot.turns;
      controls := controls + snapshot.controls;
      log := log + [Saw(snapshot)];
      active := snapshot.active;
    }

    /** Success means that the session knows exactly the snapshot and that nothing it shows is still pending; on
        failure what was pending still is. */
    method ReconcileSnapshot(snapshot: Snapshot) returns (failure: Option<Failure>)
      requires Valid()
      modifies this
      ensures Valid() && Custody(old(Value(None)), Value(None))
      ensures failure.None? ==> Known(snapshot) && Unanswered(old(Pending()))
      ensures failure.Some? ==> Pending() == old(Pending())
      ensures Value(failure) == Reconcile(old(Value(None)), snapshot)
    {
      ghost var before := Value(None);
      MergeSnapshot(snapshot);
      failure := ReconcilePersistedPending();
      if failure.None? {
        turns := snapshot.turns;
        controls := snapshot.controls;
      }
      ReconcileOutcome(before, snapshot, Value(failure));
      CustodyKept(before, Value(None));
    }

    method ReloadSnapshot(reload: Reload) returns (failure: Option<Failure>)
      requires Valid()
      modifies this
      ensures Valid() && Custody(old(Value(None)), Value(None))
      ensures failure.None? ==> reload.Loaded? && Known(reload.snapshot) && Unanswered(old(Pending()))
      ensures reload.Unreachable? ==> failure == Some(reload.failure) && Value(None) == old(Value(None))
      ensures Value(failure) == DoReload(old(Value(None)), reload)
    {
      match reload
      case Unreachable(f) =>
        failure := Some(f);
      case Refused(snapshot) =>
        MergeKeeps(Value(None), snapshot);
        turns := turns + snapshot.turns;
        controls := controls + snapshot.controls;
        log := log + [Saw(snapshot)];
        failure := Some(Local);
        CustodyKept(old(Value(None)), Value(None));
      case Loaded(snapshot, after) =>
        failure := ReconcileSnapshot(snapshot);
        if failure.None? {
          failure := after;
        }
    }

    // ----- Turns ----------------------------------------------------------------------------------

    /** Refused exactly for an invalid text or while anything but this very text is pending, and then changes
        nothing. Otherwise the turn is pending under the identity it already had, or a new one. */
    method TurnOperationID(text: string, valid: bool, next: ID) returns (failure: Option<Failure>)
      requires Valid() && Fresh(next)
      modifies this`turn, this`log
      ensures Valid() && old(log) <= log
      ensures failure.None? <==> valid && (old(Pending()).None? || (old(turn).Some? && old(turn).value.text == text))
      ensures failure.None? ==> turn.Some? && turn.value.text == text && turn.value.id == if old(turn).Some? then old(turn).value.id else next
      ensures failure.Some? || old(turn).Some? ==> Value(None) == old(Value(None))
      ensures Value(failure) == NameTurn(old(Value(None)), text, valid, next)
    {
      NamedTurnKeeps(Value(None), text, valid, next);
      if !valid {
        return Some(Local);
      }
      if turn.Some? && turn.value.text == text {
        return None;
      }
      if turn.Some? || control.Some? || plan.Some? {
        return Some(Local);
      }
      turn := Some(PendingTurn(text, next, None));
      if active.Some? && active.value.running {
        turn := Some(turn.value.(job := Some((active.value.id, active.value.generation))));
      }
      log := log + [Minted(OfTurn(turn.value))];
      failure := None;
    }

    method SubmitPendingTurn(reply: Reply, reload: Reload) returns (failure: Option<Failure>)
      requires Valid() && turn.Some?
      modifies this
      ensures Valid() && old(log) <= log
      ensures Value(failure) == SubmitTurn(old(Value(None)), old(turn.value), reply, reload)
    {
      var id := turn.value.id;
      Transmit(OfTurn(turn.value), reply);
      if reply.Failed? {
        if Definitive(reply.failure) {
          DropTurn();
        }
        return Some(reply.failure);
      }
      ReloadKeeps(Value(None), reload);
      failure := ReloadSnapshot(reload);
      if failure.None? {
        if id !in turns {
          return Some(Local);
        }
        DropTurn();
      }
    }

    /** Success means that the turn is persisted under its one identity and nothing is pending; a turn that is
        left pending keeps that identity for the next attempt; one that is pending already is never replaced. */
    method Accept(text: string, valid: bool, next: ID, reply: Reply, reload: Reload) returns (failure: Option<Failure>)
      requires Valid() && Fresh(next)
      modifies this
      ensures Valid() && Custody(old(Value(None)), Value(None))
      ensures var id := if old(turn).Some? then old(turn).value.id else next;
              && (failure.None? ==> reply.Ok? && Pending().None? && id in turns && turns[id].text == text)
              && (turn.Some? ==> turn.value.id == id)
      ensures var s := old(Value(None).s);
              var sent := TurnFor(s, text, next);
              failure.None? <==> TurnGoes(s, text, valid) && reply.Ok? && Good(s.turns, s.controls, Some(OfTurn(sent)), reload) && sent.id in reload.snapshot.turns
      ensures old(Pending()).Some? && !(old(turn).Some? && old(turn).value.text == text) ==> Value(None) == old(Value(None))
      ensures Value(failure) == AcceptText(old(Value(None)), text, valid, next, reply, reload)
    {
      ghost var before := Value(None);
      AcceptedTurnIsPersisted(before, text, valid, next, reply, reload);
      TurnSucceedsIff(before, text, valid, next, reply, reload);
      TurnLeftPending(before, text, valid, next, reply, reload);
      failure := TurnOperationID(text, valid, next);
      if failure.None? {
        failure := SubmitPendingTurn(reply, reload);
      }
      CustodyKept(before, Value(None));
      TurnAlone(before, text, valid, next, reply, reload);
    }

    // ----- Controls -------------------------------------------------------------------------------

    /** Refused exactly while anything but this very control is pending, and then changes nothing. Otherwise the
        control is pending under the identity it already had, or a new one. One that was pending against
        another plan revision is no longer what was minted. */
    method ControlOperationID(jobID: nat, action: Action, text: string, revision: nat, next: ID) returns (failure: Option<Failure>)
      requires Valid() && Fresh(next)
      modifies this`control, this`log
      ensures old(log) <= log && Pendings(Value(None).s) <= 1
      ensures Valid() <==> (failure.None? && old(control).Some? ==> old(control).value.revision == revision)
      ensures failure.None? <==> old(Pending()).None? || (old(control).Some? && ControlMatches(ControlRecord(jobID, action, text), old(control).value))
      ensures failure.None? ==> control == Some(PendingControl(jobID, action, text, if old(control).Some? then old(control).value.id else next, revision))
      ensures failure.Some? ==> Value(None) == old(Value(None))
      ensures Value(failure) == NameControl(old(Value(None)), jobID, action, text, revision, next)
    {
      if control.None? {
        NamedControlKeeps(Value(None), jobID, action, text, revision, next);
      }
      if turn.Some? || plan.Some? {
        return Some(Local);
      }
      if control.Some? && control.value.jobID == jobID && control.value.action == action && control.value.text == text {
        control := Some(control.value.(revision := revision));
        return None;
      }
      if control.Some? {
        return Some(Local);
      }
      control := Some(PendingControl(jobID, action, text, next, revision));
      log := log + [Minted(OfControl(control.value))];
      failure := None;
    }

    method AwaitPersistedControl(id: ID, reload: Reload) returns (failure: Option<Failure>)
      requires Valid() && Audit(log).proven
      modifies this
      ensures Valid() && old(log) <= log
      ensures Value(failure) == AwaitControl(old(Value(None)), id, reload)
    {
      ReloadKeeps(Value(None), reload);
      failure := ReloadSnapshot(reload);
      if failure.None? {
        if id !in controls {
          return Some(Local);
        }
        DropControl();
      }
    }

    /** Success means that the control is persisted and no control is pending; if it was still pending it is
        persisted as it was asked for. Only this control is sent, and only under its identity. */
    method ReplayPendingControl(pending: PendingControl, replay: Reply, reload: Reload) returns (failure: Option<Failure>)
      requires Valid() && Audit(log).last == Some(OfControl(pending)) && Live(Audit(log))
      modifies this
      ensures Valid() && Custody(old(Value(None)), Value(None))
      ensures Mintings(log) == old(Mintings(log))
      ensures failure.None? ==> control.None? && pending.id in controls
      ensures failure.None? && old(control) == Some(pending) ==> ControlMatches(controls[pending.id], pending)
      ensures Value(failure) == ReplayControl(old(Value(None)), pending, replay, reload)
    {
      ghost var before := Value(None);
      if pending.id in controls {
        if !ControlMatches(controls[pending.id], pending) {
          failure := Some(Local);
        } else {
          DropControl();
          failure := None;
        }
      } else {
        Transmit(OfControl(pending), replay);
        if replay.Failed? {
          failure := Some(replay.failure);
        } else if replay.receipt.jobID != pending.jobID {
          failure := Some(Local);
        } else {
          failure := AwaitPersistedControl(pending.id, reload);
        }
      }
      ReplayOutcome(before, pending, replay, reload, Value(failure));
      CustodyKept(before, Value(None));
    }

    method SubmitNewControl(submit: Reply, reload: Reload) returns (failure: Option<Failure>)
      requires Valid() && control.Some?
      modifies this
      ensures Valid() && old(log) <= log
      ensures Value(failure) == SubmitControl(old(Value(None)), old(control.value), submit, reload)
    {
      var pending := control.value;
      Transmit(OfControl(pending), submit);
      if submit.Failed? {
        if Definitive(submit.failure) {
          DropControl();
        }
        return Some(submit.failure);
      }
      if submit.receipt.jobID != pending.jobID {
        return Some(Local);
      }
      failure := AwaitPersistedControl(pending.id, reload);
    }

    method ControlActive(action: Action, text: string, expected: Option<nat>, next: ID, net: ControlNet) returns (failure: Option<Failure>)
      requires Valid() && Fresh(next)
      requires control.Some? ==> control.value.action != action || control.value.text != text
      modifies this
      ensures Valid() && old(log) <= log
      ensures Value(failure) == NewControl(old(Value(None)), action, text, expected, next, net)
    {
      if active.None? {
        return Some(Local);
      }
      var jobID := active.value.id;
      if expected.Some? && jobID != expected.value {
        return Some(Local);
      }
      var revision := 0;
      if action == Redirect {
        if net.revision.Unknown? {
          return Some(net.revision.failure);
        }
        revision := net.revision.revision;
      }
      failure := ControlOperationID(jobID, action, text, revision, next);
      if failure.None? {
        failure := SubmitNewControl(net.submit, net.third);
      }
    }

    /** Success means that no control is pending. A control asked of one job is minted for that job only, and
        nothing is minted while the same control is unresolved. */
    method ControlJob(action: Action, text: string, valid: bool, expected: Option<nat>, next: ID, net: ControlNet)
      returns (failure: Option<Failure>)
      requires Valid() && Fresh(next) && NewTo(net.first, next)
      modifies this
      ensures Valid() && Custody(old(Value(None)), Value(None))
      ensures failure.None? ==> control.None? && (old(turn).None? ==> turn.None?) && (old(plan).None? ==> plan.None?)
      ensures expected.Some? ==> MintsFor(old(Value(None)), Value(failure), expected.value, action, text)
      ensures expected.Some? && old(control).Some? && old(control).value.action == action && old(control).value.text == text
              ==> Mintings(log) == old(Mintings(log))
      ensures Value(failure) == Control(old(Value(None)), action, text, valid, expected, next, net)
    {
      ghost var before := Value(None);
      ControlClears(before, action, text, valid, expected, next, net);
      if expected.Some? {
        ControlStaysOnTarget(before, action, text, valid, expected.value, next, net);
      }
      if !valid {
        return Some(Local);
      }
      var unresolved := control;
      ReloadKeeps(before, net.first);
      ReloadShowsNoNew(before, net.first, next);
      failure := ReloadSnapshot(net.first);
      if failure.Some? {
        return;
      }
      if unresolved.Some? && unresolved.value.action == action && unresolved.value.text == text {
        failure := ReplayPendingControl(unresolved.value, net.replay, net.second);
      } else {
        failure := ControlActive(action, text, expected, next, net);
      }
      CustodyKept(before, Value(None));
    }

    // ----- Plan mutations -------------------------------------------------------------------------

    /** Refused exactly while anything but this very change is pending, and then changes nothing. Otherwise the
        change is pending under the identity it already had, or a new one. */
    method PlanMutationOperation(change: PlanChange, jobID: nat, generation: nat, revision: nat, next: ID) returns (failure: Option<Failure>)
      requires Valid()
      modifies this`plan, this`log
      ensures Valid() && old(log) <= log
      ensures var id := if old(plan).Some? then old(plan).value.id else next;
              var asked := PendingPlan(change, jobID, generation, revision, id);
              && (failure.None? <==> old(Pending()).None? || old(plan) == Some(asked))
              && (failure.None? ==> plan == Some(asked))
      ensures failure.Some? || old(plan).Some? ==> Value(None) == old(Value(None))
      ensures Value(failure) == NamePlan(old(Value(None)), change, jobID, generation, revision, next)
    {
      NamedPlanKeeps(Value(None), change, jobID, generation, revision, next);
      if turn.Some? || control.Some? {
        return Some(Local);
      }
      if plan.Some? {
        var p := plan.value;
        if p.change == change && p.jobID == jobID && p.generation == generation && p.revision == revision {
          return None;
        }
        return Some(Local);
      }
      plan := Some(PendingPlan(change, jobID, generation, revision, next));
      log := log + [Minted(OfPlan(plan.value))];
      failure := None;
    }

    method ReplayPendingPlan(pending: PendingPlan, reply: Reply) returns (failure: Option<Failure>)
      requires Valid() && plan == Some(pending)
      modifies this`log
      ensures Valid() && log == old(log) + [Sent(OfPlan(pending), reply)]
      ensures failure.None? || Definitive(failure.value) ==> Audit(log).proven
      ensures Value(failure) == ReplayPlan(old(Value(None)), pending, reply)
    {
      Transmit(OfPlan(pending), reply);
      if reply.Failed? {
        return Some(reply.failure);
      }
      if !reply.receipt.exact {
        return Some(Local);
      }
      failure := None;
    }

    method SubmitPendingPlan(reply: Reply) returns (failure: Option<Failure>)
      requires Valid() && plan.Some?
      modifies this`plan, this`log
      ensures Valid() && old(log) <= log
      ensures Value(failure) == SubmitPlan(old(Value(None)), old(plan.value), reply)
    {
      failure := ReplayPendingPlan(plan.value, reply);
      if failure.None? || Definitive(failure.value) {
        DropPlan();
      }
    }

    method SendPlanChange(change: PlanChange, reply: Reply, reload: Reload) returns (failure: Option<Failure>)
      requires Valid() && plan.Some?
      modifies this
      ensures Valid() && old(log) <= log
      ensures Value(failure) == SendPlan(old(Value(None)), change, reply, reload)
    {
      failure := SubmitPendingPlan(reply);
      if failure.None? && change == Freeze {
        failure := ReloadSnapshot(reload);
      }
    }

    /** Success means that the server answered for exactly this change and nothing is pending, and for a freeze
        that the session is the reloaded one; a change left pending keeps its identity. */
    method PersistPlanChange(change: PlanChange, jobID: nat, generation: nat, revision: nat, next: ID, reply: Reply, reload: Reload)
      returns (failure: Option<Failure>)
      requires Valid()
      modifies this
      ensures Valid() && Custody(old(Value(None)), Value(None))
      ensures var id := if old(plan).Some? then old(plan).value.id else next;
              && (failure.None? ==> reply.Ok? && reply.receipt.exact && Pending().None?)
              && (plan.Some? && Value(None) != old(Value(None)) ==> plan == Some(PendingPlan(change, jobID, generation, revision, id)))
      ensures failure.None? && change == Freeze ==> reload.Loaded? && Known(reload.snapshot)
      ensures Value(failure) == MutatePlan(old(Value(None)), change, jobID, generation, revision, next, reply, reload)
    {
      ghost var before := Value(None);
      failure := PlanMutationOperation(change, jobID, generation, revision, next);
      if failure.None? {
        failure := SendPlanChange(change, reply, reload);
      }
      PlanOutcome(before, change, jobID, generation, revision, next, reply, reload, Value(failure));
      CustodyKept(before, Value(None));
    }

    // ----- Interrupts -----------------------------------------------------------------------------

    method ResendControl(reply: Reply) returns (failure: Option<Failure>, resolution: Resolution)
      requires Valid() && control.Some?
      modifies this`log
      ensures Valid() && old(log) <= log
      ensures (Value(failure), resolution) == ResolvePending(old(Value(None)), reply)
    {
      failure, resolution := None, NoneResolved;
      Transmit(OfControl(control.value), reply);
      if reply.Failed? {
        failure := Some(reply.failure);
      } else if reply.receipt.jobID != control.value.jobID {
        failure := Some(Local);
      } else {
        resolution := ControlResolved(control.value.id, control.value.jobID, control.value.action, control.value.text);
      }
    }

    method ResendPlan(reply: Reply) returns (failure: Option<Failure>, resolution: Resolution)
      requires Valid() && plan.Some?
      modifies this`plan, this`log
      ensures Valid() && old(log) <= log
      ensures (Value(failure), resolution) == ResolvePending(old(Value(None)), reply)
    {
      var p := plan.value;
      resolution := NoneResolved;
      failure := ReplayPendingPlan(p, reply);
      if failure.None? {
        DropPlan();
        resolution := PlanResolved(p.jobID);
      }
    }

    /** Sends what is pending, once and under its own identity, and nothing else; nothing if nothing is. A
        resolution is backed by proof, and only a plan change is released by the reply alone. */
    method ResolvePendingOperation(reply: Reply) returns (failure: Option<Failure>, resolution: Resolution)
      requires Valid()
      modifies this`plan, this`log
      ensures Valid() && Custody(old(Value(None)), Value(None))
      ensures old(Pending()).None? ==> failure.None? && resolution.NoneResolved? && Value(None) == old(Value(None))
      ensures old(Pending()).Some? ==> var sent := old(log) + [Sent(old(Pending()).value, reply)];
                                       log == if Pending() == old(Pending()) then sent else sent + [Forgot(old(Pending()).value)]
      ensures old(Pending()).Some? ==> (failure.None? <==> reply.Ok? && Settles(old(Pending()).value, reply))
      ensures failure.None? ==> Warranted(Value(None), resolution)
      ensures failure.Some? && Definitive(failure.value) ==> Audit(log).proven
      ensures Pending() == if failure.None? && old(plan).Some? then None else old(Pending())
      ensures (Value(failure), resolution) == ResolvePending(old(Value(None)), reply)
    {
      ghost var before := Value(None);
      failure, resolution := None, NoneResolved;
      var count := PendingOperationCount();
      if count > 1 {
        failure := Some(Local);
      } else if turn.Some? {
        Transmit(OfTurn(turn.value), reply);
        if reply.Failed? {
          failure := Some(reply.failure);
        } else {
          resolution := TurnResolved(turn.value.id, reply.receipt.jobID, reply.receipt.queued, turn.value.text);
        }
      } else if control.Some? {
        failure, resolution := ResendControl(reply);
      } else if plan.Some? {
        failure, resolution := ResendPlan(reply);
      }
      ResolvePendingOutcome(before, reply, Value(failure), resolution);
      CustodyKept(before, Value(None));
    }

    /** Ends well exactly when the records show the resolved operation as it was resolved, and then nothing is
        pending; otherwise nothing changes. */
    method AcknowledgeResolution(resolution: Resolution) returns (failure: Option<Failure>)
      requires Valid() && Warranted(Value(None), resolution)
      modifies this`turn, this`control, this`log
      ensures Valid() && Custody(old(Value(None)), Value(None))
      ensures failure.None? <==> Acknowledged(turns, controls, resolution)
      ensures failure.None? ==> Pending().None?
      ensures failure.Some? ==> Value(None) == old(Value(None))
      ensures Value(failure) == Acknowledge(old(Value(None)), resolution)
    {
      AcknowledgeKeeps(Value(None), resolution);
      failure := None;
      match resolution
      case TurnResolved(id, jobID, queued, text) =>
        if id !in turns || turns[id].jobID != jobID || turns[id].queued != queued || turns[id].text != text {
          return Some(Local);
        }
        DropTurn();
        CustodyKept(old(Value(None)), Value(None));
      case ControlResolved(id, jobID, action, text) =>
        if id !in controls || controls[id] != ControlRecord(jobID, action, text) {
          return Some(Local);
        }
        DropControl();
        CustodyKept(old(Value(None)), Value(None));
      case _ =>
    }

    method ReleaseRejected()
      requires Valid() && Audit(log).proven
      modifies this`turn, this`control, this`plan, this`log
      ensures Valid() && old(log) <= log && Pending().None?
      ensures Value(None) == Release(old(Value(None)))
    {
      ghost var before := Value(None);
      ForgetTurnKeeps(before);
      DropTurn();
      ForgetControlKeeps(Value(None));
      DropControl();
      DropPlan();
    }

    method ResolveInterrupted(net: InterruptNet, ghost next: ID) returns (failure: Option<Failure>, resolution: Resolution)
      requires Valid() && Fresh(next) && NewTo(net.reload, next)
      modifies this
      ensures Valid() && old(log) <= log && Fresh(next)
      ensures failure.None? ==> Pending().None?
      ensures (Value(failure), resolution) == Resolve(old(Value(None)), net)
    {
      ghost var before := Value(None);
      failure, resolution := ResolvePendingOperation(net.resolve);
      if failure.Some? {
        if !Definitive(failure.value) {
          resolution := NoneResolved;
          ResolveKeeps(before, net, next);
          return;
        }
        ReleaseRejected();
        resolution := NoneResolved;
      }
      ReloadKeeps(Value(None), net.reload);
      failure := ReloadSnapshot(net.reload);
      if failure.None? {
        failure := AcknowledgeResolution(resolution);
      }
      ResolveKeeps(before, net, next);
    }

    method AfterInterruptAttempt(failed: Option<Failure>, target: nat, again: Reload) returns (failure: Option<Failure>)
      requires Valid() && (failed.Some? && Definitive(failed.value) ==> Settled(Value(failed)))
      modifies this
      ensures Valid() && old(log) <= log
      ensures Value(failure) == AfterInterrupt(old(Value(failed)), target, again)
    {
      if failed.None? || (failed.value != Http(400) && failed.value != Http(409)) {
        return failed;
      }
      ReloadKeeps(Value(None), again);
      failure := ReloadSnapshot(again);
      if failure.None? && active.Some? && active.value.id == target && active.value.waiting {
        DropControl();
      } else {
        failure := failed;
      }
    }

    method InterruptActiveJob(resolution: Resolution, next: ID, net: InterruptNet) returns (failure: Option<Failure>)
      requires Valid() && Pending().None? && Fresh(next) && NewTo(net.control.first, next)
      modifies this
      ensures Valid() && old(log) <= log
      ensures Value(failure) == InterruptActive(old(Value(None)), resolution, next, net)
    {
      failure := None;
      if resolution.ControlResolved? && resolution.action != Redirect {
        return;
      }
      if active.None? || active.value.waiting {
        return;
      }
      var target := active.value.id;
      if !resolution.NoneResolved? && target != resolution.jobID {
        return;
      }
      var reason := CTRL_C;
      if control.Some? && control.value.action == Interrupt {
        reason := control.value.text;
      }
      ControlKeeps(Value(None), Interrupt, reason, true, Some(target), next, net.control);
      failure := ControlJob(Interrupt, reason, true, Some(target), next, net.control);
      failure := AfterInterruptAttempt(failure, target, net.again);
    }

    /** Only an interruption changes anything. Success then means that nothing is pending; what was pending is
        given up only with proof; and exactly one interrupt is minted and sent, or none, as the replies have it. */
    method ResolveOperationError(error: Failure, next: ID, net: InterruptNet) returns (failure: Option<Failure>)
      requires Valid() && Fresh(next) && NewTo(net.reload, next) && NewTo(net.control.first, next)
      modifies this
      ensures Valid() && Custody(old(Value(None)), Value(None))
      ensures error != Interrupted ==> failure.None? && Value(None) == old(Value(None))
      ensures error == Interrupted && failure.None? ==> Pending().None?
      ensures if old(InterruptGoes(Value(None).s, error, net))
              then SendsOnce(old(Value(None)), Value(failure), InterruptOf(net.reload.snapshot.active.value.id, next), net.control.submit)
              else MintsNothing(old(Value(None)), Value(failure))
      ensures Value(failure) == ResolveError(old(Value(None)), error, next, net)
    {
      ghost var before := Value(None);
      ResolvedLeavesNothing(before, error, next, net);
      InterruptsIff(before, error, next, net);
      failure := None;
      if error != Interrupted {
        return;
      }
      var resolution;
      failure, resolution := ResolveInterrupted(net, next);
      if failure.None? {
        failure := InterruptActiveJob(resolution, next, net);
      }
      CustodyKept(before, Value(None));
    }
  }
}
