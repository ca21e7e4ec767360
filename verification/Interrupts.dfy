/** What a Ctrl-C does: exactly when it interrupts the active job. */
module Interrupts {
  import opened Basics
  import opened Operations
  import opened OperationRuns
  import opened OperationOutcomes
  import opened OperationResults

  /** What was pending, if its resending settled it, is a matter of this job, and no interrupt or cancellation. */
  predicate Concerns(s: Session, reply: Reply, job: nat) {
    || PendingOf(s).None? || reply.Failed?
    || match PendingOf(s).value
       case OfTurn(_) => reply.receipt.jobID == job
       case OfControl(c) => c.jobID == job && c.action == Redirect
       case OfPlan(p) => p.jobID == job
  }

  /** Whether the Ctrl-C is to interrupt the job that the reload shows: it is active and not waiting, what was
      pending is resolved and concerns it, and the interrupt's own reload still shows it active. */
  predicate InterruptGoes(s: Session, error: Failure, net: InterruptNet) {
    && error == Interrupted && Resolvable(s, net) && net.reload.snapshot.active.Some?
    && var known, job := net.reload.snapshot, net.reload.snapshot.active.value;
       && !job.waiting && Concerns(s, net.resolve, job.id)
       && Good(known.turns, known.controls, None, net.control.first)
       && net.control.first.snapshot.active.Some? && net.control.first.snapshot.active.value.id == job.id
  }

  /** The interrupt of a job, under the new identity. */
  function InterruptOf(job: nat, next: ID): Pending {
    OfControl(PendingControl(job, Interrupt, "User interrupted the active objective from omni chat.", next, 0))
  }

  /** A resolution says whose operation was resolved. */
  lemma ResolutionIs(o: Out, net: InterruptNet, job: nat)
    requires Tracked(o) && o.failure.None? && Resolve(o, net).0.failure.None?
    ensures var r := Resolve(o, net).1;
            Concerns(o.s, net.resolve, job) <==> (r.NoneResolved? || r.jobID == job) && !(r.ControlResolved? && r.action != Redirect)
  {
  }

  /** A control asked of a job with nothing pending. */
  lemma AskedOfJob(o: Out, target: nat, next: ID, net: ControlNet)
    requires Tracked(o) && o.failure.None? && PendingOf(o.s).None? && Unseen(o.s, next) && NewTo(net.first, next)
    ensures var done := Control(o, Interrupt, CTRL_C, true, Some(target), next, net);
            var reloaded := DoReload(o, net.first);
            if reloaded.failure.None? && reloaded.s.active.Some? && reloaded.s.active.value.id == target
            then SendsOnce(o, done, InterruptOf(target, next), net.submit)
            else MintsNothing(o, done)
  {
    ReloadMints(o, net.first);
    ReloadAddsNothing(o, net.first);
    var reloaded := DoReload(o, net.first);
    if reloaded.failure.None? && reloaded.s.active.Some? && reloaded.s.active.value.id == target {
      NewIsSent(reloaded, target, next, net);
    }
  }

  /** Exactly one operation is minted, and sent at once. */
  ghost predicate SendsOnce(o: Out, done: Out, p: Pending, reply: Reply) {
    Mintings(done.log) == Mintings(o.log) + [p] && exists k :: SentAt(done.log, k, p, reply)
  }

  predicate SentAt(log: seq<Note>, k: int, p: Pending, reply: Reply) {
    0 <= k < |log| - 1 && log[k] == Minted(p) && log[k + 1] == Sent(p, reply)
  }

  lemma NewIsSent(o: Out, target: nat, next: ID, net: ControlNet)
    requires o.failure.None? && PendingOf(o.s).None? && o.s.active.Some? && o.s.active.value.id == target
    ensures SendsOnce(o, NewControl(o, Interrupt, CTRL_C, Some(target), next, net), InterruptOf(target, next), net.submit)
  {
    var p := PendingControl(target, Interrupt, CTRL_C, next, 0);
    var named := NameControl(o, target, Interrupt, CTRL_C, 0, next);
    MintAppend(o.log, Minted(OfControl(p)));
    SubmitControlMints(named, p, net.submit, net.third);
    SubmitGrows(named, p, net.submit, net.third);
    var done := NewControl(o, Interrupt, CTRL_C, Some(target), next, net);
    assert done == SubmitControl(named, p, net.submit, net.third);
    assert SentAt(done.log, |o.log|, OfControl(p), net.submit);
  }

  lemma SubmitGrows(o: Out, pending: PendingControl, submit: Reply, reload: Reload)
    ensures o.log + [Sent(OfControl(pending), submit)] <= SubmitControl(o, pending, submit, reload).log
  {
  }

  lemma AfterInterruptGrows(o: Out, target: nat, again: Reload)
    ensures o.log <= AfterInterrupt(o, target, again).log
  {
  }

  /** A Ctrl-C that is to interrupt the job mints and sends exactly one interrupt of it. Otherwise it mints nothing. */
  lemma InterruptsIff(o: Out, error: Failure, next: ID, net: InterruptNet)
    requires Tracked(o) && o.failure.None? && Unseen(o.s, next) && NewTo(net.reload, next) && NewTo(net.control.first, next)
    ensures if InterruptGoes(o.s, error, net)
            then SendsOnce(o, ResolveError(o, error, next, net), InterruptOf(net.reload.snapshot.active.value.id, next), net.control.submit)
            else MintsNothing(o, ResolveError(o, error, next, net))
  {
    var (resolved, resolution) := Resolve(o, net);
    ResolveMints(o, net);
    ResolveKeeps(o, net, next);
    ResolveSucceedsIff(o, net);
    if error == Interrupted && resolved.failure.None? {
      ResolvedKnows(o, net);
      ReloadSucceedsIff(resolved, net.control.first);
      if resolved.s.active.Some? {
        ResolutionIs(o, net, resolved.s.active.value.id);
        AimedOrNot(resolved, resolution, next, net);
      }
    }
  }

  /** The Ctrl-C goes to the active job unless it waits or something of another job, or a control of its own, was resolved. */
  lemma AimedOrNot(o: Out, resolution: Resolution, next: ID, net: InterruptNet)
    requires Tracked(o) && o.failure.None? && PendingOf(o.s).None? && o.s.active.Some?
    requires Unseen(o.s, next) && NewTo(net.control.first, next)
    ensures var job := o.s.active.value;
            var again := DoReload(o, net.control.first);
            if && !job.waiting
               && (resolution.NoneResolved? || resolution.jobID == job.id) && !(resolution.ControlResolved? && resolution.action != Redirect)
               && again.failure.None? && again.s.active.Some? && again.s.active.value.id == job.id
            then SendsOnce(o, InterruptActive(o, resolution, next, net), InterruptOf(job.id, next), net.control.submit)
            else MintsNothing(o, InterruptActive(o, resolution, next, net))
  {
    var target := o.s.active.value.id;
    AskedOfJob(o, target, next, net.control);
    var asked := Control(o, Interrupt, CTRL_C, true, Some(target), next, net.control);
    AfterInterruptMints(asked, target, net.again);
    AfterInterruptGrows(asked, target, net.again);
    if SendsOnce(o, asked, InterruptOf(target, next), net.control.submit) {
      StaysSent(o, asked, AfterInterrupt(asked, target, net.again), InterruptOf(target, next), net.control.submit);
    }
  }

  lemma StaysSent(o: Out, sent: Out, done: Out, p: Pending, reply: Reply)
    requires SendsOnce(o, sent, p, reply) && sent.log <= done.log && Mintings(done.log) == Mintings(sent.log)
    ensures SendsOnce(o, done, p, reply)
  {
    var k :| SentAt(sent.log, k, p, reply);
    assert SentAt(done.log, k, p, reply);
  }

  /** A rejected interrupt ends well exactly when the job is then found waiting: nothing was left to interrupt. */
  lemma RejectedInterruptIff(o: Out, target: nat, again: Reload)
    requires Tracked(o) && o.failure.Some?
    ensures var done := AfterInterrupt(o, target, again);
            done.failure == if && (o.failure == Some(Http(400)) || o.failure == Some(Http(409)))
                               && Good(o.s.turns, o.s.controls, PendingOf(o.s), again)
                               && again.snapshot.active.Some? && again.snapshot.active.value.id == target && again.snapshot.active.value.waiting
                            then None else o.failure
  {
    ReloadSucceedsIff(o.(failure := None), again);
  }
}
