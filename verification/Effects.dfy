/** What the session's requests do to a server that commits each identity once. Any reply may be lost: a
    request may be committed although the session is told nothing, or something else went wrong.
 */
module Effects {
  import opened Basics
  import opened Operations
  import opened OperationRuns
  import opened OperationOutcomes

  function IdentityOf(p: Pending): ID {
    match p
    case OfTurn(t) => t.id
    case OfControl(c) => c.id
    case OfPlan(m) => m.id
  }

  function Count(effects: seq<Pending>, id: ID): nat {
    if effects == [] then 0
    else Count(effects[..|effects| - 1], id) + if IdentityOf(effects[|effects| - 1]) == id then 1 else 0
  }

  lemma CountAppend(effects: seq<Pending>, p: Pending, id: ID)
    ensures Count(effects + [p], id) == Count(effects, id) + if IdentityOf(p) == id then 1 else 0
  {
    assert (effects + [p])[..|effects|] == effects;
  }

  // ----- The server -------------------------------------------------------------------------------

  /** What the server has committed after the log, in order. `landed` are the requests that reached it; one
      whose identity it has committed before changes nothing. */
  function Committed(log: seq<Note>, landed: set<nat>): seq<Pending> {
    if log == [] then []
    else
      var before, n := Committed(log[..|log| - 1], landed), log[|log| - 1];
      if n.Sent? && |log| - 1 in landed && Count(before, IdentityOf(n.pending)) == 0 then before + [n.pending] else before
  }

  function CommittedAt(log: seq<Note>, landed: set<nat>, j: nat): seq<Pending>
    requires j <= |log|
  {
    Committed(log[..j], landed)
  }

  /** What the session is told is so: an accepted request is committed, a definitively rejected one is not, and
      a snapshot shows one of the session's operations only if it is committed. */
  ghost predicate Honest(log: seq<Note>, landed: set<nat>) {
    forall j :: 0 <= j < |log| ==> HonestNote(log, landed, j)
  }

  ghost predicate HonestNote(log: seq<Note>, landed: set<nat>, j: nat)
    requires j < |log|
  {
    match log[j]
    case Sent(p, reply) => Settles(p, reply) ==> Count(CommittedAt(log, landed, j + 1), IdentityOf(p)) == if reply.Ok? then 1 else 0
    case Saw(snapshot) =>
      forall i :: 0 <= i < j && log[i].Minted? && Shows(snapshot.turns, snapshot.controls, log[i].pending)
                  ==> Count(CommittedAt(log, landed, j + 1), IdentityOf(log[i].pending)) == 1
    case _ => true
  }

  /** Identities are drawn at random, and none comes twice. */
  predicate Distinct(log: seq<Note>) {
    forall i, j :: 0 <= i < j < |log| && log[i].Minted? && log[j].Minted? ==> IdentityOf(log[i].pending) != IdentityOf(log[j].pending)
  }

  // ----- At most once -----------------------------------------------------------------------------

  lemma {:induction false} AtMostOnce(log: seq<Note>, landed: set<nat>, id: ID)
    ensures Count(Committed(log, landed), id) <= 1
  {
    if log != [] {
      var front := log[..|log| - 1];
      AtMostOnce(front, landed, id);
      if log[|log| - 1].Sent? {
        CountAppend(Committed(front, landed), log[|log| - 1].pending, id);
      }
    }
  }

  lemma {:induction false} CommittedGrows(log: seq<Note>, landed: set<nat>, j: nat, id: ID)
    requires j <= |log|
    ensures Count(CommittedAt(log, landed, j), id) <= Count(Committed(log, landed), id)
  {
    if j == |log| {
      assert log[..j] == log;
    } else {
      var front := log[..|log| - 1];
      assert front[..j] == log[..j];
      CommittedGrows(front, landed, j, id);
      if log[|log| - 1].Sent? {
        CountAppend(Committed(front, landed), log[|log| - 1].pending, id);
      }
    }
  }

  predicate MintedAt(log: seq<Note>, i: int, p: Pending) {
    0 <= i < |log| && log[i] == Minted(p)
  }

  lemma SentWasMinted(log: seq<Note>, j: nat) returns (i: int)
    requires Audit(log).ok && j < |log| && log[j].Sent?
    ensures Mints(log, i, j, log[j].pending)
  {
    OkStep(log, j);
    var m, k;
    i, m, k := TraceBefore(log, j);
  }

  /** Whatever is committed is an operation of the session, with the content it was minted with. */
  lemma {:induction false} CommittedAsMinted(log: seq<Note>, landed: set<nat>, e: nat) returns (i: int)
    requires Audit(log).ok && e < |Committed(log, landed)|
    ensures MintedAt(log, i, Committed(log, landed)[e])
  {
    var front := log[..|log| - 1];
    OkBefore(log, |log| - 1);
    if e < |Committed(front, landed)| {
      i := CommittedAsMinted(front, landed, e);
    } else {
      i := SentWasMinted(log, |log| - 1);
    }
  }

  lemma {:induction false} CountedIsThere(effects: seq<Pending>, id: ID) returns (e: nat)
    requires Count(effects, id) > 0
    ensures e < |effects| && IdentityOf(effects[e]) == id
  {
    e := |effects| - 1;
    if IdentityOf(effects[e]) != id {
      e := CountedIsThere(effects[..e], id);
    }
  }

  lemma MintedIsUnique(log: seq<Note>, i: int, j: int, p: Pending, q: Pending)
    requires Distinct(log) && MintedAt(log, i, p) && MintedAt(log, j, q) && IdentityOf(p) == IdentityOf(q)
    ensures i == j && p == q
  {
  }

  /** In every run, however requests and replies are lost, an operation is committed at most once, however often
      it was sent, and as it was asked for. */
  lemma CommittedAtMostOnce(acts: seq<Act>, log: seq<Note>, landed: set<nat>, i: nat)
    requires LogOf(acts, log) && Distinct(log) && i < |log| && log[i].Minted?
    ensures var id := IdentityOf(log[i].pending);
            && Count(Committed(log, landed), id) <= 1
            && forall e :: 0 <= e < |Committed(log, landed)| && IdentityOf(Committed(log, landed)[e]) == id ==> Committed(log, landed)[e] == log[i].pending
  {
    LogIsOk(acts, log);
    AtMostOnce(log, landed, IdentityOf(log[i].pending));
    forall e | 0 <= e < |Committed(log, landed)| && IdentityOf(Committed(log, landed)[e]) == IdentityOf(log[i].pending)
      ensures Committed(log, landed)[e] == log[i].pending
    {
      var k := CommittedAsMinted(log, landed, e);
      MintedIsUnique(log, i, k, log[i].pending, Committed(log, landed)[e]);
    }
  }

  // ----- Exactly once -----------------------------------------------------------------------------

  /** A note that shows the operation done. */
  predicate Done(n: Note, p: Pending) {
    Proof(n, p) && (n.Sent? ==> n.reply.Ok?)
  }

  /** An operation once shown done is committed exactly once, at the end of the run as well. */
  lemma DoneIsCommittedOnce(log: seq<Note>, landed: set<nat>, i: nat, m: nat)
    requires Honest(log, landed) && i < m < |log| && log[i].Minted? && Done(log[m], log[i].pending)
    ensures Count(Committed(log, landed), IdentityOf(log[i].pending)) == 1
  {
    var id := IdentityOf(log[i].pending);
    DoneIsCommitted(log, landed, i, m);
    CommittedGrows(log, landed, m + 1, id);
    AtMostOnce(log, landed, id);
  }

  lemma DoneIsCommitted(log: seq<Note>, landed: set<nat>, i: nat, m: nat)
    requires Honest(log, landed) && i < m < |log| && log[i].Minted? && Done(log[m], log[i].pending)
    ensures Count(CommittedAt(log, landed, m + 1), IdentityOf(log[i].pending)) == 1
  {
    assert HonestNote(log, landed, m);
  }

  /** Once released, and until something else is minted, an operation stays resolved. */
  lemma {:induction false} StaysResolved(log: seq<Note>, j: nat, k: nat)
    requires j < k <= |log| && log[j].Forgot? && forall h :: j < h < k ==> !log[h].Minted?
    ensures !Audit(log[..k]).open
  {
    assert log[..k][..k - 1] == log[..k - 1];
    if j < k - 1 {
      StaysResolved(log, j, k - 1);
    }
  }

  /** A request for a released operation goes out only after a snapshot that showed it, and so after its commit. */
  lemma SentAgainIsCommitted(log: seq<Note>, landed: set<nat>, j: nat, k: nat)
    requires Audit(log).ok && Distinct(log) && Honest(log, landed) && j < k < |log| && log[j].Forgot? && log[k].Sent?
    requires IdentityOf(log[k].pending) == IdentityOf(log[j].pending)
    ensures Count(CommittedAt(log, landed, k), IdentityOf(log[j].pending)) == 1
  {
    var p := log[j].pending;
    OkStep(log, j);
    OkStep(log, k);
    var i, m, h := TraceBefore(log, j);
    var i', m', h' := TraceBefore(log, k);
    MintedIsUnique(log, i, i', p, log[k].pending);
    StaysResolved(log, j, k);
    var before := log[..k];
    i', m' := ShownAt(before);
    HonestBefore(log, landed, k);
    DoneIsCommittedOnce(before, landed, i', m');
  }

  /** So an operation that is uncommitted when it is released is so for good. */
  lemma {:induction false} StaysUncommitted(log: seq<Note>, landed: set<nat>, j: nat, k: nat)
    requires Audit(log).ok && Distinct(log) && Honest(log, landed) && j < k <= |log| && log[j].Forgot?
    requires Count(CommittedAt(log, landed, j), IdentityOf(log[j].pending)) == 0
    ensures Count(CommittedAt(log, landed, k), IdentityOf(log[j].pending)) == 0
  {
    var id, n := IdentityOf(log[j].pending), k - 1;
    assert log[..k][..n] == log[..n];
    if j < n {
      StaysUncommitted(log, landed, j, n);
      if log[n].Sent? {
        if IdentityOf(log[n].pending) == id {
          SentAgainIsCommitted(log, landed, j, n);
        }
        CountAppend(CommittedAt(log, landed, n), log[n].pending, id);
      }
    }
  }

  /** When an operation is released without having been committed, the server had said so. */
  lemma ReleasedUncommitted(acts: seq<Act>, log: seq<Note>, landed: set<nat>, j: nat) returns (m: int)
    requires LogOf(acts, log) && Honest(log, landed) && j < |log| && log[j].Forgot?
    requires Count(CommittedAt(log, landed, j), IdentityOf(log[j].pending)) == 0
    ensures 0 <= m < j && log[m].Sent? && log[m].pending == log[j].pending && log[m].reply.Failed? && Definitive(log[m].reply.failure)
  {
    var p := log[j].pending;
    var i;
    i, m := ReleasedOnlyWithProof(acts, log, j);
    if Done(log[m], p) {
      HonestBefore(log, landed, j);
      DoneIsCommittedOnce(log[..j], landed, i, m);
    }
  }

  /** And it is never committed later: what is typed again after a rejection is another operation. What the server
      has made of an operation when it is released is final. */
  lemma ReleasedIsFinal(acts: seq<Act>, log: seq<Note>, landed: set<nat>, j: nat)
    requires LogOf(acts, log) && Distinct(log) && Honest(log, landed) && j < |log| && log[j].Forgot?
    ensures Count(Committed(log, landed), IdentityOf(log[j].pending)) == Count(CommittedAt(log, landed, j), IdentityOf(log[j].pending))
  {
    var id := IdentityOf(log[j].pending);
    LogIsOk(acts, log);
    assert log[..|log|] == log;
    if Count(CommittedAt(log, landed, j), id) == 0 {
      StaysUncommitted(log, landed, j, |log|);
    } else {
      CommittedGrows(log, landed, j, id);
      AtMostOnce(log, landed, id);
    }
  }

  lemma HonestBefore(log: seq<Note>, landed: set<nat>, j: nat)
    requires Honest(log, landed) && j <= |log|
    ensures Honest(log[..j], landed)
  {
    forall k | 0 <= k < j
      ensures HonestNote(log[..j], landed, k)
    {
      assert HonestNote(log, landed, k);
      assert log[..j][..k + 1] == log[..k + 1];
    }
  }

  // ----- Reported done ----------------------------------------------------------------------------

  lemma AcceptedIsCommitted(before: seq<Note>, log: seq<Note>, landed: set<nat>, i: nat, p: Pending, reply: Reply)
    requires i < |before| && before[i] == Minted(p) && reply.Ok? && Settles(p, reply)
    requires before + [Sent(p, reply)] <= log && Honest(log, landed)
    ensures Count(Committed(log, landed), IdentityOf(p)) == 1
  {
    assert log[|before|] == (before + [Sent(p, reply)])[|before|];
    assert log[i] == (before + [Sent(p, reply)])[i];
    DoneIsCommittedOnce(log, landed, i, |before|);
  }

  /** The last operation minted, sent and accepted, is committed exactly once. */
  lemma LastIsCommitted(o: Out, p: Pending, reply: Reply, log: seq<Note>, landed: set<nat>)
    requires Tracked(o) && Audit(o.log).last == Some(p) && reply.Ok? && Settles(p, reply)
    requires o.log + [Sent(p, reply)] <= log && Honest(log, landed)
    ensures Count(Committed(log, landed), IdentityOf(p)) == 1
  {
    var i, m, k := Trace(o.log);
    AcceptedIsCommitted(o.log, log, landed, i, p, reply);
  }

  lemma ReloadGrows(o: Out, reload: Reload)
    ensures o.log <= DoReload(o, reload).log
  {
  }

  lemma SubmitShows(o: Out, pending: PendingTurn, reply: Reply, reload: Reload)
    requires o.failure.None? && SubmitTurn(o, pending, reply, reload).failure.None?
    ensures reply.Ok? && o.log + [Sent(OfTurn(pending), reply)] <= SubmitTurn(o, pending, reply, reload).log
  {
    ReloadGrows(Sends(o, OfTurn(pending), reply), reload);
  }

  /** A turn that is reported done is committed exactly once and recorded as it was typed, whether it was sent
      once or many times. */
  lemma ReportedTurnIsCommittedOnce(o: Out, text: string, valid: bool, next: ID, reply: Reply, reload: Reload, done: Out, landed: set<nat>)
    requires Tracked(o) && Unseen(o.s, next) && o.failure.None?
    requires done == AcceptText(o, text, valid, next, reply, reload) && done.failure.None? && Honest(done.log, landed)
    ensures var id := if o.s.turn.Some? then o.s.turn.value.id else next;
            && Count(Committed(done.log, landed), id) == 1
            && id in done.s.turns && done.s.turns[id].text == text
  {
    NamedTurnKeeps(o, text, valid, next);
    NamedTurnIs(o, text, valid, next);
    AcceptedTurnIsPersisted(o, text, valid, next, reply, reload);
    var named := NameTurn(o, text, valid, next);
    SubmitShows(named, named.s.turn.value, reply, reload);
    LastIsCommitted(named, OfTurn(named.s.turn.value), reply, done.log, landed);
  }

  lemma ControlShows(o: Out, pending: PendingControl, submit: Reply, reload: Reload)
    requires o.failure.None? && SubmitControl(o, pending, submit, reload).failure.None?
    ensures submit.Ok? && submit.receipt.jobID == pending.jobID
    ensures o.log + [Sent(OfControl(pending), submit)] <= SubmitControl(o, pending, submit, reload).log
  {
    ReloadGrows(Sends(o, OfControl(pending), submit), reload);
  }

  lemma SubmittedControlIsCommitted(o: Out, pending: PendingControl, submit: Reply, reload: Reload, done: Out, landed: set<nat>)
    requires Tracked(o) && o.s.control == Some(pending) && o.failure.None?
    requires done == SubmitControl(o, pending, submit, reload) && done.failure.None? && Honest(done.log, landed)
    ensures Count(Committed(done.log, landed), pending.id) == 1 && pending.id in done.s.controls
  {
    AcceptedControlIsPersisted(o, pending, submit, reload);
    ControlShows(o, pending, submit, reload);
    LastIsCommitted(o, OfControl(pending), submit, done.log, landed);
  }

  /** What the records show is committed exactly once. */
  lemma RecordedIsCommitted(o: Out, p: Pending, log: seq<Note>, landed: set<nat>)
    requires Tracked(o) && Audit(o.log).last == Some(p) && Shows(o.s.turns, o.s.controls, p) && o.log <= log && Honest(log, landed)
    ensures Count(Committed(log, landed), IdentityOf(p)) == 1
  {
    var i, m := ShownAt(o.log);
    assert log[i] == o.log[i] && log[m] == o.log[m];
    DoneIsCommittedOnce(log, landed, i, m);
  }

  lemma ReplayShows(o: Out, pending: PendingControl, replay: Reply, reload: Reload)
    requires o.failure.None? && pending.id !in o.s.controls && ReplayControl(o, pending, replay, reload).failure.None?
    ensures replay.Ok? && replay.receipt.jobID == pending.jobID
    ensures o.log + [Sent(OfControl(pending), replay)] <= ReplayControl(o, pending, replay, reload).log
  {
    ReloadGrows(Sends(o, OfControl(pending), replay), reload);
  }

  lemma ReplayedControlIsCommitted(o: Out, pending: PendingControl, replay: Reply, reload: Reload, done: Out, landed: set<nat>)
    requires Tracked(o) && Audit(o.log).last == Some(OfControl(pending)) && Live(Audit(o.log)) && o.failure.None?
    requires done == ReplayControl(o, pending, replay, reload) && done.failure.None? && Honest(done.log, landed)
    ensures Count(Committed(done.log, landed), pending.id) == 1 && pending.id in done.s.controls
  {
    ReplayedIsPersisted(o, pending, replay, reload);
    if pending.id in o.s.controls {
      RecordedIsCommitted(o, OfControl(pending), done.log, landed);
    } else {
      ReplayShows(o, pending, replay, reload);
      LastIsCommitted(o, OfControl(pending), replay, done.log, landed);
    }
  }

  lemma NewControlIsCommitted(o: Out, action: Action, text: string, expected: Option<nat>, next: ID, net: ControlNet, done: Out, landed: set<nat>)
    requires Tracked(o) && Unseen(o.s, next) && o.failure.None?
    requires o.s.control.Some? ==> o.s.control.value.action != action || o.s.control.value.text != text
    requires done == NewControl(o, action, text, expected, next, net) && done.failure.None? && Honest(done.log, landed)
    ensures Count(Committed(done.log, landed), next) == 1 && next in done.s.controls
  {
    var jobID := o.s.active.value.id;
    var revision := if action == Redirect then net.revision.revision else 0;
    NamedControlKeeps(o, jobID, action, text, revision, next);
    var named := NameControl(o, jobID, action, text, revision, next);
    SubmittedControlIsCommitted(named, named.s.control.value, net.submit, net.third, done, landed);
  }

  /** So is a control: one asked for again under the identity it had, found recorded or replayed, and any other
      under the new identity. */
  lemma ReportedControlIsCommittedOnce(o: Out, action: Action, text: string, valid: bool, expected: Option<nat>, next: ID, net: ControlNet, done: Out, landed: set<nat>)
    requires Tracked(o) && Unseen(o.s, next) && NewTo(net.first, next) && o.failure.None?
    requires done == Control(o, action, text, valid, expected, next, net) && done.failure.None? && Honest(done.log, landed)
    ensures var again := o.s.control.Some? && o.s.control.value.action == action && o.s.control.value.text == text;
            var id := if again then o.s.control.value.id else next;
            Count(Committed(done.log, landed), id) == 1 && id in done.s.controls
  {
    ReloadKeeps(o, net.first);
    ReloadShowsNoNew(o, net.first, next);
    var reloaded := DoReload(o, net.first);
    if o.s.control.Some? && o.s.control.value.action == action && o.s.control.value.text == text {
      ReplayedControlIsCommitted(reloaded, o.s.control.value, net.replay, net.second, done, landed);
    } else {
      NewControlIsCommitted(reloaded, action, text, expected, next, net, done, landed);
    }
  }

  lemma PlanShows(named: Out, change: PlanChange, reply: Reply, reload: Reload)
    requires named.failure.None? && named.s.plan.Some? && SendPlan(named, change, reply, reload).failure.None?
    ensures reply.Ok? && reply.receipt.exact
    ensures named.log + [Sent(OfPlan(named.s.plan.value), reply)] <= SendPlan(named, change, reply, reload).log
  {
    ReloadGrows(SubmitPlan(named, named.s.plan.value, reply), reload);
  }

  /** And a plan change, the freeze with its reload included. */
  lemma ReportedPlanIsCommittedOnce(o: Out, change: PlanChange, jobID: nat, generation: nat, revision: nat, next: ID, reply: Reply, reload: Reload, done: Out, landed: set<nat>)
    requires Tracked(o) && o.failure.None?
    requires done == MutatePlan(o, change, jobID, generation, revision, next, reply, reload) && done.failure.None? && Honest(done.log, landed)
    ensures Count(Committed(done.log, landed), if o.s.plan.Some? then o.s.plan.value.id else next) == 1
  {
    NamedPlanKeeps(o, change, jobID, generation, revision, next);
    var named := NamePlan(o, change, jobID, generation, revision, next);
    PlanShows(named, change, reply, reload);
    LastIsCommitted(named, OfPlan(named.s.plan.value), reply, done.log, landed);
  }
}
