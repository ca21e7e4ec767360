/** The review of a coding plan before it is frozen: which leaf is selected, and whether a confirmation is
    being asked for.
 */
module PlanReview {
  import opened Basics

  datatype Result<+T> = Ok(value: T) | Err

  datatype Decision = Pending | Approved | Rejected
  datatype PlanState = Review | Frozen | Superseded | Canceled

  /** A leaf; `wellFormed` says that its identity and statement have the form that is asked of them. */
  datatype Leaf = Leaf(id: string, statement: string, decision: Decision, task: string, wellFormed: bool)

  /** How a statement of the owner was disposed of; `wellFormed` as for leaves. */
  datatype Disposition = Disposition(statement: string, items: seq<string>, wellFormed: bool)

  /** A plan as received. Times are counted from the zero time. */
  datatype Plan = Plan(jobID: int, generation: int, revision: int, state: PlanState, leaves: seq<Leaf>,
                       dispositions: seq<Disposition>, createdAt: nat, updatedAt: nat, frozenAt: Option<nat>)

  datatype State = State(plan: Plan, selected: int, confirming: bool)

  datatype Action = Up | Down | Toggle | Enter | Cancel | RequestNote
  datatype Effect = NoEffect | DecisionRequested(leaf: string, decision: Decision) | FreezeRequested | NoteRequested(about: Option<string>)
  datatype Change = Unchanged | RevisionChanged | IdentityChanged

  // ----- Validity ---------------------------------------------------------------------------------

  predicate HasApproved(leaves: seq<Leaf>) {
    exists i :: 0 <= i < |leaves| && leaves[i].decision == Approved
  }

  predicate NonePending(leaves: seq<Leaf>) {
    forall i :: 0 <= i < |leaves| ==> leaves[i].decision != Pending
  }

  predicate DistinctLeaves(leaves: seq<Leaf>) {
    forall i, j :: 0 <= i < j < |leaves| ==> leaves[i].id != leaves[j].id && leaves[i].statement != leaves[j].statement
  }

  predicate ValidPlan(p: Plan) {
    && p.jobID > 0 && p.generation > 0 && p.revision > 0
    && (forall i :: 0 <= i < |p.leaves| ==> p.leaves[i].wellFormed)
    && DistinctLeaves(p.leaves)
    && (forall i :: 0 <= i < |p.dispositions| ==> p.dispositions[i].wellFormed)
    && (p.state == Frozen ==> NonePending(p.leaves) && HasApproved(p.leaves) && p.frozenAt.Some? && p.frozenAt.value > 0)
    && (p.state == Review ==> p.frozenAt.None?)
    && 0 < p.createdAt <= p.updatedAt
  }

  predicate Reviewable(p: Plan) {
    ValidPlan(p) && p.state == Review
  }

  predicate CanConfirm(p: Plan) {
    NonePending(p.leaves) && HasApproved(p.leaves)
  }

  method PlanReviewCanConfirm(p: Plan) returns (ok: bool)
    ensures ok <==> CanConfirm(p)
  {
    var approved := 0;
    for i := 0 to |p.leaves|
      invariant NonePending(p.leaves[..i]) && (approved > 0 <==> HasApproved(p.leaves[..i])) && approved >= 0
    {
      assert p.leaves[..i + 1] == p.leaves[..i] + [p.leaves[i]];
      if p.leaves[i].decision == Pending {
        return false;
      }
      if p.leaves[i].decision == Approved {
        assert p.leaves[..i + 1][i].decision == Approved;
        approved := approved + 1;
      }
    }
    assert p.leaves[..|p.leaves|] == p.leaves;
    return approved > 0;
  }

  /** A plan that can be reviewed, with a leaf of it selected if there is one. */
  predicate Sound(s: State) {
    && Reviewable(s.plan)
    && (if s.plan.leaves == [] then s.selected == 0 else 0 <= s.selected < |s.plan.leaves|)
  }

  predicate ValidState(s: State) {
    Sound(s) && (s.confirming ==> CanConfirm(s.plan))
  }

  // ----- Snapshots --------------------------------------------------------------------------------

  function NewState(p: Plan): Result<State> {
    if Reviewable(p) then Ok(State(p, 0, false)) else Err
  }

  /** Where the leaf with an identity is among those before `n`, or `n` itself. */
  function IndexOf(leaves: seq<Leaf>, id: string, n: nat): (k: nat)
    requires n <= |leaves|
    ensures k <= n && (k < n ==> leaves[k].id == id) && forall i :: 0 <= i < k ==> leaves[i].id != id
  {
    if n == 0 then 0
    else
      var k := IndexOf(leaves, id, n - 1);
      if k < n - 1 || leaves[n - 1].id == id then k else n
  }

  method FindLeaf(leaves: seq<Leaf>, id: string) returns (k: nat)
    ensures k == IndexOf(leaves, id, |leaves|)
  {
    k := 0;
    while k < |leaves| && leaves[k].id != id
      invariant k <= |leaves| && forall i :: 0 <= i < k ==> leaves[i].id != id
    {
      k := k + 1;
    }
  }

  predicate SameIdentity(a: Plan, b: Plan) {
    a.jobID == b.jobID && a.generation == b.generation
  }

  /** A new snapshot: refused if it goes back or changes without a new revision; otherwise the selection
      follows its leaf within the job, and a confirmation is over. */
  function Reconcile(current: State, p: Plan): Result<(State, Change)> {
    if !ValidState(current) || !Reviewable(p) then Err
    else if SameIdentity(current.plan, p) && current.plan.revision == p.revision then
      if current.plan == p then Ok((current, Unchanged)) else Err
    else if SameIdentity(current.plan, p) && p.revision < current.plan.revision then Err
    else if SameIdentity(current.plan, p) && (current.plan.createdAt != p.createdAt || p.updatedAt < current.plan.updatedAt) then Err
    else
      var found := if current.plan.jobID == p.jobID && current.plan.leaves != []
                   then IndexOf(p.leaves, current.plan.leaves[current.selected].id, |p.leaves|) else |p.leaves|;
      Ok((State(p, if found < |p.leaves| then found else 0, false),
          if SameIdentity(current.plan, p) then RevisionChanged else IdentityChanged))
  }

  // ----- Actions ----------------------------------------------------------------------------------

  function NoteEffect(s: State): Effect {
    if 0 <= s.selected < |s.plan.leaves| then NoteRequested(Some(s.plan.leaves[s.selected].id)) else NoteRequested(None)
  }

  function Reduce(s: State, a: Action): Result<(State, Effect)> {
    if !ValidState(s) then Err
    else if s.confirming then
      match a
      case Enter => Ok((s, FreezeRequested))
      case Cancel => Ok((s.(confirming := false), NoEffect))
      case RequestNote => Ok((s.(confirming := false), NoteEffect(s)))
      case _ => Ok((s, NoEffect))
    else
      match a
      case Up => Ok((if s.selected > 0 then s.(selected := s.selected - 1) else s, NoEffect))
      case Down => Ok((if s.selected + 1 < |s.plan.leaves| then s.(selected := s.selected + 1) else s, NoEffect))
      case Toggle =>
        if s.plan.leaves == [] then Ok((s, NoEffect))
        else
          var leaf := s.plan.leaves[s.selected];
          Ok((s, DecisionRequested(leaf.id, if leaf.decision == Approved then Rejected else Approved)))
      case Enter => Ok((if CanConfirm(s.plan) then s.(confirming := true) else s, NoEffect))
      case Cancel => Ok((s, NoEffect))
      case RequestNote => Ok((s, NoteEffect(s)))
  }

  // ----- Decisions --------------------------------------------------------------------------------

  /** A decision that was asked for on a leaf of a revision. */
  datatype Asked = Asked(jobID: int, generation: int, revision: int, leaf: string, decision: Decision)

  function Edited(leaves: seq<Leaf>, id: string, decision: Decision): (r: seq<Leaf>)
    ensures |r| == |leaves|
    ensures forall i :: 0 <= i < |r| ==> r[i] == if leaves[i].id == id then leaves[i].(decision := decision) else leaves[i]
  {
    seq(|leaves|, i requires 0 <= i < |leaves| => if leaves[i].id == id then leaves[i].(decision := decision) else leaves[i])
  }

  predicate Has(leaves: seq<Leaf>, id: string) {
    exists i :: 0 <= i < |leaves| && leaves[i].id == id
  }

  /** A plan with a decision written into its leaves. */
  function WithDecision(p: Plan, asked: Asked): Plan {
    p.(leaves := Edited(p.leaves, asked.leaf, asked.decision))
  }

  predicate Concerns(asked: Asked, p: Plan) {
    p.jobID == asked.jobID && p.generation == asked.generation
  }

  /** The server has recorded the decision under a new revision. The leaves of the retained plan are edited where
      they are, before the plan with the new revision is taken for a snapshot that may yet be refused. */
  function Decide(s: State, asked: Asked, revision: int): State {
    if revision <= asked.revision then s
    else
      var kept := s.(plan := WithDecision(s.plan, asked));
      var p := kept.plan.(revision := revision);
      if !Concerns(asked, p) || p.state != Review || !Has(p.leaves, asked.leaf) then kept
      else
        var r := Reconcile(kept, p);
        if r.Ok? then r.value.0 else kept
  }

  // ----- Runs -------------------------------------------------------------------------------------

  /** What the session does with its review, if it has one. A refused step leaves it as it was. */
  datatype Step = Receive(plan: Plan) | Act(action: Action) | Decided(asked: Asked, revision: int) | Clear

  function Take(slot: Option<State>, step: Step): Option<State> {
    match step
    case Receive(p) =>
      if slot.None? then
        var r := NewState(p);
        if r.Ok? then Some(r.value) else None
      else
        var r := Reconcile(slot.value, p);
        if r.Ok? then Some(r.value.0) else slot
    case Act(a) =>
      if slot.None? then None
      else
        var r := Reduce(slot.value, a);
        if r.Ok? then Some(r.value.0) else slot
    case Decided(asked, revision) => if slot.None? then None else Some(Decide(slot.value, asked, revision))
    case Clear => None
  }

  function EffectOf(slot: Option<State>, step: Step): Effect {
    if step.Act? && slot.Some? then
      var r := Reduce(slot.value, step.action);
      if r.Ok? then r.value.1 else NoEffect
    else NoEffect
  }

  /** The review after the first `n` steps. */
  function After(steps: seq<Step>, n: nat): Option<State>
    requires n <= |steps|
  {
    if n == 0 then None else Take(After(steps, n - 1), steps[n - 1])
  }

  lemma EditedIsReviewable(p: Plan, asked: Asked)
    requires Reviewable(p)
    ensures Reviewable(WithDecision(p, asked))
  {
  }

  lemma TakeKeepsSound(slot: Option<State>, step: Step)
    requires slot.Some? ==> Sound(slot.value)
    ensures var next := Take(slot, step); next.Some? ==> Sound(next.value)
  {
    if step.Decided? && slot.Some? {
      EditedIsReviewable(slot.value.plan, step.asked);
    }
  }

  /** In every run the plan under review can be reviewed and the selection is one of its leaves. */
  lemma {:induction false} AlwaysSound(steps: seq<Step>, n: nat)
    requires n <= |steps|
    ensures After(steps, n).Some? ==> Sound(After(steps, n).value)
  {
    if n > 0 {
      AlwaysSound(steps, n - 1);
      TakeKeepsSound(After(steps, n - 1), steps[n - 1]);
    }
  }

  /** A recorded decision that reaches the review while it is confirming and leaves nothing to confirm. */
  predicate TooLate(slot: Option<State>, step: Step) {
    && step.Decided? && slot.Some? && slot.value.confirming && step.revision > step.asked.revision
    && !CanConfirm(WithDecision(slot.value.plan, step.asked))
  }

  /** A step keeps the review valid exactly unless it is a decision that comes too late. */
  lemma KeepsValidIff(slot: Option<State>, step: Step)
    requires slot.Some? ==> ValidState(slot.value)
    ensures var next := Take(slot, step); (next.Some? ==> ValidState(next.value)) <==> !TooLate(slot, step)
  {
    if step.Decided? && slot.Some? {
      EditedIsReviewable(slot.value.plan, step.asked);
    }
  }

  /** None of the first `n` steps is a decision that comes too late. */
  predicate InTime(steps: seq<Step>, n: nat)
    requires n <= |steps|
  {
    forall k: nat :: k < n ==> !TooLate(After(steps, k), steps[k])
  }

  /** Then the review is valid: its selection is a leaf, its confirmation is warranted. */
  lemma {:induction false} AlwaysValid(steps: seq<Step>, n: nat)
    requires n <= |steps| && InTime(steps, n)
    ensures After(steps, n).Some? ==> ValidState(After(steps, n).value)
  {
    if n > 0 {
      AlwaysValid(steps, n - 1);
      KeepsValidIff(After(steps, n - 1), steps[n - 1]);
    }
  }

  /** And nothing fails in a run but what is refused as received: no action is ever refused. */
  lemma ActionsSucceed(steps: seq<Step>, n: nat, a: Action)
    requires n <= |steps| && After(steps, n).Some? && InTime(steps, n)
    ensures Reduce(After(steps, n).value, a).Ok?
  {
    AlwaysValid(steps, n);
  }

  /** A decision does come too late: a leaf is toggled, the reply is lost, Enter asks for confirmation on what was
      decided before, and then the decision turns out to be recorded. From then on every action is refused. */
  lemma TooLateHappens(p: Plan, revision: int, a: Action)
    requires Reviewable(p) && |p.leaves| == 1 && p.leaves[0].decision == Approved && revision > p.revision
    ensures var asked := Asked(p.jobID, p.generation, p.revision, p.leaves[0].id, Rejected);
            var steps := [Receive(p), Act(Toggle), Act(Enter), Decided(asked, revision)];
            && EffectOf(After(steps, 1), steps[1]) == DecisionRequested(asked.leaf, Rejected)
            && TooLate(After(steps, 3), steps[3])
            && After(steps, 4).Some? && !ValidState(After(steps, 4).value) && Reduce(After(steps, 4).value, a).Err?
  {
    var asked := Asked(p.jobID, p.generation, p.revision, p.leaves[0].id, Rejected);
    var steps := [Receive(p), Act(Toggle), Act(Enter), Decided(asked, revision)];
    assert HasApproved(p.leaves) by {
      assert p.leaves[0].decision == Approved;
    }
    assert After(steps, 1) == Take(After(steps, 0), steps[0]) == Some(State(p, 0, false));
    assert After(steps, 2) == Take(After(steps, 1), steps[1]) == Some(State(p, 0, false));
    assert After(steps, 3) == Take(After(steps, 2), steps[2]) == Some(State(p, 0, true));
    assert !HasApproved(Edited(p.leaves, asked.leaf, Rejected));
    KeepsValidIff(After(steps, 3), steps[3]);
  }

  /** From there neither a snapshot nor an action changes anything: only clearing the review leads out, or another
      recorded decision, and that exactly if it leaves something to confirm. */
  lemma StuckUntil(s: State, step: Step)
    requires Sound(s) && !ValidState(s)
    ensures step.Receive? || step.Act? ==> Take(Some(s), step) == Some(s)
    ensures step.Decided? ==> (ValidState(Take(Some(s), step).value) <==> step.revision > step.asked.revision && CanConfirm(WithDecision(s.plan, step.asked)))
    ensures step.Clear? ==> Take(Some(s), step).None?
  {
    if step.Decided? {
      EditedIsReviewable(s.plan, step.asked);
    }
  }

  // ----- In place ---------------------------------------------------------------------------------

  /** A recorded decision that is written into the retained plan without a new revision: it changes a leaf, and
      its revision is not ahead of the plan's, or it is about another plan, or it leaves nothing to confirm. */
  predicate Rewrites(s: State, step: Step) {
    && step.Decided? && step.revision > step.asked.revision && WithDecision(s.plan, step.asked) != s.plan
    && !(&& Concerns(step.asked, s.plan) && step.revision > s.plan.revision
         && (s.confirming ==> CanConfirm(WithDecision(s.plan, step.asked))))
  }

  predicate SameRevision(a: Plan, b: Plan) {
    SameIdentity(a, b) && a.revision == b.revision
  }

  /** A step changes the plan under its own identity and revision exactly if it is such a decision, and then the
      decision is all that changes. */
  lemma RewritesIff(s: State, step: Step)
    requires Sound(s)
    ensures var next := Take(Some(s), step);
            && (Rewrites(s, step) <==> next.Some? && SameRevision(s.plan, next.value.plan) && next.value.plan != s.plan)
            && (Rewrites(s, step) ==> next == Some(s.(plan := WithDecision(s.plan, step.asked))))
  {
    if step.Decided? {
      EditedIsReviewable(s.plan, step.asked);
      EditedHas(s.plan.leaves, step.asked.leaf, step.asked.decision);
    }
  }

  lemma EditedHas(leaves: seq<Leaf>, id: string, decision: Decision)
    ensures Has(Edited(leaves, id, decision), id) || Edited(leaves, id, decision) == leaves
  {
    if Has(leaves, id) {
      var i :| 0 <= i < |leaves| && leaves[i].id == id;
      assert Edited(leaves, id, decision)[i].id == id;
    }
  }

  /** The session takes the decision for settled. */
  predicate Settles(s: State, step: Step) {
    && step.Decided? && step.revision > step.asked.revision && Concerns(step.asked, s.plan)
    && Has(s.plan.leaves, step.asked.leaf)
    && Reconcile(s.(plan := WithDecision(s.plan, step.asked)), WithDecision(s.plan, step.asked).(revision := step.revision)).Ok?
  }

  /** A decision that rewrites a plan of another revision than its own is not taken for settled: it stays pending. */
  lemma RewriteStaysPending(s: State, step: Step)
    requires Sound(s) && Rewrites(s, step) && step.revision != s.plan.revision
    ensures !Settles(s, step)
  {
  }

  /** One revision of one job generation is under review throughout. */
  predicate Held(steps: seq<Step>, i: nat, j: nat)
    requires i <= j <= |steps|
  {
    && After(steps, j).Some?
    && (i < j ==> After(steps, j - 1).Some? && SameRevision(After(steps, j - 1).value.plan, After(steps, j).value.plan) && Held(steps, i, j - 1))
  }

  /** Its plan is the same throughout. */
  predicate Constant(steps: seq<Step>, i: nat, j: nat)
    requires i <= j <= |steps| && Held(steps, i, j)
  {
    i == j || (Constant(steps, i, j - 1) && After(steps, j).value.plan == After(steps, j - 1).value.plan)
  }

  /** No decision is written into it. */
  predicate Untouched(steps: seq<Step>, i: nat, j: nat)
    requires i <= j <= |steps| && Held(steps, i, j)
  {
    i == j || (Untouched(steps, i, j - 1) && !Rewrites(After(steps, j - 1).value, steps[j - 1]))
  }

  /** The leaves with the decisions that are written into them, in order. */
  function Net(steps: seq<Step>, i: nat, j: nat): seq<Leaf>
    requires i <= j <= |steps| && Held(steps, i, j)
  {
    if i == j then After(steps, i).value.plan.leaves
    else if Rewrites(After(steps, j - 1).value, steps[j - 1])
    then Edited(Net(steps, i, j - 1), steps[j - 1].asked.leaf, steps[j - 1].asked.decision)
    else Net(steps, i, j - 1)
  }

  /** The revision's plan is the same throughout if and only if no decision is written into it; and in any case it is
      at the end what it was, with those decisions. */
  predicate AccountedFor(steps: seq<Step>, i: nat, j: nat)
    requires i <= j <= |steps|
  {
    && Held(steps, i, j) && After(steps, i).Some?
    && (Constant(steps, i, j) <==> Untouched(steps, i, j))
    && After(steps, j).value.plan == After(steps, i).value.plan.(leaves := Net(steps, i, j))
  }

  lemma HeldStep(steps: seq<Step>, i: nat, j: nat)
    requires i < j <= |steps| && Held(steps, i, j)
    ensures var before, after := After(steps, j - 1).value, After(steps, j).value;
            && (Rewrites(before, steps[j - 1]) <==> after.plan != before.plan)
            && (Rewrites(before, steps[j - 1]) ==> after.plan == WithDecision(before.plan, steps[j - 1].asked))
  {
    AlwaysSound(steps, j - 1);
    RewritesIff(After(steps, j - 1).value, steps[j - 1]);
  }

  /** So it is whenever one revision is under review throughout. */
  lemma {:induction false} ConstantIff(steps: seq<Step>, i: nat, j: nat)
    requires i <= j <= |steps| && Held(steps, i, j)
    ensures AccountedFor(steps, i, j)
  {
    if i < j {
      ConstantIff(steps, i, j - 1);
      HeldStep(steps, i, j);
    }
  }

  // ----- Confirmation -----------------------------------------------------------------------------

  /** Plans that differ at most in what was decided about their leaves. */
  predicate SameButDecisions(a: Plan, b: Plan) {
    && a.(leaves := b.leaves) == b && |a.leaves| == |b.leaves|
    && forall i :: 0 <= i < |a.leaves| ==> a.leaves[i].(decision := b.leaves[i].decision) == b.leaves[i]
  }

  /** A step that stays in confirming, on the same revision. */
  predicate StaysConfirming(slot: Option<State>, step: Step, next: Option<State>) {
    && slot.Some? && slot.value.confirming && next.Some? && next.value.confirming
    && SameButDecisions(slot.value.plan, next.value.plan)
  }

  /** The review is confirming one revision throughout. */
  predicate Confirming(steps: seq<Step>, from: nat, upto: nat)
    requires from <= upto <= |steps|
  {
    from == upto || (Confirming(steps, from, upto - 1) && StaysConfirming(After(steps, upto - 1), steps[upto - 1], After(steps, upto)))
  }

  lemma {:induction false} ConfirmingIsHeld(steps: seq<Step>, from: nat, upto: nat)
    requires from <= upto <= |steps| && Confirming(steps, from, upto) && After(steps, from).Some?
    ensures Held(steps, from, upto)
  {
    if from < upto {
      ConfirmingIsHeld(steps, from, upto - 1);
    }
  }

  /** An Enter opens the confirmation, on the plan as it is. */
  predicate OpensAt(steps: seq<Step>, i: nat) {
    && i < |steps| && steps[i] == Act(Enter) && After(steps, i).Some? && !After(steps, i).value.confirming
    && After(steps, i + 1) == Some(After(steps, i).value.(confirming := true))
  }

  /** A step that ends in confirming began in it on the same plan, or was an Enter that opened it. */
  lemma HowConfirming(slot: Option<State>, step: Step, next: Option<State>)
    requires next == Take(slot, step) && next.Some? && next.value.confirming
    ensures slot.Some?
    ensures if slot.value.confirming then StaysConfirming(slot, step, next)
            else step == Act(Enter) && next == Some(slot.value.(confirming := true))
  {
  }

  /** A review that is confirming was put so by an Enter on this very plan, and has been so since. */
  lemma {:induction false} ConfirmedSince(steps: seq<Step>, n: nat) returns (i: nat)
    requires n <= |steps| && After(steps, n).Some? && After(steps, n).value.confirming
    ensures i < n && OpensAt(steps, i) && Confirming(steps, i + 1, n)
  {
    var before, after := After(steps, n - 1), After(steps, n);
    HowConfirming(before, steps[n - 1], after);
    if before.value.confirming {
      i := ConfirmedSince(steps, n - 1);
    } else {
      i := n - 1;
    }
  }

  /** In every run, a freeze is requested only on a plan with no leaf pending and at least one approved, on a
      revision on which a confirmation was opened by an Enter and has been asked for ever since. The plan has been
      the one that was confirmed ever since if and only if no recorded decision was written into it, and in any
      case it is that plan with those decisions. */
  lemma FreezeOnlyAsConfirmed(steps: seq<Step>, n: nat) returns (i: nat)
    requires n < |steps| && EffectOf(After(steps, n), steps[n]) == FreezeRequested
    ensures After(steps, n).Some? && CanConfirm(After(steps, n).value.plan) && Reviewable(After(steps, n).value.plan)
    ensures i < n && OpensAt(steps, i) && Confirming(steps, i + 1, n) && AccountedFor(steps, i + 1, n)
  {
    i := ConfirmedSince(steps, n);
    ConfirmingIsHeld(steps, i + 1, n);
    ConstantIff(steps, i + 1, n);
  }

  /** It is not always the plan that was confirmed: a decision recorded under a revision that the review has passed
      turns up between the Enter that opens the confirmation and the Enter that confirms. */
  lemma OtherPlanFrozen(p: Plan, asked: Asked, revision: int)
    requires Reviewable(p) && |p.leaves| == 2 && p.leaves[0].decision == Approved && p.leaves[1].decision == Approved
    requires asked.leaf == p.leaves[0].id && asked.decision == Rejected && Concerns(asked, p) && asked.revision < revision < p.revision
    ensures var steps := [Receive(p), Act(Enter), Decided(asked, revision), Act(Enter)];
            && OpensAt(steps, 1) && After(steps, 1).value.plan == p && EffectOf(After(steps, 3), steps[3]) == FreezeRequested
            && Rewrites(After(steps, 2).value, steps[2]) && After(steps, 3).value.plan == WithDecision(p, asked) != p
  {
    var steps := [Receive(p), Act(Enter), Decided(asked, revision), Act(Enter)];
    var q := WithDecision(p, asked);
    assert HasApproved(p.leaves) by {
      assert p.leaves[0].decision == Approved;
    }
    assert HasApproved(q.leaves) by {
      assert q.leaves[1].decision == Approved;
    }
    assert q.leaves[0].decision == Rejected;
    assert After(steps, 1) == Take(After(steps, 0), steps[0]) == Some(State(p, 0, false));
    assert After(steps, 2) == Take(After(steps, 1), steps[1]) == Some(State(p, 0, true));
    RewritesIff(State(p, 0, true), steps[2]);
    assert After(steps, 3) == Take(After(steps, 2), steps[2]) == Some(State(q, 0, true));
    EditedIsReviewable(p, asked);
  }

  /** Conversely, confirming a plan that can be confirmed and Enter is all it takes. */
  lemma FreezeIff(steps: seq<Step>, n: nat)
    requires n < |steps|
    ensures EffectOf(After(steps, n), steps[n]) == FreezeRequested
            <==> steps[n] == Act(Enter) && After(steps, n).Some? && After(steps, n).value.confirming && CanConfirm(After(steps, n).value.plan)
  {
    AlwaysSound(steps, n);
  }

  // ----- Selection --------------------------------------------------------------------------------

  /** A snapshot of the same job that still has the selected leaf leaves it selected, wherever it moved;
      otherwise the selection goes to the first leaf. */
  lemma SelectionFollowsLeaf(s: State, p: Plan)
    requires Reconcile(s, p).Ok? && s.plan.leaves != []
    ensures var next, id := Reconcile(s, p).value.0, s.plan.leaves[s.selected].id;
            && 0 <= s.selected < |s.plan.leaves|
            && (s.plan.jobID == p.jobID && (exists i :: 0 <= i < |p.leaves| && p.leaves[i].id == id)
                ==> 0 <= next.selected < |p.leaves| && p.leaves[next.selected].id == id)
            && (s.plan.jobID != p.jobID || (forall i :: 0 <= i < |p.leaves| ==> p.leaves[i].id != id) ==> next.selected == 0)
  {
  }

  // ----- Revisions --------------------------------------------------------------------------------

  /** What a later state of the same job generation may be. */
  predicate Advances(a: Plan, b: Plan) {
    && a.revision <= b.revision && a.createdAt == b.createdAt && a.updatedAt <= b.updatedAt
    && (a.revision == b.revision ==> SameButDecisions(a, b))
  }

  /** There is a review of one job generation throughout. */
  predicate Throughout(steps: seq<Step>, i: nat, j: nat)
    requires i <= j <= |steps|
  {
    && After(steps, i).Some? && After(steps, j).Some? && SameIdentity(After(steps, i).value.plan, After(steps, j).value.plan)
    && (i < j ==> After(steps, j - 1).Some? && Throughout(steps, i, j - 1))
  }

  lemma StepAdvances(s: State, step: Step)
    requires Sound(s) && Take(Some(s), step).Some? && SameIdentity(Take(Some(s), step).value.plan, s.plan)
    ensures Advances(s.plan, Take(Some(s), step).value.plan)
  {
  }

  lemma Onward(first: Plan, slot: Option<State>, step: Step, next: Option<State>)
    requires slot.Some? && Sound(slot.value) && SameIdentity(first, slot.value.plan) && Advances(first, slot.value.plan)
    requires next == Take(slot, step) && next.Some? && SameIdentity(first, next.value.plan)
    ensures Advances(first, next.value.plan)
  {
    StepAdvances(slot.value, step);
  }

  lemma NextAdvances(steps: seq<Step>, first: Plan, k: nat)
    requires k < |steps| && After(steps, k).Some? && After(steps, k + 1).Some?
    requires SameIdentity(first, After(steps, k).value.plan) && Advances(first, After(steps, k).value.plan)
    requires SameIdentity(first, After(steps, k + 1).value.plan)
    ensures Advances(first, After(steps, k + 1).value.plan)
  {
    AlwaysSound(steps, k);
    Onward(first, After(steps, k), steps[k], After(steps, k + 1));
  }

  /** While one job generation is under review its revision never goes back. */
  lemma {:induction false} RevisionNeverRegresses(steps: seq<Step>, i: nat, j: nat)
    requires i <= j <= |steps| && Throughout(steps, i, j)
    ensures After(steps, i).Some? && After(steps, j).Some? && Advances(After(steps, i).value.plan, After(steps, j).value.plan)
  {
    if i < j {
      RevisionNeverRegresses(steps, i, j - 1);
      var first := After(steps, i).value.plan;
      assert SameIdentity(first, After(steps, j - 1).value.plan) && SameIdentity(first, After(steps, j).value.plan);
      NextAdvances(steps, first, j - 1);
    }
  }

  lemma {:induction false} SameRevisionIsHeld(steps: seq<Step>, i: nat, j: nat)
    requires i <= j <= |steps| && Throughout(steps, i, j) && After(steps, i).value.plan.revision == After(steps, j).value.plan.revision
    ensures Held(steps, i, j)
  {
    if i < j {
      RevisionNeverRegresses(steps, i, j - 1);
      AlwaysSound(steps, j - 1);
      StepAdvances(After(steps, j - 1).value, steps[j - 1]);
      SameRevisionIsHeld(steps, i, j - 1);
    }
  }

  /** And while it is the same the plan is the same throughout if and only if no recorded decision is written into
      it: none that changes a leaf and is not ahead of the plan's revision, is about another plan, or leaves a
      confirmation with nothing to confirm. */
  lemma RevisionChangesIff(steps: seq<Step>, i: nat, j: nat)
    requires i <= j <= |steps| && Throughout(steps, i, j) && After(steps, i).value.plan.revision == After(steps, j).value.plan.revision
    ensures AccountedFor(steps, i, j)
  {
    SameRevisionIsHeld(steps, i, j);
    ConstantIff(steps, i, j);
  }

  /** A decision recorded under a revision that the review has already passed is written into the newer plan all
      the same; the server's own plan of that revision is then refused. */
  lemma StaleDecisionStays(p: Plan, asked: Asked, revision: int)
    requires Reviewable(p) && Concerns(asked, p) && asked.revision < revision < p.revision && WithDecision(p, asked) != p
    ensures var steps := [Receive(p), Decided(asked, revision), Receive(p)];
            && After(steps, 2).Some? && After(steps, 2).value.plan == WithDecision(p, asked)
            && After(steps, 2).value.plan != p && After(steps, 3) == After(steps, 2)
  {
    var steps := [Receive(p), Decided(asked, revision), Receive(p)];
    assert After(steps, 1) == Take(After(steps, 0), steps[0]) == Some(State(p, 0, false));
    EditedIsReviewable(p, asked);
    var kept := State(WithDecision(p, asked), 0, false);
    assert Take(Some(State(p, 0, false)), steps[1]) == Some(kept);
    assert After(steps, 2) == Take(After(steps, 1), steps[1]);
    assert After(steps, 3) == Take(After(steps, 2), steps[2]);
  }

  /** Across another generation, or none, it may: nothing is remembered of the earlier one. */
  lemma RevisionMayRegressAcross(newer: Plan, between: Plan, older: Plan)
    requires Reviewable(newer) && Reviewable(between) && Reviewable(older)
    requires SameIdentity(newer, older) && older.revision < newer.revision && !SameIdentity(newer, between)
    ensures var steps := [Receive(newer), Receive(between), Receive(older)];
            && After(steps, 1) == Some(State(newer, 0, false))
            && After(steps, 3).Some? && After(steps, 3).value.plan == older
    ensures var steps := [Receive(newer), Clear, Receive(older)]; After(steps, 3) == Some(State(older, 0, false))
    ensures var steps := [Receive(newer), Receive(older)]; After(steps, 2) == Some(State(newer, 0, false))
  {
    var one := [Receive(newer), Receive(between), Receive(older)];
    assert After(one, 0) == None && After(one, 1) == Some(State(newer, 0, false));
    assert After(one, 2).Some? && After(one, 2).value.plan == between && ValidState(After(one, 2).value);
    var two := [Receive(newer), Clear, Receive(older)];
    assert After(two, 1).Some? && After(two, 2) == None;
    var three := [Receive(newer), Receive(older)];
    assert After(three, 0) == None && After(three, 1) == Some(State(newer, 0, false));
  }
}
