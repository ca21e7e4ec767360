/** What each key of the review does, in every run: which leaf it concerns, where it leads, and what it asks for. */
module PlanReviewActions {
  import opened Basics
  import opened PlanReview

  /** The review accepts an action: there is one, and it is valid. */
  predicate Accepts(slot: Option<State>) {
    slot.Some? && ValidState(slot.value)
  }

  /** In every run, a decision is asked for if and only if the toggle is pressed while nothing is being confirmed:
      on the selected leaf, rejected if it was approved and approved otherwise. */
  lemma DecisionIff(steps: seq<Step>, n: nat, leaf: string, decision: Decision)
    requires n < |steps|
    ensures var slot := After(steps, n);
            EffectOf(slot, steps[n]) == DecisionRequested(leaf, decision) <==>
            && steps[n] == Act(Toggle) && Accepts(slot) && !slot.value.confirming
            && var s := slot.value;
               && 0 <= s.selected < |s.plan.leaves| && s.plan.leaves[s.selected].id == leaf
               && (s.plan.leaves[s.selected].decision == Approved ==> decision == Rejected)
               && (s.plan.leaves[s.selected].decision != Approved ==> decision == Approved)
  {
    var slot := After(steps, n);
    if Accepts(slot) && steps[n].Act? {
      assert EffectOf(slot, steps[n]) == Reduce(slot.value, steps[n].action).value.1;
    }
  }

  /** A note is asked for if and only if the note key is pressed, confirming or not: about the selected leaf. */
  lemma NoteIff(steps: seq<Step>, n: nat, about: Option<string>)
    requires n < |steps|
    ensures var slot := After(steps, n);
            EffectOf(slot, steps[n]) == NoteRequested(about) <==>
            && steps[n] == Act(RequestNote) && Accepts(slot)
            && var s := slot.value; about == if s.plan.leaves == [] then None else Some(s.plan.leaves[s.selected].id)
  {
    var slot := After(steps, n);
    if Accepts(slot) && steps[n].Act? {
      assert EffectOf(slot, steps[n]) == Reduce(slot.value, steps[n].action).value.1;
    }
  }

  /** No leaf is undecided, and some leaf is approved. */
  predicate Confirmable(leaves: seq<Leaf>) {
    && (forall i :: 0 <= i < |leaves| ==> leaves[i].decision == Approved || leaves[i].decision == Rejected)
    && exists i :: 0 <= i < |leaves| && leaves[i].decision == Approved
  }

  /** Where an action leads: the plan stays; only Up and Down move, by one leaf and not past an end, and not while
      confirming; only Enter opens a confirmation, of a plan that has an approved leaf and no pending one; and
      only Cancel and the note key end it. */
  lemma ActionLeads(s: State, a: Action)
    requires ValidState(s)
    ensures var slot, last := Take(Some(s), Act(a)), |s.plan.leaves| - 1;
            && slot.Some? && slot.value.plan == s.plan
            && slot.value.selected == (if s.confirming then s.selected
                                       else if a == Up && s.selected != 0 then s.selected - 1
                                       else if a == Down && s.selected < last then s.selected + 1
                                       else s.selected)
            && (slot.value.confirming <==> if s.confirming then a != Cancel && a != RequestNote else a == Enter && Confirmable(s.plan.leaves))
  {
    assert Take(Some(s), Act(a)) == Some(Reduce(s, a).value.0);
  }

  /** Down and then Up comes back to the leaf unless it is the last of several, and Up and then Down
      unless it is the first of several. */
  lemma ThereAndBack(s: State)
    requires ValidState(s) && !s.confirming
    ensures Take(Take(Some(s), Act(Down)), Act(Up)) == Some(s) <==> s.selected < |s.plan.leaves| - 1 || s.selected == 0
    ensures Take(Take(Some(s), Act(Up)), Act(Down)) == Some(s) <==> s.selected > 0 || |s.plan.leaves| <= 1
  {
    KeepsValidIff(Some(s), Act(Down));
    KeepsValidIff(Some(s), Act(Up));
  }

  /** From the first leaf, `k` times Down leads to leaf number `k`, or to the last. */
  lemma {:induction false} DownsSelect(steps: seq<Step>, n: nat, p: Plan, k: nat)
    requires n + k < |steps| && After(steps, n).None? && Reviewable(p) && steps[n] == Receive(p)
    requires forall i :: n < i <= n + k ==> steps[i] == Act(Down)
    ensures After(steps, n + 1 + k) == Some(State(p, if k < |p.leaves| then k else if p.leaves == [] then 0 else |p.leaves| - 1, false))
  {
    if k > 0 {
      DownsSelect(steps, n, p, k - 1);
      var s := After(steps, n + k).value;
      assert After(steps, n + 1 + k) == Take(After(steps, n + k), steps[n + k]) == Take(Some(s), Act(Down));
    }
  }

  /** So a toggle after `k` times Down decides on leaf number `k`. */
  lemma ToggleDecidesReached(steps: seq<Step>, n: nat, p: Plan, k: nat)
    requires n + k + 1 < |steps| && After(steps, n).None? && Reviewable(p) && steps[n] == Receive(p) && k < |p.leaves|
    requires (forall i :: n < i <= n + k ==> steps[i] == Act(Down)) && steps[n + k + 1] == Act(Toggle)
    ensures EffectOf(After(steps, n + k + 1), steps[n + k + 1])
            == DecisionRequested(p.leaves[k].id, if p.leaves[k].decision == Approved then Rejected else Approved)
    ensures After(steps, n + k + 2) == After(steps, n + k + 1)
  {
    DownsSelect(steps, n, p, k);
    DecisionIff(steps, n + k + 1, p.leaves[k].id, if p.leaves[k].decision == Approved then Rejected else Approved);
    assert After(steps, n + k + 2) == Take(After(steps, n + k + 1), steps[n + k + 1]);
  }

  // ----- Snapshots --------------------------------------------------------------------------------

  /** A plan that can be put to review, in full. */
  predicate Admissible(p: Plan) {
    && p.jobID > 0 && p.generation > 0 && p.revision > 0 && p.state == Review && p.frozenAt.None?
    && (forall i :: 0 <= i < |p.leaves| ==> p.leaves[i].wellFormed)
    && (forall i, j :: 0 <= i < |p.leaves| && 0 <= j < |p.leaves| && i != j
                       ==> p.leaves[i].id != p.leaves[j].id && p.leaves[i].statement != p.leaves[j].statement)
    && (forall i :: 0 <= i < |p.dispositions| ==> p.dispositions[i].wellFormed)
    && 0 < p.createdAt <= p.updatedAt
  }

  /** Without a review, a plan opens one at its first leaf exactly if it is admissible. */
  lemma OpensIff(p: Plan)
    ensures Take(None, Receive(p)) == if Admissible(p) then Some(State(p, 0, false)) else None
  {
    assert DistinctLeaves(p.leaves) <==>
           forall i, j :: 0 <= i < |p.leaves| && 0 <= j < |p.leaves| && i != j
                          ==> p.leaves[i].id != p.leaves[j].id && p.leaves[i].statement != p.leaves[j].statement;
  }

  /** The plan succeeds the one under review: it is of another job or generation, or a later revision of it that was
      created with it and not updated before it. */
  predicate Succeeds(was: Plan, p: Plan) {
    || p.jobID != was.jobID || p.generation != was.generation
    || (p.revision > was.revision && p.createdAt == was.createdAt && p.updatedAt >= was.updatedAt)
  }

  /** A review takes up exactly the admissible plans that succeed its own, and ends any confirmation with it. */
  lemma TakesUpIff(s: State, p: Plan)
    requires ValidState(s)
    ensures var next := Take(Some(s), Receive(p));
            if Admissible(p) && Succeeds(s.plan, p) then next.Some? && next.value.plan == p && !next.value.confirming else next == Some(s)
  {
    OpensIff(p);
    assert Reviewable(p) <==> Admissible(p);
  }

  /** A recorded decision on a leaf of the plan under review, in a revision later than its own, is taken up with that
      revision: the leaf is so decided, the selection stays, and a confirmation is over. */
  lemma DecisionTakenUp(s: State, asked: Asked, revision: int)
    requires ValidState(s) && s.plan.jobID == asked.jobID && s.plan.generation == asked.generation && Has(s.plan.leaves, asked.leaf)
    requires revision > asked.revision && revision > s.plan.revision && (s.confirming ==> CanConfirm(WithDecision(s.plan, asked)))
    ensures Take(Some(s), Decided(asked, revision)) == Some(State(WithDecision(s.plan, asked).(revision := revision), s.selected, false))
  {
    EditedIsReviewable(s.plan, asked);
    EditedHas(s.plan.leaves, asked.leaf, asked.decision);
    var kept := s.(plan := WithDecision(s.plan, asked));
    var p := kept.plan.(revision := revision);
    assert ValidState(kept) && Reviewable(p);
    assert Has(p.leaves, asked.leaf);
    SelectionFollowsLeaf(kept, p);
  }
}
