/** Who may write: arbitration, the mastership check of a write and its application are
    separate steps, which different clients take in any order. */
module Authority {
  import opened Text
  import opened Mastership

  datatype Step =
    | Submit(claimant: Role?, claim: Uint128)         // an arbitration request is recorded
    | Check(batch: nat, role: string, id: Uint128)     // a write request is checked
    | Apply(batch: nat)                                // a write request that passed is carried out

  /** The record, the requests that passed and wait, and those that were carried out. */
  datatype State = State(records: Records, passed: map<nat, Request>, applied: seq<nat>)

  datatype Request = Request(role: string, id: Uint128)

  const START := State(map[], map[], [])

  /** Requests are numbered: each is checked once, and carried out only if it passed. */
  predicate Enabled(s: State, step: Step) {
    match step
    case Submit(_, _) => true
    case Check(batch, _, _) => batch !in s.passed
    case Apply(batch) => batch in s.passed && batch !in s.applied
  }

  function Next(s: State, step: Step): State
    requires Enabled(s, step)
  {
    match step
    case Submit(role, id) => s.(records := Record(s.records, role, id).0)
    case Check(batch, role, id) =>
      if Holds(s.records, role, id) then s.(passed := s.passed[batch := Request(role, id)]) else s
    case Apply(batch) => s.(applied := s.applied + [batch])
  }

  function After(steps: seq<Step>): Option<State> {
    if steps == [] then Some(START)
    else
      var before, step := After(steps[..|steps| - 1]), steps[|steps| - 1];
      if before.Some? && Enabled(before.value, step) then Some(Next(before.value, step)) else None
  }

  /** The election IDs submitted up to some step. */
  function Submitted(steps: seq<Step>): seq<Submission> {
    if steps == [] then []
    else
      Submitted(steps[..|steps| - 1]) +
      match steps[|steps| - 1] case Submit(role, id) => [Submission(role, id)] case _ => []
  }

  /** The ID is, as a number, the greatest submitted for the role so far. */
  ghost predicate Greatest(steps: seq<Step>, role: string, id: Uint128) {
    && (exists s :: s in Submitted(steps) && For(s, role))
    && (exists s :: s in Submitted(steps) && For(s, role) && Number(s.id) == Number(id))
    && forall s | s in Submitted(steps) && For(s, role) :: Number(s.id) <= Number(id)
  }

  /** What is recorded depends only on what was submitted. */
  lemma {:induction false} RecordsSubmitted(steps: seq<Step>)
    requires After(steps).Some?
    ensures After(steps).value.records == Recorded(Submitted(steps))
  {
    if steps != [] {
      var front := steps[..|steps| - 1];
      RecordsSubmitted(front);
      hide Record;
      match steps[|steps| - 1]
      case Submit(role, id) => RecordedSnoc(Submitted(front), Submission(role, id));
      case _ => assert Submitted(front) + [] == Submitted(front);
    }
  }

  /** A write passes its check exactly if its ID is the greatest submitted for its role. */
  lemma CheckIff(steps: seq<Step>, role: string, id: Uint128)
    requires After(steps).Some?
    ensures Holds(After(steps).value.records, role, id) <==> Greatest(steps, role, id)
  {
    RecordsSubmitted(steps);
    RecordedIsMaximum(Submitted(steps), role);
    var rs := Recorded(Submitted(steps));
    if role in rs {
      Comparisons(rs[role], id);
    }
    hide Number, Same, Recorded, Submitted;
  }

  /** Every request carried out passed a check, at a step when its ID was the greatest
      submitted for its role. */
  lemma {:induction false} AppliedWasChecked(steps: seq<Step>, batch: nat) returns (k: nat)
    requires After(steps).Some? && (batch in After(steps).value.passed || batch in After(steps).value.applied)
    ensures k < |steps| && steps[k].Check? && steps[k].batch == batch
    ensures Greatest(steps[..k], steps[k].role, steps[k].id)
  {
    var front, last := steps[..|steps| - 1], steps[|steps| - 1];
    var s := After(front).value;
    if batch in s.passed || batch in s.applied {
      k := AppliedWasChecked(front, batch);
      assert front[..k] == steps[..k];
    } else {
      CheckIff(front, last.role, last.id);
      k := |front|;
    }
  }

  lemma SubmittedPrefix(steps: seq<Step>, k: nat)
    requires k <= |steps|
    ensures forall s | s in Submitted(steps[..k]) :: s in Submitted(steps)
  {
    if k < |steps| {
      SubmittedPrefix(steps[..|steps| - 1], k);
      assert steps[..|steps| - 1][..k] == steps[..k];
    } else {
      assert steps[..k] == steps;
    }
  }

  lemma SubmittedAt(steps: seq<Step>, k: nat)
    requires k < |steps| && steps[k].Submit?
    ensures Submission(steps[k].claimant, steps[k].claim) in Submitted(steps)
  {
    if k < |steps| - 1 {
      SubmittedAt(steps[..|steps| - 1], k);
    }
  }

  /** Once an ID is submitted for a role, no smaller ID passes a check for that role again. */
  lemma SmallerNeverPasses(steps: seq<Step>, k: nat, role: string, id: Uint128)
    requires After(steps).Some? && k < |steps| && steps[k].Submit? && NameOf(steps[k].claimant) == role
    requires Number(id) < Number(steps[k].claim)
    ensures !Holds(After(steps).value.records, role, id)
  {
    CheckIff(steps, role, id);
    SubmittedAt(steps, k);
    hide Holds, Number;
  }

  predicate Claims(step: Step, s: Submission) {
    step.Submit? && step.claimant == s.role && step.claim == s.id
  }

  predicate ClaimedSince(steps: seq<Step>, k: nat, s: Submission) {
    exists j | k <= j < |steps| :: Claims(steps[j], s)
  }

  lemma ClaimedLast(steps: seq<Step>, k: nat, s: Submission)
    requires k < |steps|
    ensures ClaimedSince(steps, k, s) <==>
            ClaimedSince(steps[..|steps| - 1], k, s) || Claims(steps[|steps| - 1], s)
  {
    var n := |steps| - 1;
    if j :| k <= j < |steps| && Claims(steps[j], s) {
      assert j < n ==> steps[..n][j] == steps[j];
    }
    if j :| k <= j < n && Claims(steps[..n][j], s) {
      assert steps[..n][j] == steps[j];
    }
    hide Claims;
  }

  lemma SubmittedLast(steps: seq<Step>, s: Submission)
    requires steps != []
    ensures s in Submitted(steps) <==> s in Submitted(steps[..|steps| - 1]) || Claims(steps[|steps| - 1], s)
  {
  }

  lemma {:induction false} SubmittedSince(steps: seq<Step>, k: nat, s: Submission)
    requires k <= |steps|
    ensures s in Submitted(steps) <==> s in Submitted(steps[..k]) || ClaimedSince(steps, k, s)
  {
    if k == |steps| {
      assert steps[..k] == steps;
    } else {
      var n := |steps| - 1;
      SubmittedSince(steps[..n], k, s);
      assert steps[..n][..k] == steps[..k];
      SubmittedLast(steps, s);
      ClaimedLast(steps, k, s);
      hide *;
    }
  }

  /** No greater ID was submitted for the role from some step on. */
  ghost predicate Unbeaten(steps: seq<Step>, k: nat, role: string, id: Uint128) {
    forall j | k <= j < |steps| && steps[j].Submit? && NameOf(steps[j].claimant) == role :: Number(steps[j].claim) <= Number(id)
  }

  /** Carrying a write out is not checked again: a request is carried out with an ID that is
      still the greatest exactly if no greater one was submitted for its role in between. */
  lemma AppliedInTime(steps: seq<Step>, k: nat, role: string, id: Uint128)
    requires After(steps).Some? && k <= |steps| && Greatest(steps[..k], role, id)
    ensures Greatest(steps, role, id) <==> Unbeaten(steps, k, role, id)
  {
    SubmittedPrefix(steps, k);
    hide Number, Submitted;
    if Greatest(steps, role, id) {
      forall j | k <= j < |steps| && steps[j].Submit? && NameOf(steps[j].claimant) == role
        ensures Number(steps[j].claim) <= Number(id)
      {
        SubmittedAt(steps, j);
      }
    }
    if Unbeaten(steps, k, role, id) {
      forall s | s in Submitted(steps) && For(s, role)
        ensures Number(s.id) <= Number(id)
      {
        SubmittedSince(steps, k, s);
      }
    }
  }

  /** So it can be too late: a write passes, a greater ID is recorded, the write is carried out. */
  lemma StaleWrite(a: Uint128, b: Uint128)
    requires Number(a) < Number(b)
    ensures var steps := [Submit(null, a), Check(0, "", a), Submit(null, b), Apply(0)];
            After(steps).Some? && After(steps).value.applied == [0] && !Holds(After(steps).value.records, "", a)
  {
    var steps := [Submit(null, a), Check(0, "", a), Submit(null, b), Apply(0)];
    Comparisons(a, b);
    Comparisons(b, a);
    assert steps[..3] == [Submit(null, a), Check(0, "", a), Submit(null, b)];
    assert steps[..3][..2] == [Submit(null, a), Check(0, "", a)];
    assert steps[..3][..2][..1] == [Submit(null, a)];
    assert steps[..3][..2][..1][..0] == [];
    assert After([Submit(null, a)]) == Some(START.(records := map["" := a]));
    assert After(steps[..3][..2]) == Some(State(map["" := a], map[0 := Request("", a)], []));
    assert map["" := a]["" := b] == map["" := b];
    assert Record(map["" := a], null, b) == (map["" := b], b);
    assert After(steps[..3]) == Some(State(map["" := b], map[0 := Request("", a)], []));
  }
}
