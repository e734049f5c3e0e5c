/** First-run setup under every interleaving: the conditional UPDATE is the claim, and its row lock lasts to commit or rollback. */
module Setup {
  import opened Wrappers

  datatype Account = Account(tenant: string, subject: string)

  /** Where a setup request stands, or how it was answered. */
  datatype Phase =
    | Waiting            // has not executed its UPDATE
    | Claimed            // its UPDATE changed the row; transaction open
    | Inserted           // the account is flushed; transaction open
    | Created            // committed
    | AlreadyConfigured  // its UPDATE changed no row
    | AccountExists      // the flush violated the unique constraint; rolled back
    | Aborted            // the transaction was lost before commit

  datatype Request = Request(account: Account, phase: Phase)

  /** Committed rows, the holder of the row lock, the requests, and the committed admin_created events by request. */
  datatype State = State(initialized: bool, lock: Option<nat>, users: set<Account>, requests: seq<Request>, audit: seq<nat>)

  datatype Step =
    | Claim(i: nat)
    | Insert(i: nat)
    | Commit(i: nat)
    | Abort(i: nat)
    | OtherInsert(account: Account)  // some other endpoint commits an account
    | OtherDelete(account: Account)

  predicate Initial(s: State) {
    !s.initialized && s.lock.None? && s.audit == [] && forall i :: 0 <= i < |s.requests| ==> s.requests[i].phase.Waiting?
  }

  /** An UPDATE waits for the row lock; an insert waits for an uncommitted row with the same key. */
  predicate Enabled(s: State, step: Step) {
    match step
    case Claim(i) => i < |s.requests| && s.requests[i].phase.Waiting? && s.lock.None?
    case Insert(i) => i < |s.requests| && s.requests[i].phase.Claimed?
    case Commit(i) => i < |s.requests| && s.requests[i].phase.Inserted?
    case Abort(i) => i < |s.requests| && (s.requests[i].phase.Claimed? || s.requests[i].phase.Inserted?)
    case OtherInsert(account) =>
      forall i :: 0 <= i < |s.requests| ==> !(s.requests[i].phase.Inserted? && s.requests[i].account == account)
    case OtherDelete(account) => true
  }

  function SetPhase(s: State, i: nat, phase: Phase): State
    requires i < |s.requests|
  {
    s.(requests := s.requests[i := s.requests[i].(phase := phase)])
  }

  function Take(s: State, step: Step): State
    requires Enabled(s, step)
  {
    match step
    case Claim(i) =>
      if s.initialized then SetPhase(s, i, AlreadyConfigured)
      else SetPhase(s, i, Claimed).(lock := Some(i))
    case Insert(i) =>
      if s.requests[i].account in s.users then SetPhase(s, i, AccountExists).(lock := None)
      else SetPhase(s, i, Inserted)
    case Commit(i) =>
      SetPhase(s, i, Created).(initialized := true, lock := None, users := s.users + {s.requests[i].account},
                               audit := s.audit + [i])
    case Abort(i) => SetPhase(s, i, Aborted).(lock := None)
    case OtherInsert(account) => s.(users := s.users + {account})
    case OtherDelete(account) => s.(users := s.users - {account})
  }

  /** Reachable by some interleaving of the given steps. */
  ghost predicate Runs(s: State, steps: seq<Step>, t: State)
    decreases |steps|
  {
    if steps == [] then s == t else Enabled(s, steps[0]) && Runs(Take(s, steps[0]), steps[1..], t)
  }

  // ---- safety

  function CreatedRequests(s: State): set<nat> {
    set i: nat | i < |s.requests| && s.requests[i].phase.Created?
  }

  ghost predicate Invariant(s: State) {
    && (forall i :: 0 <= i < |s.requests| ==>
          (s.requests[i].phase.Claimed? || s.requests[i].phase.Inserted? <==> s.lock == Some(i)))
    && (s.lock.Some? ==> !s.initialized && s.lock.value < |s.requests|)
    && (forall i :: 0 <= i < |s.requests| && s.requests[i].phase.Inserted? ==> s.requests[i].account !in s.users)
    && (forall i :: 0 <= i < |s.requests| && s.requests[i].phase.AlreadyConfigured? ==> s.initialized)
    && |s.audit| == (if s.initialized then 1 else 0)
    && CreatedRequests(s) == (set i | i in s.audit)
  }

  lemma InitialInvariant(s: State)
    requires Initial(s)
    ensures Invariant(s)
  {
  }

  lemma StepKeepsInvariant(s: State, step: Step)
    requires Invariant(s) && Enabled(s, step)
    ensures Invariant(Take(s, step))
  {
    var t := Take(s, step);
    match step {
      case Commit(i) =>
        assert s.lock == Some(i) && s.audit == [];
        assert CreatedRequests(t) == CreatedRequests(s) + {i};
      case Claim(i) => assert CreatedRequests(t) == CreatedRequests(s);
      case Insert(i) => assert s.lock == Some(i) && CreatedRequests(t) == CreatedRequests(s);
      case Abort(i) => assert s.lock == Some(i) && CreatedRequests(t) == CreatedRequests(s);
      case OtherInsert(_) =>
      case OtherDelete(_) =>
    }
  }

  lemma {:induction false} RunKeepsInvariant(s: State, steps: seq<Step>, t: State)
    requires Invariant(s) && Runs(s, steps, t)
    ensures Invariant(t)
    decreases |steps|
  {
    if steps == [] {
    } else {
      StepKeepsInvariant(s, steps[0]);
      RunKeepsInvariant(Take(s, steps[0]), steps[1..], t);
    }
  }

  /**
   * Every interleaving commits at most one administrator; the flag is committed true exactly when one has
   * committed; and nobody is told the installation is configured before that.
   */
  lemma OneAdministrator(s: State, steps: seq<Step>, t: State)
    requires Initial(s) && Runs(s, steps, t)
    ensures |CreatedRequests(t)| == (if t.initialized then 1 else 0)
    ensures CreatedRequests(t) == set i | i in t.audit
    ensures forall i :: 0 <= i < |t.requests| && t.requests[i].phase.AlreadyConfigured? ==> t.initialized
  {
    InitialInvariant(s);
    RunKeepsInvariant(s, steps, t);
    if t.initialized {
      assert t.audit == [t.audit[0]];
      assert CreatedRequests(t) == {t.audit[0]};
    }
  }

  // ---- the claim is given back

  /** A flush that hits an existing account leaves the row unclaimed, and the next waiting request can claim it. */
  lemma FailedInsertReturnsClaim(s: State, i: nat, j: nat)
    requires Invariant(s) && Enabled(s, Insert(i)) && s.requests[i].account in s.users
    requires j < |s.requests| && s.requests[j].phase.Waiting?
    ensures var t := Take(s, Insert(i));
            && !t.initialized && t.audit == s.audit && t.users == s.users
            && Enabled(t, Claim(j)) && Take(t, Claim(j)).requests[j].phase.Claimed?
  {
    assert s.lock == Some(i);
  }

  // ---- progress

  predicate Finished(r: Request) {
    r.phase.Created? || r.phase.AlreadyConfigured? || r.phase.AccountExists? || r.phase.Aborted?
  }

  /** Some unfinished request can always take its next step. */
  lemma NoDeadlock(s: State) returns (step: Step)
    requires Invariant(s) && exists i :: 0 <= i < |s.requests| && !Finished(s.requests[i])
    ensures Enabled(s, step) && (step.Claim? || step.Insert? || step.Commit?)
  {
    if s.lock.Some? {
      var i := s.lock.value;
      step := if s.requests[i].phase.Claimed? then Insert(i) else Commit(i);
    } else {
      var i :| 0 <= i < |s.requests| && !Finished(s.requests[i]);
      step := Claim(i);
    }
  }

  function Remaining(requests: seq<Request>): nat {
    if requests == [] then 0 else Weight(requests[0]) + Remaining(requests[1..])
  }

  function Weight(r: Request): nat {
    if r.phase.Waiting? then 3 else if r.phase.Claimed? then 2 else if r.phase.Inserted? then 1 else 0
  }

  predicate OfRequest(step: Step) {
    !step.OtherInsert? && !step.OtherDelete?
  }

  lemma {:induction false} RemainingAfter(requests: seq<Request>, i: nat, r: Request)
    requires i < |requests|
    ensures Remaining(requests[i := r]) == Remaining(requests) - Weight(requests[i]) + Weight(r)
  {
    if i > 0 {
      RemainingAfter(requests[1..], i - 1, r);
      assert requests[i := r][1..] == requests[1..][i - 1 := r];
    } else {
      assert requests[0 := r][1..] == requests[1..];
    }
  }

  lemma StepMakesProgress(s: State, step: Step)
    requires Enabled(s, step)
    ensures |Take(s, step).requests| == |s.requests|
    ensures Remaining(Take(s, step).requests) <= Remaining(s.requests) - (if OfRequest(step) then 1 else 0)
  {
    if OfRequest(step) {
      RemainingAfter(s.requests, step.i, Take(s, step).requests[step.i]);
    }
  }

  function RequestSteps(steps: seq<Step>): nat {
    if steps == [] then 0 else (if OfRequest(steps[0]) then 1 else 0) + RequestSteps(steps[1..])
  }

  /** n requests take at most 3n steps in all, so with NoDeadlock every request is answered. */
  lemma {:induction false} RunsAreBounded(s: State, steps: seq<Step>, t: State)
    requires Runs(s, steps, t)
    ensures RequestSteps(steps) + Remaining(t.requests) <= Remaining(s.requests) <= 3 * |s.requests|
    decreases |steps|
  {
    RemainingAtMost(s.requests);
    if steps == [] {
    } else {
      StepMakesProgress(s, steps[0]);
      RunsAreBounded(Take(s, steps[0]), steps[1..], t);
    }
  }

  lemma {:induction false} RemainingAtMost(requests: seq<Request>)
    ensures Remaining(requests) <= 3 * |requests|
  {
    if requests == [] {
    } else {
      RemainingAtMost(requests[1..]);
    }
  }

  /** Once all requests are answered, either one administrator exists or every attempt lost its account or its connection. */
  lemma AllAnswered(s: State, steps: seq<Step>, t: State)
    requires Initial(s) && Runs(s, steps, t)
    requires forall i :: 0 <= i < |t.requests| ==> Finished(t.requests[i])
    ensures t.lock.None?
    ensures t.initialized || forall i :: 0 <= i < |t.requests| ==> t.requests[i].phase.AccountExists? || t.requests[i].phase.Aborted?
  {
    InitialInvariant(s);
    RunKeepsInvariant(s, steps, t);
    forall i | 0 <= i < |t.requests| && t.requests[i].phase.Created? ensures t.initialized {
      assert i in CreatedRequests(t);
    }
  }

  // ---- the accounts that were made

  /** The account of every answered-with-success request is stored, unless it was deleted since. */
  ghost predicate Stored(s: State, deleted: set<Account>) {
    forall i :: 0 <= i < |s.requests| && s.requests[i].phase.Created? ==>
        s.requests[i].account in s.users || s.requests[i].account in deleted
  }

  function Deleted(steps: seq<Step>): set<Account> {
    if steps == [] then {}
    else (if steps[0].OtherDelete? then {steps[0].account} else {}) + Deleted(steps[1..])
  }

  lemma {:induction false} RunKeepsStored(s: State, steps: seq<Step>, t: State, deleted: set<Account>)
    requires Runs(s, steps, t) && Stored(s, deleted)
    ensures Stored(t, deleted + Deleted(steps)) && |t.requests| == |s.requests|
    ensures forall i :: 0 <= i < |s.requests| ==> t.requests[i].account == s.requests[i].account
    decreases |steps|
  {
    if steps == [] {
      assert deleted + {} == deleted;
    } else {
      var now := if steps[0].OtherDelete? then {steps[0].account} else {};
      RunKeepsStored(Take(s, steps[0]), steps[1..], t, deleted + now);
      assert deleted + now + Deleted(steps[1..]) == deleted + Deleted(steps);
    }
  }

  /** In every interleaving the administrator that setup answered with is a stored account, unless somebody deleted it since. */
  lemma CreatedAccountIsStored(s: State, steps: seq<Step>, t: State, i: nat)
    requires Initial(s) && Runs(s, steps, t) && i < |t.requests| && t.requests[i].phase.Created?
    ensures i < |s.requests| && (s.requests[i].account in t.users || s.requests[i].account in Deleted(steps))
  {
    RunKeepsStored(s, steps, t, {});
    assert {} + Deleted(steps) == Deleted(steps);
  }
}
