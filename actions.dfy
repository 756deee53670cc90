/** The mutations one invocation can issue, and what happens when the cloud
    side reports a failure: each call is checked, and the first one that
    does not succeed aborts the invocation (after having been issued). */
module Actions {

  /** The group and instance mutations of the replacement. */
  datatype Action =
    | Suspend                        // suspend the four scaling processes
    | SetDesired(capacity: nat)      // update the group's desired capacity
    | ResumeLaunch                   // resume only the Launch process
    | ResumeAll                      // resume every suspended process
    | Terminate(instanceId: string)  // terminate an EC2 instance
    | SetUnhealthy(instanceId: string)  // set an instance's health to Unhealthy

  datatype Outcome = Completed | Aborted(failed: Action)

  /** The calls actually issued, and how the invocation ended. */
  datatype Run = Run(issued: seq<Action>, outcome: Outcome)

  /** `plan[k]` is the first call the cloud side rejects. */
  predicate FirstRejectedAt(plan: seq<Action>, accepts: Action -> bool, k: int)
  {
    0 <= k < |plan| && !accepts(plan[k]) && forall j :: 0 <= j < k ==> accepts(plan[j])
  }

  /** Issue the planned calls in order; `accepts(a)` is whether the response
      to call `a` reports success. */
  function Execute(plan: seq<Action>, accepts: Action -> bool): Run
  {
    if plan == [] then Run([], Completed)
    else if !accepts(plan[0]) then Run([plan[0]], Aborted(plan[0]))
    else
      var rest := Execute(plan[1..], accepts);
      Run([plan[0]] + rest.issued, rest.outcome)
  }

  /** A run completes iff every planned call is accepted, and then it has
      issued the whole plan. */
  lemma {:induction false} ExecuteCompletes(plan: seq<Action>, accepts: Action -> bool)
    ensures Execute(plan, accepts).outcome.Completed? <==> forall k :: 0 <= k < |plan| ==> accepts(plan[k])
    ensures Execute(plan, accepts).outcome.Completed? ==> Execute(plan, accepts).issued == plan
  {
    if plan != [] && accepts(plan[0]) {
      ExecuteCompletes(plan[1..], accepts);
      assert forall k :: 1 <= k < |plan| ==> plan[k] == plan[1..][k - 1];
      assert [plan[0]] + plan[1..] == plan;
    }
  }

  /** A run that fails has issued the plan up to and including the first
      rejected call, and fails with that call. */
  lemma {:induction false} ExecuteAborts(plan: seq<Action>, accepts: Action -> bool)
    ensures Execute(plan, accepts).outcome.Aborted? ==>
      var n := |Execute(plan, accepts).issued|;
      0 < n <= |plan| && Execute(plan, accepts).issued == plan[..n]
      && FirstRejectedAt(plan, accepts, n - 1) && Execute(plan, accepts).outcome.failed == plan[n - 1]
  {
    if plan != [] && accepts(plan[0]) {
      ExecuteAborts(plan[1..], accepts);
      var rest := Execute(plan[1..], accepts);
      if rest.outcome.Aborted? {
        var m := |rest.issued|;
        assert [plan[0]] + rest.issued == plan[..m + 1];
        assert forall k :: 1 <= k < m + 1 ==> plan[k] == plan[1..][k - 1];
      }
    }
  }

  /** Running two plans back to back: the second runs only if the first completed. */
  lemma {:induction false} ExecuteAppend(p: seq<Action>, q: seq<Action>, accepts: Action -> bool)
    ensures Execute(p + q, accepts) ==
      if Execute(p, accepts).outcome.Aborted? then Execute(p, accepts)
      else Run(p + Execute(q, accepts).issued, Execute(q, accepts).outcome)
  {
    if p == [] {
      assert p + q == q;
    } else {
      ExecuteAppend(p[1..], q, accepts);
      assert (p + q)[1..] == p[1..] + q;
      assert (p + q)[0] == p[0];
      assert [p[0]] + (p[1..] + Execute(q, accepts).issued) == p + Execute(q, accepts).issued;
    }
  }

  /** A rejected call ends the run right after it, whatever was planned next. */
  lemma AbortsAt(p: seq<Action>, a: Action, rest: seq<Action>, accepts: Action -> bool)
    requires forall k :: 0 <= k < |p| ==> accepts(p[k])
    requires !accepts(a)
    ensures Execute(p + [a] + rest, accepts) == Run(p + [a], Aborted(a))
  {
    ExecuteAppend(p + [a], rest, accepts);
    ExecuteAppend(p, [a], accepts);
    AllAccepted(p, accepts);
  }

  /** A plan whose every call is accepted is issued in full. */
  lemma {:induction false} AllAccepted(p: seq<Action>, accepts: Action -> bool)
    requires forall k :: 0 <= k < |p| ==> accepts(p[k])
    ensures Execute(p, accepts) == Run(p, Completed)
  {
    if p != [] {
      AllAccepted(p[1..], accepts);
      assert [p[0]] + p[1..] == p;
    }
  }
}
