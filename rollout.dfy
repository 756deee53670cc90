/** `replace_old_instances`: one invocation looks at a snapshot of a managed
    group, suspends the scaling processes if old instances remain and they
    are not all suspended yet, and then takes the first applicable step of
    the rolling replacement: correct an overshoot of the maximum size, raise
    the desired capacity, wait for launches, wait for readiness, retire one
    old instance, or resume the suspended processes. Every decision of the
    invocation is taken on the same snapshot. */
module Rollout {
  import opened Model
  import opened Health
  import opened Filters
  import opened Policy
  import opened Actions
  import opened Overshoot

  /** The six branches of the replacement, plus the case where none applies. */
  datatype Branch =
    | CorrectOvershoot  // more instances than the maximum size
    | RaiseCapacity     // state A: start the replacement by adding an instance
    | AwaitLaunch       // state B: fewer instances than desired
    | AwaitReadiness    // state C: new instances unready or old ones terminating
    | RetireOld         // state D: mark one old instance unhealthy
    | Complete          // state E: resume every suspended process
    | Idle              // nothing to do

  function NewInstances(s: Snapshot): seq<Instance>
  {
    Apply(s, New, s.group.instances)
  }

  function OldInstances(s: Snapshot): seq<Instance>
  {
    Apply(s, Old, s.group.instances)
  }

  /** The branch the chain of conditions selects, the conditions taken in order. */
  function Decide(s: Snapshot): Branch
  {
    var g := s.group;
    if |g.instances| > g.maxSize then CorrectOvershoot
    else if g.desiredCapacity < g.maxSize && NewInstances(s) == [] then RaiseCapacity
    else if |g.instances| < g.desiredCapacity then AwaitLaunch
    else if Apply(s, Unready, NewInstances(s)) != [] || Apply(s, Terminating, OldInstances(s)) != [] then AwaitReadiness
    else if OldInstances(s) != [] then RetireOld
    else if g.suspendedProcesses != [] then Complete
    else Idle
  }

  /** The old instance state D marks unhealthy: the first unready old
      instance, or else the first old instance. */
  function RetireCandidate(s: Snapshot): (x: Instance)
    requires OldInstances(s) != []
    ensures x in OldInstances(s) && x.launchConfigurationName != Some(s.group.launchConfigurationName)
    ensures (exists y :: y in OldInstances(s) && InstanceStatus(s, y) != ReadyStatus) ==>
      InstanceStatus(s, x) != ReadyStatus
    ensures Apply(s, Unready, OldInstances(s)) != [] ==> x == Apply(s, Unready, OldInstances(s))[0]
    ensures InstanceStatus(s, x) == ReadyStatus ==> x == OldInstances(s)[0]
  {
    var unready := Apply(s, Unready, OldInstances(s));
    ApplyMembers(s, Old, s.group.instances, OldInstances(s)[0]);
    if unready != [] then
      ApplyMembers(s, Unready, OldInstances(s), unready[0]);
      ApplyMembers(s, Old, s.group.instances, unready[0]);
      unready[0]
    else
      forall y | y in OldInstances(s)
        ensures InstanceStatus(s, y) == ReadyStatus
      {
        ApplyMembers(s, Unready, OldInstances(s), y);
      }
      OldInstances(s)[0]
  }

  /** The selection as line 179 writes it: when no old instance is unready,
      the whole list of old instances is taken for the instance, and reading
      its InstanceId raises before any call is made (`None`). */
  function RetireCandidateAsWritten(s: Snapshot): (r: Option<Instance>)
    requires OldInstances(s) != []
    ensures r.Some? <==> exists y :: y in OldInstances(s) && InstanceStatus(s, y) != ReadyStatus
    ensures r.Some? ==> r.value == RetireCandidate(s)
  {
    var unready := Apply(s, Unready, OldInstances(s));
    forall y | y in OldInstances(s)
      ensures y in unready <==> InstanceStatus(s, y) != ReadyStatus
    {
      ApplyMembers(s, Unready, OldInstances(s), y);
    }
    if unready != [] then
      assert unready[0] in unready;
      ApplyMembers(s, Unready, OldInstances(s), unready[0]);
      Some(unready[0])
    else None
  }

  /** The calls of the suspension gate. */
  function GatePlan(s: Snapshot): seq<Action>
  {
    if SuspendRequired(s) then [Suspend] else []
  }

  /** The calls of the branch taken. */
  function MainPlan(s: Snapshot): seq<Action>
  {
    match Decide(s)
    case CorrectOvershoot => OvershootPlan(s)
    case RaiseCapacity => [SetDesired(s.group.desiredCapacity + 1)]
    case AwaitLaunch => [ResumeLaunch]
    case AwaitReadiness => []
    case RetireOld => [SetUnhealthy(RetireCandidate(s).id)]
    case Complete => [ResumeAll]
    case Idle => []
  }

  /** Every call one invocation plans, in order. */
  function Plan(s: Snapshot): seq<Action>
  {
    GatePlan(s) + MainPlan(s)
  }

  // ---------------------------------------------------------------------
  // The controller
  // ---------------------------------------------------------------------

  /** One checked call: a response that does not report success aborts the
      invocation after the call. */
  method Issue(a: Action, accepts: Action -> bool) returns (issued: seq<Action>, outcome: Outcome)
    ensures Run(issued, outcome) == Execute([a], accepts)
  {
    issued := [a];
    if accepts(a) {
      outcome := Completed;
    } else {
      outcome := Aborted(a);
    }
  }

  /** State D, line 176-185, with the first old instance taken at line 179. */
  method Retire(s: Snapshot, oldInstances: seq<Instance>, accepts: Action -> bool)
    returns (issued: seq<Action>, outcome: Outcome)
    requires oldInstances == OldInstances(s) && oldInstances != []
    ensures Run(issued, outcome) == Execute([SetUnhealthy(RetireCandidate(s).id)], accepts)
  {
    var oldUnready := Select(s, Unready, oldInstances);
    var instance: Instance;
    if oldUnready != [] {
      instance := oldUnready[0];
    } else {
      instance := oldInstances[0];
    }
    issued, outcome := Issue(SetUnhealthy(instance.id), accepts);
  }

  /** The branch chain of lines 111-195, on an instance count within the
      maximum size. */
  method WithinMaxSize(s: Snapshot, accepts: Action -> bool) returns (issued: seq<Action>, outcome: Outcome)
    requires !Overshooting(s)
    ensures Run(issued, outcome) == Execute(MainPlan(s), accepts)
  {
    var g := s.group;
    var newInstances := Select(s, New, g.instances);
    if g.desiredCapacity < g.maxSize && newInstances == [] {
      assert Decide(s) == RaiseCapacity;
      issued, outcome := Issue(SetDesired(g.desiredCapacity + 1), accepts);
    } else if |g.instances| < g.desiredCapacity {
      assert Decide(s) == AwaitLaunch;
      issued, outcome := Issue(ResumeLaunch, accepts);
    } else {
      issued, outcome := Settled(s, newInstances, accepts);
    }
  }

  /** States C, D and E (lines 140-195): the group has its desired number of
      instances and the replacement has started. */
  method Settled(s: Snapshot, newInstances: seq<Instance>, accepts: Action -> bool)
    returns (issued: seq<Action>, outcome: Outcome)
    requires !Overshooting(s) && newInstances == NewInstances(s)
    requires !(s.group.desiredCapacity < s.group.maxSize && newInstances == [])
    requires |s.group.instances| >= s.group.desiredCapacity
    ensures Run(issued, outcome) == Execute(MainPlan(s), accepts)
  {
    var newUnready := Select(s, Unready, newInstances);
    var oldInstances := Select(s, Old, s.group.instances);
    var oldTerminating := Select(s, Terminating, oldInstances);
    if newUnready != [] || oldTerminating != [] {
      assert Decide(s) == AwaitReadiness;
      issued, outcome := [], Completed;
    } else if oldInstances != [] {
      assert Decide(s) == RetireOld;
      issued, outcome := Retire(s, oldInstances, accepts);
    } else if s.group.suspendedProcesses != [] {
      assert Decide(s) == Complete;
      issued, outcome := Issue(ResumeAll, accepts);
    } else {
      assert Decide(s) == Idle;
      issued, outcome := [], Completed;
    }
  }

  /** One invocation on a managed group: the suspension gate, then the branch. */
  method ReplaceOldInstances(s: Snapshot, accepts: Action -> bool) returns (issued: seq<Action>, outcome: Outcome)
    ensures Run(issued, outcome) == Execute(Plan(s), accepts)
  {
    ExecuteAppend(GatePlan(s), MainPlan(s), accepts);
    issued, outcome := [], Completed;
    var required := IsSuspendProcessesRequired(s);
    if required {
      issued, outcome := Issue(Suspend, accepts);
      if outcome.Aborted? {
        return;
      }
    }
    var mainIssued: seq<Action>, mainOutcome: Outcome;
    if |s.group.instances| > s.group.maxSize {
      mainIssued, mainOutcome := TerminateExcess(s, accepts);
    } else {
      mainIssued, mainOutcome := WithinMaxSize(s, accepts);
    }
    issued, outcome := issued + mainIssued, mainOutcome;
  }

  // ---------------------------------------------------------------------
  // What one invocation does
  // ---------------------------------------------------------------------

  /** A branch issues at most one call and never a suspension or a
      termination, except the overshoot correction, which issues only
      terminate calls. */
  lemma OneStepAtATime(s: Snapshot)
    ensures Decide(s) == CorrectOvershoot <==> Overshooting(s)
    ensures Overshooting(s) ==> forall a :: a in MainPlan(s) ==> a.Terminate?
    ensures !Overshooting(s) ==>
      |MainPlan(s)| <= 1 && forall a :: a in MainPlan(s) ==> !a.Terminate? && a != Suspend
  {
    if Overshooting(s) {
      OvershootCalls(s);
    }
  }

  /** Processes are suspended exactly when old instances remain and some
      scaling process is not suspended, always as the first call, and never
      by a branch. */
  lemma GateFirst(s: Snapshot)
    ensures Suspend in Plan(s) <==> SuspendRequired(s)
    ensures SuspendRequired(s) ==> Plan(s)[0] == Suspend
    ensures forall k :: 0 < k < |Plan(s)| ==> Plan(s)[k] != Suspend
  {
    OneStepAtATime(s);
    assert forall k :: 0 <= k < |MainPlan(s)| ==> MainPlan(s)[k] in MainPlan(s);
  }

  /** Instances are terminated only to correct an overshoot, and only marked
      instances not already in the Terminating lifecycle state. */
  lemma TerminateOnlyOnOvershoot(s: Snapshot, id: string)
    ensures Terminate(id) in Plan(s) ==>
      Overshooting(s) && exists x :: x in Marked(s) && x.id == id && x.lifecycleState != Some("Terminating")
  {
    OneStepAtATime(s);
    if Terminate(id) in Plan(s) {
      assert Terminate(id) in MainPlan(s);
      OvershootCalls(s);
    }
  }

  /** The capacity is raised by exactly one, never beyond the maximum size,
      and only while no instance has the current launch configuration. */
  lemma RaiseCapacityByOne(s: Snapshot, c: nat)
    ensures SetDesired(c) in Plan(s) ==>
      c == s.group.desiredCapacity + 1 && c <= s.group.maxSize
      && |s.group.instances| <= s.group.maxSize && NewInstances(s) == []
      && MainPlan(s) == [SetDesired(c)]
  {
    OneStepAtATime(s);
    if SetDesired(c) in Plan(s) {
      assert SetDesired(c) in MainPlan(s);
      assert Decide(s) == RaiseCapacity;
    }
  }

  /** Only the Launch process is resumed while the group has fewer instances
      than desired. */
  lemma AwaitLaunchResumesLaunch(s: Snapshot)
    ensures ResumeLaunch in Plan(s) <==> Decide(s) == AwaitLaunch
    ensures ResumeLaunch in Plan(s) ==>
      |s.group.instances| < s.group.desiredCapacity && MainPlan(s) == [ResumeLaunch]
  {
    OneStepAtATime(s);
    if ResumeLaunch in Plan(s) {
      assert ResumeLaunch in MainPlan(s);
      assert Decide(s) == AwaitLaunch;
    }
  }

  /** While a new instance is not ready or an old one is terminating, the
      branch issues no call at all. */
  lemma AwaitReadinessWaits(s: Snapshot, x: Instance)
    requires !Overshooting(s) && |s.group.instances| >= s.group.desiredCapacity
    requires !(s.group.desiredCapacity < s.group.maxSize && NewInstances(s) == [])
    requires (x in NewInstances(s) && InstanceStatus(s, x) != ReadyStatus)
          || (x in OldInstances(s) && InstanceStatus(s, x) in TerminatingStatuses)
    ensures MainPlan(s) == []
  {
    if x in NewInstances(s) && InstanceStatus(s, x) != ReadyStatus {
      ApplyMembers(s, Unready, NewInstances(s), x);
      assert x in Apply(s, Unready, NewInstances(s));
    } else {
      ApplyMembers(s, Terminating, OldInstances(s), x);
      assert x in Apply(s, Terminating, OldInstances(s));
    }
    assert Decide(s) == AwaitReadiness;
  }

  /** Exactly one old instance is marked unhealthy, an unready one whenever
      there is one, and only once no new instance is unready and no old
      instance is terminating. */
  lemma RetireExactlyOne(s: Snapshot, id: string)
    ensures SetUnhealthy(id) in Plan(s) ==>
      MainPlan(s) == [SetUnhealthy(id)]
      && (exists x :: x in OldInstances(s) && x.id == id
            && ((exists y :: y in OldInstances(s) && InstanceStatus(s, y) != ReadyStatus) ==>
                  InstanceStatus(s, x) != ReadyStatus))
      && (forall y :: y in NewInstances(s) ==> InstanceStatus(s, y) == ReadyStatus)
      && (forall y :: y in OldInstances(s) ==> InstanceStatus(s, y) !in TerminatingStatuses)
  {
    OneStepAtATime(s);
    if SetUnhealthy(id) in Plan(s) {
      assert SetUnhealthy(id) in MainPlan(s);
      assert Decide(s) == RetireOld;
      RetiredIsReadyOld(s);
    }
  }

  /** In state D no new instance is unready and no old instance terminating. */
  lemma RetiredIsReadyOld(s: Snapshot)
    requires Decide(s) == RetireOld
    ensures forall y :: y in NewInstances(s) ==> InstanceStatus(s, y) == ReadyStatus
    ensures forall y :: y in OldInstances(s) ==> InstanceStatus(s, y) !in TerminatingStatuses
  {
    forall y | y in NewInstances(s)
      ensures InstanceStatus(s, y) == ReadyStatus
    {
      ApplyMembers(s, Unready, NewInstances(s), y);
    }
    forall y | y in OldInstances(s)
      ensures InstanceStatus(s, y) !in TerminatingStatuses
    {
      ApplyMembers(s, Terminating, OldInstances(s), y);
    }
  }

  /** In state E every instance has the current launch configuration and is ready. */
  lemma CompleteMeansReplaced(s: Snapshot)
    requires Decide(s) == Complete
    ensures forall x :: x in s.group.instances ==>
      x.launchConfigurationName == Some(s.group.launchConfigurationName)
      && InstanceStatus(s, x) == ReadyStatus
  {
    forall x | x in s.group.instances
      ensures x.launchConfigurationName == Some(s.group.launchConfigurationName)
      ensures InstanceStatus(s, x) == ReadyStatus
    {
      ApplyMembers(s, Old, s.group.instances, x);
      ApplyMembers(s, New, s.group.instances, x);
      ApplyMembers(s, Unready, NewInstances(s), x);
    }
  }

  /** All processes are resumed only once the replacement is complete: every
      instance has the current launch configuration and is ready, the
      instance count is between the desired capacity and the maximum size,
      nothing is suspended in the same invocation, and some process is
      suspended. */
  lemma CompleteOnlyWhenReplaced(s: Snapshot)
    ensures ResumeAll in Plan(s) ==>
      Plan(s) == [ResumeAll] && s.group.suspendedProcesses != []
      && s.group.desiredCapacity <= |s.group.instances| <= s.group.maxSize
      && forall x :: x in s.group.instances ==>
           x.launchConfigurationName == Some(s.group.launchConfigurationName)
           && InstanceStatus(s, x) == ReadyStatus
  {
    OneStepAtATime(s);
    if ResumeAll in Plan(s) {
      assert ResumeAll in MainPlan(s);
      assert Decide(s) == Complete;
      assert !SuspendRequired(s);
      CompleteMeansReplaced(s);
    }
  }

  /** State A fires whenever its condition holds: without overshoot, with
      the desired capacity below the maximum and no instance on the current
      launch configuration, the branch raises the capacity by exactly one. */
  lemma RaiseIf(s: Snapshot)
    requires !Overshooting(s) && s.group.desiredCapacity < s.group.maxSize
    requires forall x :: x in s.group.instances ==>
      x.launchConfigurationName != Some(s.group.launchConfigurationName)
    ensures Plan(s) == GatePlan(s) + [SetDesired(s.group.desiredCapacity + 1)]
  {
    NoneFail(s, New, s.group.instances);
  }

  /** State D fires whenever its condition holds: once states A and B are
      not taken, every new instance is ready, no old instance is
      terminating and some old instance remains, the branch marks exactly
      the retire candidate unhealthy. */
  lemma RetireIf(s: Snapshot)
    requires !Overshooting(s) && |s.group.instances| >= s.group.desiredCapacity
    requires s.group.desiredCapacity >= s.group.maxSize
          || exists x :: x in s.group.instances && x.launchConfigurationName == Some(s.group.launchConfigurationName)
    requires forall x :: x in s.group.instances ==>
      (x.launchConfigurationName == Some(s.group.launchConfigurationName) ==> InstanceStatus(s, x) == ReadyStatus)
    requires forall x :: x in s.group.instances ==>
      (x.launchConfigurationName != Some(s.group.launchConfigurationName) ==> InstanceStatus(s, x) !in TerminatingStatuses)
    requires exists x :: x in s.group.instances && x.launchConfigurationName != Some(s.group.launchConfigurationName)
    ensures OldInstances(s) != [] && MainPlan(s) == [SetUnhealthy(RetireCandidate(s).id)]
  {
    OldRemain(s);
    if s.group.desiredCapacity < s.group.maxSize {
      NewPresent(s);
    }
    NewAllReady(s);
    OldNoneTerminating(s);
    assert Decide(s) == RetireOld;
  }

  /** An instance off the current launch configuration is in `old`. */
  lemma OldRemain(s: Snapshot)
    requires exists x :: x in s.group.instances && x.launchConfigurationName != Some(s.group.launchConfigurationName)
    ensures OldInstances(s) != []
  {
    var y :| y in s.group.instances && y.launchConfigurationName != Some(s.group.launchConfigurationName);
    ApplyMembers(s, Old, s.group.instances, y);
  }

  /** An instance on the current launch configuration is in `new`. */
  lemma NewPresent(s: Snapshot)
    requires exists x :: x in s.group.instances && x.launchConfigurationName == Some(s.group.launchConfigurationName)
    ensures NewInstances(s) != []
  {
    var z :| z in s.group.instances && z.launchConfigurationName == Some(s.group.launchConfigurationName);
    ApplyMembers(s, New, s.group.instances, z);
  }

  /** With every new instance ready, `new.unready` is empty. */
  lemma NewAllReady(s: Snapshot)
    requires forall x :: x in s.group.instances ==>
      (x.launchConfigurationName == Some(s.group.launchConfigurationName) ==> InstanceStatus(s, x) == ReadyStatus)
    ensures Apply(s, Unready, NewInstances(s)) == []
  {
    forall x | x in NewInstances(s) ensures !Matches(s, Unready, x) {
      ApplyMembers(s, New, s.group.instances, x);
    }
    NoneFail(s, Unready, NewInstances(s));
  }

  /** With no old instance terminating, `old.terminating` is empty. */
  lemma OldNoneTerminating(s: Snapshot)
    requires forall x :: x in s.group.instances ==>
      (x.launchConfigurationName != Some(s.group.launchConfigurationName) ==> InstanceStatus(s, x) !in TerminatingStatuses)
    ensures Apply(s, Terminating, OldInstances(s)) == []
  {
    forall x | x in OldInstances(s) ensures !Matches(s, Terminating, x) {
      ApplyMembers(s, Old, s.group.instances, x);
    }
    NoneFail(s, Terminating, OldInstances(s));
  }

  /** State E fires whenever its condition holds: once states A and B are
      not taken and every instance is new and ready, a non-empty list of
      suspended processes makes the invocation's whole plan one resume of
      every process. */
  lemma CompleteIf(s: Snapshot)
    requires !Overshooting(s) && |s.group.instances| >= s.group.desiredCapacity
    requires s.group.instances != [] || s.group.desiredCapacity == s.group.maxSize
    requires forall x :: x in s.group.instances ==>
      x.launchConfigurationName == Some(s.group.launchConfigurationName) && InstanceStatus(s, x) == ReadyStatus
    requires s.group.suspendedProcesses != []
    ensures Plan(s) == [ResumeAll]
  {
    DoneObserved(s);
    assert Apply(s, Terminating, OldInstances(s)) == [];
    assert Decide(s) == Complete;
  }

  /** A finished group has new instances (or cannot grow), no old ones, and
      no unready new ones. */
  lemma DoneObserved(s: Snapshot)
    requires s.group.instances != [] || s.group.desiredCapacity == s.group.maxSize
    requires forall x :: x in s.group.instances ==>
      x.launchConfigurationName == Some(s.group.launchConfigurationName) && InstanceStatus(s, x) == ReadyStatus
    ensures NewInstances(s) != [] || s.group.desiredCapacity == s.group.maxSize
    ensures OldInstances(s) == [] && Apply(s, Unready, NewInstances(s)) == []
  {
    var all := s.group.instances;
    if all != [] {
      ApplyMembers(s, New, all, all[0]);
    }
    NoneFail(s, Old, all);
    forall x | x in NewInstances(s) ensures !Matches(s, Unready, x) {
      ApplyMembers(s, New, all, x);
    }
    NoneFail(s, Unready, NewInstances(s));
  }

  /** A group whose replacement is finished and whose processes are all
      resumed sees no call at all. */
  lemma IdleWhenDone(s: Snapshot)
    requires s.group.suspendedProcesses == []
    requires s.group.desiredCapacity <= |s.group.instances| <= s.group.maxSize
    requires s.group.instances != [] || s.group.desiredCapacity == s.group.maxSize
    requires forall x :: x in s.group.instances ==>
      x.launchConfigurationName == Some(s.group.launchConfigurationName) && InstanceStatus(s, x) == ReadyStatus
    ensures Plan(s) == []
  {
    DoneObserved(s);
    assert Apply(s, Terminating, OldInstances(s)) == [];
    assert Decide(s) == Idle;
  }
}
