/** Concrete groups taken through one invocation each: the four steps of a
    small rollout, the tag values that switch management off and on, and
    the group on which the state D selection of line 179 raises. */
module Scenarios {
  import opened Model
  import opened Health
  import opened Filters
  import opened Policy
  import opened Actions
  import opened Overshoot
  import opened Rollout

  const CurrentConfig := "web-v2"
  const PreviousConfig := "web-v1"

  /** An in-service, healthy instance launched from `config`. */
  function InService(id: string, config: string): Instance
  {
    Instance(id, Some("InService"), Some("Healthy"), Some(config))
  }

  function Suspended(): seq<SuspendedProcess>
  {
    [ SuspendedProcess("AlarmNotification", "User suspended"),
      SuspendedProcess("AZRebalance", "User suspended"),
      SuspendedProcess("Launch", "User suspended"),
      SuspendedProcess("ScheduledActions", "User suspended") ]
  }

  function GroupOf(maxSize: nat, desired: nat, suspended: seq<SuspendedProcess>, instances: seq<Instance>): Snapshot
  {
    Snapshot(Group("web", maxSize, desired, CurrentConfig, suspended,
                   [Tag("InstanceReplacement", "")], instances), map[], map[])
  }

  lemma ReadyInstance(s: Snapshot, id: string, config: string)
    requires s.targetHealth == map[] && s.instanceHealth == map[]
    ensures InstanceStatus(s, InService(id, config)) == ReadyStatus
  {
    assert Classify(s, InService(id, config)) == Ready;
  }

  lemma AllSuspended(g: Group)
    requires g.suspendedProcesses == Suspended()
    ensures AllScalingProcessesSuspended(g)
  {
    forall p | p in ScalingProcesses
      ensures exists q :: q in g.suspendedProcesses && q.processName == p
    {
      if p == "AlarmNotification" {
        assert g.suspendedProcesses[0].processName == p;
      } else if p == "AZRebalance" {
        assert g.suspendedProcesses[1].processName == p;
      } else if p == "Launch" {
        assert g.suspendedProcesses[2].processName == p;
      } else {
        assert g.suspendedProcesses[3].processName == p;
      }
    }
  }

  /** `x` alone, if it passes `f`. */
  function KeptAlone(s: Snapshot, f: Filter, x: Instance): seq<Instance>
  {
    if Matches(s, f, x) then [x] else []
  }

  lemma Apply1(s: Snapshot, f: Filter, a: Instance)
    ensures Apply(s, f, [a]) == KeptAlone(s, f, a)
  {
    ApplySingle(s, f, a);
  }

  lemma Apply2(s: Snapshot, f: Filter, a: Instance, b: Instance)
    ensures Apply(s, f, [a, b]) == KeptAlone(s, f, a) + KeptAlone(s, f, b)
  {
    Apply1(s, f, a);
    Apply1(s, f, b);
    ApplyConcat(s, f, [a], [b]);
    assert [a] + [b] == [a, b];
  }

  lemma Apply3(s: Snapshot, f: Filter, a: Instance, b: Instance, c: Instance)
    ensures Apply(s, f, [a, b, c]) == KeptAlone(s, f, a) + KeptAlone(s, f, b) + KeptAlone(s, f, c)
  {
    Apply2(s, f, a, b);
    Apply1(s, f, c);
    ApplyConcat(s, f, [a, b], [c]);
    assert [a, b] + [c] == [a, b, c];
  }

  lemma Apply4(s: Snapshot, f: Filter, a: Instance, b: Instance, c: Instance, d: Instance)
    ensures Apply(s, f, [a, b, c, d]) == KeptAlone(s, f, a) + KeptAlone(s, f, b) + KeptAlone(s, f, c) + KeptAlone(s, f, d)
  {
    Apply3(s, f, a, b, c);
    Apply1(s, f, d);
    ApplyConcat(s, f, [a, b, c], [d]);
    assert [a, b, c] + [d] == [a, b, c, d];
  }

  /** Scenario A: two ready old instances, desired 2 of at most 3, nothing
      suspended: suspend the four processes, then raise the capacity to 3. */
  lemma ScenarioA()
    ensures var s := GroupOf(3, 2, [], [InService("i-1", PreviousConfig), InService("i-2", PreviousConfig)]);
            Plan(s) == [Suspend, SetDesired(3)]
  {
    var a, b := InService("i-1", PreviousConfig), InService("i-2", PreviousConfig);
    var s := GroupOf(3, 2, [], [a, b]);
    Apply2(s, Old, a, b);
    Apply2(s, New, a, b);
    assert OldInstances(s) == [a, b];
    assert NewInstances(s) == [];
    assert !AllScalingProcessesSuspended(s.group) by {
      assert "Launch" in ScalingProcesses;
    }
    assert Decide(s) == RaiseCapacity;
  }

  /** Scenario B: the new instance is still pending: no call at all. */
  lemma ScenarioB()
    ensures var s := GroupOf(3, 3, Suspended(), [InService("i-1", PreviousConfig), InService("i-2", PreviousConfig),
                                                 Instance("i-3", Some("Pending"), Some("Healthy"), Some(CurrentConfig))]);
            Plan(s) == []
  {
    var a, b := InService("i-1", PreviousConfig), InService("i-2", PreviousConfig);
    var c := Instance("i-3", Some("Pending"), Some("Healthy"), Some(CurrentConfig));
    var s := GroupOf(3, 3, Suspended(), [a, b, c]);
    AllSuspended(s.group);
    Apply3(s, New, a, b, c);
    assert NewInstances(s) == [c];
    assert InstanceStatus(s, c) == "LifecycleState:Pending";
    Apply1(s, Unready, c);
    assert Apply(s, Unready, [c]) == [c];
    assert Decide(s) == AwaitReadiness;
  }

  /** Scenario C: the new instance is ready and both old ones are: the first
      old instance is marked unhealthy, and nothing else happens. */
  lemma ScenarioC()
    ensures var s := GroupOf(3, 3, Suspended(), [InService("i-1", PreviousConfig), InService("i-2", PreviousConfig),
                                                 InService("i-3", CurrentConfig)]);
            Plan(s) == [SetUnhealthy("i-1")]
  {
    var a, b, c := InService("i-1", PreviousConfig), InService("i-2", PreviousConfig), InService("i-3", CurrentConfig);
    var s := GroupOf(3, 3, Suspended(), [a, b, c]);
    AllSuspended(s.group);
    ScenarioCStates(s, a, b, c);
    assert Decide(s) == RetireOld;
    assert RetireCandidate(s) == a;
  }

  lemma ScenarioCStates(s: Snapshot, a: Instance, b: Instance, c: Instance)
    requires a == InService("i-1", PreviousConfig) && b == InService("i-2", PreviousConfig) && c == InService("i-3", CurrentConfig)
    requires s == GroupOf(3, 3, Suspended(), [a, b, c])
    ensures NewInstances(s) == [c] && OldInstances(s) == [a, b]
    ensures Apply(s, Unready, [c]) == [] && Apply(s, Unready, [a, b]) == [] && Apply(s, Terminating, [a, b]) == []
  {
    ReadyInstance(s, "i-1", PreviousConfig);
    ReadyInstance(s, "i-2", PreviousConfig);
    ReadyInstance(s, "i-3", CurrentConfig);
    Apply3(s, New, a, b, c);
    Apply3(s, Old, a, b, c);
    Apply1(s, Unready, c);
    Apply2(s, Unready, a, b);
    Apply2(s, Terminating, a, b);
  }

  /** Scenario C as line 179 writes it: no old instance is unready, so the
      whole old list is taken for the instance and the invocation raises
      before marking any, although state D is the branch taken. */
  lemma ScenarioCAsWritten()
    ensures var s := GroupOf(3, 3, Suspended(), [InService("i-1", PreviousConfig), InService("i-2", PreviousConfig),
                                                 InService("i-3", CurrentConfig)]);
            Decide(s) == RetireOld && RetireCandidateAsWritten(s) == None
  {
    var a, b, c := InService("i-1", PreviousConfig), InService("i-2", PreviousConfig), InService("i-3", CurrentConfig);
    var s := GroupOf(3, 3, Suspended(), [a, b, c]);
    ScenarioCStates(s, a, b, c);
  }

  /** Scenario D: four instances for a maximum of three, one of them already
      terminating: it alone makes up the excess, so no call is issued. */
  lemma ScenarioD()
    ensures var s := GroupOf(3, 3, Suspended(), [InService("i-1", PreviousConfig), InService("i-2", PreviousConfig),
                                                 InService("i-3", CurrentConfig),
                                                 Instance("i-4", Some("Terminating"), Some("Healthy"), Some(PreviousConfig))]);
            Decide(s) == CorrectOvershoot && Marked(s) == [s.group.instances[3]] && Plan(s) == []
  {
    var a, b, c := InService("i-1", PreviousConfig), InService("i-2", PreviousConfig), InService("i-3", CurrentConfig);
    var d := Instance("i-4", Some("Terminating"), Some("Healthy"), Some(PreviousConfig));
    var all := [a, b, c, d];
    var s := GroupOf(3, 3, Suspended(), all);
    AllSuspended(s.group);
    ScenarioDOrder(s, a, b, c, d);
    var order := TerminationOrder(s);
    assert Dedup(order)[..1] == [d] by {
      DedupPrefix([d], order[1..]);
      assert [d] + order[1..] == order;
      assert Dedup([d]) == [d] by {
        assert [d][..0] == [];
      }
    }
    assert Marked(s) == [d];
    assert TerminateCalls(s, [d]) == [] by {
      assert [d][..0] == [];
    }
    assert Apply(s, Old, all) != [] by {
      Apply4(s, Old, a, b, c, d);
    }
  }

  lemma ScenarioDOrder(s: Snapshot, a: Instance, b: Instance, c: Instance, d: Instance)
    requires a == InService("i-1", PreviousConfig) && b == InService("i-2", PreviousConfig) && c == InService("i-3", CurrentConfig)
    requires d == Instance("i-4", Some("Terminating"), Some("Healthy"), Some(PreviousConfig))
    requires s == GroupOf(3, 3, Suspended(), [a, b, c, d])
    ensures InstanceStatus(s, d) == LifecycleTerminating
    ensures TerminationOrder(s)[0] == d
  {
    StatusLifecycleTerminatingIff(s, d);
    StatusTerminatingIff(s, a);
    StatusTerminatingIff(s, b);
    StatusTerminatingIff(s, c);
    StatusTerminatingIff(s, d);
    Apply4(s, Terminating, a, b, c, d);
    assert Apply(s, Terminating, s.group.instances) == [d];
  }

  /** The first InstanceReplacement tag decides, its value compared in lower case. */
  lemma ManagedExamples()
    ensures IsManaged([Tag("Name", "web"), Tag("InstanceReplacement", "")])
    ensures !IsManaged([Tag("InstanceReplacement", "Off")])
    ensures IsManaged([Tag("InstanceReplacement", "true"), Tag("InstanceReplacement", "no")])
    ensures !IsManaged([Tag("Name", "web")])
  {
    assert Lower("Off") == "off";
    var t := [Tag("InstanceReplacement", "true"), Tag("InstanceReplacement", "no")];
    ManagedByFirstTag(t, 0);
    assert Lower("true") == "true";
  }
}
