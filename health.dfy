/** The health indexes of a group (load balancer InstanceState records and
    target group TargetHealthDescription records, grouped by instance id)
    and the composite status classifier built on them. */
module Health {
  import opened Model

  // ---------------------------------------------------------------------
  // Health indexes
  // ---------------------------------------------------------------------

  /** The index's entry for `id`, or the empty list when the id has none
      (the default of the source's `defaultdict(list)`). */
  function Lookup<R>(index: map<string, seq<R>>, id: string): seq<R>
  {
    if id in index then index[id] else []
  }

  /** All fetched batches (one per load balancer or target group), in order. */
  function Flatten<R>(batches: seq<seq<R>>): seq<R>
  {
    if batches == [] then [] else Flatten(batches[..|batches| - 1]) + batches[|batches| - 1]
  }

  /** The records whose key is `id`, in the order they were fetched. */
  function RecordsFor<R>(records: seq<R>, key: R -> string, id: string): seq<R>
  {
    if records == [] then []
    else
      var last := records[|records| - 1];
      RecordsFor(records[..|records| - 1], key, id) + (if key(last) == id then [last] else [])
  }

  lemma {:induction false} RecordsForMembers<R>(records: seq<R>, key: R -> string, id: string, r: R)
    ensures r in RecordsFor(records, key, id) <==> r in records && key(r) == id
  {
    if records != [] {
      var init := records[..|records| - 1];
      RecordsForMembers(init, key, id, r);
      assert records == init + [records[|records| - 1]];
    }
  }

  /** The index `index` holds, under every id, exactly that id's records of `records`. */
  ghost predicate IndexOf<R>(index: map<string, seq<R>>, records: seq<R>, key: R -> string)
  {
    (forall id :: Lookup(index, id) == RecordsFor(records, key, id))
    && (forall id :: id in index ==> index[id] != [])
  }

  lemma RecordsForSnoc<R>(records: seq<R>, key: R -> string, id: string, r: R)
    ensures RecordsFor(records + [r], key, id) == RecordsFor(records, key, id) + (if key(r) == id then [r] else [])
  {
    var records' := records + [r];
    assert records'[..|records'| - 1] == records;
    assert records'[|records'| - 1] == r;
  }

  lemma AppendStep<R>(index: map<string, seq<R>>, records: seq<R>, key: R -> string, r: R)
    requires IndexOf(index, records, key)
    ensures IndexOf(index[key(r) := Lookup(index, key(r)) + [r]], records + [r], key)
  {
    var k := key(r);
    var index' := index[k := Lookup(index, k) + [r]];
    forall id
      ensures Lookup(index', id) == RecordsFor(records + [r], key, id)
    {
      RecordsForSnoc(records, key, id, r);
      if id == k {
        assert Lookup(index', id) == Lookup(index, id) + [r];
      } else {
        assert Lookup(index', id) == Lookup(index, id);
      }
    }
    forall id | id in index'
      ensures index'[id] != []
    {
      if id == k {
        assert |index'[id]| > 0;
      } else {
        assert index'[id] == index[id];
      }
    }
  }

  lemma FlattenStep<R>(batches: seq<seq<R>>, b: nat)
    requires b < |batches|
    ensures Flatten(batches[..b + 1]) == Flatten(batches[..b]) + batches[b]
  {
    assert batches[..b + 1][..b] == batches[..b];
  }

  /** Appending the `j`-th record of a batch extends the index by that record. */
  lemma AppendStepAt<R>(index: map<string, seq<R>>, before: seq<R>, batch: seq<R>, j: nat, key: R -> string)
    requires j < |batch| && IndexOf(index, before + batch[..j], key)
    ensures IndexOf(index[key(batch[j]) := Lookup(index, key(batch[j])) + [batch[j]]], before + batch[..j + 1], key)
  {
    AppendStep(index, before + batch[..j], key, batch[j]);
    assert before + batch[..j + 1] == (before + batch[..j]) + [batch[j]];
  }

  /** The inner loop of the source: append each record of one batch to the
      list kept under its own instance id. */
  method AppendBatch<R>(index0: map<string, seq<R>>, ghost before: seq<R>, batch: seq<R>, key: R -> string)
    returns (index: map<string, seq<R>>)
    requires IndexOf(index0, before, key)
    ensures IndexOf(index, before + batch, key)
  {
    index := index0;
    assert before + batch[..0] == before;
    for j := 0 to |batch|
      invariant IndexOf(index, before + batch[..j], key)
    {
      var r := batch[j];
      AppendStepAt(index, before, batch, j, key);
      index := index[key(r) := Lookup(index, key(r)) + [r]];
    }
    assert batch[..|batch|] == batch;
  }

  /** Builds the index the way the source does: for every batch, for every
      record, append the record to the list kept under its own instance id. */
  method BuildIndex<R>(batches: seq<seq<R>>, key: R -> string) returns (index: map<string, seq<R>>)
    ensures forall id :: Lookup(index, id) == RecordsFor(Flatten(batches), key, id)
    ensures forall id :: id in index ==> index[id] != []
  {
    index := map[];
    var b := 0;
    while b < |batches|
      invariant 0 <= b <= |batches|
      invariant IndexOf(index, Flatten(batches[..b]), key)
    {
      FlattenStep(batches, b);
      index := AppendBatch(index, Flatten(batches[..b]), batches[b], key);
      b := b + 1;
    }
    assert batches[..b] == batches;
  }

  /** The index of load balancer records by InstanceId (lines 64-74). */
  method BuildInstanceHealth(batches: seq<seq<InstanceState>>) returns (index: map<string, seq<InstanceState>>)
    ensures forall id :: Lookup(index, id) == RecordsFor(Flatten(batches), (e: InstanceState) => e.instanceId, id)
    ensures forall id :: id in index ==> index[id] != []
  {
    index := BuildIndex(batches, (e: InstanceState) => e.instanceId);
  }

  /** The index of target group records by Target.Id (lines 129-146). */
  method BuildTargetHealth(batches: seq<seq<TargetHealthDescription>>) returns (index: map<string, seq<TargetHealthDescription>>)
    ensures forall id :: Lookup(index, id) == RecordsFor(Flatten(batches), (d: TargetHealthDescription) => d.targetId, id)
    ensures forall id :: id in index ==> index[id] != []
  {
    index := BuildIndex(batches, (d: TargetHealthDescription) => d.targetId);
  }

  // ---------------------------------------------------------------------
  // Composite status
  // ---------------------------------------------------------------------

  /** The composite status, before it is written out as "Field:Value". */
  datatype Status =
    | LifecycleState(state: Option<string>)
    | HealthStatus(status: Option<string>)
    | TargetHealth(reason: string)
    | InstanceHealth(reasonCode: string)
    | Ready

  /** Index of the first record that fails `passes`, or |records| if none does. */
  function FirstFailure<R>(records: seq<R>, passes: R -> bool): (k: nat)
    ensures k <= |records|
    ensures forall j :: 0 <= j < k ==> passes(records[j])
    ensures k < |records| ==> !passes(records[k])
  {
    if records == [] then 0
    else if !passes(records[0]) then 0
    else 1 + FirstFailure(records[1..], passes)
  }

  /** `k` is the position of the first record failing `passes`. */
  predicate FirstFailingAt<R>(records: seq<R>, passes: R -> bool, k: int)
  {
    0 <= k < |records| && !passes(records[k]) && forall j :: 0 <= j < k ==> passes(records[j])
  }

  predicate TargetPasses(d: TargetHealthDescription) { d.state == "healthy" }
  predicate LoadBalancerPasses(e: InstanceState) { e.state == "InService" }

  function TargetRecords(s: Snapshot, inst: Instance): seq<TargetHealthDescription>
  {
    Lookup(s.targetHealth, inst.id)
  }

  function LoadBalancerRecords(s: Snapshot, inst: Instance): seq<InstanceState>
  {
    Lookup(s.instanceHealth, inst.id)
  }

  /** The instance's own fields say it is in service and healthy. */
  predicate InstanceFieldsPass(inst: Instance)
  {
    inst.lifecycleState == Some("InService") && inst.healthStatus == Some("Healthy")
  }

  predicate AllTargetsPass(s: Snapshot, inst: Instance)
  {
    forall d :: d in TargetRecords(s, inst) ==> TargetPasses(d)
  }

  predicate AllLoadBalancersPass(s: Snapshot, inst: Instance)
  {
    forall e :: e in LoadBalancerRecords(s, inst) ==> LoadBalancerPasses(e)
  }

  /** The checks of `get_instance_status`, in their fixed order: lifecycle
      state, health status, target group records, load balancer records. */
  function Classify(s: Snapshot, inst: Instance): Status
  {
    if inst.lifecycleState != Some("InService") then LifecycleState(inst.lifecycleState)
    else if inst.healthStatus != Some("Healthy") then HealthStatus(inst.healthStatus)
    else
      var targets := TargetRecords(s, inst);
      var k := FirstFailure(targets, TargetPasses);
      if k < |targets| then TargetHealth(targets[k].reason)
      else
        var states := LoadBalancerRecords(s, inst);
        var m := FirstFailure(states, LoadBalancerPasses);
        if m < |states| then InstanceHealth(states[m].reasonCode) else Ready
  }

  /** The first failing check decides the status, and an id with no records
      passes both record checks: each kind of status is produced exactly
      when every earlier check passes and its own check fails, and a record
      status carries the reason of the first failing record. */
  lemma ClassifySpec(s: Snapshot, inst: Instance)
    ensures Classify(s, inst).LifecycleState? <==> inst.lifecycleState != Some("InService")
    ensures Classify(s, inst).LifecycleState? ==> Classify(s, inst).state == inst.lifecycleState
    ensures Classify(s, inst).HealthStatus? <==>
      inst.lifecycleState == Some("InService") && inst.healthStatus != Some("Healthy")
    ensures Classify(s, inst).HealthStatus? ==> Classify(s, inst).status == inst.healthStatus
    ensures Classify(s, inst).TargetHealth? <==> InstanceFieldsPass(inst) && !AllTargetsPass(s, inst)
    ensures Classify(s, inst).TargetHealth? ==>
      exists k :: FirstFailingAt(TargetRecords(s, inst), TargetPasses, k)
        && Classify(s, inst).reason == TargetRecords(s, inst)[k].reason
    ensures Classify(s, inst).InstanceHealth? <==>
      InstanceFieldsPass(inst) && AllTargetsPass(s, inst) && !AllLoadBalancersPass(s, inst)
    ensures Classify(s, inst).InstanceHealth? ==>
      exists k :: FirstFailingAt(LoadBalancerRecords(s, inst), LoadBalancerPasses, k)
        && Classify(s, inst).reasonCode == LoadBalancerRecords(s, inst)[k].reasonCode
    ensures Classify(s, inst).Ready? <==>
      InstanceFieldsPass(inst) && AllTargetsPass(s, inst) && AllLoadBalancersPass(s, inst)
  {
    if InstanceFieldsPass(inst) {
      var targets := TargetRecords(s, inst);
      var k := FirstFailure(targets, TargetPasses);
      if k < |targets| {
        assert FirstFailingAt(targets, TargetPasses, k);
      } else {
        var states := LoadBalancerRecords(s, inst);
        var m := FirstFailure(states, LoadBalancerPasses);
        if m < |states| {
          assert FirstFailingAt(states, LoadBalancerPasses, m);
        }
      }
    }
  }

  /** Python's `'{}'.format(v)` of an optional field: a missing one is "None". */
  function Show(v: Option<string>): string
  {
    match v
    case None => "None"
    case Some(x) => x
  }

  /** The status string, as `get_instance_status` returns it. */
  function Render(st: Status): string
  {
    match st
    case LifecycleState(v) => "LifecycleState:" + Show(v)
    case HealthStatus(v) => "HealthStatus:" + Show(v)
    case TargetHealth(reason) => "TargetHealth:" + reason
    case InstanceHealth(code) => "InstanceHealth:" + code
    case Ready => ReadyStatus
  }

  function InstanceStatus(s: Snapshot, inst: Instance): string
  {
    Render(Classify(s, inst))
  }

  /** The first character of a status string tells which check produced it. */
  function KindMark(st: Status): char
  {
    match st
    case LifecycleState(_) => 'L'
    case HealthStatus(_) => 'H'
    case TargetHealth(_) => 'T'
    case InstanceHealth(_) => 'I'
    case Ready => 'A'
  }

  lemma RenderHead(st: Status)
    ensures |Render(st)| > 0 && Render(st)[0] == KindMark(st)
  {
  }

  lemma SamePrefix(p: string, a: string, b: string)
    requires p + a == p + b
    ensures a == b
  {
    assert a == (p + a)[|p|..];
    assert b == (p + b)[|p|..];
  }

  lemma ShowIs(v: Option<string>, x: string)
    requires x != "None"
    ensures Show(v) == x <==> v == Some(x)
  {
  }

  /** The status string is the ready sentinel exactly when every check passes. */
  lemma StatusReadyIff(s: Snapshot, inst: Instance)
    ensures InstanceStatus(s, inst) == ReadyStatus <==>
      InstanceFieldsPass(inst) && AllTargetsPass(s, inst) && AllLoadBalancersPass(s, inst)
  {
    ClassifySpec(s, inst);
    var st := Classify(s, inst);
    RenderHead(st);
    assert ReadyStatus[0] == 'A';
  }

  /** The rendered string with prefix `p` ended in `x` only if the status was
      the one with that prefix. */
  lemma LifecycleStatusIs(s: Snapshot, inst: Instance, x: string)
    requires x != "None" && x != "InService"
    ensures InstanceStatus(s, inst) == "LifecycleState:" + x <==> inst.lifecycleState == Some(x)
  {
    ClassifySpec(s, inst);
    var st := Classify(s, inst);
    RenderHead(st);
    assert ("LifecycleState:" + x)[0] == 'L';
    if st.LifecycleState? && Render(st) == "LifecycleState:" + x {
      SamePrefix("LifecycleState:", Show(st.state), x);
      ShowIs(st.state, x);
    }
  }

  lemma HealthStatusIs(s: Snapshot, inst: Instance, x: string)
    requires x != "None"
    ensures InstanceStatus(s, inst) == "HealthStatus:" + x <==>
      inst.lifecycleState == Some("InService") && inst.healthStatus == Some(x) && x != "Healthy"
  {
    ClassifySpec(s, inst);
    var st := Classify(s, inst);
    RenderHead(st);
    assert ("HealthStatus:" + x)[0] == 'H';
    if st.HealthStatus? && Render(st) == "HealthStatus:" + x {
      SamePrefix("HealthStatus:", Show(st.status), x);
      ShowIs(st.status, x);
    }
  }

  /** A status in the launching set means a Pending or PendingWait lifecycle. */
  lemma StatusLaunchingIff(s: Snapshot, inst: Instance)
    ensures InstanceStatus(s, inst) in LaunchingStatuses <==>
      inst.lifecycleState == Some("Pending") || inst.lifecycleState == Some("PendingWait")
  {
    assert "LifecycleState:Pending" == "LifecycleState:" + "Pending";
    assert "LifecycleState:PendingWait" == "LifecycleState:" + "PendingWait";
    LifecycleStatusIs(s, inst, "Pending");
    LifecycleStatusIs(s, inst, "PendingWait");
  }

  /** A status in the terminating set means a Terminating lifecycle, or an
      in-service instance whose own health status is Unhealthy. */
  lemma StatusTerminatingIff(s: Snapshot, inst: Instance)
    ensures InstanceStatus(s, inst) in TerminatingStatuses <==>
      inst.lifecycleState == Some("Terminating")
      || (inst.lifecycleState == Some("InService") && inst.healthStatus == Some("Unhealthy"))
  {
    assert "LifecycleState:Terminating" == "LifecycleState:" + "Terminating";
    assert "HealthStatus:Unhealthy" == "HealthStatus:" + "Unhealthy";
    LifecycleStatusIs(s, inst, "Terminating");
    HealthStatusIs(s, inst, "Unhealthy");
  }

  /** The status the overshoot correction skips means a Terminating lifecycle. */
  lemma StatusLifecycleTerminatingIff(s: Snapshot, inst: Instance)
    ensures InstanceStatus(s, inst) == LifecycleTerminating <==> inst.lifecycleState == Some("Terminating")
  {
    assert LifecycleTerminating == "LifecycleState:" + "Terminating";
    LifecycleStatusIs(s, inst, "Terminating");
  }
}
