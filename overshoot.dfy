/** The overshoot correction of `replace_old_instances`: when the group has
    more instances than its maximum size, walk the instances in termination
    priority order (terminating, launching, unready, new, then all), skip
    ids already handled, and mark instances until as many distinct ids as
    the excess have been marked. A marked instance whose status is
    LifecycleState:Terminating is only waited for; every other marked
    instance is terminated. */
module Overshoot {
  import opened Model
  import opened Health
  import opened Filters
  import opened Actions

  // ---------------------------------------------------------------------
  // Instance ids and first occurrences
  // ---------------------------------------------------------------------

  function Ids(xs: seq<Instance>): set<string>
  {
    if xs == [] then {} else Ids(xs[..|xs| - 1]) + {xs[|xs| - 1].id}
  }

  predicate DistinctIds(xs: seq<Instance>)
  {
    forall i, j :: 0 <= i < j < |xs| ==> xs[i].id != xs[j].id
  }

  lemma {:induction false} IdsMembers(xs: seq<Instance>, id: string)
    ensures id in Ids(xs) <==> exists k :: 0 <= k < |xs| && xs[k].id == id
  {
    if xs != [] {
      var init := xs[..|xs| - 1];
      IdsMembers(init, id);
      assert forall k :: 0 <= k < |init| ==> init[k] == xs[k];
    }
  }

  lemma {:induction false} IdsConcat(xs: seq<Instance>, ys: seq<Instance>)
    ensures Ids(xs + ys) == Ids(xs) + Ids(ys)
    decreases |ys|
  {
    if ys == [] {
      assert xs + ys == xs;
    } else {
      var init := ys[..|ys| - 1];
      IdsConcat(xs, init);
      assert (xs + ys)[..|xs + ys| - 1] == xs + init;
    }
  }

  lemma {:induction false} DistinctIdsCard(xs: seq<Instance>)
    requires DistinctIds(xs)
    ensures |Ids(xs)| == |xs|
  {
    if xs != [] {
      var init := xs[..|xs| - 1];
      DistinctIdsCard(init);
      IdsMembers(init, xs[|xs| - 1].id);
    }
  }

  /** The first instance of every id, in order of first appearance. */
  function Dedup(xs: seq<Instance>): seq<Instance>
  {
    if xs == [] then []
    else
      var d := Dedup(xs[..|xs| - 1]);
      var last := xs[|xs| - 1];
      if last.id in Ids(d) then d else d + [last]
  }

  /** Dedup keeps one instance per id of the input, each one taken from the input. */
  lemma DedupProps(xs: seq<Instance>)
    ensures DistinctIds(Dedup(xs))
    ensures Ids(Dedup(xs)) == Ids(xs)
    ensures |Dedup(xs)| == |Ids(xs)|
    ensures forall x :: x in Dedup(xs) ==> x in xs
  {
    DedupDistinct(xs);
    DedupMembers(xs);
    DistinctIdsCard(Dedup(xs));
  }

  lemma {:induction false} DedupDistinct(xs: seq<Instance>)
    ensures DistinctIds(Dedup(xs)) && Ids(Dedup(xs)) == Ids(xs)
  {
    if xs != [] {
      var init := xs[..|xs| - 1];
      var last := xs[|xs| - 1];
      DedupDistinct(init);
      var d := Dedup(init);
      if last.id !in Ids(d) {
        IdsMembers(d, last.id);
        IdsConcat(d, [last]);
        assert Ids([last]) == {last.id} by {
          assert [last][..0] == [];
        }
      }
    }
  }

  lemma {:induction false} DedupMembers(xs: seq<Instance>)
    ensures forall x :: x in Dedup(xs) ==> x in xs
  {
    if xs != [] {
      var init := xs[..|xs| - 1];
      DedupMembers(init);
      assert forall x :: x in init ==> x in xs;
    }
  }

  /** One step of the walk: an instance is kept exactly when no earlier
      instance has its id. */
  lemma DedupStep(xs: seq<Instance>, k: nat)
    requires k < |xs|
    ensures Dedup(xs[..k + 1]) ==
      Dedup(xs[..k]) + (if xs[k].id in Ids(xs[..k]) then [] else [xs[k]])
  {
    assert xs[..k + 1][..k] == xs[..k];
    DedupProps(xs[..k]);
  }

  /** The first occurrences of a list are a prefix of those of any extension. */
  lemma {:induction false} DedupPrefix(xs: seq<Instance>, ys: seq<Instance>)
    ensures |Dedup(xs)| <= |Dedup(xs + ys)|
    ensures Dedup(xs + ys)[..|Dedup(xs)|] == Dedup(xs)
    decreases |ys|
  {
    if ys == [] {
      assert xs + ys == xs;
    } else {
      var init := ys[..|ys| - 1];
      DedupPrefix(xs, init);
      assert (xs + ys)[..|xs + ys| - 1] == xs + init;
    }
  }

  // ---------------------------------------------------------------------
  // The marked instances and the calls they cause
  // ---------------------------------------------------------------------

  predicate Overshooting(s: Snapshot)
  {
    |s.group.instances| > s.group.maxSize
  }

  function TerminationsRequired(s: Snapshot): nat
    requires Overshooting(s)
  {
    |s.group.instances| - s.group.maxSize
  }

  /** The chained iterator of the source, as one list. */
  function TerminationOrder(s: Snapshot): seq<Instance>
  {
    var all := s.group.instances;
    Apply(s, Terminating, all) + Apply(s, Launching, all) + Apply(s, Unready, all) + Apply(s, New, all) + all
  }

  /** The instances the walk marks: the first `TerminationsRequired` distinct
      ids of the order, or all of them if there are fewer. */
  function Marked(s: Snapshot): seq<Instance>
    requires Overshooting(s)
  {
    TakeDistinct(TerminationOrder(s), TerminationsRequired(s))
  }

  /** One terminate call per instance, except for those already in the
      Terminating lifecycle state. */
  function TerminateCalls(s: Snapshot, xs: seq<Instance>): seq<Action>
  {
    if xs == [] then []
    else
      var last := xs[|xs| - 1];
      TerminateCalls(s, xs[..|xs| - 1])
      + (if InstanceStatus(s, last) == LifecycleTerminating then [] else [Terminate(last.id)])
  }

  /** The marked instances that are only waited for. */
  function Awaited(s: Snapshot, xs: seq<Instance>): seq<Instance>
  {
    if xs == [] then []
    else
      var last := xs[|xs| - 1];
      Awaited(s, xs[..|xs| - 1]) + (if InstanceStatus(s, last) == LifecycleTerminating then [last] else [])
  }

  function OvershootPlan(s: Snapshot): seq<Action>
    requires Overshooting(s)
  {
    TerminateCalls(s, Marked(s))
  }

  lemma {:induction false} TerminateCallsConcat(s: Snapshot, xs: seq<Instance>, ys: seq<Instance>)
    ensures TerminateCalls(s, xs + ys) == TerminateCalls(s, xs) + TerminateCalls(s, ys)
    decreases |ys|
  {
    if ys == [] {
      assert xs + ys == xs;
    } else {
      var init := ys[..|ys| - 1];
      TerminateCallsConcat(s, xs, init);
      assert (xs + ys)[..|xs + ys| - 1] == xs + init;
    }
  }

  lemma TerminateCallsSnoc(s: Snapshot, xs: seq<Instance>, x: Instance)
    ensures TerminateCalls(s, xs + [x]) ==
      TerminateCalls(s, xs) + (if InstanceStatus(s, x) == LifecycleTerminating then [] else [Terminate(x.id)])
  {
    assert (xs + [x])[..|xs|] == xs;
  }

  /** `Terminate(id)` is among the calls iff some instance of the list has
      that id and is not in the Terminating lifecycle state; every call is a
      terminate call; each instance yields either a call or a wait. */
  lemma {:induction false} TerminateCallsMembers(s: Snapshot, xs: seq<Instance>)
    ensures forall a :: a in TerminateCalls(s, xs) ==> a.Terminate?
    ensures forall id :: Terminate(id) in TerminateCalls(s, xs) <==>
      exists x :: x in xs && x.id == id && x.lifecycleState != Some("Terminating")
    ensures |TerminateCalls(s, xs)| + |Awaited(s, xs)| == |xs|
  {
    if xs != [] {
      var init := xs[..|xs| - 1];
      var last := xs[|xs| - 1];
      TerminateCallsMembers(s, init);
      StatusLifecycleTerminatingIff(s, last);
      assert xs == init + [last];
    }
  }

  /** No instance id receives two terminate calls, when the ids are distinct. */
  lemma {:induction false} TerminateCallsDistinct(s: Snapshot, xs: seq<Instance>)
    requires DistinctIds(xs)
    ensures forall i, j :: 0 <= i < j < |TerminateCalls(s, xs)| ==> TerminateCalls(s, xs)[i] != TerminateCalls(s, xs)[j]
  {
    if xs != [] {
      var init := xs[..|xs| - 1];
      var last := xs[|xs| - 1];
      TerminateCallsDistinct(s, init);
      TerminateCallsMembers(s, init);
    }
  }

  /** Every instance of the group appears in the termination order, and the
      order holds nothing but the group's instances. */
  lemma OrderIds(s: Snapshot)
    ensures Ids(TerminationOrder(s)) == Ids(s.group.instances)
  {
    var all := s.group.instances;
    var t, l, u, n := Apply(s, Terminating, all), Apply(s, Launching, all), Apply(s, Unready, all), Apply(s, New, all);
    IdsConcat(t + l + u + n, all);
    IdsConcat(t + l + u, n);
    IdsConcat(t + l, u);
    IdsConcat(t, l);
    forall f: Filter, id | id in Ids(Apply(s, f, all))
      ensures id in Ids(all)
    {
      IdsMembers(Apply(s, f, all), id);
      var k :| 0 <= k < |Apply(s, f, all)| && Apply(s, f, all)[k].id == id;
      ApplyMembers(s, f, all, Apply(s, f, all)[k]);
      var j :| 0 <= j < |all| && all[j] == Apply(s, f, all)[k];
      IdsMembers(all, id);
    }
  }

  /** The marked instances are group instances with pairwise distinct ids. */
  lemma MarkedDistinct(s: Snapshot)
    requires Overshooting(s)
    ensures DistinctIds(Marked(s))
    ensures forall x :: x in Marked(s) ==> x in s.group.instances
  {
    var d := Dedup(TerminationOrder(s));
    DedupProps(TerminationOrder(s));
    forall x | x in Marked(s)
      ensures x in s.group.instances
    {
      assert x in d;
      var all := s.group.instances;
      var t, l, u, n := Apply(s, Terminating, all), Apply(s, Launching, all), Apply(s, Unready, all), Apply(s, New, all);
      ApplyMembers(s, Terminating, all, x);
      ApplyMembers(s, Launching, all, x);
      ApplyMembers(s, Unready, all, x);
      ApplyMembers(s, New, all, x);
    }
  }

  /** Exactly `count - MaxSize` instances are marked, unless the group has
      fewer distinct ids than that, in which case every id is marked. */
  lemma MarkedCount(s: Snapshot)
    requires Overshooting(s)
    ensures |Marked(s)| == if TerminationsRequired(s) <= |Ids(s.group.instances)|
                           then TerminationsRequired(s) else |Ids(s.group.instances)|
  {
    DedupProps(TerminationOrder(s));
    OrderIds(s);
  }

  /** With distinct instance ids (as the provider reports them), exactly
      `count - MaxSize` instances are marked, each a different one. */
  lemma MarkedExactly(s: Snapshot)
    requires Overshooting(s)
    requires DistinctIds(s.group.instances)
    ensures |Marked(s)| == TerminationsRequired(s)
    ensures DistinctIds(Marked(s))
  {
    MarkedCount(s);
    DistinctIdsCard(s.group.instances);
    MarkedDistinct(s);
  }

  /** The first distinct terminating instances are marked before any other. */
  lemma TerminatingMarkedFirst(s: Snapshot)
    requires Overshooting(s)
    ensures var t := Dedup(Apply(s, Terminating, s.group.instances));
            var n := if |t| <= |Marked(s)| then |t| else |Marked(s)|;
            Marked(s)[..n] == t[..n]
  {
    var all := s.group.instances;
    var t := Apply(s, Terminating, all);
    var rest := Apply(s, Launching, all) + Apply(s, Unready, all) + Apply(s, New, all) + all;
    assert TerminationOrder(s) == t + rest;
    DedupPrefix(t, rest);
  }

  /** The calls of the overshoot correction: one terminate call per marked
      instance not already in the Terminating lifecycle state (an instance
      counted as terminating because its health status is Unhealthy is still
      terminated), no id twice, and together with the awaited instances they
      account for every marked instance. */
  lemma OvershootCalls(s: Snapshot)
    requires Overshooting(s)
    ensures forall a :: a in OvershootPlan(s) ==> a.Terminate?
    ensures forall id :: Terminate(id) in OvershootPlan(s) <==>
      exists x :: x in Marked(s) && x.id == id && x.lifecycleState != Some("Terminating")
    ensures forall i, j :: 0 <= i < j < |OvershootPlan(s)| ==> OvershootPlan(s)[i] != OvershootPlan(s)[j]
    ensures |OvershootPlan(s)| + |Awaited(s, Marked(s))| == |Marked(s)|
  {
    TerminateCallsMembers(s, Marked(s));
    MarkedDistinct(s);
    TerminateCallsDistinct(s, Marked(s));
  }

  // ---------------------------------------------------------------------
  // The loop
  // ---------------------------------------------------------------------

  /** One step of the walk over the order: a new id extends the marked
      instances by the current one, a handled id leaves them unchanged. */
  lemma WalkStep(order: seq<Instance>, i: nat, marked: seq<Instance>)
    requires i < |order| && marked == Dedup(order[..i])
    ensures Ids(marked) == Ids(order[..i]) && |Ids(marked)| == |marked|
    ensures order[i].id in Ids(marked) ==> Dedup(order[..i + 1]) == marked
    ensures order[i].id !in Ids(marked) ==>
      Dedup(order[..i + 1]) == marked + [order[i]]
      && Ids(marked + [order[i]]) == Ids(marked) + {order[i].id}
  {
    DedupStep(order, i);
    DedupProps(order[..i]);
    assert (marked + [order[i]])[..|marked|] == marked;
  }

  /** The first `n` distinct ids of a list, or all of them if there are fewer. */
  function TakeDistinct(order: seq<Instance>, n: nat): seq<Instance>
  {
    var d := Dedup(order);
    if |d| <= n then d else d[..n]
  }

  /** What the walk has marked after `i + 1` steps begins the final marking,
      and is all of it once it has `n` instances. */
  lemma MarkedExtends(order: seq<Instance>, n: nat, i: nat, marked: seq<Instance>)
    requires i < |order| && marked == Dedup(order[..i + 1]) && |marked| <= n
    ensures |marked| <= |TakeDistinct(order, n)| && TakeDistinct(order, n)[..|marked|] == marked
    ensures |marked| == n ==> TakeDistinct(order, n) == marked
  {
    DedupPrefix(order[..i + 1], order[i + 1..]);
    assert order[..i + 1] + order[i + 1..] == order;
  }

  /** After a full walk that never reached `n`, every id is marked. */
  lemma MarkedAll(order: seq<Instance>, n: nat, marked: seq<Instance>)
    requires marked == Dedup(order[..|order|]) && |marked| < n
    ensures TakeDistinct(order, n) == marked
  {
    assert order[..|order|] == order;
  }

  /** The chained iterator, built from the filter loops. */
  method PriorityOrder(s: Snapshot) returns (order: seq<Instance>)
    ensures order == TerminationOrder(s)
  {
    var all := s.group.instances;
    var terminating := Select(s, Terminating, all);
    var launching := Select(s, Launching, all);
    var unready := Select(s, Unready, all);
    var newInstances := Select(s, New, all);
    order := terminating + launching + unready + newInstances + all;
  }

  /** The calls of a final marking that extends `marked + [x]` begin with
      those of `marked` followed by the call for `x`. */
  lemma CallsBeginWith(s: Snapshot, m: seq<Instance>, marked: seq<Instance>, x: Instance)
    requires |marked| < |m| && m[..|marked| + 1] == marked + [x]
    ensures TerminateCalls(s, m) == TerminateCalls(s, marked + [x]) + TerminateCalls(s, m[|marked| + 1..])
  {
    assert m == m[..|marked| + 1] + m[|marked| + 1..];
    TerminateCallsConcat(s, marked + [x], m[|marked| + 1..]);
  }

  /** When the call for the instance just marked is rejected, the run of the
      whole plan ends with that call. */
  lemma AbortStep(s: Snapshot, order: seq<Instance>, n: nat, i: nat, marked: seq<Instance>,
                  issued: seq<Action>, accepts: Action -> bool)
    requires i < |order| && marked + [order[i]] == Dedup(order[..i + 1]) && |marked| < n
    requires InstanceStatus(s, order[i]) != LifecycleTerminating
    requires issued == TerminateCalls(s, marked) && forall k :: 0 <= k < |issued| ==> accepts(issued[k])
    requires !accepts(Terminate(order[i].id))
    ensures Execute(TerminateCalls(s, TakeDistinct(order, n)), accepts) ==
      Run(issued + [Terminate(order[i].id)], Aborted(Terminate(order[i].id)))
  {
    var inst := order[i];
    var m := TakeDistinct(order, n);
    MarkedExtends(order, n, i, marked + [inst]);
    CallsBeginWith(s, m, marked, inst);
    TerminateCallsSnoc(s, marked, inst);
    AbortsAt(issued, Terminate(inst.id), TerminateCalls(s, m[|marked| + 1..]), accepts);
  }

  /** The state of the walk after `i` steps: the handled ids are those of
      the first occurrences met so far, and every call issued was accepted. */
  ghost predicate Walked(s: Snapshot, order: seq<Instance>, i: nat, marked: seq<Instance>,
                         handled: set<string>, issued: seq<Action>, accepts: Action -> bool)
  {
    i <= |order| && marked == Dedup(order[..i]) && handled == Ids(marked)
    && issued == TerminateCalls(s, marked) && forall k :: 0 <= k < |issued| ==> accepts(issued[k])
  }

  lemma SkipStep(s: Snapshot, order: seq<Instance>, i: nat, marked: seq<Instance>,
                 handled: set<string>, issued: seq<Action>, accepts: Action -> bool)
    requires i < |order| && Walked(s, order, i, marked, handled, issued, accepts)
    requires order[i].id in handled
    ensures Walked(s, order, i + 1, marked, handled, issued, accepts)
  {
    WalkStep(order, i, marked);
  }

  lemma MarkStep(s: Snapshot, order: seq<Instance>, i: nat, marked: seq<Instance>,
                 handled: set<string>, issued: seq<Action>, accepts: Action -> bool, issued': seq<Action>)
    requires i < |order| && Walked(s, order, i, marked, handled, issued, accepts)
    requires order[i].id !in handled
    requires issued' == issued + (if InstanceStatus(s, order[i]) == LifecycleTerminating then [] else [Terminate(order[i].id)])
    requires forall k :: 0 <= k < |issued'| ==> accepts(issued'[k])
    ensures Walked(s, order, i + 1, marked + [order[i]], handled + {order[i].id}, issued', accepts)
    ensures |handled + {order[i].id}| == |marked| + 1
  {
    WalkStep(order, i, marked);
    TerminateCallsSnoc(s, marked, order[i]);
  }

  /** The walk over any order, stopping at `n` distinct ids. */
  method Walk(s: Snapshot, order: seq<Instance>, n: nat, accepts: Action -> bool)
    returns (issued: seq<Action>, outcome: Outcome)
    requires n > 0
    ensures Run(issued, outcome) == Execute(TerminateCalls(s, TakeDistinct(order, n)), accepts)
  {
    var handled: set<string> := {};
    ghost var marked: seq<Instance> := [];
    issued := [];
    var i := 0;
    while i < |order|
      invariant Walked(s, order, i, marked, handled, issued, accepts)
      invariant |marked| < n
    {
      var inst := order[i];
      if inst.id in handled {
        SkipStep(s, order, i, marked, handled, issued, accepts);
        i := i + 1;
        continue;
      }
      var status := InstanceStatus(s, inst);
      var issued' := issued;
      if status != LifecycleTerminating {
        var call := Terminate(inst.id);
        issued' := issued + [call];
        if !accepts(call) {
          WalkStep(order, i, marked);
          AbortStep(s, order, n, i, marked, issued, accepts);
          issued := issued';
          outcome := Aborted(call);
          return;
        }
      }
      MarkStep(s, order, i, marked, handled, issued, accepts, issued');
      issued := issued';
      handled := handled + {inst.id};
      marked := marked + [inst];
      if |handled| == n {
        MarkedExtends(order, n, i, marked);
        break;
      }
      i := i + 1;
    }
    if i == |order| {
      MarkedAll(order, n, marked);
    }
    assert TakeDistinct(order, n) == marked;
    AllAccepted(issued, accepts);
    outcome := Completed;
  }

  /** The overshoot correction of lines 70-107: walk the priority order and
      stop once as many distinct ids as the excess have been handled. */
  method TerminateExcess(s: Snapshot, accepts: Action -> bool) returns (issued: seq<Action>, outcome: Outcome)
    requires Overshooting(s)
    ensures Run(issued, outcome) == Execute(OvershootPlan(s), accepts)
  {
    var required := |s.group.instances| - s.group.maxSize;
    var order := PriorityOrder(s);
    issued, outcome := Walk(s, order, required, accepts);
  }
}
