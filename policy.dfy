/** Group-level tests: whether the replacement manages a group at all, and
    whether its scaling processes still have to be suspended. */
module Policy {
  import opened Model
  import opened Filters

  /** ASCII lowercasing of one character. */
  function LowerChar(c: char): char
  {
    if 'A' <= c <= 'Z' then (c as int + 32) as char else c
  }

  /** Python's `str.lower()`, restricted to ASCII letters. */
  function Lower(v: string): string
  {
    seq(|v|, i requires 0 <= i < |v| => LowerChar(v[i]))
  }

  /** `k` is the position of the first tag whose key is InstanceReplacement. */
  predicate FirstReplacementTag(tags: seq<Tag>, k: int)
  {
    0 <= k < |tags| && tags[k].key == ReplacementTagKey
    && forall j :: 0 <= j < k ==> tags[j].key != ReplacementTagKey
  }

  /** `is_managed` over the group's tags: the first InstanceReplacement tag
      decides; its lowercased value switches management off when it is one
      of the disabling tokens and on otherwise (a blank value included); a
      group without such a tag is not managed. */
  function IsManaged(tags: seq<Tag>): (r: bool)
    ensures r <==> exists k :: FirstReplacementTag(tags, k) && Lower(tags[k].value) !in DisabledTags
  {
    if tags == [] then false
    else if tags[0].key == ReplacementTagKey then
      assert FirstReplacementTag(tags, 0);
      Lower(tags[0].value) !in DisabledTags
    else
      var r := IsManaged(tags[1..]);
      assert forall k :: FirstReplacementTag(tags[1..], k) <==> FirstReplacementTag(tags, k + 1);
      assert !FirstReplacementTag(tags, 0);
      r
  }

  /** Given the position of the first InstanceReplacement tag, that tag's
      lowercased value alone decides management, whatever later tags with
      the same key say. */
  lemma ManagedByFirstTag(tags: seq<Tag>, k: nat)
    requires FirstReplacementTag(tags, k)
    ensures IsManaged(tags) <==> Lower(tags[k].value) !in DisabledTags
  {
    assert forall j :: FirstReplacementTag(tags, j) ==> j == k;
  }

  /** Every one of the four scaling processes is in the suspended list. */
  predicate AllScalingProcessesSuspended(g: Group)
  {
    forall p :: p in ScalingProcesses ==> exists q :: q in g.suspendedProcesses && q.processName == p
  }

  /** Processes still need suspending: there are old instances and at least
      one of the four scaling processes is not suspended. */
  predicate SuspendRequired(s: Snapshot)
  {
    Apply(s, Old, s.group.instances) != [] && !AllScalingProcessesSuspended(s.group)
  }

  /** `is_suspend_processes_required`: collect the suspended process names,
      then look for a scaling process that is not among them. */
  method IsSuspendProcessesRequired(s: Snapshot) returns (r: bool)
    ensures r == SuspendRequired(s)
  {
    var oldInstances := Select(s, Old, s.group.instances);
    if oldInstances != [] {
      var processes := s.group.suspendedProcesses;
      var suspended: set<string> := {};
      for i := 0 to |processes|
        invariant suspended == set j | 0 <= j < i :: processes[j].processName
      {
        suspended := suspended + {processes[i].processName};
      }
      assert forall n :: n in suspended <==> exists q :: q in processes && q.processName == n;
      for i := 0 to |ScalingProcesses|
        invariant forall j :: 0 <= j < i ==> ScalingProcesses[j] in suspended
      {
        if ScalingProcesses[i] !in suspended {
          assert ScalingProcesses[i] in ScalingProcesses;
          return true;
        }
      }
      return false;
    }
    return false;
  }
}
