# Rolling instance replacement for Auto Scaling groups

This project models the decision procedure of an AWS Lambda function. The function replaces the instances of an Auto Scaling group (ASG) one at a time, whenever the group's launch configuration changes. Events and schedules invoke it many times. Each invocation of `replace_old_instances` works on one snapshot of the group and does two things:

1. **The suspension gate.** If old instances remain and any of the four scaling processes (AlarmNotification, AZRebalance, Launch, ScheduledActions) is not suspended yet, it suspends them.
2. **One step of the rollout.** It then takes the first applicable step of a fixed chain:
   - correct an overshoot of the maximum size by terminating excess instances, in priority order;
   - state A: raise the desired capacity by one;
   - state B: resume the Launch process and wait;
   - state C: wait while a new instance is unready or an old one is terminating;
   - state D: mark one old instance unhealthy;
   - state E: resume every suspended process.

Each step is decided by:

- the composite status of every instance: lifecycle state, then health status, then the target group records, then the load balancer records;
- the instance-list filters `new`, `old`, `launching`, `terminating` and `unready`;
- the `InstanceReplacement` tag, which tells whether a group is managed at all.

The modules:

- `Model` holds the snapshot and the source's constants.
- `Health` builds the health indexes and classifies instance status.
- `Filters` holds the instance-list filters.
- `Policy` holds the two group-level tests.
- `Actions` holds the group mutations. A mutation whose response does not report success aborts the invocation.
- `Overshoot` holds the termination loop.
- `Rollout` holds `replace_old_instances`.
- `Scenarios` takes concrete groups through one invocation each.

**How it is modelled.** Every decision is a function of the snapshot. The source's loops are methods, each proved equal to the function that specifies it:

- the filter loops (`Select`, specified by `Apply`);
- the index building (`BuildIndex`);
- the suspended-process check (`IsSuspendProcessesRequired`);
- the overshoot walk (`Walk`, specified by `TakeDistinct` and `TerminateCalls`);
- the controller (`ReplaceOldInstances`, specified by `Plan` and `Execute`).

**The cloud side.** A parameter `accepts` tells which calls the cloud side accepts. `Execute` issues the planned calls in order and stops after the first one that is rejected. This is how the source raises on a non-200 response to a mutation.

## Model

| member | source | states |
|---|---|---|
| Policy.IsManaged | lambda/autoscaling.py:89-102 | a group is managed iff it has an InstanceReplacement tag and the lowercased value of the first such tag is not one of 0, disabled, false, no, off |
| Policy.ManagedByFirstTag | lambda/autoscaling.py:24-34 | once the first InstanceReplacement tag is known, its value alone decides management; later tags with that key are ignored |
| Policy.IsSuspendProcessesRequired | lambda/autoscaling.py:104-119 | the loops over the suspended process names return true exactly when there are old instances and one of the four scaling processes is not among the suspended names |
| Health.BuildIndex | lambda/autoscaling.py:64-74 | after appending batch after batch, every id's entry is exactly that id's records, in fetch order; a missing id reads as the empty list, and no id holds an empty entry |
| Health.BuildInstanceHealth | lambda/autoscaling.py:56-74 | the instance_health index holds the load balancer InstanceState records of each InstanceId, in order; an absent id has none |
| Health.BuildTargetHealth | lambda/autoscaling.py:121-146 | the target_health index holds the TargetHealthDescription records of each Target.Id, in order |
| Health.ClassifySpec | lambda/autoscaling.py:148-177 | the status is decided by the first failing check in the order lifecycle, health, target records, load balancer records; each kind arises exactly when every earlier check passes and its own fails; a record status carries the Reason or ReasonCode of the first failing record; an id without records passes both record checks |
| Health.StatusReadyIff | lambda/autoscaling.py:157-177 | the status is All:Ready iff the instance is InService and Healthy and every target record is healthy and every load balancer state is InService |
| Health.LifecycleStatusIs | lambda/autoscaling.py:157-159 | the status is LifecycleState:x (for x other than InService and None) iff the instance's lifecycle state is x |
| Health.HealthStatusIs | lambda/autoscaling.py:161-163 | the status is HealthStatus:x iff the instance is InService and its health status is x, with x not Healthy |
| Health.StatusLaunchingIff | lambda/autoscaling.py:47-50 | a status is in the launching set iff the lifecycle state is Pending or PendingWait |
| Health.StatusTerminatingIff | lambda/autoscaling.py:51-54 | a status is in the terminating set iff the lifecycle state is Terminating, or the instance is InService with health status Unhealthy |
| Health.StatusLifecycleTerminatingIff | lambda/main.py:89-91 | the status the overshoot loop only waits for means exactly a Terminating lifecycle state |
| Filters.Select | lambda/autoscaling.py:257-302 | each filter property's loop returns the filtered list `Apply`: the instances passing the filter's test, in order |
| Filters.ApplyMembers | lambda/autoscaling.py:266-302 | an instance is in a filtered list iff it is in the list and passes the filter's test |
| Filters.ApplyConcat | lambda/autoscaling.py:257-302 | filtering preserves order: filtering a concatenation gives the concatenation of the filtered parts |
| Filters.NewOldPartition | lambda/autoscaling.py:266-284 | `new` and `old` partition the list: every instance is in exactly one of them, their lengths add up to the list's, and together they hold its instances with multiplicities |
| Filters.ChainIsConjunction | lambda/autoscaling.py:264 | a chain of filters, each applied to the previous result over the same group, equals one pass keeping the instances that pass every filter of the chain |
| Filters.ApplyCommutes | lambda/autoscaling.py:264 | two filters applied in either order give the same list (for example `new.unready` is `unready.new`) |
| Filters.ApplyImplied | lambda/autoscaling.py:257-302 | filtering again by a test implied by the first one changes nothing |
| Filters.LaunchingAndTerminatingAreUnready | lambda/autoscaling.py:45-54 | every launching and every terminating instance is also unready |
| Actions.ExecuteCompletes | lambda/autoscaling.py:185-190 | a run completes iff the cloud side accepts every planned call, and then it has issued the whole plan |
| Actions.ExecuteAborts | lambda/autoscaling.py:214-244 | a failing run issues the plan up to and including the first rejected call, and fails with that call |
| Actions.ExecuteAppend | lambda/main.py:52-56 | the second of two plans run back to back is issued only if the first completes |
| Overshoot.Walk | lambda/main.py:80-107 | the loop that skips handled ids, waits for or terminates each new one, and stops at the required count of ids issues the calls of the first distinct ids of the order, aborting at the first rejected termination |
| Overshoot.PriorityOrder | lambda/main.py:72-78 | the chained iterator is terminating, then launching, then unready, then new, then all instances |
| Overshoot.TerminateExcess | lambda/main.py:70-107 | the overshoot correction issues exactly the terminate calls of the marked instances, in order, through the response checks |
| Overshoot.MarkedCount | lambda/main.py:70-107 | count minus MaxSize instances are marked, or every distinct id when the group has fewer |
| Overshoot.MarkedExactly | lambda/main.py:70-107 | with distinct instance ids, exactly count minus MaxSize instances are marked, no id twice |
| Overshoot.MarkedDistinct | lambda/main.py:80-87 | marked instances have pairwise distinct ids and are instances of the group |
| Overshoot.TerminatingMarkedFirst | lambda/main.py:72-78 | the distinct terminating instances are marked before any other instance |
| Overshoot.OrderIds | lambda/main.py:72-78 | the priority order covers exactly the group's ids |
| Overshoot.OvershootCalls | lambda/main.py:89-104 | the overshoot issues only terminate calls, one for each marked instance not in the Terminating lifecycle state (an Unhealthy one is still terminated); no id is terminated twice; calls and waits account for every marked instance |
| Overshoot.DedupProps | lambda/main.py:80-87 | keeping the first instance of every id gives distinct ids, the same id set, one instance per id, all taken from the input |
| Overshoot.DedupPrefix | lambda/main.py:82-87 | the ids handled first along the order are a prefix of those handled along any longer order |
| Rollout.ReplaceOldInstances | lambda/main.py:42-195 | one invocation issues the gate's call and then the chosen branch's calls, through the response checks, as `Execute(Plan(s))` |
| Rollout.OneStepAtATime | lambda/main.py:56-195 | the overshoot branch is chosen iff count exceeds MaxSize, and then it issues only terminations; otherwise the branch issues at most one call, never a termination and never a suspension |
| Rollout.GateFirst | lambda/main.py:52-54 | processes are suspended iff old instances remain and some scaling process is unsuspended; the suspension always comes first and no branch issues it |
| Rollout.TerminateOnlyOnOvershoot | lambda/main.py:56-107 | an instance is terminated only while count exceeds MaxSize, and only if it is marked and not in the Terminating lifecycle state |
| Rollout.RaiseCapacityByOne | lambda/main.py:111-124 | the desired capacity is raised only to DesiredCapacity + 1, which stays within MaxSize, only without overshoot, while no instance is new, as the only call of the branch |
| Rollout.AwaitLaunchResumesLaunch | lambda/main.py:128-136 | only the Launch process is resumed, exactly in state B: fewer instances than desired, as the only call of the branch |
| Rollout.AwaitReadinessWaits | lambda/main.py:140-168 | once earlier branches are skipped, one unready new instance or one terminating old instance makes the branch issue no call |
| Rollout.RetireCandidate | lambda/main.py:176-179 | the instance state D picks is old; it is the first unready old instance when one exists, and otherwise the first old instance |
| Rollout.RetireExactlyOne | lambda/main.py:172-185 | an instance is marked unhealthy only as the branch's single call, an old one, unready whenever some old instance is, and only when every new instance is ready and no old instance is terminating |
| Rollout.RaiseIf | lambda/main.py:111-124 | without overshoot, with DesiredCapacity below MaxSize and no instance on the current launch configuration, the branch's only call raises the desired capacity to DesiredCapacity + 1 |
| Rollout.RetireIf | lambda/main.py:172-185 | once states A and B are not taken, with every new instance ready, no old instance terminating and some old instance left, the branch's only call marks the retire candidate unhealthy |
| Rollout.CompleteIf | lambda/main.py:189-195 | once states A and B are not taken, with every instance new and ready and some process suspended, the invocation's whole plan is one resume of every process |
| Rollout.CompleteOnlyWhenReplaced | lambda/main.py:189-195 | all processes are resumed only as the invocation's single call, with processes suspended, the count between DesiredCapacity and MaxSize, and every instance new and ready |
| Rollout.IdleWhenDone | lambda/main.py:56-195 | a fully replaced group with nothing suspended sees no call at all |
| Rollout.RetireCandidateAsWritten | lambda/main.py:176-183 | as written, the selection yields an instance iff some old instance is unready; with none, reading the InstanceId of the taken list raises |
| Scenarios.ScenarioA | lambda/main.py:52-124 | two ready old instances, desired 2 of at most 3, nothing suspended: the plan is suspend, then set desired capacity to 3 |
| Scenarios.ScenarioB | lambda/main.py:140-168 | a pending new instance: the plan is empty |
| Scenarios.ScenarioC | lambda/main.py:172-185 | all ready: the plan marks the first old instance unhealthy and does nothing else |
| Scenarios.ScenarioCAsWritten | lambda/main.py:179 | on that same group, state D is taken and the selection as written yields no instance |
| Scenarios.ScenarioD | lambda/main.py:70-107 | four instances for MaxSize 3, one already terminating: it alone is marked, and no call is issued |
| Scenarios.ManagedExamples | lambda/autoscaling.py:24-34 | a blank tag value manages the group; "Off" does not; the first of two tags decides; no tag means unmanaged |

## Left out

- `lambda_handler` (lambda/main.py:6-39) is left out. It parses the event, finds the group and calls `replace_old_instances` for managed groups; this is I/O.
- `describe_auto_scaling_groups` and `describe_auto_scaling_instances` (lambda/autoscaling.py:305-332) are left out: they are paginated describe calls.
- `ec2.py` and `elb.py` are not part of this model. Their describe calls become inputs: the index methods take the fetched batches, and the snapshot holds the indexes. Their terminate call is an `Action`, and its 200 check is `accepts`.
- The boto3 calls inside the four mutation methods are recorded as `Action` values.
- Every non-200 response to a mutation is one abstract rejection. The mutations are the four mutation methods of the group and `ec2.terminate_instance`.
- A failing describe call is not modelled. The model takes the load balancer and target group records as inputs. In the source, `elb.describe_instance_health` and `elb.describe_target_health` run lazily, at the first status check that reads `instance_health` or `target_health` (lambda/autoscaling.py:167, 173). If one of them then gets a non-200 response, the invocation raises there, possibly after the Suspend call has already been issued.
- Other exceptions, network failures and retries are not modelled.
- The LoadBalancerNames and TargetGroupARNs of the group are not in `Group`, because only the records fetched for them matter.
- `log` and every `print` are left out, because they have no effect on the decisions.
- Health-index fetching is not modelled separately. `lazyproperty` caches each derived value the first time it is read, and every decision of an invocation reads the same snapshot. The value is the same either way, so the caching is not modelled either.
- Concurrent invocations on the same group are not modelled. Each invocation is taken on its own snapshot.
- Policy.Lower: lowercases ASCII letters only. Python's `str.lower` also folds non-ASCII letters. The disabling values are ASCII, but a non-ASCII capital letter in a tag value is lowercased differently.
- A missing required key is not modelled:
  - the model takes as present the group's LaunchConfigurationName, the InstanceId, the Reason of a target record and the ReasonCode of a load balancer record;
  - the source raises a KeyError on a missing one;
  - the fields the source reads with `.get` (LifecycleState, HealthStatus, the instance's LaunchConfigurationName) are options.
- The group's MaxSize and DesiredCapacity are taken as natural numbers.
- Rollout.ReplaceOldInstances: an invocation is modelled as taking the line 179 branch with the intended first old instance, not as raising there. That case is in the Findings.

## Findings

| source | as written | input that shows it | evidently intended | confidence | as-written member | corrected member |
|---|---|---|---|---|---|---|
| lambda/main.py:179 | when no old instance is unready, `instance` is bound to the whole list of old instances, so `instance['InstanceId']` at line 182 raises before any instance is marked unhealthy | a group at its maximum size of 3, with three in-service, healthy instances, two of them on the previous launch configuration, and every scaling process suspended (`Scenarios.ScenarioCAsWritten`) | `instance = asg.instances.old[0]`: the first old instance is marked unhealthy | not executed | Rollout.RetireCandidateAsWritten | Rollout.RetireCandidate |
