/** The snapshot of one Auto Scaling group that a single invocation of the
    instance replacement works on: the group record, its instances, and the
    health records fetched from its load balancers and target groups. The
    snapshot is never changed; every decision is a function of it. */
module Model {

  datatype Option<T> = None | Some(value: T)

  /** One entry of the group's Tags list. */
  datatype Tag = Tag(key: string, value: string)

  /** One entry of the group's SuspendedProcesses list. */
  datatype SuspendedProcess = SuspendedProcess(processName: string, suspensionReason: string)

  /** One entry of the group's Instances list. The fields the source reads
      with `instance.get(...)` may be missing, hence the options. */
  datatype Instance = Instance(
    id: string,
    lifecycleState: Option<string>,
    healthStatus: Option<string>,
    launchConfigurationName: Option<string>)

  /** A classic load balancer's InstanceState record for one instance. */
  datatype InstanceState = InstanceState(instanceId: string, state: string, reasonCode: string)

  /** A target group's TargetHealthDescription record for one target. */
  datatype TargetHealthDescription = TargetHealthDescription(targetId: string, state: string, reason: string)

  /** The fields of the Auto Scaling group record that the decisions read. */
  datatype Group = Group(
    name: string,
    maxSize: nat,
    desiredCapacity: nat,
    launchConfigurationName: string,
    suspendedProcesses: seq<SuspendedProcess>,
    tags: seq<Tag>,
    instances: seq<Instance>)

  /** The group together with its two health indexes, each mapping an
      instance id to the records reported for it, in the order fetched. */
  datatype Snapshot = Snapshot(
    group: Group,
    instanceHealth: map<string, seq<InstanceState>>,
    targetHealth: map<string, seq<TargetHealthDescription>>)

  /** Tag values (after lowercasing) that switch the replacement off. */
  const DisabledTags: set<string> := {"0", "disabled", "false", "no", "off"}

  /** The tag that switches the replacement on. */
  const ReplacementTagKey: string := "InstanceReplacement"

  /** Scaling processes suspended while old instances are being replaced. */
  const ScalingProcesses: seq<string> := ["AlarmNotification", "AZRebalance", "Launch", "ScheduledActions"]

  const ReadyStatus: string := "All:Ready"
  const LaunchingStatuses: set<string> := {"LifecycleState:Pending", "LifecycleState:PendingWait"}
  const TerminatingStatuses: set<string> := {"HealthStatus:Unhealthy", "LifecycleState:Terminating"}

  /** The status for which the overshoot correction issues no terminate call. */
  const LifecycleTerminating: string := "LifecycleState:Terminating"
}
