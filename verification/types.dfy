/**
 The Kubernetes objects the agent and the operator exchange, reduced to the fields that drive
 reconciliation.  Identifiers (program ids, link ids, uuids) are natural numbers.
 */
module Types {

  datatype Option<+T> = None | Some(value: T)

  datatype ProgType =
    | Fentry | Fexit | Kprobe | Kretprobe | Uprobe | Uretprobe | Tracepoint | Tc | Tcx | Xdp

  datatype Direction = Ingress | Egress

  /** Where one link is attached: the fields of the ten *AttachInfoState types. */
  datatype AttachPoint =
    | FentryPoint
    | FexitPoint
    | KprobePoint(func: string, offset: int)
    | KretprobePoint(func: string)
    | TracepointPoint(name: string)
    | UprobePoint(func: string, offset: int, target: string, pid: Option<int>, containerPid: Option<int>)
    | TcPoint(interfaceName: string, netnsPath: string, priority: int, direction: Direction, proceedOn: seq<string>)
    | TcxPoint(interfaceName: string, netnsPath: string, priority: int, direction: Direction)
    | XdpPoint(interfaceName: string, netnsPath: string, priority: int, proceedOn: seq<string>)

  datatype LinkStatus = ApAttachAttached | ApAttachNotAttached | ApAttachError | ApDetachError

  /** An entry of a program's link list in the state object. */
  datatype Link = Link(point: AttachPoint, shouldAttach: bool, uuid: nat, linkId: Option<nat>, status: LinkStatus)

  datatype ProgramLinkStatus = ProgAttachPending | ProgAttachSuccess | ProgAttachError | UpdateAttachInfoError

  /** One program of the state object; `func` is the traced function of fentry and fexit programs. */
  datatype ProgState = ProgState(
    name: string,
    kind: ProgType,
    func: string,
    programId: Option<nat>,
    linkStatus: ProgramLinkStatus,
    links: seq<Link>)

  datatype AppLoadStatus =
    | AppLoadUnset | AppLoadNotLoaded | AppLoadSuccess | AppLoadError
    | AppUnLoadSuccess | NotSelected | ProgListChangedError

  /** The condition types of a state object; CondEmpty is the empty type string. */
  datatype CondType =
    | CondPending | CondSuccess | CondError | CondProgramListChangedError
    | CondUnloadError | CondUnloaded | CondEmpty

  /** `since` is the transition time. */
  datatype Condition = Condition(kind: CondType, since: nat)

  datatype AppStatus = AppStatus(
    loadStatus: AppLoadStatus,
    updateCount: nat,
    programs: seq<ProgState>,
    conditions: seq<Condition>)

  /** A (Cluster)BpfApplicationState object; `finalizer` says whether the agent's finalizer is on it. */
  datatype AppState = AppState(finalizer: bool, status: AppStatus)

  datatype ContainerSelector = ContainerSelector(namespace: string, pods: string, names: Option<seq<string>>)

  datatype ContainerInfo = ContainerInfo(podName: string, containerName: string, pid: int)

  /** The three results a container lookup can have. */
  datatype ContainerQuery = QueryFailed | NoContainers | Containers(found: seq<ContainerInfo>)

  datatype DiscoveryConfig = DiscoveryConfig(enabled: bool, exclude: seq<string>, allowed: seq<string>)

  datatype InterfaceSelector = InterfaceSelector(
    discovery: Option<DiscoveryConfig>,
    interfaces: seq<string>,
    primary: bool)

  /** One requested attachment in an application's spec: the fields of the ten *AttachInfo types. */
  datatype AttachInfo =
    | FentryInfo
    | FexitInfo
    | KprobeInfo(func: string, offset: int)
    | KretprobeInfo(func: string)
    | TracepointInfo(name: string)
    | UprobeInfo(func: string, offset: int, target: string, pid: Option<int>, containers: Option<ContainerSelector>)
    | TcInfo(ifaces: InterfaceSelector, netns: Option<ContainerSelector>, prio: Option<int>, direction: Direction, proceedOn: seq<string>)
    | TcxInfo(ifaces: InterfaceSelector, netns: Option<ContainerSelector>, prio: Option<int>, direction: Direction)
    | XdpInfo(ifaces: InterfaceSelector, netns: Option<ContainerSelector>, prio: Option<int>, proceedOn: seq<string>)

  datatype ProgSpec = ProgSpec(name: string, kind: ProgType, func: string, infos: seq<AttachInfo>)

  datatype NodeSelector = MatchLabels(labels: map<string, string>) | InvalidSelector

  /** A (Cluster)BpfApplication object; `deleting` says whether its deletion timestamp is set. */
  datatype App = App(name: string, deleting: bool, selector: NodeSelector, programs: seq<ProgSpec>)

  /** `handle` stands for the hardware address and namespace handle, which also tell interfaces apart. */
  datatype Interface = Interface(name: string, nsName: string, handle: nat)

  /**
   What one node looks like during one pass: its labels, the inode of every network namespace path that
   can be stat'ed, the primary interface, the discovered interfaces in iteration order, the containers, the
   (pattern, name) pairs that match and the patterns that compile, and the applications whose bytecode
   reference can be resolved.
   */
  datatype Env = Env(
    labels: map<string, string>,
    netns: map<string, nat>,
    primaryInterface: Option<string>,
    interfaces: seq<Interface>,
    containers: map<ContainerSelector, ContainerQuery>,
    patterns: set<string>,
    matching: set<(string, string)>,
    bytecode: set<string>)
}
