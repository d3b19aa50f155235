// The three lookups that turn a service into a pod and a target port.
module PortResolution {
  import opened Text

  /** An `intstr.IntOrString`; `Odd` has a type that is neither. */
  datatype TargetPort = Number(n: int) | Name(name: string) | Odd

  datatype ContainerPort = ContainerPort(name: string, number: int)

  datatype Container = Container(name: string, ports: seq<ContainerPort>)

  datatype Pod = Pod(name: string, running: bool, containers: seq<Container>)

  datatype ServicePort = ServicePort(port: int, target: TargetPort)

  datatype Service = Service(ports: seq<ServicePort>, hasSelector: bool)

  /** What the API answers: the service if it can be read, and the pods its
      selector lists if they can be. */
  datatype Cluster = Cluster(service: Option<Service>, pods: Option<seq<Pod>>)

  datatype Answer =
    | Found(pod: string, port: int)
    | NoService | NoSelector | ListFailed | NoRunningPod
    | IndexPanic

  datatype PortAnswer =
    | Port(port: int)
    | PortNoService | PortNoPorts | PortNoSelector | PortListFailed | PortUnresolved

  // Inside one pod.

  /** The index of the first port of that name. */
  function FirstIndex(ports: seq<ContainerPort>, name: string): (r: Option<nat>)
    ensures r.None? <==> forall i :: 0 <= i < |ports| ==> ports[i].name != name
    ensures r.Some? ==> r.value < |ports| && ports[r.value].name == name
                        && forall j :: 0 <= j < r.value ==> ports[j].name != name
  {
    if ports == [] then None
    else if ports[0].name == name then Some(0)
    else
      var r := FirstIndex(ports[1..], name);
      assert forall i :: 1 <= i < |ports| ==> ports[i] == ports[1..][i - 1];
      if r.None? then None else Some(r.value + 1)
  }

  function FirstNamed(ports: seq<ContainerPort>, name: string): Option<int> {
    var i := FirstIndex(ports, name);
    if i.Some? then Some(ports[i.value].number) else None
  }

  /** findContainerPortByName. */
  function FindContainerPortByName(containers: seq<Container>, name: string): Option<int> {
    if containers == [] then None
    else
      var here := FirstNamed(containers[0].ports, name);
      if here.Some? then here else FindContainerPortByName(containers[1..], name)
  }

  function AllPorts(containers: seq<Container>): seq<ContainerPort> {
    if containers == [] then [] else containers[0].ports + AllPorts(containers[1..])
  }

  lemma FirstNamedAppend(a: seq<ContainerPort>, b: seq<ContainerPort>, name: string)
    ensures FirstNamed(a + b, name) ==
            if FirstNamed(a, name).Some? then FirstNamed(a, name) else FirstNamed(b, name)
  {
    var i, j := FirstIndex(a, name), FirstIndex(b, name);
    if i.Some? {
      assert (a + b)[i.value] == a[i.value];
    } else if j.Some? {
      assert (a + b)[|a| + j.value] == b[j.value];
      assert forall x :: |a| <= x < |a| + j.value ==> (a + b)[x] == b[x - |a|];
    }
  }

  /** The nested search finds the number of the first port of that name in the whole pod. */
  lemma {:induction false} NestedSearchIsFlat(containers: seq<Container>, name: string)
    ensures var ports := AllPorts(containers);
            var i := FirstIndex(ports, name);
            FindContainerPortByName(containers, name) == if i.None? then None else Some(ports[i.value].number)
  {
    if containers != [] {
      NestedSearchIsFlat(containers[1..], name);
      FirstNamedAppend(containers[0].ports, AllPorts(containers[1..]), name);
    }
  }

  predicate Sidecar(c: Container) {
    c.name == "istio-proxy" || c.name == "istio-init"
  }

  /** findApplicationContainerPort: 0 when there is none. */
  function ApplicationPort(containers: seq<Container>): (port: int)
    ensures (forall c :: c in containers ==> Sidecar(c) || c.ports == []) ==> port == 0
    ensures port != 0 ==> exists c :: c in containers && !Sidecar(c) && c.ports != [] && port == c.ports[0].number
  {
    if containers == [] then 0
    else if Sidecar(containers[0]) || containers[0].ports == [] then
      assert forall c :: c in containers[1..] ==> c in containers;
      assert forall c :: c in containers ==> c == containers[0] || c in containers[1..];
      ApplicationPort(containers[1..])
    else
      assert containers[0] in containers;
      containers[0].ports[0].number
  }

  /** It is the first port of the first container that is no sidecar and has ports. */
  lemma {:induction false} ApplicationPortIsFirst(containers: seq<Container>, i: nat)
    requires i < |containers| && containers[i].ports != []
    requires containers[i].name != "istio-proxy" && containers[i].name != "istio-init"
    requires forall j :: 0 <= j < i ==>
               containers[j].name == "istio-proxy" || containers[j].name == "istio-init" || containers[j].ports == []
    ensures ApplicationPort(containers) == containers[i].ports[0].number
  {
    if i > 0 {
      ApplicationPortIsFirst(containers[1..], i - 1);
    }
  }

  /** The port the pod gives a target, if it gives one: resolvePodTargetPort. */
  function Resolve(pod: Pod, target: TargetPort): Option<int> {
    match target
    case Number(n) => Some(n)
    case Name(name) => FindContainerPortByName(pod.containers, name)
    case Odd => None
  }

  /** The port used for a pod that does not give the target one; `last` is the final resort. */
  function FallbackPort(pod: Pod, last: int): int {
    if ApplicationPort(pod.containers) > 0 then ApplicationPort(pod.containers) else last
  }

  /** The port used for a pod. */
  function PortFor(pod: Pod, target: TargetPort, last: int): int {
    var resolved := Resolve(pod, target);
    if resolved.Some? then resolved.value else FallbackPort(pod, last)
  }

  /** Neither the target nor the application container gives a port. */
  predicate LastFallback(pod: Pod, target: TargetPort) {
    Resolve(pod, target).None? && ApplicationPort(pod.containers) <= 0
  }

  // The lookups.

  /** GetPodNameForService, from the pod list on: it reads the service's first
      port only once a running pod turned up. */
  function ScanForService(service: Service, pods: seq<Pod>): Answer {
    if pods == [] then NoRunningPod
    else if !pods[0].running then ScanForService(service, pods[1..])
    else if service.ports == [] then IndexPanic
    else Found(pods[0].name, PortFor(pods[0], service.ports[0].target, 80))
  }

  function GetPodNameForService(c: Cluster): Answer {
    if c.service.None? then NoService
    else if !c.service.value.hasSelector then NoSelector
    else if c.pods.None? then ListFailed
    else ScanForService(c.service.value, c.pods.value)
  }

  /** The target of the first service port with that number. */
  function MatchingTarget(ports: seq<ServicePort>, requested: int): Option<TargetPort> {
    if ports == [] then None
    else if ports[0].port == requested then Some(ports[0].target)
    else MatchingTarget(ports[1..], requested)
  }

  function ResolveServiceTargetPort(service: Service, requested: int): TargetPort {
    var matching := MatchingTarget(service.ports, requested);
    if matching.Some? then matching.value
    else if service.ports != [] then service.ports[0].target
    else Number(requested)
  }

  function FindFirstMatchingPod(pods: seq<Pod>, target: TargetPort, requested: int): Answer {
    if pods == [] then NoRunningPod
    else if !pods[0].running then FindFirstMatchingPod(pods[1..], target, requested)
    else Found(pods[0].name, PortFor(pods[0], target, requested))
  }

  function GetPodNameForServiceWithPort(c: Cluster, requested: int): Answer {
    if c.service.None? then NoService
    else if !c.service.value.hasSelector then NoSelector
    else if c.pods.None? then ListFailed
    else FindFirstMatchingPod(c.pods.value, ResolveServiceTargetPort(c.service.value, requested), requested)
  }

  /** The port the first running pod that declares the name gives it. */
  function ScanForName(pods: seq<Pod>, name: string): Option<int> {
    if pods == [] then None
    else if pods[0].running && FindContainerPortByName(pods[0].containers, name).Some? then
      FindContainerPortByName(pods[0].containers, name)
    else ScanForName(pods[1..], name)
  }

  function GetServicePort(c: Cluster): PortAnswer {
    if c.service.None? then PortNoService
    else if c.service.value.ports == [] then PortNoPorts
    else
      match c.service.value.ports[0].target
      case Number(n) => Port(n)
      case Name(name) =>
        if !c.service.value.hasSelector then PortNoSelector
        else if c.pods.None? then PortListFailed
        else
          var found := ScanForName(c.pods.value, name);
          if found.Some? then Port(found.value) else PortUnresolved
      case Odd => Port(80)
  }

  // How they relate.

  /** The index of the first running pod. */
  function FirstRunning(pods: seq<Pod>): (r: Option<nat>)
    ensures r.None? <==> forall i :: 0 <= i < |pods| ==> !pods[i].running
    ensures r.Some? ==> r.value < |pods| && pods[r.value].running
                        && forall j :: 0 <= j < r.value ==> !pods[j].running
  {
    if pods == [] then None
    else if pods[0].running then Some(0)
    else
      var r := FirstRunning(pods[1..]);
      assert forall i :: 1 <= i < |pods| ==> pods[i] == pods[1..][i - 1];
      if r.None? then None else Some(r.value + 1)
  }

  lemma {:induction false} ScansChooseFirstRunning(service: Service, pods: seq<Pod>, target: TargetPort, requested: int)
    requires FirstRunning(pods).Some?
    ensures var pod := pods[FirstRunning(pods).value];
            && FindFirstMatchingPod(pods, target, requested) == Found(pod.name, PortFor(pod, target, requested))
            && (service.ports != [] ==> ScanForService(service, pods)
                                        == Found(pod.name, PortFor(pod, service.ports[0].target, 80)))
            && (service.ports == [] ==> ScanForService(service, pods) == IndexPanic)
  {
    if !pods[0].running {
      ScansChooseFirstRunning(service, pods[1..], target, requested);
    }
  }

  lemma {:induction false} ScansFindNoPod(service: Service, pods: seq<Pod>, target: TargetPort, requested: int)
    requires FirstRunning(pods).None?
    ensures FindFirstMatchingPod(pods, target, requested) == ScanForService(service, pods) == NoRunningPod
  {
    if pods != [] {
      assert !pods[0].running;
      ScansFindNoPod(service, pods[1..], target, requested);
    }
  }

  /** For a service with ports the two pod lookups fail together, for the same
      reason, and otherwise both choose the first running pod. */
  lemma LookupsChooseSamePod(c: Cluster, requested: int)
    requires c.service.Some? ==> c.service.value.ports != []
    ensures var a, b := GetPodNameForService(c), GetPodNameForServiceWithPort(c, requested);
            && (a.Found? <==> b.Found?)
            && (!a.Found? ==> a == b)
            && (a.Found? ==> var i := FirstRunning(c.pods.value);
                             i.Some? && a.pod == b.pod == c.pods.value[i.value].name)
  {
    if c.service.Some? && c.service.value.hasSelector && c.pods.Some? {
      var service, pods := c.service.value, c.pods.value;
      var target := ResolveServiceTargetPort(service, requested);
      if FirstRunning(pods).Some? {
        ScansChooseFirstRunning(service, pods, target, requested);
      } else {
        ScansFindNoPod(service, pods, target, requested);
      }
    }
  }

  /** The service and the list of its pods can be read. */
  predicate Listed(c: Cluster) {
    c.service.Some? && c.service.value.hasSelector && c.pods.Some?
  }

  /** Why a lookup fails: no service, no selector, no list, or no pod that runs. */
  predicate FailsFor(c: Cluster, a: Answer) {
    && (a == NoService <==> c.service.None?)
    && (a == NoSelector <==> c.service.Some? && !c.service.value.hasSelector)
    && (a == ListFailed <==> c.service.Some? && c.service.value.hasSelector && c.pods.None?)
    && (a == NoRunningPod <==> Listed(c) && forall p :: p in c.pods.value ==> !p.running)
  }

  /** Both lookups fail for just these reasons, the one that gets a port to look for
      in no other way. */
  lemma LookupFailures(c: Cluster, requested: int)
    ensures FailsFor(c, GetPodNameForService(c)) && FailsFor(c, GetPodNameForServiceWithPort(c, requested))
    ensures GetPodNameForServiceWithPort(c, requested).Found? <==>
            Listed(c) && exists p :: p in c.pods.value && p.running
  {
    if Listed(c) {
      var service, pods := c.service.value, c.pods.value;
      var target := ResolveServiceTargetPort(service, requested);
      if FirstRunning(pods).Some? {
        assert pods[FirstRunning(pods).value] in pods;
        ScansChooseFirstRunning(service, pods, target, requested);
      } else {
        ScansFindNoPod(service, pods, target, requested);
      }
    }
  }

  lemma {:induction false} MatchIsFirst(ports: seq<ServicePort>, requested: int, i: nat)
    requires i < |ports| && ports[i].port == requested && forall j :: 0 <= j < i ==> ports[j].port != requested
    ensures MatchingTarget(ports, requested) == Some(ports[i].target)
  {
    if i > 0 {
      MatchIsFirst(ports[1..], requested, i - 1);
    }
  }

  /** A requested port that the service lists, wherever it lists it, is looked up by
      the target of the first entry with that number, in the first running pod. */
  lemma ListedPortIsResolved(c: Cluster, requested: int, i: nat)
    requires Listed(c) && exists p :: p in c.pods.value && p.running
    requires var ports := c.service.value.ports;
             i < |ports| && ports[i].port == requested && forall j :: 0 <= j < i ==> ports[j].port != requested
    ensures FirstRunning(c.pods.value).Some?
    ensures var first, target := c.pods.value[FirstRunning(c.pods.value).value], c.service.value.ports[i].target;
            && GetPodNameForServiceWithPort(c, requested) == Found(first.name, PortFor(first, target, requested))
            && (target.Number? ==> GetPodNameForServiceWithPort(c, requested) == Found(first.name, target.n))
  {
    var service, pods := c.service.value, c.pods.value;
    MatchIsFirst(service.ports, requested, i);
    ScansChooseFirstRunning(service, pods, service.ports[i].target, requested);
  }

  /** GetPodNameForService crashes exactly when a readable service with a selector
      has no ports and one of its pods runs. */
  lemma LookupPanicsIff(c: Cluster)
    ensures GetPodNameForService(c) == IndexPanic <==>
            && c.service.Some? && c.service.value.hasSelector && c.pods.Some?
            && c.service.value.ports == []
            && exists p :: p in c.pods.value && p.running
  {
    if c.service.Some? && c.service.value.hasSelector && c.pods.Some? {
      var service, pods := c.service.value, c.pods.value;
      if FirstRunning(pods).Some? {
        ScansChooseFirstRunning(service, pods, Odd, 0);
        assert pods[FirstRunning(pods).value] in pods;
      } else {
        ScansFindNoPod(service, pods, Odd, 0);
      }
    }
  }

  /** The other lookup answers then with the requested port. */
  lemma NoPortsCrashesOneLookup(c: Cluster, requested: int)
    requires GetPodNameForService(c) == IndexPanic
    ensures FirstRunning(c.pods.value).Some?
    ensures GetPodNameForServiceWithPort(c, requested)
            == Found(c.pods.value[FirstRunning(c.pods.value).value].name, requested)
  {
    var service, pods := c.service.value, c.pods.value;
    if FirstRunning(pods).None? {
      ScansFindNoPod(service, pods, Odd, 0);
    }
    ScansChooseFirstRunning(service, pods, Number(requested), requested);
  }

  lemma {:induction false} UnlistedHasNoMatch(ports: seq<ServicePort>, requested: int)
    requires forall p :: p in ports ==> p.port != requested
    ensures MatchingTarget(ports, requested).None?
  {
    if ports != [] {
      assert ports[0] in ports;
      UnlistedHasNoMatch(ports[1..], requested);
    }
  }

  /** When the requested port is the service's first port or unlisted, the two
      lookups agree on the target port exactly unless they reach the last
      fallback with a request other than 80. */
  lemma LookupsAgreeIff(c: Cluster, requested: int)
    requires GetPodNameForService(c).Found? && c.service.value.ports != []
    requires var ports := c.service.value.ports;
             ports[0].port == requested || forall p :: p in ports ==> p.port != requested
    ensures FirstRunning(c.pods.value).Some?
    ensures GetPodNameForService(c) == GetPodNameForServiceWithPort(c, requested) <==>
            || requested == 80
            || !LastFallback(c.pods.value[FirstRunning(c.pods.value).value], c.service.value.ports[0].target)
  {
    var service, pods := c.service.value, c.pods.value;
    if service.ports[0].port != requested {
      UnlistedHasNoMatch(service.ports, requested);
    }
    var target := ResolveServiceTargetPort(service, requested);
    assert target == service.ports[0].target;
    if FirstRunning(pods).None? {
      ScansFindNoPod(service, pods, target, requested);
    }
    ScansChooseFirstRunning(service, pods, target, requested);
  }

  /** Pod i runs and declares the name, and no running pod before it does. */
  predicate FirstDeclares(pods: seq<Pod>, i: nat, name: string) {
    && i < |pods| && pods[i].running && FindContainerPortByName(pods[i].containers, name).Some?
    && forall j :: 0 <= j < i && pods[j].running ==> FindContainerPortByName(pods[j].containers, name).None?
  }

  /** The first running pod that declares the name gives it this port. */
  ghost predicate DeclaredFirst(pods: seq<Pod>, name: string, port: int) {
    exists i: nat :: FirstDeclares(pods, i, name) && FindContainerPortByName(pods[i].containers, name) == Some(port)
  }

  /** The scan finds a port exactly when a running pod declares the name, and then
      it is the one of the first such pod. */
  lemma {:induction false} ScanForNameExact(pods: seq<Pod>, name: string)
    ensures ScanForName(pods, name).None? <==>
            forall p :: p in pods && p.running ==> FindContainerPortByName(p.containers, name).None?
    ensures forall i: nat :: FirstDeclares(pods, i, name) ==>
              ScanForName(pods, name) == FindContainerPortByName(pods[i].containers, name)
    ensures ScanForName(pods, name).Some? ==> exists i: nat :: FirstDeclares(pods, i, name)
  {
    if pods != [] {
      var rest := pods[1..];
      ScanForNameExact(rest, name);
      assert pods == [pods[0]] + rest;
      if pods[0].running && FindContainerPortByName(pods[0].containers, name).Some? {
        assert FirstDeclares(pods, 0, name);
      } else {
        forall i: nat | FirstDeclares(pods, i, name)
          ensures i > 0 && FirstDeclares(rest, i - 1, name)
        {
        }
        if i: nat :| FirstDeclares(rest, i, name) {
          assert FirstDeclares(pods, i + 1, name);
        }
      }
    }
  }

  /** The pod lookup's choice. */
  lemma FoundIsFirstRunning(c: Cluster)
    requires GetPodNameForService(c).Found?
    ensures FirstRunning(c.pods.value).Some? && c.service.value.ports != []
    ensures var first := c.pods.value[FirstRunning(c.pods.value).value];
            GetPodNameForService(c) == Found(first.name, PortFor(first, c.service.value.ports[0].target, 80))
  {
    var service, pods := c.service.value, c.pods.value;
    if FirstRunning(pods).None? {
      ScansFindNoPod(service, pods, Odd, 0);
    }
    ScansChooseFirstRunning(service, pods, Odd, 0);
  }

  /** Why the service-level lookup fails: only a named target needs a selector and pods. */
  lemma ServicePortFailures(c: Cluster)
    ensures var a := GetServicePort(c);
            var named := c.service.Some? && c.service.value.ports != [] && c.service.value.ports[0].target.Name?;
            && (a == PortNoService <==> c.service.None?)
            && (a == PortNoPorts <==> c.service.Some? && c.service.value.ports == [])
            && (a == PortNoSelector <==> named && !c.service.value.hasSelector)
            && (a == PortListFailed <==> named && c.service.value.hasSelector && c.pods.None?)
            && (a == PortUnresolved <==>
                named && Listed(c) && forall p :: p in c.pods.value && p.running ==>
                  FindContainerPortByName(p.containers, c.service.value.ports[0].target.name).None?)
  {
    if Listed(c) && c.service.value.ports != [] && c.service.value.ports[0].target.Name? {
      ScanForNameExact(c.pods.value, c.service.value.ports[0].target.name);
    }
  }

  /** The service-level lookup returns the pod lookup's port exactly when the
      first running pod resolves the target; or the first running pod that
      declares the name gives it the very port that the first running pod falls
      back to; or the target is of odd type and that fallback is 80. */
  lemma ServicePortAgreesIff(c: Cluster)
    requires GetPodNameForService(c).Found?
    ensures FirstRunning(c.pods.value).Some? && c.service.value.ports != []
    ensures var pods, target := c.pods.value, c.service.value.ports[0].target;
            var first := pods[FirstRunning(pods).value];
            GetServicePort(c) == Port(GetPodNameForService(c).port) <==>
            || Resolve(first, target).Some?
            || (target.Name? && DeclaredFirst(pods, target.name, FallbackPort(first, 80)))
            || (target.Odd? && (ApplicationPort(first.containers) <= 0 || ApplicationPort(first.containers) == 80))
  {
    FoundIsFirstRunning(c);
    var pods, target := c.pods.value, c.service.value.ports[0].target;
    if target.Name? {
      ScanForNameExact(pods, target.name);
      if Resolve(pods[FirstRunning(pods).value], target).Some? {
        assert FirstDeclares(pods, FirstRunning(pods).value, target.name);
      }
    }
  }

  /** In particular it does whenever the first running pod resolves the target. */
  lemma ServicePortAgrees(c: Cluster)
    requires GetPodNameForService(c).Found? && c.service.value.ports != []
    requires FirstRunning(c.pods.value).Some?
    requires Resolve(c.pods.value[FirstRunning(c.pods.value).value], c.service.value.ports[0].target).Some?
    ensures GetServicePort(c) == Port(GetPodNameForService(c).port)
  {
    ServicePortAgreesIff(c);
  }

  /** A named target fails at service level exactly when no running pod declares
      the name, though the pod lookup still answers then with a fallback port. */
  lemma NamedServicePortFailsIff(c: Cluster)
    requires GetPodNameForService(c).Found? && c.service.value.ports != []
    requires c.service.value.ports[0].target.Name?
    ensures GetServicePort(c) == PortUnresolved <==>
            forall p :: p in c.pods.value && p.running ==>
                          FindContainerPortByName(p.containers, c.service.value.ports[0].target.name).None?
  {
    ScanForNameExact(c.pods.value, c.service.value.ports[0].target.name);
  }

  /** A failing input: only the later of two pods declares the name, and the
      fallback port of the first is another. */
  lemma LaterPodMakesThemDiffer()
    ensures var first := Pod("a", true, [Container("app", [ContainerPort("admin", 9000)])]);
            var later := Pod("b", true, [Container("app", [ContainerPort("http", 8080)])]);
            var c := Cluster(Some(Service([ServicePort(80, Name("http"))], true)), Some([first, later]));
            GetPodNameForService(c) == Found("a", 9000) && GetServicePort(c) == Port(8080)
  {
    var first := Pod("a", true, [Container("app", [ContainerPort("admin", 9000)])]);
    var later := Pod("b", true, [Container("app", [ContainerPort("http", 8080)])]);
    assert "admin" != "http" by {
      assert |"admin"| != |"http"|;
    }
    assert !Sidecar(first.containers[0]) by {
      assert |"app"| != |"istio-proxy"| && |"app"| != |"istio-init"|;
    }
    assert first.containers[1..] == [] && later.containers[1..] == [];
    assert FirstNamed(first.containers[0].ports, "http").None?;
    assert FindContainerPortByName(first.containers, "http").None?;
    assert FindContainerPortByName(later.containers, "http") == Some(8080);
    assert [first, later][1..] == [later];
  }
}
