/** The start/stop protocol between orchestrator, builder, dispatcher and node actors, as a transition system:
    messages wait in a multiset and are delivered in any order, nodes may fail, machines check in at any time. */
module EngineProtocol {
  import opened HostTable
  import opened Messages
  import opened Wrappers
  import B = Builder
  import D = Dispatcher

  datatype OrchestratorPhase = Ready | AwaitStarted | Up | AwaitStopped

  /** One start/stop cycle: the hosts it was started for and everything that was sent during it. */
  datatype Cycle = Cycle(hosts: seq<IpPort>, sent: multiset<Envelope>)

  /** `running` holds the node actors that own a launched builder object. */
  datatype World = World(
    orchestrator: OrchestratorPhase,
    builder: B.State,
    dispatcher: Option<D.State>,
    running: set<Address>,
    net: multiset<Envelope>,
    cycles: seq<Cycle>)

  const Init := World(Ready, B.State(Orchestrator, B.NoStatus, [], []), None, {}, multiset{}, [])

  /** How the work behind a message to a node actor ends. */
  datatype Luck = Succeeds | FailsBeforeLaunch | Fails

  datatype Step =
    | Start(hosts: seq<IpPort>)
    | Stop
    | Deliver(e: Envelope, luck: Luck)
    | RemoteAdded(ip: string)
    | RemoteRemoved(ip: string)

  // ----- steps

  function Envelopes(src: Address, posts: seq<Post>): (es: seq<Envelope>)
    ensures |es| == |posts|
  {
    seq(|posts|, i requires 0 <= i < |posts| => Envelope(src, posts[i].to, posts[i].msg))
  }

  function Send(w: World, src: Address, posts: seq<Post>): World
    requires w.cycles != []
  {
    var es := multiset(Envelopes(src, posts));
    var last := |w.cycles| - 1;
    w.(net := w.net + es, cycles := w.cycles[last := w.cycles[last].(sent := w.cycles[last].sent + es)])
  }

  /** The orchestrator stops the engine only after it has started, and starts it only when none is up. */
  predicate Enabled(w: World, step: Step) {
    match step
    case Start(_) => w.orchestrator == Ready
    case Stop => w.orchestrator == Up && w.cycles != []
    case Deliver(e, _) => e in w.net && w.cycles != []
    case RemoteAdded(_) | RemoteRemoved(_) => w.dispatcher.Some? && w.cycles != []
  }

  function Do(w: World, step: Step): World
    requires Enabled(w, step)
  {
    match step
    case Start(hosts) =>
      Send(w.(orchestrator := AwaitStarted, cycles := w.cycles + [Cycle(hosts, multiset{})]),
           Orchestrator, [Post(Builder, StartEngine(hosts))])
    case Stop =>
      Send(w.(orchestrator := AwaitStopped), Orchestrator, [Post(Builder, StopEngine)])
    case RemoteAdded(ip) =>
      var (d, posts) := D.OnRemoteAdded(w.dispatcher.value, ip);
      Send(w.(dispatcher := Some(d)), Dispatcher(d.cycle), posts)
    // the handler ends with an exception before it has sent or changed anything
    case RemoteRemoved(_) => w
    case Deliver(e, luck) =>
      var w := w.(net := w.net - multiset{e});
      match e.dst
      case Orchestrator => AtOrchestrator(w, e.msg)
      case Builder => AtBuilder(w, e.src, e.msg)
      case Dispatcher(cycle) => AtDispatcher(w, e.dst, e.src, e.msg)
      case Node(_, _) => AtNode(w, e.dst, e.src, e.msg, luck)
  }

  function AtOrchestrator(w: World, msg: Message): World {
    match msg
    case EngineStarted => w.(orchestrator := Up)
    case EngineStopped => w.(orchestrator := Ready)
    case _ => w
  }

  function AtBuilder(w: World, src: Address, msg: Message): World
    requires w.cycles != []
  {
    if !(msg.StartEngine? || msg.NodesStarted? || msg.StopEngine? || msg.NodesStopped? || msg.BenchmarkFailure?) then w
    else
      var (b, posts) :=
        match msg
        case StartEngine(hosts) => B.OnStartEngine(w.builder, hosts, src, Dispatcher(|w.cycles|))
        case NodesStarted => B.OnNodesStarted(w.builder, src)
        case StopEngine => B.OnStopEngine(w.builder)
        case NodesStopped => B.OnNodesStopped(w.builder, src)
        case BenchmarkFailure(reason) => B.OnFailure(w.builder, reason);
      Send(w.(builder := b), Builder, posts)
  }

  function AtDispatcher(w: World, me: Address, src: Address, msg: Message): World
    requires w.cycles != [] && me.Dispatcher?
  {
    match msg
    case StartEngine(hosts) =>
      var (d, posts) := D.OnStartEngine(me.cycle, hosts, src);
      Send(w.(dispatcher := Some(d)), me, posts)
    case BenchmarkFailure(_) =>
      if w.dispatcher.Some? then Send(w, me, [Post(w.dispatcher.value.startSender, msg)]) else w
    case _ => w
  }

  function AtNode(w: World, me: Address, src: Address, msg: Message, luck: Luck): World
    requires w.cycles != []
  {
    match msg
    case StartNodes(_, _, replyTo) =>
      var running := if luck == FailsBeforeLaunch then w.running else w.running + {me};
      Send(w.(running := running), me,
           [Post(replyTo, if luck == Succeeds then NodesStarted else BenchmarkFailure(StartFailed))])
    case StopNodes =>
      if me in w.running && luck == Succeeds then
        Send(w.(running := w.running - {me}), me, [Post(src, NodesStopped)])
      else
        Send(w, me, [Post(src, BenchmarkFailure(StopFailed))])
    case ActorExitRequest => w.(running := w.running - {me})
    case BenchmarkFailure(_) => Send(w, me, [Post(src, msg)])
    case _ => w
  }

  // ----- runs

  ghost predicate Reaches(w: World, steps: seq<Step>, w': World)
    decreases |steps|
  {
    if steps == [] then w == w'
    else
      var n := |steps| - 1;
      exists mid :: Reaches(w, steps[..n], mid) && Enabled(mid, steps[n]) && Do(mid, steps[n]) == w'
  }

  // ----- what a cycle may contain

  function Started(c: nat, i: nat): Envelope { Envelope(Node(c, i), Builder, NodesStarted) }
  function StartFailure(c: nat, i: nat): Envelope { Envelope(Node(c, i), Builder, BenchmarkFailure(StartFailed)) }
  function StopFailure(c: nat, i: nat): Envelope { Envelope(Node(c, i), Builder, BenchmarkFailure(StopFailed)) }
  function Recall(c: nat, i: nat): Envelope { Envelope(Builder, Node(c, i), StopNodes) }
  function Stopped(c: nat, i: nat): Envelope { Envelope(Node(c, i), Builder, NodesStopped) }
  const EngineUp := Envelope(Builder, Orchestrator, EngineStarted)
  const EngineDown := Envelope(Builder, Orchestrator, EngineStopped)

  /** The safety property of one cycle, over everything that was sent in it. */
  ghost predicate CycleSafe(cycle: Cycle, c: nat) {
    var n, sent := |Keys(cycle.hosts)|, cycle.sent;
    // at most one announcement, and only if every one of the n node actors has answered and none has failed
    && sent[EngineUp] <= 1
    && (EngineUp in sent ==> forall i :: 0 <= i < n ==> sent[Started(c, i)] == 1 && StartFailure(c, i) !in sent)
    // at most one stop announcement, only after the start, and only if all n node actors were stopped and said so
    && sent[EngineDown] <= 1
    && (EngineDown in sent ==>
          EngineUp in sent && forall i :: 0 <= i < n ==> sent[Recall(c, i)] == 1 && sent[Stopped(c, i)] == 1)
    // stop messages go to node actors of this cycle only, once each, and only after the start
    && (forall e :: e in sent && e.msg == StopNodes ==>
          sent[e] == 1 && e.src == Builder && EngineUp in sent && exists i :: 0 <= i < n && e == Recall(c, i))
    // no handler ever rejects a message
    && (forall e :: e in sent ==> e.msg != BenchmarkFailure(Rejected))
  }
}
