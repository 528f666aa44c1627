/** Where failures come from, and what becomes of a start that misses a machine. */
module EngineFailures {
  import opened HostTable
  import opened Messages
  import opened Wrappers
  import opened EngineProtocol
  import opened EngineSafety
  import B = Builder
  import D = Dispatcher

  /** The current cycle has a reason to fail: no hosts, or a node that could not be started or stopped. */
  ghost predicate HasCause(w: World) {
    w.cycles != [] &&
    var c := |w.cycles|;
    var sent := w.cycles[c - 1].sent;
    Hosts(w) == [] || exists i: nat :: StartFailure(c, i) in sent || StopFailure(c, i) in sent
  }

  ghost predicate Quiet(es: multiset<Envelope>) {
    forall e :: e in es ==> !e.msg.BenchmarkFailure?
  }

  /** A cycle without a cause has no failure message, in the network or sent; and only a start can have no hosts. */
  ghost predicate Caused(w: World) {
    && (HasCause(w) || (Quiet(w.net) && (w.cycles != [] ==> Quiet(w.cycles[|w.cycles| - 1].sent))))
    && (w.cycles != [] && w.orchestrator != AwaitStarted ==> Hosts(w) != [])
  }

  ghost predicate QuietPosts(posts: seq<Post>) {
    forall i :: 0 <= i < |posts| ==> !posts[i].msg.BenchmarkFailure?
  }

  /** What is sent stays sent. */
  lemma {:induction false} SendGrows(w: World, src: Address, posts: seq<Post>)
    requires w.cycles != []
    ensures var w' := Send(w, src, posts);
            && |w'.cycles| == |w.cycles| && Hosts(w') == Hosts(w) && w'.orchestrator == w.orchestrator
            && w.cycles[|w.cycles| - 1].sent <= w'.cycles[|w.cycles| - 1].sent
            && (forall i :: 0 <= i < |posts| ==>
                Envelope(src, posts[i].to, posts[i].msg) in w'.cycles[|w.cycles| - 1].sent)
            && (HasCause(w) ==> HasCause(w'))
  {
    var es := Envelopes(src, posts);
    forall i | 0 <= i < |posts| ensures Envelope(src, posts[i].to, posts[i].msg) in multiset(es) {
      assert es[i] in es;
    }
  }

  /** Sending keeps it, if no failure is sent without a cause. */
  lemma {:induction false} CausedSend(before: World, w: World, src: Address, posts: seq<Post>)
    requires Caused(before) && w.cycles == before.cycles != [] && w.net <= before.net
    requires w.orchestrator != AwaitStarted ==> Hosts(w) != []
    requires QuietPosts(posts) || HasCause(Send(w, src, posts))
    ensures Caused(Send(w, src, posts))
  {
    SendGrows(w, src, posts);
    if HasCause(before) {
      assert HasCause(w);
    } else if !HasCause(Send(w, src, posts)) {
      QuietEnvelopes(src, posts);
    }
    hide HasCause;
  }

  lemma {:induction false} QuietEnvelopes(src: Address, posts: seq<Post>)
    requires QuietPosts(posts)
    ensures Quiet(multiset(Envelopes(src, posts)))
  {
    forall e: Envelope | e in multiset(Envelopes(src, posts)) ensures !e.msg.BenchmarkFailure? {
      assert e in Envelopes(src, posts);
    }
  }

  lemma {:induction false} FailureHasCause(w: World, e: Envelope)
    requires Caused(w) && e in w.net && e.msg.BenchmarkFailure?
    ensures HasCause(w)
  {
  }

  lemma {:induction false} StartIsCaused(w: World, hosts: seq<IpPort>, k: Control, st: seq<Stage>, known: seq<Address>)
    requires Inv(w, k, st, known) && Caused(w) && Enabled(w, Start(hosts))
    ensures Caused(Do(w, Start(hosts)))
  {
    hide NetInv, PastSafe, CycleSafe, BuilderInv, KnownInv;
    if HasCause(w) {
      NoFailureWhenGone(w.cycles[|w.cycles| - 1].sent, |w.cycles|, k, st);
    }
    var w1 := w.(orchestrator := AwaitStarted, cycles := w.cycles + [Cycle(hosts, multiset{})]);
    CausedSend(w1, w1, Orchestrator, [Post(Builder, StartEngine(hosts))]);
  }

  lemma {:induction false} NoFailureWhenGone(log: multiset<Envelope>, c: nat, k: Control, st: seq<Stage>)
    requires LogInv(log, c, k, st) && AllIn(st, {Gone})
    ensures forall i: nat :: StartFailure(c, i) !in log && StopFailure(c, i) !in log
  {
    forall i: nat ensures StartFailure(c, i) !in log && StopFailure(c, i) !in log {
      assert Recorded(StartFailure(c, i)) && Recorded(StopFailure(c, i));
    }
  }

  lemma {:induction false} NoticeIsCaused(w: World, ip: string, k: Control, st: seq<Stage>, known: seq<Address>)
    requires Inv(w, k, st, known) && Caused(w) && Enabled(w, RemoteAdded(ip))
    ensures Caused(Do(w, RemoteAdded(ip)))
  {
    hide NetInv, LogInv, PastSafe, CycleSafe, B.Slots, D.OnRemoteAdded, Send, Caused;
    var d := w.dispatcher.value;
    var (d', posts) := D.OnRemoteAdded(d, ip);
    assert QuietPosts(posts) by {
      if k == Launching && d.remotes != map[] {
        NoticeIsQuiet(d, |w.cycles|, Hosts(w), ip);
      } else {
        D.NothingLeft(d, ip);
      }
    }
    AboutCaused(w);
    CausedSend(w, w.(dispatcher := Some(d')), Dispatcher(d'.cycle), posts);
  }

  lemma {:induction false} AboutCaused(w: World)
    requires Caused(w)
    ensures w.cycles != [] && w.orchestrator != AwaitStarted ==> Hosts(w) != []
  {
  }

  lemma {:induction false} NoticeIsQuiet(d: D.State, c: nat, hosts: seq<IpPort>, ip: string)
    requires Collecting(d, c, hosts) && d.remotes != map[]
    ensures QuietPosts(D.OnRemoteAdded(d, ip).1)
  {
    hide D.OnRemoteAdded, D.Waiting;
    var done :| D.Waiting(d, c, hosts, Builder, done);
    D.StillMissing(d, c, hosts, Builder, done);
    D.NoticeProgress(d, [], c, hosts, Builder, done, ip);
    var posts := D.OnRemoteAdded(d, ip).1;
    assert [] + posts == posts;
    ProgressIsQuiet(D.OnRemoteAdded(d, ip).0, posts, c, hosts, done + {ip});
  }

  lemma {:induction false} ProgressIsQuiet(d: D.State, posts: seq<Post>, c: nat, hosts: seq<IpPort>,
                                           arrived: set<string>)
    requires D.Progress(d, posts, c, hosts, Builder, arrived)
    ensures QuietPosts(posts)
  {
    if posts != [] {
      AllAreStartNodes(posts, c, hosts);
    }
  }

  // ----- deliveries

  lemma {:induction false} ToChildrenIsQuiet(children: seq<Option<Address>>, msg: Message)
    requires !msg.BenchmarkFailure?
    ensures QuietPosts(B.ToChildren(children, msg))
  {
    if children != [] {
      ToChildrenIsQuiet(children[..|children| - 1], msg);
    }
  }

  /** What the builder sends: no failure, unless it rejects, has no hosts, or passes one on. */
  lemma {:induction false} BuilderIsQuiet(b: B.State, src: Address, msg: Message, dispatcher: Address)
    ensures msg.StartEngine? && msg.hosts != [] ==> QuietPosts(B.OnStartEngine(b, msg.hosts, src, dispatcher).1)
    ensures QuietPosts(B.OnNodesStarted(b, src).1)
            || B.OnNodesStarted(b, src).1 == [Post(src, BenchmarkFailure(Rejected))]
    ensures QuietPosts(B.OnStopEngine(b).1)
    ensures QuietPosts(B.OnNodesStopped(b, src).1)
            || B.OnNodesStopped(b, src).1 == [Post(src, BenchmarkFailure(Rejected))]
  {
    hide B.Respond, B.Introduce;
    ToChildrenIsQuiet(b.children, StopNodes);
    ToChildrenIsQuiet(b.children, ActorExitRequest);
    var s' := B.Respond(b, NodesStopped, B.ClusterStopping, B.ClusterStopped).0;
    assert QuietPosts([Post(b.orchestrator, EngineStopped)] + B.ToChildren(b.children, ActorExitRequest));
  }

  ghost predicate NothingRejected(w: World) {
    w.cycles != [] ==> forall e :: e in w.cycles[|w.cycles| - 1].sent ==> e.msg != BenchmarkFailure(Rejected)
  }

  lemma {:induction false} NotRejected(w: World, src: Address, to: Address)
    requires w.cycles != []
    ensures !NothingRejected(Send(w, src, [Post(to, BenchmarkFailure(Rejected))]))
  {
    var posts := [Post(to, BenchmarkFailure(Rejected))];
    SendGrows(w, src, posts);
    assert posts[0].msg == BenchmarkFailure(Rejected);
  }

  /** The world without a message that is being delivered. */
  function Taken(w: World, e: Envelope): World {
    w.(net := w.net - multiset{e})
  }

  lemma {:induction false} AtBuilderIsCaused(w: World, e: Envelope, k: Control, st: seq<Stage>, known: seq<Address>)
    requires Inv(w, k, st, known) && Caused(w) && e in w.net && w.cycles != [] && e.dst == Builder
    requires NothingRejected(AtBuilder(Taken(w, e), e.src, e.msg))
    ensures Caused(AtBuilder(Taken(w, e), e.src, e.msg))
  {
    hide LogInv, PastSafe, CycleSafe, ActorInv, Send, Caused, B.OnStartEngine, B.OnNodesStarted, B.OnStopEngine,
      B.OnNodesStopped, B.OnFailure, NothingRejected, HasCause;
    AboutCaused(w);
    var w1, dispatcher := Taken(w, e), Dispatcher(|w.cycles|);
    BuilderIsQuiet(w.builder, e.src, e.msg, dispatcher);
    match e.msg
    case StartEngine(hosts) =>
      assert InFlight(e, |w.cycles|, Hosts(w), k, st);
      var (b, posts) := B.OnStartEngine(w.builder, hosts, e.src, dispatcher);
      if hosts == [] {
        NoHostsIsCause(w1.(builder := b), Builder, posts);
      }
      CausedSend(w, w1.(builder := b), Builder, posts);
    case NodesStarted =>
      var (b, posts) := B.OnNodesStarted(w.builder, e.src);
      if !QuietPosts(posts) {
        NotRejected(w1.(builder := b), Builder, e.src);
        assert false;
      }
      CausedSend(w, w1.(builder := b), Builder, posts);
    case StopEngine =>
      var (b, posts) := B.OnStopEngine(w.builder);
      CausedSend(w, w1.(builder := b), Builder, posts);
    case NodesStopped =>
      var (b, posts) := B.OnNodesStopped(w.builder, e.src);
      if !QuietPosts(posts) {
        NotRejected(w1.(builder := b), Builder, e.src);
        assert false;
      }
      CausedSend(w, w1.(builder := b), Builder, posts);
    case BenchmarkFailure(reason) =>
      var (b, posts) := B.OnFailure(w.builder, reason);
      FailureHasCause(w, e);
      StillCause(w, w1.(builder := b), Builder, posts);
      CausedSend(w, w1.(builder := b), Builder, posts);
    case _ => TakenIsCaused(w, e);
  }

  lemma {:induction false} TakenIsCaused(w: World, e: Envelope)
    requires Caused(w)
    ensures Caused(Taken(w, e))
  {
  }

  lemma {:induction false} NoHostsIsCause(w: World, src: Address, posts: seq<Post>)
    requires w.cycles != [] && Hosts(w) == []
    ensures HasCause(Send(w, src, posts))
  {
    SendGrows(w, src, posts);
  }

  lemma {:induction false} StillCause(before: World, w: World, src: Address, posts: seq<Post>)
    requires HasCause(before) && w.cycles == before.cycles
    ensures HasCause(Send(w, src, posts))
  {
    assert HasCause(w);
    SendGrows(w, src, posts);
  }

  lemma {:induction false} AtDispatcherIsCaused(w: World, e: Envelope, k: Control, st: seq<Stage>, known: seq<Address>)
    requires Inv(w, k, st, known) && Caused(w) && e in w.net && w.cycles != [] && e.dst.Dispatcher?
    ensures Caused(AtDispatcher(Taken(w, e), e.dst, e.src, e.msg))
  {
    hide LogInv, PastSafe, CycleSafe, ActorInv, Send, Caused, D.OnStartEngine, D.Progress, HasCause;
    AboutCaused(w);
    var w1 := Taken(w, e);
    match e.msg
    case StartEngine(hosts) =>
      assert InFlight(e, |w.cycles|, Hosts(w), k, st);
      var (d, posts) := D.OnStartEngine(e.dst.cycle, hosts, e.src);
      D.StartProgress(e.dst.cycle, hosts, e.src);
      ProgressIsQuiet(d, posts, e.dst.cycle, hosts, {D.LOCAL_IP});
      CausedSend(w, w1.(dispatcher := Some(d)), e.dst, posts);
    case BenchmarkFailure(_) => assert false;
    case _ => TakenIsCaused(w, e);
  }

  lemma {:induction false} AtNodeIsCaused(w: World, e: Envelope, luck: Luck, k: Control, st: seq<Stage>,
                                          known: seq<Address>)
    requires Inv(w, k, st, known) && Caused(w) && e in w.net && w.cycles != [] && e.dst.Node?
    ensures Caused(AtNode(Taken(w, e), e.dst, e.src, e.msg, luck))
  {
    hide LogInv, PastSafe, CycleSafe, ActorInv, Send, Caused, HasCause;
    AboutCaused(w);
    var w1, me := Taken(w, e), e.dst;
    match e.msg
    case StartNodes(_, _, replyTo) =>
      assert InFlight(e, |w.cycles|, Hosts(w), k, st) && replyTo == Builder;
      var running := if luck == FailsBeforeLaunch then w.running else w.running + {me};
      var posts := [Post(replyTo, if luck == Succeeds then NodesStarted else BenchmarkFailure(StartFailed))];
      NodeCause(w1.(running := running), me.index, posts);
      CausedSend(w, w1.(running := running), me, posts);
    case StopNodes =>
      assert InFlight(e, |w.cycles|, Hosts(w), k, st);
      var good := me in w.running && luck == Succeeds;
      var posts := [Post(e.src, if good then NodesStopped else BenchmarkFailure(StopFailed))];
      var w2 := if good then w1.(running := w.running - {me}) else w1;
      NodeCause(w2, me.index, posts);
      CausedSend(w, w2, me, posts);
    case ActorExitRequest =>
      SameCaused(w1, w1.(running := w.running - {me}));
      TakenIsCaused(w, e);
    case BenchmarkFailure(_) => assert false;
    case _ => TakenIsCaused(w, e);
  }

  lemma {:induction false} SameCaused(w: World, w': World)
    requires w'.net == w.net && w'.cycles == w.cycles && w'.orchestrator == w.orchestrator
    ensures Caused(w) ==> Caused(w')
  {
  }

  /** A failure of a node is a cause. */
  lemma {:induction false} NodeCause(w: World, i: nat, posts: seq<Post>)
    requires w.cycles != [] && |posts| == 1 && posts[0].to == Builder
    requires posts[0].msg.BenchmarkFailure? ==> posts[0].msg.reason == StartFailed || posts[0].msg.reason == StopFailed
    ensures QuietPosts(posts) || HasCause(Send(w, Node(|w.cycles|, i), posts))
  {
    SendGrows(w, Node(|w.cycles|, i), posts);
    var c, w' := |w.cycles|, Send(w, Node(|w.cycles|, i), posts);
    hide Send;
    var e := Envelope(Node(c, i), Builder, posts[0].msg);
    assert e in w'.cycles[c - 1].sent;
    assert posts[0].msg.BenchmarkFailure? ==> e == StartFailure(c, i) || e == StopFailure(c, i);
  }

  lemma {:induction false} AtOrchestratorIsCaused(w: World, e: Envelope, k: Control, st: seq<Stage>,
                                                  known: seq<Address>)
    requires Inv(w, k, st, known) && Caused(w) && e in w.net && w.cycles != [] && e.dst == Orchestrator
    ensures Caused(AtOrchestrator(Taken(w, e), e.msg))
  {
    hide LogInv, PastSafe, CycleSafe, KnownInv, StageInv;
    TakenIsCaused(w, e);
    if Tracked(e) {
      assert InFlight(e, |w.cycles|, Hosts(w), k, st);
    }
    hide NetInv;
  }

  lemma {:induction false} StepIsCaused(w: World, step: Step, k: Control, st: seq<Stage>, known: seq<Address>)
    requires Inv(w, k, st, known) && Caused(w) && Enabled(w, step) && NothingRejected(Do(w, step))
    ensures Caused(Do(w, step))
  {
    hide Inv, Caused, NothingRejected, AtOrchestrator, AtBuilder, AtDispatcher, AtNode;
    match step
    case Start(hosts) => StartIsCaused(w, hosts, k, st, known);
    case Stop =>
      StopIsCaused(w);
    case RemoteAdded(ip) => NoticeIsCaused(w, ip, k, st, known);
    case RemoteRemoved(_) =>
    case Deliver(e, luck) =>
      match e.dst
      case Orchestrator => AtOrchestratorIsCaused(w, e, k, st, known);
      case Builder => AtBuilderIsCaused(w, e, k, st, known);
      case Dispatcher(_) => AtDispatcherIsCaused(w, e, k, st, known);
      case Node(_, _) => AtNodeIsCaused(w, e, luck, k, st, known);
  }

  lemma {:induction false} StopIsCaused(w: World)
    requires Caused(w) && Enabled(w, Stop)
    ensures Caused(Do(w, Stop))
  {
    AboutCaused(w);
    CausedSend(w, w.(orchestrator := AwaitStopped), Orchestrator, [Post(Builder, StopEngine)]);
  }

  // ----- the theorems

  /** In every run, no failure is sent or on its way in a cycle in which no node has failed, unless it has no hosts. */
  lemma {:induction false} FailuresHaveCauses(steps: seq<Step>, w: World)
    requires Reaches(Init, steps, w)
    ensures Caused(w)
    decreases |steps|
  {
    if steps != [] {
      hide Inv, Do, Caused;
      var n := |steps| - 1;
      var mid :| Reaches(Init, steps[..n], mid) && Enabled(mid, steps[n]) && Do(mid, steps[n]) == w;
      FailuresHaveCauses(steps[..n], mid);
      var k, st, known := ReachableInv(steps[..n], mid);
      EveryCycleIsSafe(steps, w);
      SafeIsNotRejected(w);
      StepIsCaused(mid, steps[n], k, st, known);
    }
  }

  lemma {:induction false} SafeIsNotRejected(w: World)
    requires w.cycles != [] ==> CycleSafe(w.cycles[|w.cycles| - 1], |w.cycles|)
    ensures NothingRejected(w)
  {
  }

  /** Machines leaving. */
  function Removals(ips: seq<string>): seq<Step> {
    seq(|ips|, i requires 0 <= i < |ips| => RemoteRemoved(ips[i]))
  }

  lemma {:induction false} RemovalsChangeNothing(w: World, ips: seq<string>, w': World)
    requires Reaches(w, Removals(ips), w')
    ensures w' == w
    decreases |ips|
  {
    if ips != [] {
      var n := |ips| - 1;
      assert Removals(ips)[..n] == Removals(ips[..n]);
      var mid :| Reaches(w, Removals(ips)[..n], mid) && Enabled(mid, Removals(ips)[n])
          && Do(mid, Removals(ips)[n]) == w';
      RemovalsChangeNothing(w, ips[..n], mid);
    }
  }

  /** While a machine is missing, a start is neither announced nor failed, and no number of machines that leave changes
      that: the orchestrator never learns of it. */
  lemma {:induction false} MissingMachineGoesUnreported(steps: seq<Step>, w: World, ips: seq<string>, w': World)
    requires Reaches(Init, steps, w) && w.dispatcher.Some? && w.dispatcher.value.remotes != map[]
    requires Reaches(w, Removals(ips), w')
    ensures w' == w && w.orchestrator == AwaitStarted && w.cycles != []
    ensures forall e :: e in w.cycles[|w.cycles| - 1].sent ==> e.msg != EngineStarted && !e.msg.BenchmarkFailure?
    ensures forall e :: e in w.net ==> e.msg != EngineStarted && !e.msg.BenchmarkFailure?
  {
    RemovalsChangeNothing(w, ips, w');
    FailuresHaveCauses(steps, w);
    var k, st, known := ReachableInv(steps, w);
    WaitingIsQuiet(w, k, st, known);
  }

  lemma {:induction false} WaitingIsQuiet(w: World, k: Control, st: seq<Stage>, known: seq<Address>)
    requires Inv(w, k, st, known) && Caused(w) && w.dispatcher.Some? && w.dispatcher.value.remotes != map[]
    ensures w.orchestrator == AwaitStarted && w.cycles != []
    ensures forall e :: e in w.cycles[|w.cycles| - 1].sent ==> e.msg != EngineStarted && !e.msg.BenchmarkFailure?
    ensures forall e :: e in w.net ==> e.msg != EngineStarted && !e.msg.BenchmarkFailure?
  {
    hide PastSafe, CycleSafe, KnownInv, B.Slots, Collecting;
    assert k == Launching && AllIn(st, {Waiting});
    var c, log := |w.cycles|, w.cycles[|w.cycles| - 1].sent;
    NoFailureWhenWaiting(log, c, k, st);
    assert !HasCause(w);
    forall e: Envelope | e.msg == EngineStarted ensures e !in w.net && e !in log {
      assert Tracked(e) && !InFlight(e, c, Hosts(w), k, st);
      assert Recorded(e) && !Logged(e, c, k, st);
    }
  }

  lemma {:induction false} NoFailureWhenWaiting(log: multiset<Envelope>, c: nat, k: Control, st: seq<Stage>)
    requires LogInv(log, c, k, st) && AllIn(st, {Waiting})
    ensures forall i: nat :: StartFailure(c, i) !in log && StopFailure(c, i) !in log
  {
    forall i: nat ensures StartFailure(c, i) !in log && StopFailure(c, i) !in log {
      assert Recorded(StartFailure(c, i)) && Recorded(StopFailure(c, i));
    }
  }
}
