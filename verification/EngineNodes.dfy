/** Which nodes run: all of them while the engine is up, and none when it is down. */
module EngineNodes {
  import opened HostTable
  import opened Messages
  import opened Wrappers
  import opened EngineProtocol
  import opened EngineSafety
  import opened EngineFailures
  import opened EngineReports
  import B = Builder
  import D = Dispatcher

  // ----- the invariant

  predicate HasLaunched(sent: multiset<Envelope>, c: nat, i: nat) {
    Started(c, i) in sent || StartFailure(c, i) in sent
  }

  /** What runs was asked to and has not stopped since; what has started and not stopped runs. */
  ghost predicate RunningInv(running: set<Address>, sent: multiset<Envelope>, c: nat) {
    && (forall a :: a in running ==>
          a.Node? && a.cycle == c && HasLaunched(sent, c, a.index) && Stopped(c, a.index) !in sent)
    && (forall i: nat :: Started(c, i) in sent && Stopped(c, i) !in sent ==> Node(c, i) in running)
  }

  /** Only node actors that have stopped are dismissed. */
  ghost predicate ExitsInv(net: multiset<Envelope>, sent: multiset<Envelope>, c: nat) {
    forall e :: e in net && e.msg.ActorExitRequest? ==>
      e.dst.Node? && (e.dst.cycle < c || (e.dst.cycle == c && Stopped(c, e.dst.index) in sent))
  }

  ghost predicate NodesInv(w: World) {
    RunningInv(w.running, Sent(w), |w.cycles|) && ExitsInv(w.net, Sent(w), |w.cycles|)
  }

  ghost predicate NoExits(posts: seq<Post>) {
    forall i :: 0 <= i < |posts| ==> !posts[i].msg.ActorExitRequest?
  }

  // ----- steps

  /** What others than node actors send says nothing about what runs. */
  lemma {:induction false} NodesAfter(before: World, w: World, src: Address, posts: seq<Post>)
    requires before.cycles != [] && NodesInv(before) && !src.Node? && w.cycles == before.cycles
    requires w.net <= before.net && w.running == before.running
    requires NoExits(posts)
    ensures NodesInv(Send(w, src, posts))
  {
    SentAfter(w, src, posts);
    assert Sent(w) == Sent(before);
    var es := Envelopes(src, posts);
    forall e: Envelope | e in multiset(es) ensures e.src == src && !e.msg.ActorExitRequest? {
      assert e in es;
    }
  }

  lemma {:induction false} NodesTaken(w: World, w': World)
    requires NodesInv(w) && w'.cycles == w.cycles && w'.net <= w.net && w'.running == w.running
    ensures NodesInv(w')
  {
    assert Sent(w') == Sent(w);
  }

  lemma {:induction false} NothingRunsWhenIdle(w: World, k: Control, st: seq<Stage>, known: seq<Address>)
    requires Inv(w, k, st, known) && NodesInv(w) && w.orchestrator == Ready
    ensures w.running == {}
  {
    hide NetInv, PastSafe, CycleSafe, BuilderInv, KnownInv;
    if w.cycles != [] {
      GoneHaveStopped(Sent(w), |w.cycles|, k, st);
    }
    hide LogInv, StageInv, ExitsInv, Logged;
  }

  lemma {:induction false} GoneHaveStopped(sent: multiset<Envelope>, c: nat, k: Control, st: seq<Stage>)
    requires LogInv(sent, c, k, st) && AllIn(st, {Gone})
    ensures forall i: nat :: HasLaunched(sent, c, i) ==> Stopped(c, i) in sent
  {
    forall i: nat | HasLaunched(sent, c, i) ensures Stopped(c, i) in sent {
      assert Recorded(Started(c, i)) && Recorded(StartFailure(c, i)) && Recorded(Stopped(c, i));
    }
  }

  lemma {:induction false} NewCycleNodes(w: World, w': World)
    requires NodesInv(w) && w.running == {} && w'.running == {} && w'.net == w.net
    requires |w'.cycles| == |w.cycles| + 1 && Sent(w') == multiset{}
    ensures NodesInv(w')
  {
  }

  lemma {:induction false} StartIsNoExit(hosts: seq<IpPort>)
    ensures NoExits([Post(Builder, StartEngine(hosts))])
  {
  }

  lemma {:induction false} StartKeepsNodes(w: World, hosts: seq<IpPort>, k: Control, st: seq<Stage>,
                                           known: seq<Address>)
    requires Inv(w, k, st, known) && NodesInv(w) && Enabled(w, Start(hosts))
    ensures NodesInv(Do(w, Start(hosts)))
  {
    NothingRunsWhenIdle(w, k, st, known);
    var w1 := w.(orchestrator := AwaitStarted, cycles := w.cycles + [Cycle(hosts, multiset{})]);
    NewCycleNodes(w, w1);
    hide NodesInv, Inv, Send, NoExits;
    assert NoExits([Post(Builder, StartEngine(hosts))]) by {
      StartIsNoExit(hosts);
    }
    NodesAfter(w1, w1, Orchestrator, [Post(Builder, StartEngine(hosts))]);
  }

  lemma {:induction false} ProgressHasNoExits(d: D.State, posts: seq<Post>, c: nat, hosts: seq<IpPort>,
                                              arrived: set<string>)
    requires D.Progress(d, posts, c, hosts, Builder, arrived)
    ensures NoExits(posts)
  {
    if posts != [] {
      AllAreStartNodes(posts, c, hosts);
    }
  }

  lemma {:induction false} NoticeHasNoExits(d: D.State, c: nat, hosts: seq<IpPort>, ip: string)
    requires Collecting(d, c, hosts) && d.remotes != map[]
    ensures NoExits(D.OnRemoteAdded(d, ip).1)
  {
    hide D.OnRemoteAdded, D.Waiting, D.Progress;
    var done :| D.Waiting(d, c, hosts, Builder, done);
    D.StillMissing(d, c, hosts, Builder, done);
    D.NoticeProgress(d, [], c, hosts, Builder, done, ip);
    var posts := D.OnRemoteAdded(d, ip).1;
    assert [] + posts == posts;
    ProgressHasNoExits(D.OnRemoteAdded(d, ip).0, posts, c, hosts, done + {ip});
  }

  lemma {:induction false} NoticeKeepsNodes(w: World, ip: string, k: Control, st: seq<Stage>, known: seq<Address>)
    requires Inv(w, k, st, known) && NodesInv(w) && Enabled(w, RemoteAdded(ip))
    ensures NodesInv(Do(w, RemoteAdded(ip)))
  {
    hide NetInv, LogInv, PastSafe, CycleSafe, B.Slots, D.OnRemoteAdded, Send, NodesInv;
    var d := w.dispatcher.value;
    var (d', posts) := D.OnRemoteAdded(d, ip);
    assert NoExits(posts) by {
      if k == Launching && d.remotes != map[] {
        NoticeHasNoExits(d, |w.cycles|, Hosts(w), ip);
      } else {
        D.NothingLeft(d, ip);
      }
    }
    NodesAfter(w, w.(dispatcher := Some(d')), Dispatcher(d'.cycle), posts);
  }

  // deliveries to the builder

  lemma {:induction false} ToChildrenIsAbout(children: seq<Option<Address>>, msg: Message)
    ensures forall i :: 0 <= i < |B.ToChildren(children, msg)| ==> B.ToChildren(children, msg)[i].msg == msg
  {
    if children != [] {
      ToChildrenIsAbout(children[..|children| - 1], msg);
    }
  }

  /** Nobody is dismissed but when the stop is announced. */
  lemma {:induction false} BuilderExits(b: B.State, src: Address, msg: Message, dispatcher: Address)
    ensures msg.StartEngine? ==> NoExits(B.OnStartEngine(b, msg.hosts, src, dispatcher).1)
    ensures NoExits(B.OnNodesStarted(b, src).1) && NoExits(B.OnStopEngine(b).1)
    ensures msg.BenchmarkFailure? ==> NoExits(B.OnFailure(b, msg.reason).1)
    ensures NoExits(B.OnNodesStopped(b, src).1)
            || B.OnNodesStopped(b, src).1
               == [Post(b.orchestrator, EngineStopped)] + B.ToChildren(b.children, ActorExitRequest)
  {
    hide B.Introduce;
    ToChildrenIsAbout(b.children, StopNodes);
  }

  lemma {:induction false} BuilderKeepsNodes(w: World, e: Envelope, k: Control, st: seq<Stage>, known: seq<Address>)
    requires Inv(w, k, st, known) && NodesInv(w) && e in w.net && w.cycles != [] && e.dst == Builder
    requires CycleSafe(Cycle(Hosts(w), Sent(AtBuilder(Taken(w, e), e.src, e.msg))), |w.cycles|)
    ensures NodesInv(AtBuilder(Taken(w, e), e.src, e.msg))
  {
    hide Inv, NodesInv, Send, CycleSafe, B.OnStartEngine, B.OnNodesStarted, B.OnStopEngine, B.OnNodesStopped,
      B.OnFailure, NoExits;
    var w1, dispatcher := Taken(w, e), Dispatcher(|w.cycles|);
    BuilderExits(w.builder, e.src, e.msg, dispatcher);
    match e.msg
    case StartEngine(hosts) =>
      var (b, posts) := B.OnStartEngine(w.builder, hosts, e.src, dispatcher);
      NodesAfter(w, w1.(builder := b), Builder, posts);
    case NodesStarted =>
      var (b, posts) := B.OnNodesStarted(w.builder, e.src);
      NodesAfter(w, w1.(builder := b), Builder, posts);
    case StopEngine =>
      var (b, posts) := B.OnStopEngine(w.builder);
      NodesAfter(w, w1.(builder := b), Builder, posts);
    case NodesStopped =>
      var (b, posts) := B.OnNodesStopped(w.builder, e.src);
      if NoExits(posts) {
        NodesAfter(w, w1.(builder := b), Builder, posts);
      } else {
        DismissalKeepsNodes(w, e, b, posts, k, st, known);
      }
    case BenchmarkFailure(reason) =>
      var (b, posts) := B.OnFailure(w.builder, reason);
      NodesAfter(w, w1.(builder := b), Builder, posts);
    case _ => NodesTaken(w, w1);
  }

  /** When the stop is announced, the node actors that are dismissed are those of the cycle. */
  lemma {:induction false} DismissedNodes(w: World, e: Envelope, k: Control, st: seq<Stage>, known: seq<Address>)
    requires Inv(w, k, st, known) && e in w.net && w.cycles != [] && e.dst == Builder && e.msg == NodesStopped
    ensures w.builder.orchestrator == Orchestrator
    ensures forall p :: p in B.ToChildren(w.builder.children, ActorExitRequest) ==>
              p.msg == ActorExitRequest && p.to.Node? && p.to.cycle == |w.cycles| && p.to.index < |Keys(Hosts(w))|
  {
    hide NetInv, LogInv, PastSafe, CycleSafe, Keys, B.Slots;
    JoinMessage(w.net, e, |w.cycles|, Hosts(w), k, st);
    LeavesWhileStopping(w, k, st, known, e.src.index);
    B.ToSlots(known, |Keys(Hosts(w))|, ActorExitRequest);
  }

  lemma {:induction false} DismissalKeepsNodes(w: World, e: Envelope, b: B.State, posts: seq<Post>, k: Control,
                                               st: seq<Stage>, known: seq<Address>)
    requires Inv(w, k, st, known) && NodesInv(w) && e in w.net && w.cycles != []
    requires e.dst == Builder && e.msg == NodesStopped
    requires posts == [Post(w.builder.orchestrator, EngineStopped)] + B.ToChildren(w.builder.children, ActorExitRequest)
    requires var w' := Send(Taken(w, e).(builder := b), Builder, posts);
             CycleSafe(Cycle(Hosts(w), Sent(w')), |w.cycles|)
    ensures NodesInv(Send(Taken(w, e).(builder := b), Builder, posts))
  {
    DismissedNodes(w, e, k, st, known);
    var w1, exits := Taken(w, e).(builder := b), B.ToChildren(w.builder.children, ActorExitRequest);
    hide Inv, NodesInv, CycleSafe, Keys, B.ToChildren, Dismisses, Send, Envelopes, Sent, Stopped, Hosts;
    var w' := Send(w1, Builder, posts);
    SendIs(w1, Builder, posts);
    StopIsAnnounced(w', w1, posts);
    AllHaveStopped(Cycle(Hosts(w), Sent(w')), |w.cycles|);
    DismissalsAre(exits, Sent(w'), |w.cycles|, |Keys(Hosts(w))|);
    assert Sent(w1) == Sent(w) by {
      SameSent(w, w1);
    }
    DismissedInv(w, w', Envelopes(Builder, posts));
  }

  lemma {:induction false} SendIs(w: World, src: Address, posts: seq<Post>)
    requires w.cycles != []
    ensures var (w', es) := (Send(w, src, posts), multiset(Envelopes(src, posts)));
            && w'.net == w.net + es && Sent(w') == Sent(w) + es && w'.running == w.running
            && |w'.cycles| == |w.cycles|
  {
  }

  lemma {:induction false} SameSent(w: World, w': World)
    requires w'.cycles == w.cycles
    ensures Sent(w') == Sent(w)
  {
  }

  lemma {:induction false} StopIsAnnounced(w': World, w: World, posts: seq<Post>)
    requires Sent(w') == Sent(w) + multiset(Envelopes(Builder, posts))
    requires posts != [] && posts[0] == Post(Orchestrator, EngineStopped)
    ensures EngineDown in Sent(w')
  {
    assert Envelopes(Builder, posts)[0] == EngineDown;
  }

  lemma {:induction false} DismissalsAre(exits: seq<Post>, sent: multiset<Envelope>, c: nat, n: nat)
    requires forall p :: p in exits ==> p.msg == ActorExitRequest && p.to.Node? && p.to.cycle == c && p.to.index < n
    requires forall i :: 0 <= i < n ==> Stopped(c, i) in sent
    ensures var es := Envelopes(Builder, [Post(Orchestrator, EngineStopped)] + exits);
            forall i :: 0 <= i < |es| ==> Dismisses(es[i], sent, c)
  {
    var posts := [Post(Orchestrator, EngineStopped)] + exits;
    var es := Envelopes(Builder, posts);
    forall i | 0 <= i < |es| ensures Dismisses(es[i], sent, c) {
      assert i > 0 ==> posts[i] == exits[i - 1] && exits[i - 1] in exits;
    }
  }

  /** A message of the builder, which dismisses only those that have stopped. */
  ghost predicate Dismisses(e: Envelope, sent: multiset<Envelope>, c: nat) {
    e.src == Builder
    && (e.msg.ActorExitRequest? ==> e.dst.Node? && e.dst.cycle == c && Stopped(c, e.dst.index) in sent)
  }

  lemma {:induction false} DismissedInv(w: World, w': World, es: seq<Envelope>)
    requires NodesInv(w) && |w'.cycles| == |w.cycles| && w'.running == w.running
    requires w'.net <= w.net + multiset(es) && Sent(w') == Sent(w) + multiset(es)
    requires forall i :: 0 <= i < |es| ==> Dismisses(es[i], Sent(w'), |w.cycles|)
    ensures NodesInv(w')
  {
    hide Sent;
    forall e: Envelope | e in multiset(es) ensures Dismisses(e, Sent(w'), |w.cycles|) {
      var i :| 0 <= i < |es| && es[i] == e;
    }
  }

  lemma {:induction false} AllHaveStopped(cycle: Cycle, c: nat)
    requires CycleSafe(cycle, c) && EngineDown in cycle.sent
    ensures forall i :: 0 <= i < |Keys(cycle.hosts)| ==> Stopped(c, i) in cycle.sent
  {
    hide Keys;
  }

  // deliveries to the dispatcher

  lemma {:induction false} DispatcherKeepsNodes(w: World, e: Envelope, k: Control, st: seq<Stage>,
                                                known: seq<Address>)
    requires Inv(w, k, st, known) && NodesInv(w) && e in w.net && w.cycles != [] && e.dst.Dispatcher?
    ensures NodesInv(AtDispatcher(Taken(w, e), e.dst, e.src, e.msg))
  {
    hide LogInv, PastSafe, CycleSafe, ActorInv, Send, NodesInv, D.OnStartEngine, D.Progress;
    var w1 := Taken(w, e);
    match e.msg
    case StartEngine(hosts) =>
      assert InFlight(e, |w.cycles|, Hosts(w), k, st);
      var (d, posts) := D.OnStartEngine(e.dst.cycle, hosts, e.src);
      D.StartProgress(e.dst.cycle, hosts, e.src);
      ProgressHasNoExits(d, posts, e.dst.cycle, hosts, {D.LOCAL_IP});
      NodesAfter(w, w1.(dispatcher := Some(d)), e.dst, posts);
    case BenchmarkFailure(_) => assert false;
    case _ => NodesTaken(w, w1);
  }

  // deliveries to the node actors

  /** An answer of a node actor, and what runs with it. */
  lemma {:induction false} AnswerKeepsNodes(before: World, w: World, i: nat, msg: Message)
    requires before.cycles != [] && NodesInv(before) && w.cycles == before.cycles && w.net <= before.net
    requires Stopped(|w.cycles|, i) !in Sent(before)
    requires match msg
             case NodesStarted => w.running == before.running + {Node(|w.cycles|, i)}
             case NodesStopped => w.running == before.running - {Node(|w.cycles|, i)}
             case BenchmarkFailure(reason) =>
               w.running == before.running
               || (reason == StartFailed && w.running == before.running + {Node(|w.cycles|, i)})
             case _ => false
    ensures NodesInv(Send(w, Node(|w.cycles|, i), [Post(Builder, msg)]))
  {
    var c, me := |w.cycles|, Node(|w.cycles|, i);
    var e := Envelope(me, Builder, msg);
    SentAfter(w, me, [Post(Builder, msg)]);
    assert Envelopes(me, [Post(Builder, msg)]) == [e];
    assert multiset([e]) == multiset{e};
    assert Sent(w) == Sent(before);
    hide Send, Envelopes, Sent;
  }

  lemma {:induction false} NodeKeepsNodes(w: World, e: Envelope, luck: Luck, k: Control, st: seq<Stage>,
                                          known: seq<Address>)
    requires Inv(w, k, st, known) && NodesInv(w) && e in w.net && w.cycles != [] && e.dst.Node?
    ensures NodesInv(AtNode(Taken(w, e), e.dst, e.src, e.msg, luck))
  {
    hide NetInv, LogInv, PastSafe, CycleSafe, ActorInv, Send, NodesInv;
    var w1, me := Taken(w, e), e.dst;
    match e.msg
    case StartNodes(_, _, replyTo) =>
      AskedNode(w, e, k, st);
      AnswerKeepsNodes(w, w1.(running := if luck == FailsBeforeLaunch then w.running else w.running + {me}), me.index,
        if luck == Succeeds then NodesStarted else BenchmarkFailure(StartFailed));
    case StopNodes =>
      AskedNode(w, e, k, st);
      if me in w.running && luck == Succeeds {
        AnswerKeepsNodes(w, w1.(running := w.running - {me}), me.index, NodesStopped);
      } else {
        AnswerKeepsNodes(w, w1, me.index, BenchmarkFailure(StopFailed));
      }
    case ActorExitRequest => ExitKeepsNodes(w, e);
    case BenchmarkFailure(_) => FailureGoesElsewhere(w, e, k, st);
    case _ => NodesTaken(w, w1);
  }

  lemma {:induction false} FailureGoesElsewhere(w: World, e: Envelope, k: Control, st: seq<Stage>)
    requires NetInv(w.net, |w.cycles|, Hosts(w), k, st) && e in w.net && e.msg.BenchmarkFailure?
    ensures !e.dst.Node?
  {
  }

  lemma {:induction false} AskedNode(w: World, e: Envelope, k: Control, st: seq<Stage>)
    requires w.cycles != [] && NetInv(w.net, |w.cycles|, Hosts(w), k, st) && LogInv(Sent(w), |w.cycles|, k, st)
    requires e in w.net && e.dst.Node? && (e.msg.StartNodes? || e.msg.StopNodes?)
    ensures e.dst == Node(|w.cycles|, e.dst.index) && Stopped(|w.cycles|, e.dst.index) !in Sent(w)
    ensures if e.msg.StartNodes? then e.msg.replyTo == Builder else e.src == Builder
  {
    NodeMessage(w.net, e, |w.cycles|, Hosts(w), k, st);
    assert Recorded(Stopped(|w.cycles|, e.dst.index));
  }

  lemma {:induction false} ExitKeepsNodes(w: World, e: Envelope)
    requires NodesInv(w) && e in w.net && e.dst.Node? && e.msg.ActorExitRequest?
    ensures NodesInv(Taken(w, e).(running := w.running - {e.dst}))
  {
    assert Sent(Taken(w, e).(running := w.running - {e.dst})) == Sent(w);
  }

  lemma {:induction false} StepKeepsNodes(w: World, step: Step, k: Control, st: seq<Stage>, known: seq<Address>)
    requires Inv(w, k, st, known) && NodesInv(w) && Enabled(w, step)
    requires Do(w, step).cycles != [] ==> CycleSafe(Cycle(Hosts(Do(w, step)), Sent(Do(w, step))), |Do(w, step).cycles|)
    ensures NodesInv(Do(w, step))
  {
    hide Inv, NodesInv, CycleSafe, AtOrchestrator, AtBuilder, AtDispatcher, AtNode;
    match step
    case Start(hosts) => StartKeepsNodes(w, hosts, k, st, known);
    case Stop => NodesAfter(w, w.(orchestrator := AwaitStopped), Orchestrator, [Post(Builder, StopEngine)]);
    case RemoteAdded(ip) => NoticeKeepsNodes(w, ip, k, st, known);
    case RemoteRemoved(_) =>
    case Deliver(e, luck) =>
      match e.dst
      case Orchestrator =>
        SameNodes(w, e);
      case Builder =>
        LaterAtBuilder(Taken(w, e), e.src, e.msg);
        BuilderKeepsNodes(w, e, k, st, known);
      case Dispatcher(_) => DispatcherKeepsNodes(w, e, k, st, known);
      case Node(_, _) => NodeKeepsNodes(w, e, luck, k, st, known);
  }

  lemma {:induction false} SameNodes(w: World, e: Envelope)
    requires NodesInv(w) && e in w.net
    ensures NodesInv(AtOrchestrator(Taken(w, e), e.msg))
  {
    hide NodesInv;
    NodesTaken(w, AtOrchestrator(Taken(w, e), e.msg));
  }

  // ----- the theorems

  lemma {:induction false} ReachableNodes(steps: seq<Step>, w: World)
    requires Reaches(Init, steps, w)
    ensures NodesInv(w)
    decreases |steps|
  {
    if steps != [] {
      hide Inv, Do, NodesInv, CycleSafe;
      var n := |steps| - 1;
      var mid :| Reaches(Init, steps[..n], mid) && Enabled(mid, steps[n]) && Do(mid, steps[n]) == w;
      ReachableNodes(steps[..n], mid);
      var k, st, known := ReachableInv(steps[..n], mid);
      EveryCycleIsSafe(steps, w);
      StepKeepsNodes(mid, steps[n], k, st, known);
    }
  }

  /** While the engine is up, exactly the node actors of the cycle run, one for each host. */
  lemma {:induction false} NodesRunWhileUp(steps: seq<Step>, w: World)
    requires Reaches(Init, steps, w) && w.orchestrator == Up
    ensures w.cycles != [] && w.running == set i | 0 <= i < |Keys(Hosts(w))| :: Node(|w.cycles|, i)
  {
    hide Reaches;
    ReachableNodes(steps, w);
    var k, st, known := ReachableInv(steps, w);
    JoinedNodesRun(w, st, known);
  }

  lemma {:induction false} JoinedNodesRun(w: World, st: seq<Stage>, known: seq<Address>)
    requires Inv(w, Running, st, known) && NodesInv(w)
    ensures w.cycles != [] && w.running == set i | 0 <= i < |Keys(Hosts(w))| :: Node(|w.cycles|, i)
  {
    hide NetInv, PastSafe, CycleSafe, BuilderInv, KnownInv, Keys;
    JoinedHaveStarted(Sent(w), |w.cycles|, Running, st);
    assert |st| == |Keys(Hosts(w))|;
    hide LogInv, StageInv, ExitsInv, Started, Stopped, HasLaunched;
    assert forall a :: a in w.running ==> a == Node(|w.cycles|, a.index);
  }

  lemma {:induction false} JoinedHaveStarted(sent: multiset<Envelope>, c: nat, k: Control, st: seq<Stage>)
    requires LogInv(sent, c, k, st) && AllIn(st, {Joined})
    ensures forall i: nat :: i < |st| ==> Started(c, i) in sent && Stopped(c, i) !in sent
    ensures forall i: nat :: HasLaunched(sent, c, i) ==> i < |st|
  {
    forall i: nat ensures i < |st| ==> Started(c, i) in sent && Stopped(c, i) !in sent
                  ensures HasLaunched(sent, c, i) ==> i < |st|
    {
      assert Recorded(Started(c, i)) && Recorded(StartFailure(c, i)) && Recorded(Stopped(c, i));
    }
  }

  /** When the engine is down, no node runs. */
  lemma {:induction false} NothingRunsWhenDown(steps: seq<Step>, w: World)
    requires Reaches(Init, steps, w) && w.orchestrator == Ready
    ensures w.running == {}
  {
    hide Reaches;
    ReachableNodes(steps, w);
    var k, st, known := ReachableInv(steps, w);
    NothingRunsWhenIdle(w, k, st, known);
  }
}
