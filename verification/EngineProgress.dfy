/** Why starting and stopping come to rest: every delivery uses up some of what a cycle has to send. */
module EngineProgress {
  import opened HostTable
  import opened Messages
  import opened Wrappers
  import opened EngineProtocol
  import opened EngineSafety
  import opened EngineFailures
  import B = Builder
  import D = Dispatcher

  // ----- how many deliveries a message can lead to, itself included, in a cycle of n node actors

  function Weight(dst: Address, msg: Message, n: nat): nat {
    match msg
    case StartEngine(_) => if dst == Builder then 3 * n + 2 else 3 * n + 1
    case StartNodes(_, _, _) => 3
    case NodesStarted => 2
    case EngineStarted | EngineStopped | ActorExitRequest => 1
    case StopEngine => n * (n + 3) + 1
    case StopNodes => n + 3
    case NodesStopped => n + 2
    case BenchmarkFailure(_) => if dst == Builder then 2 else 1
  }

  ghost function Sum(es: multiset<Envelope>, n: nat): nat
    decreases |es|
  {
    if es == multiset{} then 0
    else
      var e := Any(es);
      Weight(e.dst, e.msg, n) + Sum(es - multiset{e}, n)
  }

  lemma {:induction false} SumWithout(es: multiset<Envelope>, e: Envelope, n: nat)
    requires e in es
    ensures Sum(es, n) == Weight(e.dst, e.msg, n) + Sum(es - multiset{e}, n)
    decreases |es|
  {
    hide Weight;
    var x := Any(es);
    if x != e {
      SumWithout(es - multiset{x}, e, n);
      SumWithout(es - multiset{e}, x, n);
      assert es - multiset{x} - multiset{e} == es - multiset{e} - multiset{x};
    }
  }

  lemma {:induction false} SumOfBoth(es: multiset<Envelope>, more: multiset<Envelope>, n: nat)
    ensures Sum(es + more, n) == Sum(es, n) + Sum(more, n)
    decreases |more|
  {
    if more == multiset{} {
      assert es + more == es;
    } else {
      var e := Any(more);
      SumWithout(es + more, e, n);
      assert es + more - multiset{e} == es + (more - multiset{e});
      SumOfBoth(es, more - multiset{e}, n);
    }
  }

  function WeightOf(posts: seq<Post>, n: nat): nat {
    if posts == [] then 0
    else WeightOf(posts[..|posts| - 1], n) + Weight(posts[|posts| - 1].to, posts[|posts| - 1].msg, n)
  }

  lemma {:induction false} SumOfPosts(src: Address, posts: seq<Post>, n: nat)
    ensures Sum(multiset(Envelopes(src, posts)), n) == WeightOf(posts, n)
  {
    hide Weight, Sum, Envelopes;
    if posts == [] {
      SumOfNone(src, n);
    } else {
      var k := |posts| - 1;
      var e := Envelope(src, posts[k].to, posts[k].msg);
      SumOfPosts(src, posts[..k], n);
      LastEnvelope(src, posts);
      var es := multiset(Envelopes(src, posts[..k]));
      SumOfBoth(es, multiset{e}, n);
      SumOfOne(e, n);
    }
  }

  lemma {:induction false} SumOfNone(src: Address, n: nat)
    ensures Sum(multiset(Envelopes(src, [])), n) == 0
  {
    assert multiset(Envelopes(src, [])) == multiset{};
  }

  lemma {:induction false} LastEnvelope(src: Address, posts: seq<Post>)
    requires posts != []
    ensures var k := |posts| - 1;
            multiset(Envelopes(src, posts))
              == multiset(Envelopes(src, posts[..k])) + multiset{Envelope(src, posts[k].to, posts[k].msg)}
  {
    var k := |posts| - 1;
    assert Envelopes(src, posts) == Envelopes(src, posts[..k]) + [Envelope(src, posts[k].to, posts[k].msg)];
  }

  lemma {:induction false} SumOfOne(e: Envelope, n: nat)
    ensures Sum(multiset{e}, n) == Weight(e.dst, e.msg, n)
  {
    SumWithout(multiset{e}, e, n);
    assert multiset{e} - multiset{e} == multiset{};
  }

  /** Posts that all weigh at most so much. */
  lemma {:induction false} EqualWeights(posts: seq<Post>, n: nat, each: nat)
    requires forall i :: 0 <= i < |posts| ==> Weight(posts[i].to, posts[i].msg, n) <= each
    ensures WeightOf(posts, n) <= |posts| * each
  {
    hide Weight;
    if posts != [] {
      EqualWeights(posts[..|posts| - 1], n, each);
      assert |posts| * each == (|posts| - 1) * each + each;
    }
  }

  lemma {:induction false} ChildrenWeight(children: seq<Option<Address>>, msg: Message, n: nat, each: nat)
    requires forall a :: Weight(a, msg, n) <= each
    ensures WeightOf(B.ToChildren(children, msg), n) <= |children| * each
  {
    hide Weight;
    if children != [] {
      var k := |children| - 1;
      ChildrenWeight(children[..k], msg, n, each);
      assert (k + 1) * each == k * each + each;
      if children[k].Some? {
        var posts := B.ToChildren(children, msg);
        assert posts[..|posts| - 1] == B.ToChildren(children[..k], msg);
      }
    }
  }

  // ----- what is left

  function Nodes(w: World): nat {
    |Keys(Hosts(w))|
  }

  /** What is in the network, and what the dispatcher holds back until all machines have checked in. */
  ghost function Left(w: World): nat {
    Sum(w.net, Nodes(w)) + if w.dispatcher.Some? && w.dispatcher.value.remotes != map[] then 3 * Nodes(w) else 0
  }

  lemma {:induction false} LeftAfter(w: World, src: Address, posts: seq<Post>)
    requires w.cycles != []
    ensures Left(Send(w, src, posts)) == Left(w) + WeightOf(posts, Nodes(w))
    ensures Hosts(Send(w, src, posts)) == Hosts(w)
  {
    SumOfBoth(w.net, multiset(Envelopes(src, posts)), Nodes(w));
    SumOfPosts(src, posts, Nodes(w));
    hide Sum, WeightOf, Keys;
  }

  lemma {:induction false} LeftTaken(w: World, e: Envelope)
    requires e in w.net
    ensures Left(w) == Left(Taken(w, e)) + Weight(e.dst, e.msg, Nodes(w))
  {
    SumWithout(w.net, e, Nodes(w));
    hide Sum, Weight, Keys;
  }

  // ----- deliveries

  lemma {:induction false} BuilderUses(w: World, e: Envelope, k: Control, st: seq<Stage>, known: seq<Address>)
    requires Inv(w, k, st, known) && e in w.net && w.cycles != [] && e.dst == Builder
    requires NothingRejected(AtBuilder(Taken(w, e), e.src, e.msg))
    ensures Left(AtBuilder(Taken(w, e), e.src, e.msg)) < Left(w)
  {
    hide LogInv, PastSafe, CycleSafe, ActorInv, Send, Left, NothingRejected, Keys, IdsOf, Sum,
      B.OnStartEngine, B.OnNodesStarted, B.OnStopEngine, B.OnNodesStopped, B.OnFailure;
    LeftTaken(w, e);
    var n := Nodes(w);
    match e.msg
    case StartEngine(hosts) =>
      var (b, posts) := B.OnStartEngine(w.builder, hosts, e.src, Dispatcher(|w.cycles|));
      assert InFlight(e, |w.cycles|, Hosts(w), k, st);
      StartWeight(w.builder, hosts, e.src, |w.cycles|, n);
      BuilderSendsLess(w, e, b, posts);
    case NodesStarted =>
      var (b, posts) := B.OnNodesStarted(w.builder, e.src);
      AnswersAreQuiet(w, e);
      StartedWeight(w.builder, e.src, n);
      BuilderSendsLess(w, e, b, posts);
    case StopEngine =>
      var (b, posts) := B.OnStopEngine(w.builder);
      RecallHasSlots(w, e, k, st, known);
      RecallWeight(w.builder, n);
      BuilderSendsLess(w, e, b, posts);
    case NodesStopped =>
      var (b, posts) := B.OnNodesStopped(w.builder, e.src);
      AnswersAreQuiet(w, e);
      RecallHasSlots(w, e, k, st, known);
      StoppedWeight(w.builder, e.src, n);
      BuilderSendsLess(w, e, b, posts);
    case BenchmarkFailure(reason) =>
      var (b, posts) := B.OnFailure(w.builder, reason);
      ReportsToOrchestrator(w, k, st, known);
      PassedOnWeight(w.builder, reason, n);
      BuilderSendsLess(w, e, b, posts);
    case _ =>
  }

  lemma {:induction false} BuilderSendsLess(w: World, e: Envelope, b: B.State, posts: seq<Post>)
    requires w.cycles != [] && e in w.net && WeightOf(posts, Nodes(w)) < Weight(e.dst, e.msg, Nodes(w))
    ensures Left(Send(Taken(w, e).(builder := b), Builder, posts)) < Left(w)
  {
    hide Send, Left, Weight, WeightOf;
    LeftTaken(w, e);
    SameLeft(Taken(w, e), Taken(w, e).(builder := b));
    LeftAfter(Taken(w, e).(builder := b), Builder, posts);
  }

  lemma {:induction false} AnswersAreQuiet(w: World, e: Envelope)
    requires w.cycles != [] && NothingRejected(AtBuilder(Taken(w, e), e.src, e.msg))
    ensures e.msg == NodesStarted ==> QuietPosts(B.OnNodesStarted(w.builder, e.src).1)
    ensures e.msg == NodesStopped ==> QuietPosts(B.OnNodesStopped(w.builder, e.src).1)
  {
    hide Send, NothingRejected, B.OnNodesStarted, B.OnNodesStopped, QuietPosts;
    BuilderIsQuiet(w.builder, e.src, e.msg, e.src);
    NotRejected(Taken(w, e).(builder := B.OnNodesStarted(w.builder, e.src).0), Builder, e.src);
    NotRejected(Taken(w, e).(builder := B.OnNodesStopped(w.builder, e.src).0), Builder, e.src);
  }

  lemma {:induction false} ReportsToOrchestrator(w: World, k: Control, st: seq<Stage>, known: seq<Address>)
    requires Inv(w, k, st, known)
    ensures w.builder.orchestrator == Orchestrator
  {
    hide NetInv, LogInv, PastSafe, BuilderInv, KnownInv, StageInv;
  }

  /** When nodes are to be stopped, and when they answer, all slots are still there. */
  lemma {:induction false} RecallHasSlots(w: World, e: Envelope, k: Control, st: seq<Stage>, known: seq<Address>)
    requires Inv(w, k, st, known) && e in w.net && e.dst == Builder && (e.msg == StopEngine || e.msg == NodesStopped)
    ensures |w.builder.children| == Nodes(w)
  {
    hide LogInv, PastSafe, CycleSafe, KnownInv, Keys, IdsOf;
    assert InFlight(e, |w.cycles|, Hosts(w), k, st);
    if e.msg == NodesStopped {
      assert st[e.src.index] == EngineSafety.Left;
      assert k == Stopping;
    }
  }

  lemma {:induction false} StartWeight(b: B.State, hosts: seq<IpPort>, src: Address, c: nat, n: nat)
    requires src != Builder
    ensures WeightOf(B.OnStartEngine(b, hosts, src, Dispatcher(c)).1, n) <= 3 * n + 1
  {
    hide Keys;
    OnePost(B.OnStartEngine(b, hosts, src, Dispatcher(c)).1, n);
  }

  lemma {:induction false} RecallWeight(b: B.State, n: nat)
    requires |b.children| == n
    ensures WeightOf(B.OnStopEngine(b).1, n) <= n * (n + 3)
  {
    ChildrenWeight(b.children, StopNodes, n, n + 3);
  }

  lemma {:induction false} PassedOnWeight(b: B.State, reason: Reason, n: nat)
    ensures b.orchestrator != Builder ==> WeightOf(B.OnFailure(b, reason).1, n) <= 1
  {
    OnePost(B.OnFailure(b, reason).1, n);
  }

  lemma {:induction false} SameLeft(w: World, w': World)
    requires w'.net == w.net && w'.cycles == w.cycles && w'.dispatcher == w.dispatcher
    ensures Left(w') == Left(w)
  {
  }

  lemma {:induction false} OnePost(posts: seq<Post>, n: nat)
    ensures posts == [] ==> WeightOf(posts, n) == 0
    ensures |posts| == 1 ==> WeightOf(posts, n) == Weight(posts[0].to, posts[0].msg, n)
  {
    hide Weight;
    if |posts| == 1 {
      assert posts[..0] == [];
    }
  }

  lemma {:induction false} StartedWeight(b: B.State, src: Address, n: nat)
    requires QuietPosts(B.OnNodesStarted(b, src).1)
    ensures WeightOf(B.OnNodesStarted(b, src).1, n) <= 1
  {
    hide B.Respond, B.Introduce;
    OnePost(B.OnNodesStarted(b, src).1, n);
  }

  lemma {:induction false} StoppedWeight(b: B.State, src: Address, n: nat)
    requires QuietPosts(B.OnNodesStopped(b, src).1) && |b.children| == n
    ensures WeightOf(B.OnNodesStopped(b, src).1, n) <= n + 1
  {
    hide B.Respond;
    var announced, exits := [Post(b.orchestrator, EngineStopped)], B.ToChildren(b.children, ActorExitRequest);
    ChildrenWeight(b.children, ActorExitRequest, n, 1);
    WeightOfBoth(announced, exits, n);
    OnePost(announced, n);
    OnePost([], n);
  }

  lemma {:induction false} WeightOfBoth(a: seq<Post>, b: seq<Post>, n: nat)
    ensures WeightOf(a + b, n) == WeightOf(a, n) + WeightOf(b, n)
    decreases |b|
  {
    hide Weight;
    if b == [] {
      assert a + b == a;
    } else {
      assert (a + b)[..|a + b| - 1] == a + b[..|b| - 1];
      WeightOfBoth(a, b[..|b| - 1], n);
    }
  }

  /** What the dispatcher sends: all start messages, or none, holding them back. */
  lemma {:induction false} ProgressWeight(d: D.State, posts: seq<Post>, c: nat, hosts: seq<IpPort>,
                                          arrived: set<string>)
    requires D.Progress(d, posts, c, hosts, Builder, arrived)
    ensures var n := |Keys(hosts)|;
            WeightOf(posts, n) <= if d.remotes != map[] then 0 else 3 * n
  {
    OnePost([], |Keys(hosts)|);
    if D.RemoteIps(Keys(hosts)) <= arrived {
      AllAreStartNodes(posts, c, hosts);
      EqualWeights(posts, |Keys(hosts)|, 3);
    }
  }

  lemma {:induction false} DispatcherUses(w: World, e: Envelope, k: Control, st: seq<Stage>, known: seq<Address>)
    requires Inv(w, k, st, known) && e in w.net && w.cycles != [] && e.dst.Dispatcher?
    ensures Left(AtDispatcher(Taken(w, e), e.dst, e.src, e.msg)) < Left(w)
  {
    hide LogInv, PastSafe, CycleSafe, Send, D.OnStartEngine, D.Progress, KnownInv, Keys, IdsOf, Sum, BuilderInv;
    LeftTaken(w, e);
    var w1 := Taken(w, e);
    match e.msg
    case StartEngine(hosts) =>
      assert InFlight(e, |w.cycles|, Hosts(w), k, st);
      var (d, posts) := D.OnStartEngine(e.dst.cycle, hosts, e.src);
      D.StartProgress(e.dst.cycle, hosts, e.src);
      ProgressWeight(d, posts, e.dst.cycle, hosts, {D.LOCAL_IP});
      LeftAfter(w1.(dispatcher := Some(d)), e.dst, posts);
      assert DispatcherDone(w.dispatcher);
    case BenchmarkFailure(_) => assert false;
    case _ =>
  }

  lemma {:induction false} NodeUses(w: World, e: Envelope, luck: Luck, k: Control, st: seq<Stage>, known: seq<Address>)
    requires Inv(w, k, st, known) && e in w.net && w.cycles != [] && e.dst.Node?
    ensures Left(AtNode(Taken(w, e), e.dst, e.src, e.msg, luck)) < Left(w)
  {
    hide LogInv, PastSafe, CycleSafe, ActorInv, Send, Left, Keys, IdsOf;
    LeftTaken(w, e);
    var w1, me, n := Taken(w, e), e.dst, Nodes(w);
    match e.msg
    case StartNodes(_, _, replyTo) =>
      var w2 := w1.(running := if luck == FailsBeforeLaunch then w.running else w.running + {me});
      AnswerUses(w1, w2, me, Post(replyTo, if luck == Succeeds then NodesStarted else BenchmarkFailure(StartFailed)));
    case StopNodes =>
      var good := me in w.running && luck == Succeeds;
      var w2 := if good then w1.(running := w.running - {me}) else w1;
      AnswerUses(w1, w2, me, Post(e.src, if good then NodesStopped else BenchmarkFailure(StopFailed)));
    case ActorExitRequest => SameLeft(w1, w1.(running := w.running - {me}));
    case BenchmarkFailure(_) => assert false;
    case _ =>
  }

  /** One answer adds its weight. */
  lemma {:induction false} AnswerUses(w: World, w': World, me: Address, post: Post)
    requires w.cycles != [] && w'.net == w.net && w'.cycles == w.cycles && w'.dispatcher == w.dispatcher
    ensures Left(Send(w', me, [post])) == Left(w) + Weight(post.to, post.msg, Nodes(w))
  {
    SameLeft(w, w');
    LeftAfter(w', me, [post]);
    OnePost([post], Nodes(w));
    hide Left, Send, Weight, WeightOf, Keys;
  }

  lemma {:induction false} NoticeUses(w: World, ip: string, k: Control, st: seq<Stage>, known: seq<Address>)
    requires Inv(w, k, st, known) && Enabled(w, RemoteAdded(ip))
    ensures Left(Do(w, RemoteAdded(ip))) <= Left(w)
  {
    hide NetInv, LogInv, PastSafe, CycleSafe, B.Slots, D.OnRemoteAdded, Send, Keys, IdsOf, Sum;
    var d := w.dispatcher.value;
    var (d', posts) := D.OnRemoteAdded(d, ip);
    LeftAfter(w.(dispatcher := Some(d')), Dispatcher(d'.cycle), posts);
    if k == Launching && d.remotes != map[] {
      NoticeWeight(d, |w.cycles|, Hosts(w), ip);
    } else {
      D.NothingLeft(d, ip);
      OnePost([], Nodes(w));
    }
  }

  lemma {:induction false} NoticeWeight(d: D.State, c: nat, hosts: seq<IpPort>, ip: string)
    requires Collecting(d, c, hosts) && d.remotes != map[]
    ensures var (d', posts) := D.OnRemoteAdded(d, ip);
            WeightOf(posts, |Keys(hosts)|) <= if d'.remotes != map[] then 0 else 3 * |Keys(hosts)|
  {
    hide D.OnRemoteAdded, D.Waiting, D.Progress;
    var done :| D.Waiting(d, c, hosts, Builder, done);
    D.StillMissing(d, c, hosts, Builder, done);
    D.NoticeProgress(d, [], c, hosts, Builder, done, ip);
    var posts := D.OnRemoteAdded(d, ip).1;
    assert [] + posts == posts;
    ProgressWeight(D.OnRemoteAdded(d, ip).0, posts, c, hosts, done + {ip});
  }

  function Delivery(step: Step): nat {
    if step.Deliver? then 1 else 0
  }

  /** Every delivery uses up something; machines that come and go add nothing. */
  lemma {:induction false} StepUses(w: World, step: Step, k: Control, st: seq<Stage>, known: seq<Address>)
    requires Inv(w, k, st, known) && Enabled(w, step) && NothingRejected(Do(w, step)) && !step.Start? && !step.Stop?
    ensures Left(Do(w, step)) + Delivery(step) <= Left(w)
  {
    hide Inv, NothingRejected, AtBuilder, AtDispatcher, AtNode, Left;
    match step
    case RemoteAdded(ip) => NoticeUses(w, ip, k, st, known);
    case RemoteRemoved(_) =>
    case Deliver(e, luck) =>
      match e.dst
      case Orchestrator =>
        LeftTaken(w, e);
        SameLeft(Taken(w, e), AtOrchestrator(Taken(w, e), e.msg));
      case Builder => BuilderUses(w, e, k, st, known);
      case Dispatcher(_) => DispatcherUses(w, e, k, st, known);
      case Node(_, _) => NodeUses(w, e, luck, k, st, known);
  }

  // ----- the theorems

  function Deliveries(steps: seq<Step>): nat {
    if steps == [] then 0 else Deliveries(steps[..|steps| - 1]) + Delivery(steps[|steps| - 1])
  }

  /** From every state that can be reached, only a fixed number of messages can be delivered until the next start
      or stop, whatever the order and the luck: starting and stopping come to rest. */
  lemma {:induction false} ComesToRest(before: seq<Step>, w: World, steps: seq<Step>, w': World)
    requires Reaches(Init, before, w) && Reaches(w, steps, w')
    requires forall i :: 0 <= i < |steps| ==> !steps[i].Start? && !steps[i].Stop?
    ensures Deliveries(steps) + Left(w') <= Left(w)
    decreases |steps|
  {
    hide Inv, Do, Left;
    if steps != [] {
      var n := |steps| - 1;
      var mid :| Reaches(w, steps[..n], mid) && Enabled(mid, steps[n]) && Do(mid, steps[n]) == w';
      ComesToRest(before, w, steps[..n], mid);
      ReachesOn(Init, before, w, steps[..n], mid);
      ReachesOn(Init, before, w, steps, w');
      var k, st, known := ReachableInv(before + steps[..n], mid);
      EveryCycleIsSafe(before + steps, w');
      SafeIsNotRejected(w');
      StepUses(mid, steps[n], k, st, known);
    }
  }

  lemma {:induction false} ReachesOn(u: World, before: seq<Step>, w: World, steps: seq<Step>, w': World)
    requires Reaches(u, before, w) && Reaches(w, steps, w')
    ensures Reaches(u, before + steps, w')
    decreases |steps|
  {
    hide Do, Enabled;
    if steps == [] {
      assert before + steps == before;
    } else {
      var n := |steps| - 1;
      var mid :| Reaches(w, steps[..n], mid) && Enabled(mid, steps[n]) && Do(mid, steps[n]) == w';
      ReachesOn(u, before, w, steps[..n], mid);
      assert (before + steps)[..|before + steps| - 1] == before + steps[..n];
    }
  }

  /** While the engine is up the builder's slots hold all node actors of the cycle, each once. */
  lemma {:induction false} SlotsHoldAllNodes(steps: seq<Step>, w: World)
    requires Reaches(Init, steps, w) && w.orchestrator == Up
    ensures w.cycles != [] && |w.builder.children| == Nodes(w) > 0
    ensures forall i :: 0 <= i < Nodes(w) ==> Some(Node(|w.cycles|, i)) in w.builder.children
    ensures forall i, j :: 0 <= i < j < Nodes(w) ==> w.builder.children[i] != w.builder.children[j]
  {
    hide Reaches;
    var k, st, known := ReachableInv(steps, w);
    hide NetInv, LogInv, PastSafe, Keys, IdsOf;
    var c, n := |w.cycles|, Nodes(w);
    forall i | 0 <= i < n ensures Some(Node(c, i)) in w.builder.children {
      assert st[i] == Joined && Node(c, i) in known;
      var j :| 0 <= j < |known| && known[j] == Node(c, i);
      assert w.builder.children[j] == Some(known[j]);
    }
  }
}
