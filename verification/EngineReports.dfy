/** What becomes of failures: the builder passes every one on, so that every start and every stop is answered. */
module EngineReports {
  import opened HostTable
  import opened Messages
  import opened Wrappers
  import opened EngineProtocol
  import opened EngineSafety
  import opened EngineFailures
  import B = Builder
  import D = Dispatcher

  // ----- counting failures

  predicate ReachesBuilder(e: Envelope, reason: Reason) {
    e.dst == Builder && e.msg == BenchmarkFailure(reason)
  }

  /** How many failures with this reason are addressed to the builder. */
  ghost function Tally(es: multiset<Envelope>, reason: Reason): nat
    decreases |es|
  {
    if es == multiset{} then 0
    else
      var e := Any(es);
      Ones(ReachesBuilder(e, reason)) + Tally(es - multiset{e}, reason)
  }

  lemma {:induction false} TallyWithout(es: multiset<Envelope>, e: Envelope, reason: Reason)
    requires e in es
    ensures Tally(es, reason) == Ones(ReachesBuilder(e, reason)) + Tally(es - multiset{e}, reason)
    decreases |es|
  {
    hide ReachesBuilder;
    var x := Any(es);
    if x != e {
      TallyWithout(es - multiset{x}, e, reason);
      TallyWithout(es - multiset{e}, x, reason);
      assert es - multiset{x} - multiset{e} == es - multiset{e} - multiset{x};
    }
  }

  lemma {:induction false} TallyOfBoth(es: multiset<Envelope>, more: multiset<Envelope>, reason: Reason)
    ensures Tally(es + more, reason) == Tally(es, reason) + Tally(more, reason)
    decreases |more|
  {
    if more == multiset{} {
      assert es + more == es;
    } else {
      var e :| e in more;
      TallyWithout(es + more, e, reason);
      TallyWithout(more, e, reason);
      assert es + more - multiset{e} == es + (more - multiset{e});
      TallyOfBoth(es, more - multiset{e}, reason);
    }
  }

  lemma {:induction false} TallyOfOne(e: Envelope, reason: Reason)
    ensures Tally(multiset{e}, reason) == Ones(ReachesBuilder(e, reason))
  {
    TallyWithout(multiset{e}, e, reason);
    assert multiset{e} - multiset{e} == multiset{};
  }

  lemma {:induction false} TallyOfQuiet(es: multiset<Envelope>, reason: Reason)
    requires Quiet(es)
    ensures Tally(es, reason) == 0
    decreases |es|
  {
    if es != multiset{} {
      var e :| e in es;
      TallyWithout(es, e, reason);
      TallyOfQuiet(es - multiset{e}, reason);
    }
  }

  lemma {:induction false} TallyIsPositive(es: multiset<Envelope>, e: Envelope, reason: Reason)
    requires e in es && ReachesBuilder(e, reason)
    ensures Tally(es, reason) > 0
  {
    TallyWithout(es, e, reason);
  }

  lemma {:induction false} TallyIsZero(es: multiset<Envelope>, reason: Reason)
    requires forall e :: e in es ==> !ReachesBuilder(e, reason)
    ensures Tally(es, reason) == 0
    decreases |es|
  {
    if es != multiset{} {
      var e :| e in es;
      TallyWithout(es, e, reason);
      TallyIsZero(es - multiset{e}, reason);
    }
  }

  // ----- the invariant

  /** What the orchestrator is told. */
  function Report(reason: Reason): Envelope {
    Envelope(Builder, Orchestrator, BenchmarkFailure(reason))
  }

  predicate OfNode(reason: Reason) {
    reason == StartFailed || reason == StopFailed
  }

  function Sent(w: World): multiset<Envelope> {
    if w.cycles == [] then multiset{} else w.cycles[|w.cycles| - 1].sent
  }

  /** In the current cycle as many failures were passed on to the orchestrator as were sent to the builder, less those
      still on their way. */
  ghost predicate PassedOn(w: World) {
    forall reason :: OfNode(reason) ==> Sent(w)[Report(reason)] + Tally(w.net, reason) == Tally(Sent(w), reason)
  }

  /** A start without hosts is refused once its message is delivered. */
  ghost predicate Refused(w: World) {
    w.cycles != [] && Hosts(w) == [] ==>
      Envelope(Orchestrator, Builder, StartEngine([])) in w.net || Report(LaunchError) in Sent(w)
  }

  lemma {:induction false} SentAfter(w: World, src: Address, posts: seq<Post>)
    requires w.cycles != []
    ensures Sent(Send(w, src, posts)) == Sent(w) + multiset(Envelopes(src, posts))
    ensures Send(w, src, posts).net == w.net + multiset(Envelopes(src, posts))
    ensures Hosts(Send(w, src, posts)) == Hosts(w) && Send(w, src, posts).cycles != []
  {
  }

  /** Sending anything but reports keeps the count. */
  lemma {:induction false} CountAfter(w: World, src: Address, posts: seq<Post>)
    requires w.cycles != [] && PassedOn(w)
    requires src != Builder || forall i, reason :: 0 <= i < |posts| && OfNode(reason) ==>
                                   posts[i] != Post(Orchestrator, BenchmarkFailure(reason))
    ensures PassedOn(Send(w, src, posts))
  {
    var es := multiset(Envelopes(src, posts));
    SentAfter(w, src, posts);
    forall reason, i | OfNode(reason) && 0 <= i < |posts| ensures Envelopes(src, posts)[i] != Report(reason) {
    }
    forall reason | OfNode(reason)
      ensures Sent(Send(w, src, posts))[Report(reason)] + Tally(Send(w, src, posts).net, reason)
              == Tally(Sent(Send(w, src, posts)), reason)
    {
      TallyOfBoth(w.net, es, reason);
      TallyOfBoth(Sent(w), es, reason);
      assert Report(reason) !in Envelopes(src, posts);
    }
  }

  /** Taking anything but a failure for the builder keeps it, too. */
  lemma {:induction false} CountTaken(w: World, e: Envelope)
    requires PassedOn(w) && e in w.net
    requires e.dst != Builder || !e.msg.BenchmarkFailure?
    ensures PassedOn(Taken(w, e))
  {
    forall reason | OfNode(reason) ensures Tally(w.net, reason) == Tally(Taken(w, e).net, reason) {
      TallyWithout(w.net, e, reason);
    }
    assert Sent(Taken(w, e)) == Sent(w);
  }

  lemma {:induction false} SameCount(w: World, w': World)
    requires PassedOn(w) && w'.net == w.net && w'.cycles == w.cycles
    ensures PassedOn(w')
  {
  }

  /** A failure that is taken and reported. */
  lemma {:induction false} CountReported(w: World, w': World, e: Envelope)
    requires w.cycles != [] && PassedOn(w) && e in w.net && e.dst == Builder && e.msg.BenchmarkFailure?
    requires w'.net == w.net - multiset{e} + multiset{Report(e.msg.reason)}
    requires Sent(w') == Sent(w) + multiset{Report(e.msg.reason)}
    ensures PassedOn(w')
  {
    var report := Report(e.msg.reason);
    forall reason | OfNode(reason) ensures Sent(w')[Report(reason)] + Tally(w'.net, reason) == Tally(Sent(w'), reason) {
      TallyWithout(w.net, e, reason);
      TallyOfBoth(w.net - multiset{e}, multiset{report}, reason);
      TallyOfBoth(Sent(w), multiset{report}, reason);
      TallyOfOne(report, reason);
    }
  }

  /** Besides a failure that it passes on, the builder sends no failure of a node. */
  lemma {:induction false} BuilderReports(b: B.State, src: Address, msg: Message, dispatcher: Address, reason: Reason)
    requires OfNode(reason)
    ensures var report := Post(Orchestrator, BenchmarkFailure(reason));
            && (msg.StartEngine? ==> report !in B.OnStartEngine(b, msg.hosts, src, dispatcher).1)
            && report !in B.OnNodesStarted(b, src).1 && report !in B.OnStopEngine(b).1
            && report !in B.OnNodesStopped(b, src).1
  {
    hide B.OnNodesStarted, B.OnStopEngine, B.OnNodesStopped;
    BuilderIsQuiet(b, src, msg, dispatcher);
  }

  lemma {:induction false} BuilderPassesOn(w: World, e: Envelope, k: Control, st: seq<Stage>, known: seq<Address>)
    requires Inv(w, k, st, known) && PassedOn(w) && e in w.net && w.cycles != [] && e.dst == Builder
    ensures PassedOn(AtBuilder(Taken(w, e), e.src, e.msg))
  {
    if e.msg.BenchmarkFailure? {
      ReportIsCounted(w, e, k, st, known);
    } else {
      hide Inv, PassedOn, Send, B.OnStartEngine, B.OnNodesStarted, B.OnStopEngine, B.OnNodesStopped;
      var w1, dispatcher := Taken(w, e), Dispatcher(|w.cycles|);
      CountTaken(w, e);
      forall reason | OfNode(reason) {
        BuilderReports(w.builder, e.src, e.msg, dispatcher, reason);
      }
      match e.msg
      case StartEngine(hosts) =>
        var (b, posts) := B.OnStartEngine(w.builder, hosts, e.src, dispatcher);
        BuilderCount(w1, b, posts);
      case NodesStarted =>
        var (b, posts) := B.OnNodesStarted(w.builder, e.src);
        BuilderCount(w1, b, posts);
      case StopEngine =>
        var (b, posts) := B.OnStopEngine(w.builder);
        BuilderCount(w1, b, posts);
      case NodesStopped =>
        var (b, posts) := B.OnNodesStopped(w.builder, e.src);
        BuilderCount(w1, b, posts);
      case _ =>
    }
  }

  lemma {:induction false} ReportIsCounted(w: World, e: Envelope, k: Control, st: seq<Stage>, known: seq<Address>)
    requires Inv(w, k, st, known) && PassedOn(w) && e in w.net && w.cycles != []
    requires e.dst == Builder && e.msg.BenchmarkFailure?
    ensures PassedOn(AtBuilder(Taken(w, e), e.src, e.msg))
  {
    hide NetInv, LogInv, PastSafe, BuilderInv, KnownInv, StageInv, PassedOn, Send;
    var w1 := Taken(w, e);
    var w2 := AtBuilder(w1, e.src, e.msg);
    var posts := [Post(Orchestrator, e.msg)];
    assert w2 == Send(w1, Builder, posts);
    SentAfter(w1, Builder, posts);
    assert Envelopes(Builder, posts) == [Report(e.msg.reason)];
    assert multiset([Report(e.msg.reason)]) == multiset{Report(e.msg.reason)};
    CountReported(w, w2, e);
  }

  lemma {:induction false} BuilderCount(w: World, b: B.State, posts: seq<Post>)
    requires w.cycles != [] && PassedOn(w)
    requires forall reason :: OfNode(reason) ==> Post(Orchestrator, BenchmarkFailure(reason)) !in posts
    ensures PassedOn(Send(w.(builder := b), Builder, posts))
  {
    SameCount(w, w.(builder := b));
    hide PassedOn, Send;
    CountAfter(w.(builder := b), Builder, posts);
  }

  lemma {:induction false} OthersKeepCount(w: World, e: Envelope, luck: Luck)
    requires PassedOn(w) && e in w.net && w.cycles != [] && e.dst != Builder
    ensures PassedOn(Do(w, Deliver(e, luck)))
  {
    hide PassedOn, Send, D.OnStartEngine;
    CountTaken(w, e);
    var w1 := Taken(w, e);
    match e.dst
    case Orchestrator => SameCount(w1, AtOrchestrator(w1, e.msg));
    case Dispatcher(cycle) =>
      match e.msg {
        case StartEngine(hosts) =>
          var (d, posts) := D.OnStartEngine(cycle, hosts, e.src);
          SameCount(w1, w1.(dispatcher := Some(d)));
          CountAfter(w1.(dispatcher := Some(d)), e.dst, posts);
        case BenchmarkFailure(_) =>
          if w1.dispatcher.Some? {
            CountAfter(w1, e.dst, [Post(w1.dispatcher.value.startSender, e.msg)]);
          }
        case _ =>
      }
    case Node(_, _) => NodeKeepsCount(w1, e.dst, e.src, e.msg, luck);
  }

  lemma {:induction false} NodeKeepsCount(w: World, me: Address, src: Address, msg: Message, luck: Luck)
    requires PassedOn(w) && w.cycles != [] && me.Node?
    ensures PassedOn(AtNode(w, me, src, msg, luck))
  {
    hide PassedOn, Send;
    match msg
    case StartNodes(_, _, replyTo) =>
      var w1 := w.(running := if luck == FailsBeforeLaunch then w.running else w.running + {me});
      SameCount(w, w1);
      CountAfter(w1, me, [Post(replyTo, if luck == Succeeds then NodesStarted else BenchmarkFailure(StartFailed))]);
    case StopNodes =>
      var w1 := w.(running := w.running - {me});
      SameCount(w, w1);
      CountAfter(w1, me, [Post(src, NodesStopped)]);
      CountAfter(w, me, [Post(src, BenchmarkFailure(StopFailed))]);
    case ActorExitRequest => SameCount(w, w.(running := w.running - {me}));
    case BenchmarkFailure(_) => CountAfter(w, me, [Post(src, msg)]);
    case _ =>
  }

  /** A new cycle begins when nothing has failed in the one before. */
  lemma {:induction false} StartKeepsCount(w: World, hosts: seq<IpPort>, k: Control, st: seq<Stage>,
                                           known: seq<Address>)
    requires Inv(w, k, st, known) && Caused(w) && Enabled(w, Start(hosts))
    ensures PassedOn(Do(w, Start(hosts))) && Refused(Do(w, Start(hosts)))
  {
    hide NetInv, LogInv, PastSafe, BuilderInv, KnownInv, CycleSafe;
    if w.cycles != [] {
      NoFailureWhenGone(w.cycles[|w.cycles| - 1].sent, |w.cycles|, k, st);
    }
    assert !HasCause(w);
    assert Quiet(w.net);
    var w1 := w.(orchestrator := AwaitStarted, cycles := w.cycles + [Cycle(hosts, multiset{})]);
    forall reason | OfNode(reason)
      ensures Sent(w1)[Report(reason)] + Tally(w1.net, reason) == Tally(Sent(w1), reason)
    {
      TallyOfQuiet(w.net, reason);
      TallyOfQuiet(multiset{}, reason);
    }
    var posts := [Post(Builder, StartEngine(hosts))];
    CountAfter(w1, Orchestrator, posts);
    SentAfter(w1, Orchestrator, posts);
    assert Envelopes(Orchestrator, posts)[0] == Envelope(Orchestrator, Builder, StartEngine(hosts));
  }

  lemma {:induction false} StepPassesOn(w: World, step: Step, k: Control, st: seq<Stage>, known: seq<Address>)
    requires Inv(w, k, st, known) && Caused(w) && PassedOn(w) && Enabled(w, step)
    ensures PassedOn(Do(w, step))
  {
    hide Inv, Caused, PassedOn, Send, AtBuilder, AtOrchestrator, AtDispatcher, AtNode, D.OnRemoteAdded;
    match step
    case Start(hosts) => StartKeepsCount(w, hosts, k, st, known);
    case Stop =>
      SameCount(w, w.(orchestrator := AwaitStopped));
      CountAfter(w.(orchestrator := AwaitStopped), Orchestrator, [Post(Builder, StopEngine)]);
    case RemoteAdded(ip) =>
      var (d, posts) := D.OnRemoteAdded(w.dispatcher.value, ip);
      SameCount(w, w.(dispatcher := Some(d)));
      CountAfter(w.(dispatcher := Some(d)), Dispatcher(d.cycle), posts);
    case RemoteRemoved(_) =>
    case Deliver(e, luck) =>
      if e.dst == Builder {
        BuilderPassesOn(w, e, k, st, known);
      } else {
        OthersKeepCount(w, e, luck);
      }
  }

  // ----- starts without hosts

  /** The same cycle, in which more may have been sent. */
  ghost predicate Later(w: World, w': World) {
    && w.cycles != [] && |w'.cycles| == |w.cycles| && Hosts(w') == Hosts(w)
    && Sent(w) <= Sent(w') && w.net <= w'.net
  }

  lemma {:induction false} LaterBySending(w: World, w1: World, src: Address, posts: seq<Post>)
    requires w.cycles != [] && w1.net == w.net && w1.cycles == w.cycles
    ensures Later(w, w1) && Later(w, Send(w1, src, posts))
  {
  }

  lemma {:induction false} LaterAtBuilder(w: World, src: Address, msg: Message)
    requires w.cycles != []
    ensures Later(w, AtBuilder(w, src, msg))
  {
    hide Send, Later, B.OnStartEngine, B.OnNodesStarted, B.OnStopEngine, B.OnNodesStopped, B.OnFailure;
    var (b, posts) :=
      match msg
      case StartEngine(hosts) => B.OnStartEngine(w.builder, hosts, src, Dispatcher(|w.cycles|))
      case NodesStarted => B.OnNodesStarted(w.builder, src)
      case StopEngine => B.OnStopEngine(w.builder)
      case NodesStopped => B.OnNodesStopped(w.builder, src)
      case BenchmarkFailure(reason) => B.OnFailure(w.builder, reason)
      case _ => (w.builder, []);
    LaterBySending(w, w.(builder := b), Builder, posts);
  }

  lemma {:induction false} LaterAtDispatcher(w: World, me: Address, src: Address, msg: Message)
    requires w.cycles != [] && me.Dispatcher?
    ensures Later(w, AtDispatcher(w, me, src, msg))
  {
    hide Send, Later, D.OnStartEngine;
    LaterBySending(w, w, me, []);
    match msg
    case StartEngine(hosts) =>
      var (d, posts) := D.OnStartEngine(me.cycle, hosts, src);
      LaterBySending(w, w.(dispatcher := Some(d)), me, posts);
    case BenchmarkFailure(_) =>
      if w.dispatcher.Some? {
        LaterBySending(w, w, me, [Post(w.dispatcher.value.startSender, msg)]);
      }
    case _ =>
  }

  lemma {:induction false} LaterAtNode(w: World, me: Address, src: Address, msg: Message, luck: Luck)
    requires w.cycles != []
    ensures Later(w, AtNode(w, me, src, msg, luck))
  {
    hide Send, Later;
    LaterBySending(w, w, me, [Post(src, BenchmarkFailure(StopFailed))]);
    match msg
    case StartNodes(_, _, replyTo) =>
      var running := if luck == FailsBeforeLaunch then w.running else w.running + {me};
      LaterBySending(w, w.(running := running), me,
        [Post(replyTo, if luck == Succeeds then NodesStarted else BenchmarkFailure(StartFailed))]);
    case StopNodes => LaterBySending(w, w.(running := w.running - {me}), me, [Post(src, NodesStopped)]);
    case ActorExitRequest => LaterBySending(w, w.(running := w.running - {me}), me, []);
    case BenchmarkFailure(_) => LaterBySending(w, w, me, [Post(src, msg)]);
    case _ =>
  }

  lemma {:induction false} OnlySends(w: World, step: Step)
    requires Enabled(w, step) && !step.Start?
    ensures Later(if step.Deliver? then Taken(w, step.e) else w, Do(w, step))
  {
    hide Send, Later, AtOrchestrator, AtBuilder, AtDispatcher, AtNode, D.OnRemoteAdded;
    match step
    case Stop => LaterBySending(w, w.(orchestrator := AwaitStopped), Orchestrator, [Post(Builder, StopEngine)]);
    case RemoteAdded(ip) =>
      var (d, posts) := D.OnRemoteAdded(w.dispatcher.value, ip);
      LaterBySending(w, w.(dispatcher := Some(d)), Dispatcher(d.cycle), posts);
    case RemoteRemoved(_) => LaterBySending(w, w, Builder, []);
    case Deliver(e, luck) =>
      var w1 := Taken(w, e);
      match e.dst
      case Orchestrator => LaterBySending(w1, AtOrchestrator(w1, e.msg), Builder, []) by {
        SameMessages(w1, e.msg);
      }
      case Builder => LaterAtBuilder(w1, e.src, e.msg);
      case Dispatcher(_) => LaterAtDispatcher(w1, e.dst, e.src, e.msg);
      case Node(_, _) => LaterAtNode(w1, e.dst, e.src, e.msg, luck);
  }

  lemma {:induction false} SameMessages(w: World, msg: Message)
    ensures AtOrchestrator(w, msg).net == w.net && AtOrchestrator(w, msg).cycles == w.cycles
  {
  }

  lemma {:induction false} StepRefuses(w: World, step: Step)
    requires Refused(w) && Enabled(w, step) && !step.Start?
    ensures Refused(Do(w, step))
  {
    hide Do;
    OnlySends(w, step);
    var start := Envelope(Orchestrator, Builder, StartEngine([]));
    if step.Deliver? && step.e == start {
      StartIsRefused(w, step.luck);
    }
  }

  lemma {:induction false} StartIsRefused(w: World, luck: Luck)
    requires Enabled(w, Deliver(Envelope(Orchestrator, Builder, StartEngine([])), luck))
    ensures Report(LaunchError) in Sent(Do(w, Deliver(Envelope(Orchestrator, Builder, StartEngine([])), luck)))
  {
    var w1 := Taken(w, Envelope(Orchestrator, Builder, StartEngine([])));
    var (b, posts) := B.OnStartEngine(w.builder, [], Orchestrator, Dispatcher(|w.cycles|));
    SentAfter(w1.(builder := b), Builder, posts);
    assert Envelopes(Builder, posts)[0] == Report(LaunchError);
  }

  // ----- the theorems

  /** In every run, the builder passes on every failure that it is sent, and refuses a start without hosts. */
  lemma {:induction false} FailuresArePassedOn(steps: seq<Step>, w: World)
    requires Reaches(Init, steps, w)
    ensures PassedOn(w) && Refused(w)
    decreases |steps|
  {
    if steps == [] {
      forall reason {
        TallyOfQuiet(multiset{}, reason);
      }
    } else {
      hide Inv, Do, Caused, PassedOn, Refused;
      var n := |steps| - 1;
      var mid :| Reaches(Init, steps[..n], mid) && Enabled(mid, steps[n]) && Do(mid, steps[n]) == w;
      FailuresArePassedOn(steps[..n], mid);
      FailuresHaveCauses(steps[..n], mid);
      var k, st, known := ReachableInv(steps[..n], mid);
      StepPassesOn(mid, steps[n], k, st, known);
      if steps[n].Start? {
        StartKeepsCount(mid, steps[n].hosts, k, st, known);
      } else {
        StepRefuses(mid, steps[n]);
      }
    }
  }

  /** At rest, with no message left for the builder either. */
  ghost predicate BuilderAtRest(w: World) {
    AtRest(w) && forall e :: e in w.net ==> e.dst != Builder
  }

  lemma {:induction false} FailureIsReported(w: World, e: Envelope, reason: Reason)
    requires PassedOn(w) && BuilderAtRest(w) && OfNode(reason) && e in Sent(w) && ReachesBuilder(e, reason)
    ensures Report(reason) in Sent(w)
  {
    TallyIsPositive(Sent(w), e, reason);
    TallyIsZero(w.net, reason);
  }

  /** Every start is answered: when it has come to rest, with all machines checked in, and the engine is not up, then
      the orchestrator has been sent a failure, and which one. */
  lemma {:induction false} StartIsAnswered(steps: seq<Step>, w: World)
    requires Reaches(Init, steps, w) && w.orchestrator == AwaitStarted && BuilderAtRest(w)
    requires w.dispatcher.Some? ==> w.dispatcher.value.remotes == map[]
    ensures Report(if Hosts(w) == [] then LaunchError else StartFailed) in Sent(w)
  {
    FailuresArePassedOn(steps, w);
    StartGetsThrough(steps, w);
    hide Reaches, PassedOn;
    if Hosts(w) != [] {
      var i: nat :| StartFailure(|w.cycles|, i) in w.cycles[|w.cycles| - 1].sent;
      FailureIsReported(w, StartFailure(|w.cycles|, i), StartFailed);
    }
  }

  /** So is every stop. */
  lemma {:induction false} StopIsAnswered(steps: seq<Step>, w: World)
    requires Reaches(Init, steps, w) && w.orchestrator == AwaitStopped && BuilderAtRest(w)
    ensures Report(StopFailed) in Sent(w)
  {
    FailuresArePassedOn(steps, w);
    StopGetsThrough(steps, w);
    hide Reaches, PassedOn;
    var i: nat :| StopFailure(|w.cycles|, i) in w.cycles[|w.cycles| - 1].sent;
    FailureIsReported(w, StopFailure(|w.cycles|, i), StopFailed);
  }
}
