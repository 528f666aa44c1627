/** Why every start/stop cycle is safe: an inductive invariant over builder, dispatcher, node actors and network. */
module EngineSafety {
  import opened HostTable
  import opened Messages
  import opened Wrappers
  import opened EngineProtocol
  import B = Builder
  import D = Dispatcher

  // ----- the invariant: where the current cycle stands, and where each of its node actors stands

  datatype Control =
    | Idle | Requested | Dispatching | Launching | Announcing | Running | Recalling | Stopping | Reporting | Aborted

  datatype Stage =
    | Waiting | Asked(msg: Message) | Answered | Failed | Joined
    | Recalled | Stuck | Left | Gone

  /** The messages that wait in the network, as a function of the stages. */
  predicate InFlight(e: Envelope, c: nat, hosts: seq<IpPort>, k: Control, st: seq<Stage>) {
    match e.msg
    case StartEngine(h) =>
      h == hosts && if e.dst == Builder then k == Requested && e.src == Orchestrator
                    else k == Dispatching && e.src == Builder && e.dst == Dispatcher(c)
    case EngineStarted => k == Announcing && e == EngineUp
    case StopEngine => k == Recalling && e.src == Orchestrator && e.dst == Builder
    case EngineStopped => k == Reporting && e == EngineDown
    case StartNodes(_, _, _) =>
      e.src == Dispatcher(c) && e.dst.Node? && e.dst.cycle == c && e.dst.index < |st| && st[e.dst.index] == Asked(e.msg)
    case NodesStarted =>
      e.dst == Builder && e.src.Node? && e.src.cycle == c && e.src.index < |st| && st[e.src.index] == Answered
    case StopNodes =>
      e.src == Builder && e.dst.Node? && e.dst.cycle == c && e.dst.index < |st| && st[e.dst.index] == Recalled
    case NodesStopped =>
      e.dst == Builder && e.src.Node? && e.src.cycle == c && e.src.index < |st| && st[e.src.index] == Left
    case ActorExitRequest => false
    case BenchmarkFailure(_) => false
  }

  predicate Tracked(e: Envelope) {
    !e.msg.ActorExitRequest? && !e.msg.BenchmarkFailure?
  }

  ghost predicate NetInv(net: multiset<Envelope>, c: nat, hosts: seq<IpPort>, k: Control, st: seq<Stage>) {
    && (forall e :: Tracked(e) ==> net[e] == Ones(InFlight(e, c, hosts, k, st)))
    && (forall e :: e in net && e.msg.BenchmarkFailure? ==>
        e.dst in {Orchestrator, Builder} && e.msg.reason != Rejected)
    && (forall e :: e in net && e.msg.StartNodes? ==> e.msg.replyTo == Builder)
  }

  /** The messages of the current cycle that the safety property speaks about. */
  predicate Recorded(e: Envelope) {
    match e.msg
    case EngineStarted | EngineStopped | NodesStarted | StopNodes | NodesStopped => true
    case BenchmarkFailure(reason) => reason == Rejected || (e.src.Node? && e.dst == Builder)
    case _ => false
  }

  predicate Logged(e: Envelope, c: nat, k: Control, st: seq<Stage>) {
    match e.msg
    case EngineStarted => e == EngineUp && k in {Announcing, Running, Recalling, Stopping, Reporting, Idle} && c > 0
    case EngineStopped => e == EngineDown && k in {Reporting, Idle} && c > 0
    case NodesStarted =>
      e.dst == Builder && e.src.Node? && e.src.cycle == c && e.src.index < |st|
      && (HasJoined(st[e.src.index]) || st[e.src.index] == Answered)
    case StopNodes =>
      e.src == Builder && e.dst.Node? && e.dst.cycle == c && e.dst.index < |st|
      && (var s := st[e.dst.index]; s.Recalled? || s.Stuck? || s.Left? || s.Gone?)
    case NodesStopped =>
      e.dst == Builder && e.src.Node? && e.src.cycle == c && e.src.index < |st|
      && (var s := st[e.src.index]; s.Left? || s.Gone?)
    case BenchmarkFailure(_) =>
      e.dst == Builder && e.src.Node? && e.src.cycle == c && e.src.index < |st|
      && ((e.msg.reason == StartFailed && st[e.src.index] == Failed)
        || (e.msg.reason == StopFailed && st[e.src.index] == Stuck))
    case _ => false
  }

  ghost predicate LogInv(sent: multiset<Envelope>, c: nat, k: Control, st: seq<Stage>) {
    forall e :: Recorded(e) ==> sent[e] == Ones(Logged(e, c, k, st))
  }

  function Count(st: seq<Stage>, s: Stage): nat {
    if st == [] then 0 else Count(st[..|st| - 1], s) + if st[|st| - 1] == s then 1 else 0
  }

  ghost predicate AllIn(st: seq<Stage>, stages: set<Stage>) {
    forall i :: 0 <= i < |st| ==> st[i] in stages
  }

  /** `known` lists the node actors that have joined, each once. */
  ghost predicate KnownInv(known: seq<Address>, c: nat, st: seq<Stage>) {
    && Distinct(known)
    && (forall a :: a in known ==> a.Node? && a.cycle == c && a.index < |st| && HasJoined(st[a.index]))
    && (forall i :: 0 <= i < |st| && HasJoined(st[i]) ==> Node(c, i) in known)
  }

  predicate HasJoined(s: Stage) {
    !s.Waiting? && !s.Asked? && !s.Answered? && !s.Failed?
  }

  ghost predicate BuilderInv(b: B.State, c: nat, hosts: seq<IpPort>, k: Control, st: seq<Stage>, known: seq<Address>) {
    var n := |Keys(hosts)|;
    match k
    case Idle | Requested => b.children == [] && b.responses == []
    case Aborted => true
    case Dispatching | Launching =>
      && n > 0 && b.status == B.Starting && |known| < n && |known| == Count(st, Joined)
        && b.children == B.Slots(known, n) && |b.responses| == |known|
    case Announcing | Running | Recalling =>
      && n > 0 && |known| == n && b.children == B.Slots(known, n) && b.responses == []
    case Stopping =>
      && n > 0 && b.status == B.ClusterStopping && |known| == n && b.children == B.Slots(known, n)
        && |b.responses| == Count(st, Gone) < n
    case Reporting => b.children == [] && b.responses == []
  }

  ghost predicate StageInv(d: Option<D.State>, c: nat, hosts: seq<IpPort>, k: Control, st: seq<Stage>) {
    var n := |Keys(hosts)|;
    match k
    case Idle => (c == 0 && st == []) || (|st| == n && AllIn(st, {Gone}))
    case Requested => st == []
    case Aborted => st == [] && hosts == []
    case Dispatching => |st| == n && AllIn(st, {Waiting})
    case Launching =>
      && |st| == n && d.Some?
      && if d.value.remotes != map[] then
           AllIn(st, {Waiting}) && Collecting(d.value, c, hosts)
         else
           D.Finished(d.value, c, hosts, Builder)
           && forall i :: 0 <= i < n ==> (st[i].Asked? && st[i].msg.StartNodes?) || st[i] in {Answered, Failed, Joined}
    case Announcing | Running | Recalling => |st| == n && AllIn(st, {Joined}) && DispatcherDone(d)
    case Stopping => |st| == n && AllIn(st, {Recalled, Stuck, Left, Gone}) && DispatcherDone(d)
    case Reporting => |st| == n && AllIn(st, {Gone}) && DispatcherDone(d)
  }

  ghost predicate Collecting(d: D.State, c: nat, hosts: seq<IpPort>) {
    exists done :: D.Waiting(d, c, hosts, Builder, done)
  }

  /** A dispatcher with nothing left to send, whatever cycle it belongs to. */
  ghost predicate DispatcherDone(d: Option<D.State>) {
    d.Some? ==> d.value.remotes == map[] && d.value.pending == []
  }

  ghost predicate OrchestratorInv(phase: OrchestratorPhase, k: Control) {
    match phase
    case Ready => k == Idle
    case AwaitStarted => k in {Requested, Dispatching, Launching, Announcing, Aborted}
    case Up => k == Running
    case AwaitStopped => k in {Recalling, Stopping, Reporting}
  }

  function Hosts(w: World): seq<IpPort> {
    if w.cycles == [] then [] else w.cycles[|w.cycles| - 1].hosts
  }

  /** What holds of the actors. */
  ghost predicate ActorInv(w: World, k: Control, st: seq<Stage>, known: seq<Address>) {
    var c, hosts := |w.cycles|, Hosts(w);
    && (c == 0 ==> k == Idle)
    && w.builder.orchestrator == Orchestrator
    && (k in {Idle, Requested, Dispatching, Aborted} ==> DispatcherDone(w.dispatcher))
    && OrchestratorInv(w.orchestrator, k)
    && BuilderInv(w.builder, c, hosts, k, st, known)
    && KnownInv(known, c, st)
    && StageInv(w.dispatcher, c, hosts, k, st)
  }

  /** What holds of the messages. */
  ghost predicate TraceInv(w: World, k: Control, st: seq<Stage>) {
    var c := |w.cycles|;
    && NetInv(w.net, c, Hosts(w), k, st)
    && (c > 0 ==> LogInv(w.cycles[c - 1].sent, c, k, st))
    && PastSafe(w.cycles, c - 1)
  }

  ghost predicate Inv(w: World, k: Control, st: seq<Stage>, known: seq<Address>) {
    ActorInv(w, k, st, known) && TraceInv(w, k, st)
  }

  ghost predicate PastSafe(cycles: seq<Cycle>, n: int)
    requires n <= |cycles|
  {
    forall j :: 0 <= j < n ==> CycleSafe(cycles[j], j + 1)
  }

  // ----- small facts

  lemma {:induction false} CountUpdate(st: seq<Stage>, i: nat, s: Stage, x: Stage)
    requires i < |st|
    ensures Count(st[i := x], s) == Count(st, s) - (if st[i] == s then 1 else 0) + (if x == s then 1 else 0)
  {
    var n := |st| - 1;
    if i == n {
      assert st[i := x][..n] == st[..n];
    } else {
      assert st[i := x][..n] == st[..n][i := x];
      CountUpdate(st[..n], i, s, x);
    }
  }

  lemma {:induction false} CountBounds(st: seq<Stage>, s: Stage)
    ensures Count(st, s) <= |st|
    ensures Count(st, s) == |st| <==> AllIn(st, {s})
    ensures (forall i :: 0 <= i < |st| ==> st[i] != s) ==> Count(st, s) == 0
  {
    if st != [] {
      CountBounds(st[..|st| - 1], s);
    }
  }

  lemma {:induction false} SendNone(w: World, src: Address)
    requires w.cycles != []
    ensures Send(w, src, []) == w
  {
    assert Envelopes(src, []) == [];
    var last := |w.cycles| - 1;
    assert w.cycles[last].sent + multiset{} == w.cycles[last].sent && w.net + multiset{} == w.net;
    assert w.cycles[last := w.cycles[last]] == w.cycles;
  }

  /** What the log shows is safe, given that the announcements come when all nodes have joined or gone. */
  lemma {:induction false} LogIsSafe(cycle: Cycle, c: nat, k: Control, st: seq<Stage>)
    requires c > 0 && LogInv(cycle.sent, c, k, st)
    requires k in {Announcing, Running, Recalling, Stopping, Reporting, Idle} ==>
               |st| == |Keys(cycle.hosts)| && forall i :: 0 <= i < |st| ==> HasJoined(st[i])
    requires k in {Reporting, Idle} ==> AllIn(st, {Gone})
    requires k !in {Stopping, Reporting, Idle} ==>
               forall i :: 0 <= i < |st| ==> !(st[i] in {Recalled, Stuck, Left, Gone})
    ensures CycleSafe(cycle, c)
  {
    var n, sent := |Keys(cycle.hosts)|, cycle.sent;
    assert Recorded(EngineUp) && Recorded(EngineDown);
    if EngineUp in sent {
      forall i | 0 <= i < n ensures sent[Started(c, i)] == 1 && StartFailure(c, i) !in sent {
        assert Recorded(Started(c, i)) && Recorded(StartFailure(c, i));
      }
    }
    if EngineDown in sent {
      forall i | 0 <= i < n ensures sent[Recall(c, i)] == 1 && sent[Stopped(c, i)] == 1 {
        assert Recorded(Recall(c, i)) && Recorded(Stopped(c, i));
      }
    }
    forall e | e in sent && e.msg == StopNodes
      ensures sent[e] == 1 && e.src == Builder && EngineUp in sent && exists i :: 0 <= i < n && e == Recall(c, i)
    {
      assert Recorded(e);
      assert e == Recall(c, e.dst.index);
    }
    forall e | e in sent ensures e.msg != BenchmarkFailure(Rejected) {
      assert e.msg == BenchmarkFailure(Rejected) ==> Recorded(e) && !Logged(e, c, k, st);
    }
  }

  /** The current cycle is safe wherever it stands. */
  lemma {:induction false} CurrentCycleSafe(w: World, k: Control, st: seq<Stage>, known: seq<Address>)
    requires Inv(w, k, st, known) && w.cycles != []
    ensures CycleSafe(w.cycles[|w.cycles| - 1], |w.cycles|)
  {
    hide NetInv, LogInv, PastSafe, CycleSafe, KnownInv, B.Slots;
    LogIsSafe(w.cycles[|w.cycles| - 1], |w.cycles|, k, st);
  }

  // ----- every step keeps the invariant

  function Ones(b: bool): nat {
    if b then 1 else 0
  }

  lemma {:induction false} PastChange(cycles: seq<Cycle>, cycle: Cycle)
    requires cycles != [] && PastSafe(cycles, |cycles| - 1)
    ensures PastSafe(cycles[|cycles| - 1 := cycle], |cycles| - 1)
  {
    var n := |cycles| - 1;
  }

  /** Sending keeps the books if the network and the log match the new stages. */
  lemma {:induction false} TraceAfter(w: World, src: Address, posts: seq<Post>, es: seq<Envelope>, k: Control,
                                      st: seq<Stage>)
    requires w.cycles != [] && Envelopes(src, posts) == es
    requires NetInv(w.net + multiset(es), |w.cycles|, Hosts(w), k, st)
    requires LogInv(w.cycles[|w.cycles| - 1].sent + multiset(es), |w.cycles|, k, st)
    requires PastSafe(w.cycles, |w.cycles| - 1)
    ensures TraceInv(Send(w, src, posts), k, st)
  {
    hide NetInv, LogInv, PastSafe, CycleSafe;
    var cycle := w.cycles[|w.cycles| - 1];
    PastChange(w.cycles, cycle.(sent := cycle.sent + multiset(es)));
  }

  lemma {:induction false} StartNet(net: multiset<Envelope>, c: nat, old_hosts: seq<IpPort>, st: seq<Stage>,
                                    e: Envelope, hosts: seq<IpPort>)
    requires NetInv(net, c, old_hosts, Idle, st) && AllIn(st, {Gone})
    requires e == Envelope(Orchestrator, Builder, StartEngine(hosts))
    ensures NetInv(net + multiset{e}, c + 1, hosts, Requested, [])
  {
  }

  lemma {:induction false} StartLog(e: Envelope, c: nat)
    requires e.msg.StartEngine?
    ensures LogInv(multiset{e}, c, Requested, [])
  {
  }

  lemma {:induction false} OneMore(cycles: seq<Cycle>, cycle: Cycle)
    requires PastSafe(cycles, |cycles| - 1)
    requires cycles != [] ==> CycleSafe(cycles[|cycles| - 1], |cycles|)
    ensures PastSafe(cycles + [cycle], |cycles|)
  {
  }

  lemma {:induction false} StartTrace(w: World, hosts: seq<IpPort>, k: Control, st: seq<Stage>, known: seq<Address>)
    requires Inv(w, k, st, known) && Enabled(w, Start(hosts))
    ensures TraceInv(Do(w, Start(hosts)), Requested, [])
  {
    hide NetInv, LogInv, PastSafe, CycleSafe;
    var c := |w.cycles|;
    var e := Envelope(Orchestrator, Builder, StartEngine(hosts));
    assert Envelopes(Orchestrator, [Post(Builder, StartEngine(hosts))]) == [e];
    var w' := Do(w, Start(hosts));
    assert multiset{} + multiset{e} == multiset{e};
    assert w'.cycles[c] == Cycle(hosts, multiset{e});
    assert w'.cycles == w.cycles + [Cycle(hosts, multiset{e})];
    StartNet(w.net, c, Hosts(w), st, e, hosts);
    if c > 0 {
      CurrentCycleSafe(w, k, st, known);
    }
    StartLog(e, c + 1);
    OneMore(w.cycles, Cycle(hosts, multiset{e}));
  }

  lemma {:induction false} StopNet(net: multiset<Envelope>, c: nat, hosts: seq<IpPort>, st: seq<Stage>, e: Envelope)
    requires NetInv(net, c, hosts, Running, st) && e == Envelope(Orchestrator, Builder, StopEngine)
    ensures NetInv(net + multiset{e}, c, hosts, Recalling, st)
  {
  }

  lemma {:induction false} StopLog(log: multiset<Envelope>, c: nat, st: seq<Stage>, e: Envelope)
    requires LogInv(log, c, Running, st) && e == Envelope(Orchestrator, Builder, StopEngine)
    ensures LogInv(log + multiset{e}, c, Recalling, st)
  {
  }

  lemma {:induction false} StopTrace(w: World, k: Control, st: seq<Stage>, known: seq<Address>)
    requires Inv(w, k, st, known) && Enabled(w, Stop)
    ensures TraceInv(Do(w, Stop), Recalling, st)
  {
    hide NetInv, LogInv, PastSafe, CycleSafe;
    var e := Envelope(Orchestrator, Builder, StopEngine);
    StopNet(w.net, |w.cycles|, Hosts(w), st, e);
    StopLog(w.cycles[|w.cycles| - 1].sent, |w.cycles|, st, e);
    assert multiset([e]) == multiset{e};
    TraceAfter(w.(orchestrator := AwaitStopped), Orchestrator, [Post(Builder, StopEngine)], [e], Recalling, st);
  }

  // deliveries to the builder and the dispatcher while the cluster starts

  lemma {:induction false} BuilderStartNet(net: multiset<Envelope>, e: Envelope, c: nat, hosts: seq<IpPort>,
                                           k: Control, st: seq<Stage>, 
                        e': Envelope, k': Control, st': seq<Stage>)
    requires NetInv(net, c, hosts, k, st) && e in net && e.dst == Builder && e.msg.StartEngine?
    requires st == [] && AllIn(st', {Waiting})
    requires if hosts == [] then e' == Envelope(Builder, Orchestrator, BenchmarkFailure(LaunchError)) && k' == Aborted
             else e' == Envelope(Builder, Dispatcher(c), StartEngine(hosts)) && k' == Dispatching
    ensures NetInv(net - multiset{e} + multiset{e'}, c, hosts, k', st')
  {
    assert Tracked(e);
  }

  lemma {:induction false} BuilderStartLog(log: multiset<Envelope>, c: nat, e': Envelope, k': Control, st': seq<Stage>)
    requires LogInv(log, c, Requested, []) && AllIn(st', {Waiting}) && k' in {Aborted, Dispatching}
    requires e'.msg.StartEngine? || e' == Envelope(Builder, Orchestrator, BenchmarkFailure(LaunchError))
    ensures LogInv(log + multiset{e'}, c, k', st')
  {
  }

  lemma {:induction false} BuilderStartKeeps(w: World, e: Envelope, luck: Luck, k: Control, st: seq<Stage>,
                                             known: seq<Address>)
      returns (k': Control, st': seq<Stage>)
    requires Inv(w, k, st, known) && Enabled(w, Deliver(e, luck)) && e.dst == Builder && e.msg.StartEngine?
    ensures ActorInv(Do(w, Deliver(e, luck)), k', st', [])
    ensures TraceInv(Do(w, Deliver(e, luck)), k', st')
  {
    var c, hosts := |w.cycles|, Hosts(w);
    k' := if hosts == [] then Aborted else Dispatching;
    st' := seq(if hosts == [] then 0 else |Keys(hosts)|, _ => Waiting);
    BuilderStartActor(w, e, luck, k, st, known, k', st');
    BuilderStartTrace(w, e, luck, k, st, known, k', st');
  }

  lemma {:induction false} BuilderStartActor(w: World, e: Envelope, luck: Luck, k: Control, st: seq<Stage>,
                                             known: seq<Address>, k': Control, st': seq<Stage>)
    requires Inv(w, k, st, known) && Enabled(w, Deliver(e, luck)) && e.dst == Builder && e.msg.StartEngine?
    requires k' == if Hosts(w) == [] then Aborted else Dispatching
    requires AllIn(st', {Waiting}) && |st'| == if Hosts(w) == [] then 0 else |Keys(Hosts(w))|
    ensures ActorInv(Do(w, Deliver(e, luck)), k', st', [])
  {
    hide NetInv, LogInv, PastSafe, CycleSafe;
    RequestedOnly(w.net, e, |w.cycles|, Hosts(w), k, st);
    StartSlots(Hosts(w), st');
  }

  lemma {:induction false} BuilderStartTrace(w: World, e: Envelope, luck: Luck, k: Control, st: seq<Stage>,
                                             known: seq<Address>, k': Control, st': seq<Stage>)
    requires Inv(w, k, st, known) && Enabled(w, Deliver(e, luck)) && e.dst == Builder && e.msg.StartEngine?
    requires k' == if Hosts(w) == [] then Aborted else Dispatching
    requires AllIn(st', {Waiting})
    ensures TraceInv(Do(w, Deliver(e, luck)), k', st')
  {
    hide NetInv, LogInv, PastSafe, CycleSafe, BuilderInv, KnownInv;
    var c, hosts, cycle := |w.cycles|, Hosts(w), w.cycles[|w.cycles| - 1];
    RequestedOnly(w.net, e, c, hosts, k, st);
    var (b, posts) := B.OnStartEngine(w.builder, hosts, Orchestrator, Dispatcher(c));
    var e' := Envelope(Builder, posts[0].to, posts[0].msg);
    BuilderStartNet(w.net, e, c, hosts, k, st, e', k', st');
    BuilderStartLog(cycle.sent, c, e', k', st');
    assert multiset([e']) == multiset{e'};
    TraceAfter(w.(net := w.net - multiset{e}, builder := b), Builder, posts, [e'], k', st');
  }

  lemma {:induction false} RequestedOnly(net: multiset<Envelope>, e: Envelope, c: nat, hosts: seq<IpPort>, k: Control,
                                         st: seq<Stage>)
    requires NetInv(net, c, hosts, k, st) && e in net && e.dst == Builder && e.msg.StartEngine?
    ensures k == Requested && e == Envelope(Orchestrator, Builder, StartEngine(hosts))
  {
    assert Tracked(e);
  }

  lemma {:induction false} StartSlots(hosts: seq<IpPort>, st: seq<Stage>)
    requires AllIn(st, {Waiting})
    ensures hosts != [] ==> |Keys(hosts)| > 0
    ensures Count(st, Joined) == 0
    ensures B.Slots([], |Keys(hosts)|) == B.Unknown(|Keys(hosts)|)
  {
    CountBounds(st, Joined);
    KeysAreTheDistinctPairs(hosts);
    if hosts != [] {
      assert hosts[0] in Keys(hosts);
    }
  }

  /** The stages after the dispatcher has sent `posts`: nobody has been asked, or everybody. */
  function AskedStages(posts: seq<Post>, n: nat): seq<Stage> {
    seq(n, i requires 0 <= i < n => if i < |posts| then Asked(posts[i].msg) else Waiting)
  }

  lemma {:induction false} DispatchNet(net: multiset<Envelope>, c: nat, hosts: seq<IpPort>, st: seq<Stage>,
                                       posts: seq<Post>)
    requires NetInv(net, c, hosts, Launching, st) && AllIn(st, {Waiting})
    requires |posts| <= |st|
    requires forall i :: 0 <= i < |posts| ==>
               posts[i].to == Node(c, i) && posts[i].msg.StartNodes? && posts[i].msg.replyTo == Builder
    ensures NetInv(net + multiset(Envelopes(Dispatcher(c), posts)), c, hosts, Launching, AskedStages(posts, |st|))
  {
    hide Envelopes;
    forall e {
      DispatchOnce(c, posts, e);
    }
  }

  lemma {:induction false} DispatchOnce(c: nat, posts: seq<Post>, x: Envelope)
    requires forall i :: 0 <= i < |posts| ==> posts[i].to == Node(c, i) && posts[i].msg.StartNodes?
    ensures multiset(Envelopes(Dispatcher(c), posts))[x]
         == Ones(x.src == Dispatcher(c) && x.dst.Node? && x.dst.cycle == c && x.dst.index < |posts|
           && x.msg == posts[x.dst.index].msg)
  {
    var es := Envelopes(Dispatcher(c), posts);
    DistinctOnce(es, x);
    if x.src == Dispatcher(c) && x.dst.Node? && x.dst.cycle == c && x.dst.index < |posts|
      && x.msg == posts[x.dst.index].msg {
      assert es[x.dst.index] == x;
    }
  }

  lemma {:induction false} DispatchLog(log: multiset<Envelope>, c: nat, k: Control, st: seq<Stage>, posts: seq<Post>)
    requires LogInv(log, c, k, st) && k in {Dispatching, Launching} && AllIn(st, {Waiting})
    requires forall i :: 0 <= i < |posts| ==> posts[i].msg.StartNodes?
    ensures LogInv(log + multiset(Envelopes(Dispatcher(c), posts)), c, Launching, AskedStages(posts, |st|))
  {
    var es := Envelopes(Dispatcher(c), posts);
    assert forall e :: e in multiset(es) ==> e in es;
  }

  lemma {:induction false} AllAreStartNodes(sent: seq<Post>, c: nat, hosts: seq<IpPort>)
    requires D.SendsToAll(sent, c, hosts, Builder)
    ensures forall i :: 0 <= i < |sent| ==> sent[i].msg.StartNodes? && sent[i].msg.replyTo == Builder
  {
    forall i | 0 <= i < |sent| ensures sent[i].msg.StartNodes? && sent[i].msg.replyTo == Builder {
      assert MessagesOf(sent)[i] in multiset(MessagesOf(sent));
      assert sent[i].msg in D.AllSubMessages(hosts, Keys(hosts), Builder);
    }
  }

  lemma {:induction false} DispatcherStartNet(net: multiset<Envelope>, e: Envelope, c: nat, hosts: seq<IpPort>,
                                              k: Control, st: seq<Stage>)
    requires NetInv(net, c, hosts, k, st) && e in net && e.dst.Dispatcher? && e.msg.StartEngine?
    requires k == Dispatching ==> AllIn(st, {Waiting})
    ensures k == Dispatching && e == Envelope(Builder, Dispatcher(c), StartEngine(hosts))
    ensures NetInv(net - multiset{e}, c, hosts, Launching, st)
  {
    assert Tracked(e);
  }

  /** The invariant after the dispatcher has sent `posts`, be it in answer to the start message or to a notice. */
  lemma {:induction false} DispatchTrace(w: World, d: D.State, posts: seq<Post>, arrived: set<string>, k: Control,
                                         st: seq<Stage>)
    requires w.cycles != [] && k in {Dispatching, Launching}
    requires NetInv(w.net, |w.cycles|, Hosts(w), Launching, st)
    requires |st| == |Keys(Hosts(w))| && AllIn(st, {Waiting})
    requires LogInv(w.cycles[|w.cycles| - 1].sent, |w.cycles|, k, st) && PastSafe(w.cycles, |w.cycles| - 1)
    requires D.Progress(d, posts, |w.cycles|, Hosts(w), Builder, arrived)
    ensures TraceInv(Send(w.(dispatcher := Some(d)), Dispatcher(|w.cycles|), posts), Launching,
              AskedStages(posts, |st|))
  {
    hide NetInv, LogInv, PastSafe, CycleSafe, D.Progress, Collecting, Keys, Send, AskedStages;
    var c, hosts := |w.cycles|, Hosts(w);
    PostsOf(d, posts, c, hosts, arrived);
    DispatchNet(w.net, c, hosts, st, posts);
    DispatchLog(w.cycles[c - 1].sent, c, k, st, posts);
    TraceAfter(w.(dispatcher := Some(d)), Dispatcher(c), posts, Envelopes(Dispatcher(c), posts), Launching,
        AskedStages(posts, |st|));
  }

  lemma {:induction false} DispatchActor(w: World, d: D.State, posts: seq<Post>, arrived: set<string>, st: seq<Stage>)
    requires w.cycles != []
    requires OrchestratorInv(w.orchestrator, Launching) && w.builder.orchestrator == Orchestrator
    requires BuilderInv(w.builder, |w.cycles|, Hosts(w), Launching, st, []) && |st| == |Keys(Hosts(w))|
             && AllIn(st, {Waiting})
    requires D.Progress(d, posts, |w.cycles|, Hosts(w), Builder, arrived)
    ensures ActorInv(Send(w.(dispatcher := Some(d)), Dispatcher(|w.cycles|), posts), Launching,
              AskedStages(posts, |st|), [])
  {
    hide Keys, IdsOf, D.Progress, Collecting;
    PostsOf(d, posts, |w.cycles|, Hosts(w), arrived);
    CountBounds(st, Joined);
    CountBounds(AskedStages(posts, |st|), Joined);
  }

  lemma {:induction false} PostsOf(d: D.State, posts: seq<Post>, c: nat, hosts: seq<IpPort>, arrived: set<string>)
    requires D.Progress(d, posts, c, hosts, Builder, arrived)
    ensures if d.remotes != map[] then posts == [] && Collecting(d, c, hosts)
            else |posts| == |Keys(hosts)| && D.Finished(d, c, hosts, Builder)
    ensures forall i :: 0 <= i < |posts| ==>
              posts[i].to == Node(c, i) && posts[i].msg.StartNodes? && posts[i].msg.replyTo == Builder
  {
    if posts != [] {
      AllAreStartNodes(posts, c, hosts);
    }
  }

  lemma {:induction false} DispatcherBegins(w: World, e: Envelope, k: Control, st: seq<Stage>, known: seq<Address>)
    requires Inv(w, k, st, known) && e in w.net && e.dst.Dispatcher? && e.msg.StartEngine?
    ensures k == Dispatching && e == Envelope(Builder, Dispatcher(|w.cycles|), StartEngine(Hosts(w)))
    ensures NetInv(w.net - multiset{e}, |w.cycles|, Hosts(w), Launching, st)
    ensures |st| == |Keys(Hosts(w))| && AllIn(st, {Waiting})
    ensures BuilderInv(w.builder, |w.cycles|, Hosts(w), Launching, st, [])
  {
    hide NetInv, LogInv, PastSafe, CycleSafe, KnownInv, Keys;
    assert k == Dispatching ==> AllIn(st, {Waiting});
    DispatcherStartNet(w.net, e, |w.cycles|, Hosts(w), k, st);
    CountBounds(st, Joined);
    assert known == [];
  }

  lemma {:induction false} DispatcherStartKeeps(w: World, e: Envelope, luck: Luck, k: Control, st: seq<Stage>,
                                                known: seq<Address>)
      returns (st': seq<Stage>)
    requires Inv(w, k, st, known) && Enabled(w, Deliver(e, luck)) && e.dst.Dispatcher? && e.msg.StartEngine?
    ensures ActorInv(Do(w, Deliver(e, luck)), Launching, st', [])
    ensures TraceInv(Do(w, Deliver(e, luck)), Launching, st')
  {
    hide NetInv, LogInv, PastSafe, CycleSafe, BuilderInv, StageInv, KnownInv, Keys, Send, AskedStages,
      D.OnStartEngine, D.Progress;
    var c, hosts := |w.cycles|, Hosts(w);
    DispatcherBegins(w, e, k, st, known);
    D.StartProgress(c, hosts, Builder);
    var (d, posts) := D.OnStartEngine(c, hosts, Builder);
    var w1 := w.(net := w.net - multiset{e});
    DispatchTrace(w1, d, posts, {D.LOCAL_IP}, k, st);
    DispatchActor(w1, d, posts, {D.LOCAL_IP}, st);
    st' := AskedStages(posts, |st|);
  }

  // deliveries to the node actors

  /** The answer of node `i` of cycle `c`, and the stage it moves to. */
  predicate Answers(c: nat, i: nat, e: Envelope, e': Envelope, x: Stage) {
    match e.msg
    case StartNodes(_, _, _) => (e' == Started(c, i) && x == Answered) || (e' == StartFailure(c, i) && x == Failed)
    case StopNodes => (e' == Stopped(c, i) && x == Left) || (e' == StopFailure(c, i) && x == Stuck)
    case _ => false
  }

  lemma {:induction false} NodeNet(net: multiset<Envelope>, e: Envelope, e': Envelope, c: nat, hosts: seq<IpPort>,
                                   k: Control, st: seq<Stage>, 
                i: nat, x: Stage)
    requires NetInv(net, c, hosts, k, st) && e in net && e.dst == Node(c, i)
    requires InFlight(e, c, hosts, k, st) && Answers(c, i, e, e', x)
    ensures NetInv(net - multiset{e} + multiset{e'}, c, hosts, k, st[i := x])
  {
  }

  lemma {:induction false} NodeLog(log: multiset<Envelope>, e: Envelope, e': Envelope, c: nat, hosts: seq<IpPort>,
                                   k: Control, st: seq<Stage>, 
                i: nat, x: Stage)
    requires LogInv(log, c, k, st) && e.dst == Node(c, i)
    requires InFlight(e, c, hosts, k, st) && Answers(c, i, e, e', x)
    ensures LogInv(log + multiset{e'}, c, k, st[i := x])
  {
  }

  /** A start or stop message that reaches a node actor was meant for a node of this cycle. */
  lemma {:induction false} NodeMessage(net: multiset<Envelope>, e: Envelope, c: nat, hosts: seq<IpPort>, k: Control,
                                       st: seq<Stage>)
    requires NetInv(net, c, hosts, k, st) && e in net && e.dst.Node? && (e.msg.StartNodes? || e.msg.StopNodes?)
    ensures InFlight(e, c, hosts, k, st) && e.dst == Node(c, e.dst.index)
    ensures e.msg.StartNodes? ==> e.msg.replyTo == Builder
    ensures e.msg.StopNodes? ==> e.src == Builder
  {
    assert Tracked(e);
  }

  lemma {:induction false} NodeKeeps(w: World, e: Envelope, luck: Luck, k: Control, st: seq<Stage>, known: seq<Address>)
      returns (st': seq<Stage>)
    requires Inv(w, k, st, known) && Enabled(w, Deliver(e, luck)) && e.dst.Node?
             && (e.msg.StartNodes? || e.msg.StopNodes?)
    ensures ActorInv(Do(w, Deliver(e, luck)), k, st', known)
    ensures TraceInv(Do(w, Deliver(e, luck)), k, st')
  {
    hide NetInv, LogInv, PastSafe, CycleSafe, BuilderInv, StageInv, KnownInv, Send, Keys;
    var c, hosts, i := |w.cycles|, Hosts(w), e.dst.index;
    NodeMessage(w.net, e, c, hosts, k, st);
    var ok := luck == Succeeds && (e.msg.StopNodes? ==> e.dst in w.running);
    var x := if e.msg.StartNodes? then (if ok then Answered else Failed) else (if ok then Left else Stuck);
    var e' := if e.msg.StartNodes? then (if ok then Started(c, i) else StartFailure(c, i))
              else (if ok then Stopped(c, i) else StopFailure(c, i));
    st' := st[i := x];
    NodeNet(w.net, e, e', c, hosts, k, st, i, x);
    NodeLog(w.cycles[c - 1].sent, e, e', c, hosts, k, st, i, x);
    assert multiset([e']) == multiset{e'};
    var running := if e.msg.StartNodes? then (if luck == FailsBeforeLaunch then w.running else w.running + {e.dst})
                   else (if ok then w.running - {e.dst} else w.running);
    var w1, posts := w.(net := w.net - multiset{e}, running := running), [Post(Builder, e'.msg)];
    TraceAfter(w1, e.dst, posts, [e'], k, st');
    NodeActor(w, k, st, known, i, x, c, hosts);
    SendActors(w1, e.dst, posts, k, st', known);
  }

  /** A node that answers changes nothing about who has joined or gone. */
  lemma {:induction false} NodeActor(w: World, k: Control, st: seq<Stage>, known: seq<Address>, i: nat, x: Stage,
                                     c: nat, hosts: seq<IpPort>)
    requires ActorInv(w, k, st, known) && c == |w.cycles| && hosts == Hosts(w) && i < |st|
    requires (st[i].Asked? && x in {Answered, Failed}) || (st[i] == Recalled && x in {Left, Stuck})
    ensures BuilderInv(w.builder, c, hosts, k, st[i := x], known)
    ensures KnownInv(known, c, st[i := x])
    ensures StageInv(w.dispatcher, c, hosts, k, st[i := x])
  {
    hide B.Slots, D.Finished, Keys, Collecting;
    CountUpdate(st, i, Joined, x);
    CountUpdate(st, i, Gone, x);
    hide Count;
  }

  // deliveries of answers to the builder

  lemma {:induction false} JoinNet(net: multiset<Envelope>, e: Envelope, c: nat, hosts: seq<IpPort>, st: seq<Stage>,
                                   i: nat)
    requires NetInv(net, c, hosts, Launching, st) && i < |st| && e == Started(c, i) && st[i] == Answered
    ensures NetInv(net - multiset{e}, c, hosts, Launching, st[i := Joined])
    ensures NetInv(net - multiset{e} + multiset{EngineUp}, c, hosts, Announcing, st[i := Joined])
  {
  }

  lemma {:induction false} JoinLog(log: multiset<Envelope>, c: nat, st: seq<Stage>, i: nat)
    requires c > 0 && LogInv(log, c, Launching, st) && i < |st| && st[i] == Answered
    ensures LogInv(log, c, Launching, st[i := Joined])
    ensures LogInv(log + multiset{EngineUp}, c, Announcing, st[i := Joined])
  {
  }

  lemma {:induction false} JoinMessage(net: multiset<Envelope>, e: Envelope, c: nat, hosts: seq<IpPort>, k: Control,
                                       st: seq<Stage>)
    requires NetInv(net, c, hosts, k, st) && e in net && e.dst == Builder
             && (e.msg.NodesStarted? || e.msg.NodesStopped?)
    ensures e.src.Node? && e.src == Node(c, e.src.index) && e.src.index < |st|
    ensures st[e.src.index] == if e.msg.NodesStarted? then Answered else Left
  {
    assert Tracked(e);
  }

  lemma {:induction false} JoinStages(st: seq<Stage>, known: seq<Address>, c: nat, i: nat)
    requires KnownInv(known, c, st) && i < |st| && st[i] == Answered
    ensures KnownInv([Node(c, i)] + known, c, st[i := Joined])
    ensures Count(st[i := Joined], Joined) == Count(st, Joined) + 1
    ensures Count(st, Joined) + 1 == |st| ==> AllIn(st[i := Joined], {Joined})
  {
    CountUpdate(st, i, Joined, Joined);
    CountBounds(st[i := Joined], Joined);
  }

  /** The builder and the stages after the answer of node `i`. */
  lemma {:induction false} JoinActor(w: World, i: nat, k': Control, st: seq<Stage>, st': seq<Stage>,
                                     known: seq<Address>)
    requires w.cycles != [] && ActorInv(w, Launching, st, known) && i < |st| && st[i] == Answered
             && st' == st[i := Joined]
    requires k' == if |known| + 1 == |Keys(Hosts(w))| then Announcing else Launching
    ensures var (b, posts) := B.OnNodesStarted(w.builder, Node(|w.cycles|, i));
            && ActorInv(w.(builder := b), k', st', [Node(|w.cycles|, i)] + known)
            && posts == if k' == Announcing then [Post(Orchestrator, EngineStarted)] else []
  {
    hide KnownInv, B.OnNodesStarted, B.Slots, Keys;
    NotKnown(known, |w.cycles|, st, i);
    JoinStages(st, known, |w.cycles|, i);
    B.OneMoreStarted(w.builder, known, |Keys(Hosts(w))|, Node(|w.cycles|, i));
  }

  lemma {:induction false} JoinKeeps(w: World, e: Envelope, luck: Luck, k: Control, st: seq<Stage>, known: seq<Address>)
      returns (k': Control, st': seq<Stage>, known': seq<Address>)
    requires Inv(w, k, st, known) && Enabled(w, Deliver(e, luck)) && e.dst == Builder && e.msg.NodesStarted?
    ensures ActorInv(Do(w, Deliver(e, luck)), k', st', known')
    ensures TraceInv(Do(w, Deliver(e, luck)), k', st')
  {
    hide KnownInv, NetInv, LogInv, PastSafe, CycleSafe, Keys, IdsOf;
    JoinMessage(w.net, e, |w.cycles|, Hosts(w), k, st);
    k', st' := if |known| + 1 == |Keys(Hosts(w))| then Announcing else Launching, st[e.src.index := Joined];
    known' := [e.src] + known;
    assert k == Launching;
    JoinActor(w, e.src.index, k', st, st', known);
    var (b, posts) := B.OnNodesStarted(w.builder, e.src);
    JoinTrace(w, b, posts, e, k', st, st');
    SendActors(w.(net := w.net - multiset{e}, builder := b), Builder, posts, k', st', known');
  }

  lemma {:induction false} JoinTrace(w: World, b: B.State, posts: seq<Post>, e: Envelope, k': Control, st: seq<Stage>,
                                     st': seq<Stage>)
    requires w.cycles != [] && TraceInv(w, Launching, st) && e.src.Node? && e.src.index < |st|
    requires e == Started(|w.cycles|, e.src.index) && st[e.src.index] == Answered && st' == st[e.src.index := Joined]
    requires if posts == [] then k' == Launching else k' == Announcing && posts == [Post(Orchestrator, EngineStarted)]
    ensures TraceInv(Send(w.(net := w.net - multiset{e}, builder := b), Builder, posts), k', st')
  {
    hide NetInv, LogInv, PastSafe, CycleSafe, Send;
    var c, hosts, i := |w.cycles|, Hosts(w), e.src.index;
    JoinNet(w.net, e, c, hosts, st, i);
    JoinLog(w.cycles[c - 1].sent, c, st, i);
    var es := if k' == Announcing then [EngineUp] else [];
    assert Envelopes(Builder, posts) == es;
    assert multiset([EngineUp]) == multiset{EngineUp};
    assert w.net - multiset{e} + multiset{} == w.net - multiset{e};
    assert w.cycles[c - 1].sent + multiset{} == w.cycles[c - 1].sent;
    TraceAfter(w.(net := w.net - multiset{e}, builder := b), Builder, posts, es, k', st');
  }

  lemma {:induction false} NotKnown(known: seq<Address>, c: nat, st: seq<Stage>, i: nat)
    requires KnownInv(known, c, st) && i < |st| && !HasJoined(st[i])
    ensures Node(c, i) !in known
  {
  }

  // stopping

  function AllRecalled(n: nat): seq<Stage> {
    seq(n, _ => Recalled)
  }

  /** Every known child is sent the message once, and nobody else is. */
  lemma {:induction false} Broadcast(known: seq<Address>, msg: Message, x: Envelope)
    requires Distinct(known)
    ensures multiset(Envelopes(Builder, B.PostsTo(known, msg)))[x]
            == Ones(x.src == Builder && x.msg == msg && x.dst in known)
  {
    var es := Envelopes(Builder, B.PostsTo(known, msg));
    DistinctOnce(es, x);
    if x.src == Builder && x.msg == msg && x.dst in known {
      var i :| 0 <= i < |known| && known[i] == x.dst;
      assert es[i] == x;
    }
  }

  lemma {:induction false} RecallNet(net: multiset<Envelope>, e: Envelope, c: nat, hosts: seq<IpPort>, st: seq<Stage>,
                                     known: seq<Address>)
    requires NetInv(net, c, hosts, Recalling, st) && AllIn(st, {Joined}) && KnownInv(known, c, st)
    requires e == Envelope(Orchestrator, Builder, StopEngine)
    ensures NetInv(net - multiset{e} + multiset(Envelopes(Builder, B.PostsTo(known, StopNodes))), c, hosts,
              Stopping, AllRecalled(|st|))
  {
    hide B.PostsTo, Envelopes;
    var net' := net - multiset{e} + multiset(Envelopes(Builder, B.PostsTo(known, StopNodes)));
    forall x | Tracked(x) ensures net'[x] == Ones(InFlight(x, c, hosts, Stopping, AllRecalled(|st|))) {
      Broadcast(known, StopNodes, x);
      RecallInFlight(x, e, c, hosts, st, known);
    }
    forall x | x in net' && !Tracked(x) ensures x in net {
      Broadcast(known, StopNodes, x);
    }
    hide InFlight, KnownInv;
    forall x | x in net' && x.msg.StartNodes? ensures x in net {
      Broadcast(known, StopNodes, x);
    }
  }

  lemma {:induction false} RecallInFlight(x: Envelope, e: Envelope, c: nat, hosts: seq<IpPort>, st: seq<Stage>,
                                          known: seq<Address>)
    requires AllIn(st, {Joined}) && KnownInv(known, c, st) && e == Envelope(Orchestrator, Builder, StopEngine)
    ensures InFlight(x, c, hosts, Stopping, AllRecalled(|st|)) <==>
              (x != e && InFlight(x, c, hosts, Recalling, st))
                || (x.src == Builder && x.msg == StopNodes && x.dst in known)
    ensures x.src == Builder && x.msg == StopNodes && x.dst in known ==> !InFlight(x, c, hosts, Recalling, st)
    ensures InFlight(e, c, hosts, Recalling, st)
  {
  }

  lemma {:induction false} RecallLog(log: multiset<Envelope>, c: nat, st: seq<Stage>, known: seq<Address>)
    requires LogInv(log, c, Recalling, st) && AllIn(st, {Joined}) && KnownInv(known, c, st)
    ensures LogInv(log + multiset(Envelopes(Builder, B.PostsTo(known, StopNodes))), c, Stopping, AllRecalled(|st|))
  {
    hide B.PostsTo, Envelopes;
    forall x {
      Broadcast(known, StopNodes, x);
    }
  }

  lemma {:induction false} RecallMessage(net: multiset<Envelope>, e: Envelope, c: nat, hosts: seq<IpPort>, k: Control,
                                         st: seq<Stage>)
    requires NetInv(net, c, hosts, k, st) && e in net && e.dst == Builder && e.msg == StopEngine
    ensures k == Recalling && e == Envelope(Orchestrator, Builder, StopEngine)
  {
    assert Tracked(e);
  }

  lemma {:induction false} RecallStages(st: seq<Stage>, known: seq<Address>, c: nat)
    requires KnownInv(known, c, st) && AllIn(st, {Joined})
    ensures KnownInv(known, c, AllRecalled(|st|))
    ensures Count(AllRecalled(|st|), Gone) == 0
  {
    CountBounds(AllRecalled(|st|), Gone);
  }

  lemma {:induction false} RecallKeeps(w: World, e: Envelope, luck: Luck, k: Control, st: seq<Stage>,
                                       known: seq<Address>)
      returns (st': seq<Stage>)
    requires Inv(w, k, st, known) && Enabled(w, Deliver(e, luck)) && e.dst == Builder && e.msg.StopEngine?
    ensures ActorInv(Do(w, Deliver(e, luck)), Stopping, st', known)
    ensures TraceInv(Do(w, Deliver(e, luck)), Stopping, st')
  {
    hide NetInv, LogInv, PastSafe, CycleSafe, KnownInv, B.Slots, B.ToChildren, Keys, Send;
    var c, hosts := |w.cycles|, Hosts(w);
    RecallMessage(w.net, e, c, hosts, k, st);
    st' := AllRecalled(|st|);
    RecallStages(st, known, c);
    B.ToSlots(known, |Keys(hosts)|, StopNodes);
    var (b, posts) := B.OnStopEngine(w.builder);
    RecallNet(w.net, e, c, hosts, st, known);
    RecallLog(w.cycles[c - 1].sent, c, st, known);
    var w1 := w.(net := w.net - multiset{e}, builder := b);
    TraceAfter(w1, Builder, posts, Envelopes(Builder, posts), Stopping, st');
    SendActors(w1, Builder, posts, Stopping, st', known);
  }

  /** Sending changes nothing about the actors. */
  lemma {:induction false} SendActors(w: World, src: Address, posts: seq<Post>, k: Control, st: seq<Stage>,
                                      known: seq<Address>)
    requires w.cycles != [] && ActorInv(w, k, st, known)
    ensures ActorInv(Send(w, src, posts), k, st, known)
  {
    hide KnownInv, BuilderInv, StageInv;
  }

  lemma {:induction false} LeaveNet(net: multiset<Envelope>, e: Envelope, c: nat, hosts: seq<IpPort>, st: seq<Stage>,
                                    i: nat, exits: seq<Envelope>)
    requires NetInv(net, c, hosts, Stopping, st) && i < |st| && e == Stopped(c, i) && st[i] == Left
    requires forall x :: x in multiset(exits) ==> x.msg == ActorExitRequest
    ensures NetInv(net - multiset{e}, c, hosts, Stopping, st[i := Gone])
    ensures NetInv(net - multiset{e} + multiset([EngineDown] + exits), c, hosts, Reporting, st[i := Gone])
  {
    assert multiset([EngineDown] + exits) == multiset{EngineDown} + multiset(exits);
  }

  lemma {:induction false} LeaveLog(log: multiset<Envelope>, c: nat, st: seq<Stage>, i: nat, exits: seq<Envelope>)
    requires c > 0 && LogInv(log, c, Stopping, st) && i < |st| && st[i] == Left
    requires forall x :: x in multiset(exits) ==> x.msg == ActorExitRequest
    ensures LogInv(log, c, Stopping, st[i := Gone])
    ensures LogInv(log + multiset([EngineDown] + exits), c, Reporting, st[i := Gone])
  {
    assert multiset([EngineDown] + exits) == multiset{EngineDown} + multiset(exits);
  }

  lemma {:induction false} LeaveStages(st: seq<Stage>, known: seq<Address>, c: nat, i: nat)
    requires KnownInv(known, c, st) && i < |st| && st[i] == Left
    ensures KnownInv(known, c, st[i := Gone])
    ensures Count(st[i := Gone], Gone) == Count(st, Gone) + 1
    ensures Count(st, Gone) + 1 == |st| ==> AllIn(st[i := Gone], {Gone})
    ensures Count(st, Gone) + 1 <= |st|
  {
    CountUpdate(st, i, Gone, Gone);
    CountBounds(st[i := Gone], Gone);
  }

  lemma {:induction false} Exits(known: seq<Address>, n: nat)
    requires |known| <= n
    ensures IsReport([Post(Orchestrator, EngineStopped)] + B.ToChildren(B.Slots(known, n), ActorExitRequest))
  {
    B.ToSlots(known, n, ActorExitRequest);
  }

  /** The builder and the stages after the stop reply of node `i`. */
  lemma {:induction false} LeaveActor(w: World, i: nat, k': Control, st: seq<Stage>, st': seq<Stage>,
                                      known: seq<Address>)
    requires w.cycles != [] && ActorInv(w, Stopping, st, known) && i < |st| && st[i] == Left && st' == st[i := Gone]
    requires k' == if Count(st, Gone) + 1 == |Keys(Hosts(w))| then Reporting else Stopping
    ensures var (b, posts) := B.OnNodesStopped(w.builder, Node(|w.cycles|, i));
            && ActorInv(w.(builder := b), k', st', known)
            && posts == if k' == Stopping then []
                        else
                          [Post(Orchestrator, EngineStopped)]
                          + B.ToChildren(B.Slots(known, |Keys(Hosts(w))|), ActorExitRequest)
  {
    hide KnownInv, B.Slots, B.ToChildren, Keys, B.OnNodesStopped;
    LeaveStages(st, known, |w.cycles|, i);
    B.OneMoreStopped(w.builder, Node(|w.cycles|, i));
  }

  lemma {:induction false} LeavesWhileStopping(w: World, k: Control, st: seq<Stage>, known: seq<Address>, i: nat)
    requires ActorInv(w, k, st, known) && i < |st| && st[i] == Left
    ensures k == Stopping && |known| == |Keys(Hosts(w))|
  {
    hide KnownInv, Keys;
  }

  lemma {:induction false} LeaveKeeps(w: World, e: Envelope, luck: Luck, k: Control, st: seq<Stage>,
                                      known: seq<Address>)
      returns (k': Control, st': seq<Stage>)
    requires Inv(w, k, st, known) && Enabled(w, Deliver(e, luck)) && e.dst == Builder && e.msg.NodesStopped?
    ensures ActorInv(Do(w, Deliver(e, luck)), k', st', known)
    ensures TraceInv(Do(w, Deliver(e, luck)), k', st')
  {
    hide PastSafe, CycleSafe, LogInv, NetInv, BuilderInv, StageInv, KnownInv, Keys, Send, Count, B.OnNodesStopped,
      B.Slots, B.ToChildren, IsReport;
    JoinMessage(w.net, e, |w.cycles|, Hosts(w), k, st);
    k', st' := if Count(st, Gone) + 1 == |Keys(Hosts(w))| then Reporting else Stopping, st[e.src.index := Gone];
    LeavesWhileStopping(w, k, st, known, e.src.index);
    LeaveActor(w, e.src.index, k', st, st', known);
    var (b, posts) := B.OnNodesStopped(w.builder, e.src);
    if k' == Reporting {
      Exits(known, |Keys(Hosts(w))|);
    }
    LeaveTrace(w, b, posts, e, k', st, st');
    SendActors(w.(net := w.net - multiset{e}, builder := b), Builder, posts, k', st', known);
  }

  /** Nothing, or the report followed by exit requests. */
  ghost predicate IsReport(posts: seq<Post>) {
    && posts != [] && posts[0] == Post(Orchestrator, EngineStopped)
    && forall i :: 1 <= i < |posts| ==> posts[i].msg == ActorExitRequest
  }

  lemma {:induction false} LeaveTrace(w: World, b: B.State, posts: seq<Post>, e: Envelope, k': Control,
                                      st: seq<Stage>, st': seq<Stage>)
    requires w.cycles != [] && TraceInv(w, Stopping, st) && e.src.Node? && e.src.index < |st|
    requires e == Stopped(|w.cycles|, e.src.index) && st[e.src.index] == Left && st' == st[e.src.index := Gone]
    requires if k' == Stopping then posts == [] else k' == Reporting && IsReport(posts)
    ensures TraceInv(Send(w.(net := w.net - multiset{e}, builder := b), Builder, posts), k', st')
  {
    hide NetInv, LogInv, PastSafe, CycleSafe, Send;
    var c, hosts, i := |w.cycles|, Hosts(w), e.src.index;
    var w1 := w.(net := w.net - multiset{e}, builder := b);
    var es := Envelopes(Builder, posts);
    if k' == Stopping {
      LeaveNet(w.net, e, c, hosts, st, i, []);
      LeaveLog(w.cycles[c - 1].sent, c, st, i, []);
      assert w1.net + multiset(es) == w.net - multiset{e};
      assert w.cycles[c - 1].sent + multiset(es) == w.cycles[c - 1].sent;
    } else {
      var exits := es[1..];
      assert es == [EngineDown] + exits;
      assert forall x: Envelope :: x in multiset(exits) ==> x in exits;
      LeaveNet(w.net, e, c, hosts, st, i, exits);
      LeaveLog(w.cycles[c - 1].sent, c, st, i, exits);
    }
    TraceAfter(w1, Builder, posts, es, k', st');
  }

  // deliveries that move the orchestrator, and messages that move nobody

  lemma {:induction false} AnnouncedNet(net: multiset<Envelope>, e: Envelope, c: nat, hosts: seq<IpPort>, k: Control,
                                        st: seq<Stage>)
    requires NetInv(net, c, hosts, k, st) && e in net && e.dst == Orchestrator
    requires k in {Reporting, Idle} ==> AllIn(st, {Gone})
    ensures e.msg == EngineStarted ==> k == Announcing && NetInv(net - multiset{e}, c, hosts, Running, st)
    ensures e.msg == EngineStopped ==> k == Reporting && NetInv(net - multiset{e}, c, hosts, Idle, st)
  {
    assert Tracked(e) ==> InFlight(e, c, hosts, k, st);
  }

  lemma {:induction false} OrchestratorKeeps(w: World, e: Envelope, luck: Luck, k: Control, st: seq<Stage>,
                                             known: seq<Address>)
      returns (k': Control)
    requires Inv(w, k, st, known) && Enabled(w, Deliver(e, luck)) && e.dst == Orchestrator
    requires e.msg == EngineStarted || e.msg == EngineStopped
    ensures ActorInv(Do(w, Deliver(e, luck)), k', st, known)
    ensures TraceInv(Do(w, Deliver(e, luck)), k', st)
  {
    hide NetInv, PastSafe, CycleSafe, KnownInv, B.Slots, Keys;
    AnnouncedNet(w.net, e, |w.cycles|, Hosts(w), k, st);
    k' := if e.msg == EngineStarted then Running else Idle;
  }

  /** Failures and exit requests: the network loses them and nothing else that matters changes. */
  lemma {:induction false} UntrackedNet(net: multiset<Envelope>, e: Envelope, c: nat, hosts: seq<IpPort>, k: Control,
                                        st: seq<Stage>)
    requires NetInv(net, c, hosts, k, st) && e in net && !Tracked(e)
    ensures NetInv(net - multiset{e}, c, hosts, k, st)
    ensures e.msg.BenchmarkFailure? ==> e.dst in {Orchestrator, Builder} && e.msg.reason != Rejected
    ensures e.msg.BenchmarkFailure? ==>
              NetInv(net - multiset{e} + multiset{Envelope(Builder, Orchestrator, e.msg)}, c, hosts, k, st)
  {
  }

  lemma {:induction false} ForwardLog(log: multiset<Envelope>, e: Envelope, c: nat, k: Control, st: seq<Stage>)
    requires LogInv(log, c, k, st) && e.src == Builder && e.msg.BenchmarkFailure? && e.msg.reason != Rejected
    ensures LogInv(log + multiset{e}, c, k, st)
  {
  }

  lemma {:induction false} UntrackedKeeps(w: World, e: Envelope, luck: Luck, k: Control, st: seq<Stage>,
                                          known: seq<Address>)
    requires Inv(w, k, st, known) && Enabled(w, Deliver(e, luck)) && !Tracked(e)
    ensures Inv(Do(w, Deliver(e, luck)), k, st, known)
  {
    hide NetInv, LogInv, PastSafe, CycleSafe, KnownInv, BuilderInv, StageInv, Send;
    UntrackedNet(w.net, e, |w.cycles|, Hosts(w), k, st);
    if e.dst == Builder && e.msg.BenchmarkFailure? {
      ForwardKeeps(w, e, luck, k, st, known);
    } else {
      assert Do(w, Deliver(e, luck)).(running := w.running) == w.(net := w.net - multiset{e});
    }
  }

  lemma {:induction false} ForwardKeeps(w: World, e: Envelope, luck: Luck, k: Control, st: seq<Stage>,
                                        known: seq<Address>)
    requires Inv(w, k, st, known) && Enabled(w, Deliver(e, luck)) && e.dst == Builder && e.msg.BenchmarkFailure?
    ensures Inv(Do(w, Deliver(e, luck)), k, st, known)
  {
    hide NetInv, LogInv, PastSafe, CycleSafe, KnownInv, BuilderInv, StageInv, Send;
    UntrackedNet(w.net, e, |w.cycles|, Hosts(w), k, st);
    var e' := Envelope(Builder, Orchestrator, e.msg);
    var w1 := w.(net := w.net - multiset{e});
    ForwardLog(w.cycles[|w.cycles| - 1].sent, e', |w.cycles|, k, st);
    assert multiset([e']) == multiset{e'};
    TraceAfter(w1, Builder, [Post(Orchestrator, e.msg)], [e'], k, st);
    SendActors(w1, Builder, [Post(Orchestrator, e.msg)], k, st, known);
    assert w1.(builder := w.builder) == w1;
  }

  /** Tracked messages go where they belong. */
  lemma {:induction false} TrackedMessage(net: multiset<Envelope>, e: Envelope, c: nat, hosts: seq<IpPort>,
                                          k: Control, st: seq<Stage>)
    requires NetInv(net, c, hosts, k, st) && e in net && Tracked(e)
    ensures match e.dst
            case Orchestrator => e.msg == EngineStarted || e.msg == EngineStopped
            case Builder => e.msg.StartEngine? || e.msg == NodesStarted || e.msg == StopEngine || e.msg == NodesStopped
            case Dispatcher(_) => e.msg.StartEngine?
            case Node(_, _) => e.msg.StartNodes? || e.msg == StopNodes
  {
    assert InFlight(e, c, hosts, k, st);
  }

  lemma {:induction false} NoticeKeeps(w: World, ip: string, k: Control, st: seq<Stage>, known: seq<Address>)
      returns (st': seq<Stage>)
    requires Inv(w, k, st, known) && Enabled(w, RemoteAdded(ip))
    ensures Inv(Do(w, RemoteAdded(ip)), k, st', known)
  {
    hide NetInv, LogInv, PastSafe, CycleSafe, B.Slots, D.Progress, D.OnRemoteAdded, Send;
    var d := w.dispatcher.value;
    if k == Launching && d.remotes != map[] {
      st' := CheckInKeeps(w, ip, st, known);
    } else {
      st' := st;
      D.NothingLeft(d, ip);
      SendNone(w, Dispatcher(d.cycle));
      assert w.(dispatcher := Some(d)) == w;
    }
  }

  /** A machine checks in while the dispatcher waits. */
  lemma {:induction false} CheckInKeeps(w: World, ip: string, st: seq<Stage>, known: seq<Address>)
      returns (st': seq<Stage>)
    requires Inv(w, Launching, st, known) && Enabled(w, RemoteAdded(ip)) && w.dispatcher.value.remotes != map[]
    ensures Inv(Do(w, RemoteAdded(ip)), Launching, st', known)
  {
    hide NetInv, LogInv, PastSafe, CycleSafe, B.Slots, D.Progress, D.OnRemoteAdded, Send, D.Waiting;
    var d, c, hosts := w.dispatcher.value, |w.cycles|, Hosts(w);
    var done :| D.Waiting(d, c, hosts, Builder, done);
    D.StillMissing(d, c, hosts, Builder, done);
    D.NoticeProgress(d, [], c, hosts, Builder, done, ip);
    var (d', posts) := D.OnRemoteAdded(d, ip);
    assert [] + posts == posts;
    CountBounds(st, Joined);
    assert known == [];
    DispatchTrace(w, d', posts, done + {ip}, Launching, st);
    DispatchActor(w, d', posts, done + {ip}, st);
    st' := AskedStages(posts, |st|);
    D.WaitingCycle(d, c, hosts, Builder, done);
  }

  // ----- the theorems

  lemma {:induction false} StepKeeps(w: World, step: Step, k: Control, st: seq<Stage>, known: seq<Address>)
      returns (k': Control, st': seq<Stage>, known': seq<Address>)
    requires Inv(w, k, st, known) && Enabled(w, step)
    ensures Inv(Do(w, step), k', st', known')
  {
    hide Inv, Do;
    k', st', known' := k, st, known;
    match step
    case Start(hosts) =>
      k', st', known' := Requested, [], [];
      StartKeeps(w, hosts, k, st, known);
    case Stop =>
      k' := Recalling;
      StopKeeps(w, k, st, known);
    case RemoteAdded(ip) => st' := NoticeKeeps(w, ip, k, st, known);
    case RemoteRemoved(ip) => RemovalKeeps(w, ip);
    case Deliver(e, luck) => k', st', known' := DeliverKeeps(w, e, luck, k, st, known);
  }

  lemma {:induction false} RemovalKeeps(w: World, ip: string)
    requires Enabled(w, RemoteRemoved(ip))
    ensures Do(w, RemoteRemoved(ip)) == w
  {
  }

  lemma {:induction false} StartKeeps(w: World, hosts: seq<IpPort>, k: Control, st: seq<Stage>, known: seq<Address>)
    requires Inv(w, k, st, known) && Enabled(w, Start(hosts))
    ensures Inv(Do(w, Start(hosts)), Requested, [], [])
  {
    hide NetInv, LogInv, PastSafe, CycleSafe;
    StartTrace(w, hosts, k, st, known);
  }

  lemma {:induction false} StopKeeps(w: World, k: Control, st: seq<Stage>, known: seq<Address>)
    requires Inv(w, k, st, known) && Enabled(w, Stop)
    ensures Inv(Do(w, Stop), Recalling, st, known)
  {
    hide NetInv, LogInv, PastSafe, CycleSafe, KnownInv;
    StopTrace(w, k, st, known);
  }

  lemma {:induction false} DeliverKeeps(w: World, e: Envelope, luck: Luck, k: Control, st: seq<Stage>,
                                        known: seq<Address>)
      returns (k': Control, st': seq<Stage>, known': seq<Address>)
    requires Inv(w, k, st, known) && Enabled(w, Deliver(e, luck))
    ensures Inv(Do(w, Deliver(e, luck)), k', st', known')
  {
    hide ActorInv, NetInv, LogInv, PastSafe, Do;
    k', st', known' := k, st, known;
    if !Tracked(e) {
      UntrackedKeeps(w, e, luck, k, st, known);
    } else {
      TrackedMessage(w.net, e, |w.cycles|, Hosts(w), k, st);
      match e.dst
      case Orchestrator => k' := OrchestratorKeeps(w, e, luck, k, st, known);
      case Dispatcher(_) => k', known' := Launching, []; st' := DispatcherStartKeeps(w, e, luck, k, st, known);
      case Node(_, _) => st' := NodeKeeps(w, e, luck, k, st, known);
      case Builder =>
        match e.msg {
          case StartEngine(_) => known' := []; k', st' := BuilderStartKeeps(w, e, luck, k, st, known);
          case NodesStarted => k', st', known' := JoinKeeps(w, e, luck, k, st, known);
          case StopEngine => k' := Stopping; st' := RecallKeeps(w, e, luck, k, st, known);
          case NodesStopped => k', st' := LeaveKeeps(w, e, luck, k, st, known);
          case _ =>
        }
    }
  }

  lemma {:induction false} ReachableInv(steps: seq<Step>, w: World)
      returns (k: Control, st: seq<Stage>, known: seq<Address>)
    requires Reaches(Init, steps, w)
    ensures Inv(w, k, st, known)
    decreases |steps|
  {
    if steps == [] {
      k, st, known := Idle, [], [];
    } else {
      var n := |steps| - 1;
      var mid :| Reaches(Init, steps[..n], mid) && Enabled(mid, steps[n]) && Do(mid, steps[n]) == w;
      k, st, known := ReachableInv(steps[..n], mid);
      k, st, known := StepKeeps(mid, steps[n], k, st, known);
    }
  }

  lemma {:induction false} AllSafe(cycles: seq<Cycle>)
    requires cycles != [] ==> PastSafe(cycles, |cycles| - 1) && CycleSafe(cycles[|cycles| - 1], |cycles|)
    ensures forall j :: 0 <= j < |cycles| ==> CycleSafe(cycles[j], j + 1)
  {
    hide CycleSafe;
  }

  /** In every run and under every delivery order, every start/stop cycle so far is safe. */
  lemma {:induction false} EveryCycleIsSafe(steps: seq<Step>, w: World)
    requires Reaches(Init, steps, w)
    ensures forall j :: 0 <= j < |w.cycles| ==> CycleSafe(w.cycles[j], j + 1)
  {
    hide CycleSafe, NetInv, LogInv, PastSafe, ActorInv, Reaches;
    var k, st, known := ReachableInv(steps, w);
    if w.cycles != [] {
      CurrentCycleSafe(w, k, st, known);
    }
    AllSafe(w.cycles);
  }

  /** Between two cycles the builder holds no children and no responses, so that it can be used again. */
  lemma {:induction false} BuilderIsClean(steps: seq<Step>, w: World)
    requires Reaches(Init, steps, w) && w.orchestrator == Ready
    ensures w.builder.children == [] && w.builder.responses == []
    ensures forall e :: e in w.net ==> e.msg.ActorExitRequest? || e.msg.BenchmarkFailure?
  {
    var k, st, known := ReachableInv(steps, w);
    IdleNet(w.net, |w.cycles|, Hosts(w), st);
  }

  lemma {:induction false} IdleNet(net: multiset<Envelope>, c: nat, hosts: seq<IpPort>, st: seq<Stage>)
    requires NetInv(net, c, hosts, Idle, st) && AllIn(st, {Gone})
    ensures forall e :: e in net ==> !Tracked(e)
  {
    assert forall e :: Tracked(e) ==> net[e] == Ones(InFlight(e, c, hosts, Idle, st)) == 0;
  }

  /** A network at rest: no message that matters is waiting. */
  ghost predicate AtRest(w: World) {
    forall e :: e in w.net ==> !Tracked(e)
  }

  /** No deadlock: a start that has come to rest, with all machines checked in, had no hosts or a node that failed. */
  lemma {:induction false} StartGetsThrough(steps: seq<Step>, w: World)
    requires Reaches(Init, steps, w) && w.orchestrator == AwaitStarted && AtRest(w)
    requires w.dispatcher.Some? ==> w.dispatcher.value.remotes == map[]
    ensures w.cycles != []
    ensures Hosts(w) == [] || exists i: nat :: StartFailure(|w.cycles|, i) in w.cycles[|w.cycles| - 1].sent
  {
    hide Reaches;
    var k, st, known := ReachableInv(steps, w);
    RestingStart(w, k, st, known);
  }

  lemma {:induction false} RestingStart(w: World, k: Control, st: seq<Stage>, known: seq<Address>)
    requires Inv(w, k, st, known) && w.orchestrator == AwaitStarted && AtRest(w)
    requires w.dispatcher.Some? ==> w.dispatcher.value.remotes == map[]
    ensures w.cycles != []
    ensures Hosts(w) == [] || exists i: nat :: StartFailure(|w.cycles|, i) in w.cycles[|w.cycles| - 1].sent
  {
    hide LogInv, PastSafe, KnownInv, B.Slots, NetInv;
    var c, hosts := |w.cycles|, Hosts(w);
    RestingNet(w, c, hosts, k, st);
    if k == Launching {
      CountBounds(st, Joined);
      var i :| 0 <= i < |st| && st[i] != Joined;
      assert st[i] == Failed;
      FailureIsLogged(w.cycles[c - 1].sent, c, k, st, i);
    }
  }

  lemma {:induction false} RestingNet(w: World, c: nat, hosts: seq<IpPort>, k: Control, st: seq<Stage>)
    requires NetInv(w.net, c, hosts, k, st) && AtRest(w)
    ensures k !in {Requested, Dispatching, Announcing, Recalling, Reporting}
    ensures forall i :: 0 <= i < |st| ==> st[i] != Answered && st[i] != Recalled && st[i] != Left
    ensures forall i :: 0 <= i < |st| && st[i].Asked? ==> !st[i].msg.StartNodes?
  {
    RestingControl(w, c, hosts, k, st);
    forall i | 0 <= i < |st|
      ensures st[i] != Answered && st[i] != Recalled && st[i] != Left && (st[i].Asked? ==> !st[i].msg.StartNodes?)
    {
      assert Tracked(Started(c, i)) && Started(c, i) !in w.net;
      assert Tracked(Recall(c, i)) && Recall(c, i) !in w.net;
      assert Tracked(Stopped(c, i)) && Stopped(c, i) !in w.net;
      if st[i].Asked? && st[i].msg.StartNodes? {
        var ask := Envelope(Dispatcher(c), Node(c, i), st[i].msg);
        assert Tracked(ask) && InFlight(ask, c, hosts, k, st) && ask !in w.net;
        assert false;
      }
    }
  }

  lemma {:induction false} RestingControl(w: World, c: nat, hosts: seq<IpPort>, k: Control, st: seq<Stage>)
    requires NetInv(w.net, c, hosts, k, st) && AtRest(w)
    ensures k !in {Requested, Dispatching, Announcing, Recalling, Reporting}
  {
    var control := [Envelope(Orchestrator, Builder, StartEngine(hosts)),
          Envelope(Builder, Dispatcher(c), StartEngine(hosts)),
                    EngineUp, Envelope(Orchestrator, Builder, StopEngine), EngineDown];
    forall x | x in control ensures !InFlight(x, c, hosts, k, st) {
      assert Tracked(x) && x !in w.net;
    }
    assert control[0] in control && control[1] in control && control[2] in control && control[3] in control
           && control[4] in control;
  }

  lemma {:induction false} FailureIsLogged(log: multiset<Envelope>, c: nat, k: Control, st: seq<Stage>, i: nat)
    requires LogInv(log, c, k, st) && i < |st|
    ensures st[i] == Failed ==> StartFailure(c, i) in log
    ensures st[i] == Stuck ==> StopFailure(c, i) in log
  {
    assert Recorded(StartFailure(c, i)) && Recorded(StopFailure(c, i));
  }

  /** No deadlock when stopping either: a stop that has come to rest had a node that could not be stopped. */
  lemma {:induction false} StopGetsThrough(steps: seq<Step>, w: World)
    requires Reaches(Init, steps, w) && w.orchestrator == AwaitStopped && AtRest(w)
    ensures w.cycles != [] && exists i: nat :: StopFailure(|w.cycles|, i) in w.cycles[|w.cycles| - 1].sent
  {
    hide Reaches;
    var k, st, known := ReachableInv(steps, w);
    RestingStop(w, k, st, known);
  }

  lemma {:induction false} RestingStop(w: World, k: Control, st: seq<Stage>, known: seq<Address>)
    requires Inv(w, k, st, known) && w.orchestrator == AwaitStopped && AtRest(w)
    ensures w.cycles != [] && exists i: nat :: StopFailure(|w.cycles|, i) in w.cycles[|w.cycles| - 1].sent
  {
    hide LogInv, PastSafe, KnownInv, B.Slots, NetInv;
    RestingNet(w, |w.cycles|, Hosts(w), k, st);
    CountBounds(st, Gone);
    var i :| 0 <= i < |st| && st[i] != Gone;
    FailureIsLogged(w.cycles[|w.cycles| - 1].sent, |w.cycles|, k, st, i);
  }
}
