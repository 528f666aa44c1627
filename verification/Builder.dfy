/** The actor that coordinates the node actors: builder.py, BuilderActor, on top of actor.py, BenchmarkActor. */
module Builder {
  import opened HostTable
  import opened Messages
  import opened Wrappers

  datatype Status = NoStatus | Starting | ClusterStarted | ClusterStopping | ClusterStopped

  datatype State = State(
    orchestrator: Address,
    status: Status,
    children: seq<Option<Address>>,
    responses: seq<Message>)

  // ----- what the handlers compute

  datatype Verdict = Wait | Complete | Reject

  /** Counting one response; the rejected response of a full list is still counted. */
  function Respond(s: State, msg: Message, expected: Status, next: Status): (State, Verdict) {
    if s.status != expected then (s, Reject)
    else
      var responses := s.responses + [msg];
      if |responses| == |s.children| then (s.(status := next, responses := []), Complete)
      else if |responses| > |s.children| then (s.(responses := responses), Reject)
      else (s.(responses := responses), Wait)
  }

  /** A message to every child that is known by now. */
  function ToChildren(children: seq<Option<Address>>, msg: Message): seq<Post> {
    if children == [] then []
    else
      var n := |children| - 1;
      match children[n]
      case Some(m) => ToChildren(children[..n], msg) + [Post(m, msg)]
      case None => ToChildren(children[..n], msg)
  }

  /** A new sender takes the first slot and pushes the last slot out. */
  function Introduce(children: seq<Option<Address>>, sender: Address): (r: seq<Option<Address>>)
    ensures |r| == |children|
  {
    if Some(sender) in children then children else ([Some(sender)] + children)[..|children|]
  }

  function Unknown(n: nat): seq<Option<Address>> {
    seq(n, _ => None)
  }

  function OnStartEngine(s: State, hosts: seq<IpPort>, sender: Address, dispatcher: Address): (State, seq<Post>) {
    if hosts == [] then
      (s.(orchestrator := sender), [Post(sender, BenchmarkFailure(LaunchError))])
    else
      (State(sender, Starting, Unknown(|Keys(hosts)|), []), [Post(dispatcher, StartEngine(hosts))])
  }

  function OnNodesStarted(s: State, sender: Address): (State, seq<Post>) {
    var (s', verdict) := Respond(s.(children := Introduce(s.children, sender)), NodesStarted, Starting, ClusterStarted);
    match verdict
    case Wait => (s', [])
    case Complete => (s', [Post(s.orchestrator, EngineStarted)])
    case Reject => (s', [Post(sender, BenchmarkFailure(Rejected))])
  }

  function OnStopEngine(s: State): (State, seq<Post>) {
    (s.(status := ClusterStopping), ToChildren(s.children, StopNodes))
  }

  function OnNodesStopped(s: State, sender: Address): (State, seq<Post>) {
    var (s', verdict) := Respond(s, NodesStopped, ClusterStopping, ClusterStopped);
    match verdict
    case Wait => (s', [])
    case Complete =>
      (s'.(children := []), [Post(s.orchestrator, EngineStopped)] + ToChildren(s.children, ActorExitRequest))
    case Reject => (s', [Post(sender, BenchmarkFailure(Rejected))])
  }

  function OnFailure(s: State, reason: Reason): (State, seq<Post>) {
    (s, [Post(s.orchestrator, BenchmarkFailure(reason))])
  }

  // ----- the actor

  class BuilderActor {
    var orchestrator: Address
    var status: Status
    var children: seq<Option<Address>>
    var responses: seq<Message>

    constructor ()
      ensures Value() == State(Orchestrator, NoStatus, [], [])
    {
      orchestrator, status, children, responses := Orchestrator, NoStatus, [], [];
    }

    function Value(): State
      reads this
    {
      State(orchestrator, status, children, responses)
    }

    method TransitionWhenAllChildrenResponded(msg: Message, expected: Status, next: Status) returns (verdict: Verdict)
      modifies `status, `responses
      ensures (Value(), verdict) == Respond(old(Value()), msg, expected, next)
    {
      if status == expected {
        responses := responses + [msg];
        var responseCount, expectedCount := |responses|, |children|;
        if responseCount == expectedCount {
          status := next;
          responses := [];
          return Complete;
        } else if responseCount > expectedCount {
          return Reject;
        }
        return Wait;
      }
      return Reject;
    }

    method SendToChildren(msg: Message) returns (sent: seq<Post>)
      ensures sent == ToChildren(children, msg)
    {
      sent := [];
      for i := 0 to |children|
        invariant sent == ToChildren(children[..i], msg)
      {
        assert children[..i + 1][..i] == children[..i];
        match children[i]
        case None =>
        case Some(m) => sent := sent + [Post(m, msg)];
      }
      assert children[..|children|] == children;
    }

    method ReceiveStartEngine(hosts: seq<IpPort>, sender: Address, dispatcher: Address) returns (sent: seq<Post>)
      modifies this
      ensures (Value(), sent) == OnStartEngine(old(Value()), hosts, sender, dispatcher)
    {
      orchestrator := sender;
      if |hosts| == 0 {
        return [Post(sender, BenchmarkFailure(LaunchError))];
      }
      var keys, nodes := NodesByHost(hosts);
      children := seq(|keys|, _ => None);
      sent := [Post(dispatcher, StartEngine(hosts))];
      status := Starting;
      responses := [];
    }

    method ReceiveNodesStarted(sender: Address) returns (sent: seq<Post>)
      modifies this
      ensures (Value(), sent) == OnNodesStarted(old(Value()), sender)
    {
      if Some(sender) !in children {
        children := [Some(sender)] + children;
        children := children[..|children| - 1];
      }
      var verdict := TransitionWhenAllChildrenResponded(NodesStarted, Starting, ClusterStarted);
      match verdict
      case Wait => sent := [];
      case Complete => sent := [Post(orchestrator, EngineStarted)];
      case Reject => sent := [Post(sender, BenchmarkFailure(Rejected))];
    }

    method ReceiveStopEngine() returns (sent: seq<Post>)
      modifies this
      ensures (Value(), sent) == OnStopEngine(old(Value()))
    {
      status := ClusterStopping;
      sent := SendToChildren(StopNodes);
    }

    method ReceiveNodesStopped(sender: Address) returns (sent: seq<Post>)
      modifies this
      ensures (Value(), sent) == OnNodesStopped(old(Value()), sender)
    {
      var verdict := TransitionWhenAllChildrenResponded(NodesStopped, ClusterStopping, ClusterStopped);
      match verdict
      case Wait => sent := [];
      case Complete =>
        var exits := SendToChildren(ActorExitRequest);
        sent := [Post(orchestrator, EngineStopped)] + exits;
        children := [];
      case Reject => sent := [Post(sender, BenchmarkFailure(Rejected))];
    }
  }

  // ----- the slots

  /** The builder's slots: the senders that are known, latest first, then the placeholders. */
  function Slots(known: seq<Address>, n: nat): (slots: seq<Option<Address>>)
    requires |known| <= n
    ensures |slots| == n
  {
    seq(|known|, i requires 0 <= i < |known| => Some(known[i])) + Unknown(n - |known|)
  }

  lemma {:induction false} IntroduceFillsASlot(known: seq<Address>, n: nat, sender: Address)
    requires |known| < n && sender !in known
    ensures Introduce(Slots(known, n), sender) == Slots([sender] + known, n)
  {
    assert Some(sender) !in Slots(known, n);
  }

  /** The answer of a node that was not known yet: it fills a slot, and the last one starts the cluster. */
  lemma {:induction false} OneMoreStarted(s: State, known: seq<Address>, n: nat, sender: Address)
    requires s.status == Starting && |s.responses| == |known| < n && s.children == Slots(known, n) && sender !in known
    ensures var (t, sent) := OnNodesStarted(s, sender);
            && t.children == Slots([sender] + known, n) && t.orchestrator == s.orchestrator
            && if |known| + 1 == n then
                 t.status == ClusterStarted && t.responses == [] && sent == [Post(s.orchestrator, EngineStarted)]
               else
                 t.status == Starting && |t.responses| == |known| + 1 && sent == []
  {
    IntroduceFillsASlot(known, n, sender);
  }

  function PostsTo(known: seq<Address>, msg: Message): seq<Post> {
    seq(|known|, i requires 0 <= i < |known| => Post(known[i], msg))
  }

  /** Messages to the children reach exactly the known ones, in slot order. */
  lemma {:induction false} ToSlots(known: seq<Address>, n: nat, msg: Message)
    requires |known| <= n
    ensures ToChildren(Slots(known, n), msg) == PostsTo(known, msg)
    decreases n
  {
    if |known| < n {
      assert Slots(known, n)[..n - 1] == Slots(known, n - 1);
      ToSlots(known, n - 1, msg);
    } else if n > 0 {
      assert Slots(known, n)[..n - 1] == Slots(known[..n - 1], n - 1);
      ToSlots(known[..n - 1], n - 1, msg);
    }
  }

  /** One more stop reply; the last one reports the stop and sends every child away. */
  lemma {:induction false} OneMoreStopped(s: State, sender: Address)
    requires s.status == ClusterStopping && |s.responses| < |s.children|
    ensures var (t, sent) := OnNodesStopped(s, sender);
            t.orchestrator == s.orchestrator &&
            if |s.responses| + 1 == |s.children| then
              t.children == [] && t.responses == []
              && sent == [Post(s.orchestrator, EngineStopped)] + ToChildren(s.children, ActorExitRequest)
            else
              t.status == ClusterStopping && t.children == s.children && |t.responses| == |s.responses| + 1
                && sent == []
  {
  }

  /** An answer out of turn is rejected: its sender is told so, nobody else is told anything, and the status and the
      responses stay. */
  lemma {:induction false} OutOfTurn(s: State, sender: Address)
    ensures s.status != Starting ==>
              var (t, sent) := OnNodesStarted(s, sender);
              && sent == [Post(sender, BenchmarkFailure(Rejected))] && t.status == s.status
              && t.responses == s.responses && t.orchestrator == s.orchestrator && |t.children| == |s.children|
    ensures s.status != ClusterStopping ==>
              OnNodesStopped(s, sender) == (s, [Post(sender, BenchmarkFailure(Rejected))])
  {
    hide Introduce;
  }

  // ----- stopping while the cluster is still starting

  function Started(s: State, senders: seq<Address>): State {
    if senders == [] then s
    else OnNodesStarted(Started(s, senders[..|senders| - 1]), senders[|senders| - 1]).0
  }

  /** The builder after `j` of the stop replies; which children sent them does not matter to it. */
  function AfterStops(s: State, senders: seq<Address>, j: nat): (State, seq<Post>)
    requires j <= |senders|
  {
    if j == 0 then (s, [])
    else
      var (t, sent) := AfterStops(s, senders, j - 1);
      var (t', more) := OnNodesStopped(t, senders[j - 1]);
      (t', sent + more)
  }

  ghost predicate Announced(sent: seq<Post>) {
    exists p :: p in sent && p.msg == EngineStopped
  }

  function LatestFirst(senders: seq<Address>): (r: seq<Address>)
    ensures |r| == |senders|
    ensures forall a :: a in r <==> a in senders
  {
    if senders == [] then []
    else
      var k := |senders| - 1;
      assert senders == senders[..k] + [senders[k]];
      [senders[k]] + LatestFirst(senders[..k])
  }

  lemma {:induction false} SomeStarted(orchestrator: Address, n: nat, senders: seq<Address>)
    requires |senders| < n && Distinct(senders)
    ensures Started(State(orchestrator, Starting, Unknown(n), []), senders)
         == State(orchestrator, Starting, Slots(LatestFirst(senders), n), seq(|senders|, _ => NodesStarted))
  {
    if senders == [] {
      assert Slots([], n) == Unknown(n);
    } else {
      var k := |senders| - 1;
      SomeStarted(orchestrator, n, senders[..k]);
      IntroduceFillsASlot(LatestFirst(senders[..k]), n, senders[k]);
      assert seq(k, _ => NodesStarted) + [NodesStarted] == seq(k + 1, _ => NodesStarted);
    }
  }

  /** While fewer stop replies than missing nodes have come in, nothing is announced. */
  lemma {:induction false} StopsStillWaiting(s: State, senders: seq<Address>, j: nat)
    requires s.status == ClusterStopping && j <= |senders|
    requires |s.responses| + j < |s.children|
    ensures AfterStops(s, senders, j).1 == []
    ensures var t := AfterStops(s, senders, j).0;
            t.status == ClusterStopping && t.children == s.children && |t.responses| == |s.responses| + j
              && t.orchestrator == s.orchestrator
  {
    if j > 0 {
      StopsStillWaiting(s, senders, j - 1);
    }
  }

  /** Once announced, it stays announced and every further stop reply is rejected. */
  lemma {:induction false} StaysAnnounced(s: State, senders: seq<Address>, i: nat, j: nat)
    requires i <= j <= |senders|
    requires Announced(AfterStops(s, senders, i).1)
    ensures Announced(AfterStops(s, senders, j).1)
  {
    if i < j {
      StaysAnnounced(s, senders, i, j - 1);
      var p :| p in AfterStops(s, senders, j - 1).1 && p.msg == EngineStopped;
      assert p in AfterStops(s, senders, j).1;
    }
  }

  /** StopEngine after `k` of `n` node actors have answered. The list of responses is not reset, so the `k` start
      answers count as stop replies: the stop is announced after `n - k` replies instead of `k`, and never when more
      nodes are missing than known. It is announced exactly when the last known node has stopped iff n == 2 * k. */
  lemma {:induction false} EarlyStop(orchestrator: Address, n: nat, senders: seq<Address>, j: nat)
    requires |senders| < n && Distinct(senders) && j <= |senders|
    ensures var s := OnStopEngine(Started(State(orchestrator, Starting, Unknown(n), []), senders)).0;
            Announced(AfterStops(s, senders, j).1) <==> n - |senders| <= j
  {
    SomeStarted(orchestrator, n, senders);
    var s := OnStopEngine(Started(State(orchestrator, Starting, Unknown(n), []), senders)).0;
    assert s.status == ClusterStopping && |s.responses| == |senders| && |s.children| == n;
    var need := n - |senders|;
    if j < need {
      StopsStillWaiting(s, senders, j);
    } else {
      LastStopAnnounces(s, senders, need);
      StaysAnnounced(s, senders, need, j);
    }
  }

  lemma {:induction false} LastStopAnnounces(s: State, senders: seq<Address>, need: nat)
    requires s.status == ClusterStopping && 0 < need <= |senders| && |s.responses| + need == |s.children|
    ensures Announced(AfterStops(s, senders, need).1)
  {
    StopsStillWaiting(s, senders, need - 1);
    var announced := Post(s.orchestrator, EngineStopped);
    assert AfterStops(s, senders, need).1[0] == announced;
  }
}
