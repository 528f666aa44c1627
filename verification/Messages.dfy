/** Addresses and messages of the actors that start and stop the cluster (builder.py). */
module Messages {
  import opened HostTable

  /** Every actor ever created has its own address; a node actor is the index-th one created in its cycle. */
  datatype Address = Orchestrator | Builder | Dispatcher(cycle: nat) | Node(cycle: nat, index: nat)

  datatype Reason = LaunchError | StartFailed | StopFailed | Rejected

  datatype Message =
    | StartEngine(hosts: seq<IpPort>)
    | EngineStarted
    | StopEngine
    | EngineStopped
    | StartNodes(key: IpPort, nodeIds: seq<nat>, replyTo: Address)
    | NodesStarted
    | StopNodes
    | NodesStopped
    | ActorExitRequest
    | BenchmarkFailure(reason: Reason)

  /** A message handed to the actor system by some actor. */
  datatype Post = Post(to: Address, msg: Message)

  datatype Envelope = Envelope(src: Address, dst: Address, msg: Message)

  ghost function Any(es: multiset<Envelope>): (e: Envelope)
    requires es != multiset{}
    ensures e in es
  {
    var e :| e in es; e
  }

  function MessagesOf(posts: seq<Post>): (msgs: seq<Message>)
    ensures |msgs| == |posts|
  {
    seq(|posts|, i requires 0 <= i < |posts| => posts[i].msg)
  }
}
