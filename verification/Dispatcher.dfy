/** The actor that creates one node actor per distinct (ip, port) once its machine is known: builder.py, Dispatcher. */
module Dispatcher {
  import opened HostTable
  import opened Messages
  import opened Wrappers

  const LOCAL_IP := "127.0.0.1"

  datatype State = State(
    cycle: nat,
    startSender: Address,
    created: nat,
    pending: seq<Post>,
    remotes: map<string, seq<Message>>)

  // ----- what the handlers compute

  function SubMessage(pairs: seq<IpPort>, key: IpPort, replyTo: Address): Message {
    StartNodes(key, IdsOf(pairs, key), replyTo)
  }

  /** The start messages for those of `keys` whose machine is in `ips`, in order. */
  function SubMessages(pairs: seq<IpPort>, keys: seq<IpPort>, replyTo: Address, ips: set<string>): seq<Message> {
    if keys == [] then []
    else
      var n := |keys| - 1;
      SubMessages(pairs, keys[..n], replyTo, ips)
      + if keys[n].ip in ips then [SubMessage(pairs, keys[n], replyTo)] else []
  }

  function RemoteIps(keys: seq<IpPort>): set<string> {
    if keys == [] then {}
    else
      var n := |keys| - 1;
      RemoteIps(keys[..n]) + if keys[n].ip == LOCAL_IP then {} else {keys[n].ip}
  }

  function RemoteTable(pairs: seq<IpPort>, keys: seq<IpPort>, replyTo: Address, ips: set<string>)
    : map<string, seq<Message>>
  {
    map ip | ip in ips :: SubMessages(pairs, keys, replyTo, {ip})
  }

  /** Appending to a default dictionary of lists. */
  function Remembered(t: map<string, seq<Message>>, ip: string, msg: Message): map<string, seq<Message>> {
    t[ip := (if ip in t then t[ip] else []) + [msg]]
  }

  /** Fresh node actors, one for each message. */
  function Assign(cycle: nat, created: nat, msgs: seq<Message>): (posts: seq<Post>)
    ensures |posts| == |msgs|
  {
    seq(|msgs|, i requires 0 <= i < |msgs| => Post(Node(cycle, created + i), msgs[i]))
  }

  /** The dispatcher after it has looked at `keys` and at the machines `arrived`, but has not sent anything. */
  function Collected(cycle: nat, pairs: seq<IpPort>, keys: seq<IpPort>, sender: Address): State {
    var local := SubMessages(pairs, keys, sender, {LOCAL_IP});
    State(cycle, sender, |local|, Assign(cycle, 0, local),
          RemoteTable(pairs, keys, sender, RemoteIps(keys)))
  }

  function SendIfComplete(s: State): (State, seq<Post>) {
    if s.remotes == map[] then (s.(pending := []), s.pending) else (s, [])
  }

  function OnStartEngine(cycle: nat, pairs: seq<IpPort>, sender: Address): (State, seq<Post>) {
    SendIfComplete(Collected(cycle, pairs, Keys(pairs), sender))
  }

  function OnRemoteAdded(s: State, ip: string): (State, seq<Post>) {
    var msgs := if ip in s.remotes then s.remotes[ip] else [];
    SendIfComplete(s.(created := s.created + |msgs|,
                      pending := s.pending + Assign(s.cycle, s.created, msgs),
                      remotes := s.remotes - {ip}))
  }

  // ----- the actor

  class DispatcherActor {
    const cycle: nat
    var startSender: Address
    var created: nat
    var pending: seq<Post>
    var remotes: map<string, seq<Message>>

    constructor (cycle: nat)
      ensures this.cycle == cycle
    {
      this.cycle := cycle;
      startSender, created, pending, remotes := Orchestrator, 0, [], map[];
    }

    function Value(): State
      reads this
    {
      State(cycle, startSender, created, pending, remotes)
    }

    method CreateActor() returns (node: Address)
      modifies `created
      ensures node == Node(cycle, old(created)) && created == old(created) + 1
    {
      node := Node(cycle, created);
      created := created + 1;
    }

    method SendAllPending() returns (sent: seq<Post>)
      modifies `pending
      ensures sent == old(pending) && pending == []
    {
      sent := pending;
      pending := [];
    }

    method Remember(ip: string, msg: Message)
      modifies `remotes
      ensures remotes == Remembered(old(remotes), ip, msg)
    {
      if ip !in remotes {
        remotes := remotes[ip := []];
      }
      remotes := remotes[ip := remotes[ip] + [msg]];
    }

    method CollectHost(ip: string, submsg: Message)
      modifies this
      ensures Value() == if ip == LOCAL_IP then
                           old(Value()).(created := old(created) + 1,
                               pending := old(pending) + [Post(Node(cycle, old(created)), submsg)])
                         else
                           old(Value()).(remotes := Remembered(old(remotes), ip, submsg))
    {
      if ip == LOCAL_IP {
        var m := CreateActor();
        pending := pending + [Post(m, submsg)];
      } else {
        Remember(ip, submsg);
      }
    }

    method ReceiveStartEngine(pairs: seq<IpPort>, sender: Address) returns (sent: seq<Post>)
      requires created == 0
      modifies this
      ensures (Value(), sent) == OnStartEngine(cycle, pairs, sender)
    {
      hide Collected, Remembered, Keys, IdsOf;
      startSender := sender;
      pending := [];
      remotes := map[];
      CollectNothing(cycle, pairs, sender);
      var keys, nodes := NodesByHost(pairs);
      KeysAreTheDistinctPairs(pairs);
      for k := 0 to |keys|
        invariant Value() == Collected(cycle, pairs, keys[..k], sender)
      {
        var key := keys[k];
        var submsg := StartNodes(key, nodes[key], sender);
        CollectOne(cycle, pairs, keys[..k], key, sender);
        assert keys[..k] + [key] == keys[..k + 1];
        CollectHost(key.ip, submsg);
      }
      assert keys[..|keys|] == keys;
      sent := [];
      if remotes == map[] {
        sent := SendAllPending();
      }
    }

    /** A convention update that reports a new machine. */
    method ReceiveRemoteAdded(ip: string) returns (sent: seq<Post>)
      modifies this
      ensures (Value(), sent) == OnRemoteAdded(old(Value()), ip)
    {
      ghost var before := Value();
      // reading a default dictionary creates the missing entry
      if ip !in remotes {
        remotes := remotes[ip := []];
      }
      var msgs := remotes[ip];
      for i := 0 to |msgs|
        invariant created == before.created + i
        invariant pending == before.pending + Assign(cycle, before.created, msgs[..i])
        invariant startSender == before.startSender && remotes[ip := msgs] == remotes
        invariant remotes - {ip} == before.remotes - {ip}
      {
        var m := CreateActor();
        assert Assign(cycle, before.created, msgs[..i + 1])
            == Assign(cycle, before.created, msgs[..i]) + [Post(m, msgs[i])];
        pending := pending + [Post(m, msgs[i])];
      }
      assert msgs[..|msgs|] == msgs;
      remotes := remotes - {ip};
      sent := [];
      if remotes == map[] {
        sent := SendAllPending();
      }
    }

    /** A convention update. On a lost machine the handler calls the address of the starter like a function: nothing is
        sent, nothing changes, and no guard turns the exception into a failure message. */
    method ReceiveConventionUpdate(added: bool, ip: string) returns (r: Result<seq<Post>, string>)
      modifies this
      ensures r == if added then Ok(OnRemoteAdded(old(Value()), ip).1) else Err("TypeError")
      ensures Value() == if added then OnRemoteAdded(old(Value()), ip).0 else old(Value())
    {
      if !added {
        return Err("TypeError");
      }
      var sent := ReceiveRemoteAdded(ip);
      return Ok(sent);
    }
  }

  lemma {:induction false} SubMessagesOneMore(pairs: seq<IpPort>, keys: seq<IpPort>, key: IpPort, replyTo: Address,
                                              ips: set<string>)
    ensures SubMessages(pairs, keys + [key], replyTo, ips)
         == if key.ip in ips then SubMessages(pairs, keys, replyTo, ips) + [SubMessage(pairs, key, replyTo)]
            else SubMessages(pairs, keys, replyTo, ips)
    ensures RemoteIps(keys + [key]) == RemoteIps(keys) + if key.ip == LOCAL_IP then {} else {key.ip}
  {
    assert (keys + [key])[..|keys|] == keys;
  }

  lemma {:induction false} CollectNothing(cycle: nat, pairs: seq<IpPort>, sender: Address)
    ensures Collected(cycle, pairs, [], sender) == State(cycle, sender, 0, [], map[])
  {
  }

  lemma {:induction false} CollectOne(cycle: nat, pairs: seq<IpPort>, keys: seq<IpPort>, key: IpPort, sender: Address)
    ensures var s, s', msg := Collected(cycle, pairs, keys, sender), Collected(cycle, pairs, keys + [key], sender),
              SubMessage(pairs, key, sender);
            if key.ip == LOCAL_IP then
              s' == s.(created := s.created + 1, pending := s.pending + [Post(Node(cycle, s.created), msg)])
            else
              s' == s.(remotes := Remembered(s.remotes, key.ip, msg))
  {
    SubMessagesOneMore(pairs, keys, key, sender, {LOCAL_IP});
    if key.ip == LOCAL_IP {
      var local, msg := SubMessages(pairs, keys, sender, {LOCAL_IP}), SubMessage(pairs, key, sender);
      assert Assign(cycle, 0, local + [msg]) == Assign(cycle, 0, local) + [Post(Node(cycle, |local|), msg)];
      LocalTable(pairs, keys, key, sender);
    } else {
      RemoteTableOneMore(pairs, keys, key, sender);
    }
  }

  lemma {:induction false} LocalTable(pairs: seq<IpPort>, keys: seq<IpPort>, key: IpPort, sender: Address)
    requires key.ip == LOCAL_IP
    ensures RemoteTable(pairs, keys + [key], sender, RemoteIps(keys + [key]))
            == RemoteTable(pairs, keys, sender, RemoteIps(keys))
  {
    NotLocal(keys);
    SubMessagesOneMore(pairs, keys, key, sender, {});
    forall ip | ip in RemoteIps(keys)
      ensures SubMessages(pairs, keys + [key], sender, {ip}) == SubMessages(pairs, keys, sender, {ip})
    {
      SubMessagesOneMore(pairs, keys, key, sender, {ip});
    }
  }

  lemma {:induction false} RemoteTableOneMore(pairs: seq<IpPort>, keys: seq<IpPort>, key: IpPort, sender: Address)
    requires key.ip != LOCAL_IP
    ensures var t := RemoteTable(pairs, keys, sender, RemoteIps(keys));
            RemoteTable(pairs, keys + [key], sender, RemoteIps(keys + [key]))
              == Remembered(t, key.ip, SubMessage(pairs, key, sender))
  {
    var t := RemoteTable(pairs, keys, sender, RemoteIps(keys));
    SubMessagesOneMore(pairs, keys, key, sender, {key.ip});
    forall ip | ip in RemoteIps(keys) && ip != key.ip
      ensures SubMessages(pairs, keys + [key], sender, {ip}) == SubMessages(pairs, keys, sender, {ip})
    {
      SubMessagesOneMore(pairs, keys, key, sender, {ip});
    }
    if key.ip !in t {
      NoSuchIp(pairs, keys, sender, key.ip);
    }
  }

  lemma {:induction false} NotLocal(keys: seq<IpPort>)
    ensures LOCAL_IP !in RemoteIps(keys)
    ensures forall key :: key in keys && key.ip != LOCAL_IP ==> key.ip in RemoteIps(keys)
  {
    if keys != [] {
      NotLocal(keys[..|keys| - 1]);
    }
  }

  lemma {:induction false} NoSuchIp(pairs: seq<IpPort>, keys: seq<IpPort>, replyTo: Address, ip: string)
    requires ip != LOCAL_IP && ip !in RemoteIps(keys)
    ensures SubMessages(pairs, keys, replyTo, {ip}) == []
  {
    if keys != [] {
      NoSuchIp(pairs, keys[..|keys| - 1], replyTo, ip);
    }
  }

  // ----- runs: the start message followed by any sequence of notices

  /** Everything the dispatcher has sent after the start message and the notices `ips`. */
  function Run(cycle: nat, pairs: seq<IpPort>, sender: Address, ips: seq<string>): (State, seq<Post>) {
    if ips == [] then OnStartEngine(cycle, pairs, sender)
    else
      var (s, sent) := Run(cycle, pairs, sender, ips[..|ips| - 1]);
      var (s', more) := OnRemoteAdded(s, ips[|ips| - 1]);
      (s', sent + more)
  }

  /** Machines `done` have checked in and others are still missing: nothing is lost and nothing doubled. */
  ghost predicate Waiting(s: State, cycle: nat, pairs: seq<IpPort>, sender: Address, done: set<string>) {
    var keys := Keys(pairs);
    && s.cycle == cycle && s.startSender == sender
    && LOCAL_IP in done
    && s.remotes == RemoteTable(pairs, keys, sender, RemoteIps(keys) - done)
    && s.created == |s.pending|
    && (forall i :: 0 <= i < |s.pending| ==> s.pending[i].to == Node(cycle, i))
    && multiset(MessagesOf(s.pending)) == multiset(SubMessages(pairs, keys, sender, done))
  }

  ghost predicate Finished(s: State, cycle: nat, pairs: seq<IpPort>, sender: Address) {
    s.cycle == cycle && s.startSender == sender && s.remotes == map[] && s.pending == [] && s.created == |Keys(pairs)|
  }

  function AllSubMessages(pairs: seq<IpPort>, keys: seq<IpPort>, replyTo: Address): (msgs: seq<Message>)
    ensures |msgs| == |keys|
  {
    seq(|keys|, i requires 0 <= i < |keys| => SubMessage(pairs, keys[i], replyTo))
  }

  /** One start message per distinct (ip, port), each to an actor of its own. */
  ghost predicate SendsToAll(sent: seq<Post>, cycle: nat, pairs: seq<IpPort>, sender: Address) {
    && |sent| == |Keys(pairs)|
    && (forall i :: 0 <= i < |sent| ==> sent[i].to == Node(cycle, i))
    && multiset(MessagesOf(sent)) == multiset(AllSubMessages(pairs, Keys(pairs), sender))
  }

  lemma {:induction false} SplitByMachine(pairs: seq<IpPort>, keys: seq<IpPort>, replyTo: Address, done: set<string>,
                                          ip: string)
    requires ip !in done
    ensures multiset(SubMessages(pairs, keys, replyTo, done + {ip}))
         == multiset(SubMessages(pairs, keys, replyTo, done)) + multiset(SubMessages(pairs, keys, replyTo, {ip}))
  {
    if keys != [] {
      SplitByMachine(pairs, keys[..|keys| - 1], replyTo, done, ip);
    }
  }

  lemma {:induction false} SubMessagesOfAll(pairs: seq<IpPort>, keys: seq<IpPort>, replyTo: Address, done: set<string>)
    requires forall key :: key in keys ==> key.ip in done
    ensures SubMessages(pairs, keys, replyTo, done) == AllSubMessages(pairs, keys, replyTo)
  {
    if keys != [] {
      assert keys[|keys| - 1] in keys;
      SubMessagesOfAll(pairs, keys[..|keys| - 1], replyTo, done);
    }
  }

  /** The last missing machine: what was waiting is exactly one message per distinct (ip, port). */
  lemma {:induction false} CompleteWhenNoneIsMissing(s: State, cycle: nat, pairs: seq<IpPort>, sender: Address,
                                                     done: set<string>)
    requires Waiting(s, cycle, pairs, sender, done)
    ensures RemoteIps(Keys(pairs)) <= done <==> s.remotes == map[]
    ensures s.remotes == map[] ==> SendsToAll(s.pending, cycle, pairs, sender)
  {
    var keys := Keys(pairs);
    assert s.remotes.Keys == RemoteIps(keys) - done;
    if RemoteIps(keys) <= done {
      assert s.remotes.Keys == {};
      SubMessagesWhenDone(pairs, keys, sender, done);
      SameSize(MessagesOf(s.pending), AllSubMessages(pairs, keys, sender));
    } else {
      var ip :| ip in RemoteIps(keys) && ip !in done;
      assert ip in s.remotes.Keys;
    }
  }

  lemma {:induction false} SubMessagesWhenDone(pairs: seq<IpPort>, keys: seq<IpPort>, replyTo: Address,
                                               done: set<string>)
    requires LOCAL_IP in done && RemoteIps(keys) <= done
    ensures SubMessages(pairs, keys, replyTo, done) == AllSubMessages(pairs, keys, replyTo)
  {
    NotLocal(keys);
    SubMessagesOfAll(pairs, keys, replyTo, done);
  }

  lemma {:induction false} SameSize(s: seq<Message>, t: seq<Message>)
    requires multiset(s) == multiset(t)
    ensures |s| == |t|
  {
    assert |multiset(s)| == |s| && |multiset(t)| == |t|;
  }

  lemma {:induction false} StartIsWaiting(cycle: nat, pairs: seq<IpPort>, sender: Address)
    ensures Waiting(Collected(cycle, pairs, Keys(pairs), sender), cycle, pairs, sender, {LOCAL_IP})
  {
    var s := Collected(cycle, pairs, Keys(pairs), sender);
    assert MessagesOf(s.pending) == SubMessages(pairs, Keys(pairs), sender, {LOCAL_IP});
    NotLocal(Keys(pairs));
    assert RemoteIps(Keys(pairs)) - {LOCAL_IP} == RemoteIps(Keys(pairs));
  }

  /** The machine `ip` checks in: its messages move from the table to the pending list. */
  function Arrive(s: State, ip: string): State {
    var msgs := if ip in s.remotes then s.remotes[ip] else [];
    s.(created := s.created + |msgs|,
       pending := s.pending + Assign(s.cycle, s.created, msgs),
       remotes := s.remotes - {ip})
  }

  lemma {:induction false} ArrivedMessages(s: State, cycle: nat, pairs: seq<IpPort>, sender: Address,
                                           done: set<string>, ip: string)
    requires Waiting(s, cycle, pairs, sender, done)
    ensures multiset(MessagesOf(Arrive(s, ip).pending))
            == multiset(SubMessages(pairs, Keys(pairs), sender, done + {ip}))
  {
    var msgs := if ip in s.remotes then s.remotes[ip] else [];
    assert MessagesOf(Arrive(s, ip).pending) == MessagesOf(s.pending) + msgs;
    if ip in done {
      assert done + {ip} == done;
    } else {
      SplitByMachine(pairs, Keys(pairs), sender, done, ip);
      if ip !in s.remotes {
        NoSuchIp(pairs, Keys(pairs), sender, ip);
      }
    }
  }

  lemma {:induction false} RemoteTableWithout(pairs: seq<IpPort>, keys: seq<IpPort>, replyTo: Address,
                                              ips: set<string>, ip: string)
    ensures RemoteTable(pairs, keys, replyTo, ips) - {ip} == RemoteTable(pairs, keys, replyTo, ips - {ip})
  {
  }

  lemma {:induction false} ArriveKeepsWaiting(s: State, cycle: nat, pairs: seq<IpPort>, sender: Address,
                                              done: set<string>, ip: string)
    requires Waiting(s, cycle, pairs, sender, done)
    ensures Waiting(Arrive(s, ip), cycle, pairs, sender, done + {ip})
  {
    var keys := Keys(pairs);
    ArrivedMessages(s, cycle, pairs, sender, done, ip);
    RemoteTableWithout(pairs, keys, sender, RemoteIps(keys) - done, ip);
    assert RemoteIps(keys) - (done + {ip}) == RemoteIps(keys) - done - {ip};
  }

  /** One notice, whether first, repeated or about an unknown machine, keeps the books of a waiting dispatcher. */
  lemma {:induction false} NoticeWhileWaiting(s: State, cycle: nat, pairs: seq<IpPort>, sender: Address,
                                              done: set<string>, ip: string)
    requires Waiting(s, cycle, pairs, sender, done) && s.remotes != map[]
    ensures var (s', sent) := OnRemoteAdded(s, ip);
            if RemoteIps(Keys(pairs)) <= done + {ip} then
              Finished(s', cycle, pairs, sender) && SendsToAll(sent, cycle, pairs, sender)
            else
              Waiting(s', cycle, pairs, sender, done + {ip}) && s'.remotes != map[] && sent == []
  {
    ArriveKeepsWaiting(s, cycle, pairs, sender, done, ip);
    CompleteWhenNoneIsMissing(Arrive(s, ip), cycle, pairs, sender, done + {ip});
  }

  /** A notice after the messages went out, late or repeated, changes nothing and sends nothing. */
  lemma {:induction false} NothingLeft(s: State, ip: string)
    requires s.remotes == map[] && s.pending == []
    ensures OnRemoteAdded(s, ip) == (s, [])
  {
    assert s.remotes - {ip} == map[];
    assert s.pending + Assign(s.cycle, s.created, []) == [];
  }

  /** What has been sent once the machines `arrived` have checked in. */
  ghost predicate Progress(s: State, sent: seq<Post>, cycle: nat, pairs: seq<IpPort>, sender: Address,
                           arrived: set<string>) {
    if RemoteIps(Keys(pairs)) <= arrived then
      Finished(s, cycle, pairs, sender) && SendsToAll(sent, cycle, pairs, sender)
    else
      Waiting(s, cycle, pairs, sender, arrived) && s.remotes != map[] && sent == []
  }

  lemma {:induction false} WaitingCycle(s: State, cycle: nat, pairs: seq<IpPort>, sender: Address, done: set<string>)
    requires Waiting(s, cycle, pairs, sender, done)
    ensures s.cycle == cycle && forall ip :: OnRemoteAdded(s, ip).0.cycle == cycle
  {
  }

  lemma {:induction false} StillMissing(s: State, cycle: nat, pairs: seq<IpPort>, sender: Address, arrived: set<string>)
    requires Waiting(s, cycle, pairs, sender, arrived) && s.remotes != map[]
    ensures Progress(s, [], cycle, pairs, sender, arrived)
  {
    CompleteWhenNoneIsMissing(s, cycle, pairs, sender, arrived);
  }

  lemma {:induction false} StartProgress(cycle: nat, pairs: seq<IpPort>, sender: Address)
    ensures var (s, sent) := OnStartEngine(cycle, pairs, sender);
            Progress(s, sent, cycle, pairs, sender, {LOCAL_IP})
  {
    StartIsWaiting(cycle, pairs, sender);
    CompleteWhenNoneIsMissing(Collected(cycle, pairs, Keys(pairs), sender), cycle, pairs, sender, {LOCAL_IP});
  }

  lemma {:induction false} NoticeProgress(s: State, sent: seq<Post>, cycle: nat, pairs: seq<IpPort>, sender: Address,
                                          arrived: set<string>, ip: string)
    requires Progress(s, sent, cycle, pairs, sender, arrived)
    ensures var (s', more) := OnRemoteAdded(s, ip);
            Progress(s', sent + more, cycle, pairs, sender, arrived + {ip})
  {
    if RemoteIps(Keys(pairs)) <= arrived {
      NothingLeft(s, ip);
      assert sent + [] == sent;
    } else {
      NoticeWhileWaiting(s, cycle, pairs, sender, arrived, ip);
      assert [] + OnRemoteAdded(s, ip).1 == OnRemoteAdded(s, ip).1;
    }
  }

  function Arrived(ips: seq<string>): set<string> {
    {LOCAL_IP} + set ip | ip in ips
  }

  /** For every host list and every sequence of notices: nothing is sent while a remote machine is missing;
      once all have checked in, exactly one start message per distinct (ip, port) has been sent, whatever follows. */
  lemma {:induction false} DispatchRun(cycle: nat, pairs: seq<IpPort>, sender: Address, ips: seq<string>)
    ensures var (s, sent) := Run(cycle, pairs, sender, ips);
            Progress(s, sent, cycle, pairs, sender, Arrived(ips))
  {
    hide Progress, OnRemoteAdded, OnStartEngine;
    if ips == [] {
      StartProgress(cycle, pairs, sender);
      assert Arrived(ips) == {LOCAL_IP};
    } else {
      var before, ip := ips[..|ips| - 1], ips[|ips| - 1];
      DispatchRun(cycle, pairs, sender, before);
      var (s, sent) := Run(cycle, pairs, sender, before);
      NoticeProgress(s, sent, cycle, pairs, sender, Arrived(before), ip);
      assert ips == before + [ip];
      assert Arrived(ips) == Arrived(before) + {ip};
    }
  }

  // ----- what the messages say

  ghost predicate Ascending(ids: seq<nat>) {
    forall i, j :: 0 <= i < j < |ids| ==> ids[i] < ids[j]
  }

  /** A start message for some of the nodes, all of which are on its host. */
  ghost predicate StartsOn(msg: Message, pairs: seq<IpPort>, sender: Address) {
    && msg.StartNodes? && msg.replyTo == sender && msg.nodeIds != [] && Ascending(msg.nodeIds)
    && forall id :: id in msg.nodeIds ==> id < |pairs| && pairs[id] == msg.key
  }

  ghost predicate IsFor(post: Post, id: nat) {
    post.msg.StartNodes? && id in post.msg.nodeIds
  }

  ghost predicate IsStarted(sent: seq<Post>, id: nat) {
    exists i :: 0 <= i < |sent| && IsFor(sent[i], id)
  }

  /** Every node is started by one message, on its own host. */
  ghost predicate StartsEveryNode(sent: seq<Post>, cycle: nat, pairs: seq<IpPort>, sender: Address) {
    && (forall i :: 0 <= i < |sent| ==> sent[i].to == Node(cycle, i) && StartsOn(sent[i].msg, pairs, sender))
    && (forall id :: 0 <= id < |pairs| ==> IsStarted(sent, id))
    && (forall i, j, id :: 0 <= i < j < |sent| && IsFor(sent[i], id) ==> !IsFor(sent[j], id))
  }

  lemma {:induction false} SubMessageStarts(pairs: seq<IpPort>, key: IpPort, sender: Address)
    requires key in Keys(pairs)
    ensures IsMessageFor(SubMessage(pairs, key, sender), key, pairs, sender)
  {
    IdsAreThePositions(pairs, key);
    IdsPartition(pairs);
    hide IdsOf, Keys;
    assert forall id :: id in IdsOf(pairs, key) ==> 0 <= id < |pairs|;
  }

  lemma {:induction false} TwiceIsTwo<T>(s: seq<T>, i: nat, j: nat)
    requires i < j < |s| && s[i] == s[j]
    ensures multiset(s)[s[i]] >= 2
  {
    var front, back := s[..j], s[j..];
    assert s == front + back;
    assert front[i] == s[i] && back[0] == s[i];
    assert multiset(s) == multiset(front) + multiset(back);
  }

  lemma {:induction false} SendsToAllStarts(sent: seq<Post>, cycle: nat, pairs: seq<IpPort>, sender: Address)
    requires SendsToAll(sent, cycle, pairs, sender)
    ensures StartsEveryNode(sent, cycle, pairs, sender)
  {
    hide Keys, IdsOf, SubMessage, StartsOn;
    var keys := Keys(pairs);
    var all := AllSubMessages(pairs, keys, sender);
    KeysAreTheDistinctPairs(pairs);
    forall k | 0 <= k < |keys| ensures IsMessageFor(all[k], keys[k], pairs, sender) {
      SubMessageStarts(pairs, keys[k], sender);
    }
    SentIsAll(sent, all);
    hide AllSubMessages, MessagesOf;
    forall i | 0 <= i < |sent| ensures StartsOn(sent[i].msg, pairs, sender) {
      assert sent[i].msg in all;
    }
    forall id | 0 <= id < |pairs| ensures IsStarted(sent, id) {
      assert pairs[id] in keys;
      var k :| 0 <= k < |keys| && keys[k] == pairs[id];
      var i :| 0 <= i < |sent| && sent[i].msg == all[k];
      assert IsFor(sent[i], id);
    }
    forall i, j, id | 0 <= i < j < |sent| && IsFor(sent[i], id) ensures !IsFor(sent[j], id) {
      if IsFor(sent[j], id) {
        OnePerKey(sent, all, keys, pairs, sender, i, j, id);
        assert false;
      }
    }
  }

  ghost predicate IsMessageFor(msg: Message, key: IpPort, pairs: seq<IpPort>, sender: Address) {
    && StartsOn(msg, pairs, sender) && msg.StartNodes? && msg.key == key
    && forall id :: 0 <= id < |pairs| && pairs[id] == key ==> id in msg.nodeIds
  }

  /** The same messages in another order. */
  lemma {:induction false} SentIsAll(sent: seq<Post>, all: seq<Message>)
    requires multiset(MessagesOf(sent)) == multiset(all)
    ensures forall i :: 0 <= i < |sent| ==> sent[i].msg in all
    ensures forall k :: 0 <= k < |all| ==> exists i :: 0 <= i < |sent| && sent[i].msg == all[k]
  {
    var msgs := MessagesOf(sent);
    forall i | 0 <= i < |sent| ensures sent[i].msg in all {
      assert msgs[i] in multiset(all);
    }
    forall k | 0 <= k < |all| ensures exists i :: 0 <= i < |sent| && sent[i].msg == all[k] {
      assert all[k] in multiset(msgs);
      var i :| 0 <= i < |msgs| && msgs[i] == all[k];
      assert sent[i].msg == all[k];
    }
  }

  lemma {:induction false} OnePerKey(sent: seq<Post>, all: seq<Message>, keys: seq<IpPort>, pairs: seq<IpPort>,
                                     sender: Address, i: nat, j: nat, id: nat)
    requires |all| == |keys| && Distinct(keys) && multiset(MessagesOf(sent)) == multiset(all)
    requires forall k :: 0 <= k < |keys| ==> IsMessageFor(all[k], keys[k], pairs, sender)
    requires i < j < |sent| && IsFor(sent[i], id)
    ensures !IsFor(sent[j], id)
  {
    var msgs := MessagesOf(sent);
    SentIsAll(sent, all);
    hide MessagesOf;
    if IsFor(sent[j], id) {
      SameKeySameMessage(keys, all, sent[i].msg, sent[j].msg);
      assert msgs[i] == sent[i].msg && msgs[j] == sent[j].msg by {
        MessagesAre(sent);
      }
      TwiceIsTwo(msgs, i, j);
      assert Distinct(all);
      DistinctOnce(all, msgs[i]);
      assert false;
    }
  }

  lemma {:induction false} MessagesAre(sent: seq<Post>)
    ensures forall i :: 0 <= i < |sent| ==> MessagesOf(sent)[i] == sent[i].msg
  {
  }

  lemma {:induction false} SameKeySameMessage(keys: seq<IpPort>, all: seq<Message>, a: Message, b: Message)
    requires |all| == |keys| && Distinct(keys) && a in all && b in all
    requires forall k :: 0 <= k < |keys| ==> all[k].StartNodes? && all[k].key == keys[k]
    ensures a.key == b.key ==> a == b
  {
  }

  lemma {:induction false} RemoteIpsAre(keys: seq<IpPort>, ip: string)
    ensures ip in RemoteIps(keys) <==> ip != "127.0.0.1" && exists k :: 0 <= k < |keys| && keys[k].ip == ip
  {
    if keys != [] {
      RemoteIpsAre(keys[..|keys| - 1], ip);
      assert forall k :: 0 <= k < |keys| - 1 ==> keys[..|keys| - 1][k] == keys[k];
    }
  }

  /** For every host list and every sequence of notices: nothing is sent while a machine has not checked in; once all
      have, every node has been started by exactly one message, which is for its host and answers to the sender. */
  lemma {:induction false} EveryNodeIsStarted(cycle: nat, pairs: seq<IpPort>, sender: Address, ips: seq<string>)
    ensures var sent := Run(cycle, pairs, sender, ips).1;
            if forall id :: 0 <= id < |pairs| ==> pairs[id].ip == "127.0.0.1" || pairs[id].ip in ips
            then StartsEveryNode(sent, cycle, pairs, sender)
            else sent == []
  {
    hide Run, Keys, Waiting, Finished, SendsToAll, StartsEveryNode;
    DispatchRun(cycle, pairs, sender, ips);
    AllArrived(pairs, ips);
    var (s, sent) := Run(cycle, pairs, sender, ips);
    if SendsToAll(sent, cycle, pairs, sender) {
      SendsToAllStarts(sent, cycle, pairs, sender);
    }
  }

  lemma {:induction false} AllArrived(pairs: seq<IpPort>, ips: seq<string>)
    ensures RemoteIps(Keys(pairs)) <= Arrived(ips)
            <==> forall id :: 0 <= id < |pairs| ==> pairs[id].ip == "127.0.0.1" || pairs[id].ip in ips
  {
    var keys := Keys(pairs);
    KeysAreTheDistinctPairs(pairs);
    hide Keys, RemoteIps;
    forall ip {
      RemoteIpsAre(keys, ip);
    }
    if RemoteIps(keys) <= Arrived(ips) {
      forall id | 0 <= id < |pairs| ensures pairs[id].ip == "127.0.0.1" || pairs[id].ip in ips {
        assert pairs[id] in keys;
        var k :| 0 <= k < |keys| && keys[k] == pairs[id];
        assert pairs[id].ip != "127.0.0.1" ==> pairs[id].ip in RemoteIps(keys);
      }
    } else {
      var ip :| ip in RemoteIps(keys) && ip !in Arrived(ips);
      var k :| 0 <= k < |keys| && keys[k].ip == ip;
      assert keys[k] in pairs;
      var id :| 0 <= id < |pairs| && pairs[id] == keys[k];
    }
  }
}
