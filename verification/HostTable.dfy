/** The table of node ids per (ip, port): builder.py, nodes_by_host. */
module HostTable {
  datatype IpPort = IpPort(ip: string, port: nat)

  /** The distinct pairs in the order in which they first occur: the key order of the Python dictionary. */
  function Keys(pairs: seq<IpPort>): seq<IpPort>
  {
    if pairs == [] then []
    else
      var front, last := Keys(pairs[..|pairs| - 1]), pairs[|pairs| - 1];
      if last in front then front else front + [last]
  }

  /** The positions of `key` in `pairs`: the node ids that live on this host. */
  function IdsOf(pairs: seq<IpPort>, key: IpPort): seq<nat>
  {
    if pairs == [] then []
    else
      var n := |pairs| - 1;
      IdsOf(pairs[..n], key) + if pairs[n] == key then [n] else []
  }

  ghost predicate Distinct<T>(s: seq<T>) {
    forall i, j :: 0 <= i < j < |s| ==> s[i] != s[j]
  }

  lemma {:induction false} DistinctOnce<T>(s: seq<T>, x: T)
    requires Distinct(s)
    ensures multiset(s)[x] == if x in s then 1 else 0
  {
    if s != [] {
      var n := |s| - 1;
      assert s == s[..n] + [s[n]];
      DistinctOnce(s[..n], x);
    }
  }

  lemma {:induction false} KeysAreTheDistinctPairs(pairs: seq<IpPort>)
    ensures forall p :: p in Keys(pairs) <==> p in pairs
    ensures Distinct(Keys(pairs))
  {
    if pairs != [] {
      var n := |pairs| - 1;
      KeysAreTheDistinctPairs(pairs[..n]);
      assert pairs == pairs[..n] + [pairs[n]];
    }
  }

  lemma {:induction false} IdsAreThePositions(pairs: seq<IpPort>, key: IpPort)
    ensures forall i :: i in IdsOf(pairs, key) <==> 0 <= i < |pairs| && pairs[i] == key
    ensures forall i, j :: 0 <= i < j < |IdsOf(pairs, key)| ==> IdsOf(pairs, key)[i] < IdsOf(pairs, key)[j]
  {
    if pairs != [] {
      var n := |pairs| - 1;
      IdsAreThePositions(pairs[..n], key);
      var front := IdsOf(pairs[..n], key);
      assert forall k :: 0 <= k < |front| ==> front[k] in front;
    }
  }

  ghost predicate FirstAt(pairs: seq<IpPort>, key: IpPort, i: nat) {
    i < |pairs| && pairs[i] == key && forall j :: 0 <= j < i ==> pairs[j] != key
  }

  /** The keys stand in the order in which they first occur. */
  lemma {:induction false} KeysInOrder(pairs: seq<IpPort>, a: nat, b: nat, i: nat, j: nat)
    requires a < b < |Keys(pairs)| && FirstAt(pairs, Keys(pairs)[a], i) && FirstAt(pairs, Keys(pairs)[b], j)
    ensures i < j
  {
    var n := |pairs| - 1;
    var front := Keys(pairs[..n]);
    KeysAreTheDistinctPairs(pairs[..n]);
    assert front[a] in front;
    assert pairs[..n][i] == pairs[i] by {
      assert front[a] in pairs[..n];
    }
    if b < |front| {
      assert front[b] in front;
      assert front[b] in pairs[..n];
      KeysInOrder(pairs[..n], a, b, i, j);
    }
  }

  method NodesByHost(pairs: seq<IpPort>) returns (keys: seq<IpPort>, nodes: map<IpPort, seq<nat>>)
    ensures keys == Keys(pairs)
    ensures forall p :: p in nodes <==> p in keys
    ensures forall p :: p in nodes ==> nodes[p] == IdsOf(pairs, p)
  {
    keys, nodes := [], map[];
    var nodeId := 0;
    for i := 0 to |pairs|
      invariant nodeId == i
      invariant keys == Keys(pairs[..i])
      invariant forall p :: p in nodes <==> p in keys
      invariant forall p :: p in nodes ==> nodes[p] == IdsOf(pairs[..i], p)
    {
      var pair := pairs[i];
      assert pairs[..i + 1][..i] == pairs[..i];
      if pair !in nodes {
        AbsentHasNoIds(pairs[..i], pair);
        keys := keys + [pair];
        nodes := nodes[pair := []];
      }
      nodes := nodes[pair := nodes[pair] + [nodeId]];
      nodeId := nodeId + 1;
    }
    assert pairs[..|pairs|] == pairs;
  }

  lemma {:induction false} AbsentHasNoIds(pairs: seq<IpPort>, key: IpPort)
    requires key !in Keys(pairs)
    ensures IdsOf(pairs, key) == []
  {
    if pairs != [] {
      AbsentHasNoIds(pairs[..|pairs| - 1], key);
    }
  }

  /** Every node id 0 .. |pairs| - 1 is listed exactly once, on exactly one of the distinct hosts. */
  lemma {:induction false} IdsPartition(pairs: seq<IpPort>)
    ensures forall i :: 0 <= i < |pairs| ==> pairs[i] in Keys(pairs) && i in IdsOf(pairs, pairs[i])
    ensures forall i, key :: key in Keys(pairs) && i in IdsOf(pairs, key) ==> 0 <= i < |pairs| && pairs[i] == key
    ensures forall key :: key in Keys(pairs) ==> Distinct(IdsOf(pairs, key)) && IdsOf(pairs, key) != []
  {
    KeysAreTheDistinctPairs(pairs);
    forall key ensures forall i :: i in IdsOf(pairs, key) <==> 0 <= i < |pairs| && pairs[i] == key
    {
      IdsAreThePositions(pairs, key);
    }
    forall key | key in Keys(pairs)
      ensures Distinct(IdsOf(pairs, key)) && IdsOf(pairs, key) != []
    {
      IdsAreThePositions(pairs, key);
      var i :| 0 <= i < |pairs| && pairs[i] == key;
      assert i in IdsOf(pairs, key);
    }
  }
}
