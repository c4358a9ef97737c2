/** One pass of the reconciler: compare every row with every node, and close the difference. */
module NacheReconciler {
  import opened Docker
  import opened NacheStore
  import opened NacheCompute
  import opened Wrappers

  /** What a pass does to the world, in order. */
  datatype Effect =
    | RunNode(key: Key)
    | Terminate(name: string)
    | Observe(key: Key, status: NodeStatus, active: bool)
    | Forget(key: Key)

  type Cluster = (Key, RowState)

  // ---- What has to be done ----

  function Tagged(nodes: seq<View>, k: Key): seq<View> {
    if nodes == [] then []
    else (if KeyOf(nodes[0]) == k then [nodes[0]] else []) + Tagged(nodes[1..], k)
  }

  function Terminates(nodes: seq<View>): seq<Effect> {
    seq(|nodes|, i requires 0 <= i < |nodes| => Terminate(nodes[i].name))
  }

  /** Everything of a cluster's that does not have its node's name. */
  function Strays(nodes: seq<View>, want: string): seq<View> {
    if nodes == [] then []
    else (if nodes[0].name == want then [] else [nodes[0]]) + Strays(nodes[1..], want)
  }

  /** The cluster's own node; the last one, should a listing name it twice. */
  function Own(nodes: seq<View>, want: string): Option<View> {
    if nodes == [] then None
    else if Own(nodes[1..], want).Some? then Own(nodes[1..], want)
    else if nodes[0].name == want then Some(nodes[0])
    else None
  }

  /** What to do about the cluster's own node. */
  function Decide(k: Key, own: Option<View>): seq<Effect> {
    if own.None? || own.value.state == Pending then [RunNode(k), Observe(k, NodeCreating, false)]
    else if own.value.state == Stopped || own.value.health == Unhealthy then
      [Terminate(NodeName(k.account, k.cluster)), Observe(k, NodeImpaired, false)]
    else if own.value.health == Healthy then [Observe(k, NodeAvailable, true)]
    else [Observe(k, NodeCreating, false)]
  }

  function PlanFor(c: Cluster, nodes: seq<View>): seq<Effect> {
    var want := NodeName(c.0.account, c.0.cluster);
    if c.1 == Deleting then Terminates(nodes) + [Forget(c.0)]
    else Terminates(Strays(nodes, want)) + Decide(c.0, Own(nodes, want))
  }

  /** One task for each cluster, then one for each orphan. */
  function Work(clusters: seq<Cluster>, nodes: seq<View>, orphans: seq<View>): seq<seq<Effect>> {
    ClusterWork(clusters, nodes) + OrphanWork(orphans)
  }

  function ClusterWork(clusters: seq<Cluster>, nodes: seq<View>): seq<seq<Effect>> {
    seq(|clusters|, i requires 0 <= i < |clusters| => PlanFor(clusters[i], Tagged(nodes, clusters[i].0)))
  }

  function OrphanWork(orphans: seq<View>): seq<seq<Effect>> {
    seq(|orphans|, i requires 0 <= i < |orphans| => [Terminate(orphans[i].name)])
  }

  function KeysOf(clusters: seq<Cluster>): set<Key> { set c | c in clusters :: c.0 }

  /** The nodes that belong to no cluster, in any order. */
  ghost predicate AreOrphans(clusters: seq<Cluster>, nodes: seq<View>, orphans: seq<View>) {
    forall v :: multiset(orphans)[v] == if KeyOf(v) in KeysOf(clusters) then 0 else multiset(nodes)[v]
  }

  // ---- What is done, given which effects fail ----

  function Size(tasks: seq<seq<Effect>>): nat {
    if tasks == [] then 0 else |tasks[0]| + 1 + Size(tasks[1..])
  }

  /** An effect that fails ends its task, and only its task. */
  function AfterAnswer(tasks: seq<seq<Effect>>, ok: bool): seq<seq<Effect>>
    requires tasks != [] && tasks[0] != []
  {
    (if ok then [tasks[0][1..]] else []) + tasks[1..]
  }

  lemma AnswerIsSmaller(tasks: seq<seq<Effect>>, ok: bool)
    requires tasks != [] && tasks[0] != []
    ensures Size(AfterAnswer(tasks, ok)) < Size(tasks)
  {
    if ok {
      assert AfterAnswer(tasks, ok)[1..] == tasks[1..];
    } else {
      assert AfterAnswer(tasks, ok) == tasks[1..];
    }
  }

  /** The effects issued, when the one issued as number `n` fails if `refuses(n)`. */
  function Issued(tasks: seq<seq<Effect>>, n: nat, refuses: nat -> bool): seq<Effect>
    decreases Size(tasks)
  {
    if tasks == [] then []
    else if tasks[0] == [] then Issued(tasks[1..], n, refuses)
    else
      AnswerIsSmaller(tasks, !refuses(n));
      [tasks[0][0]] + Issued(AfterAnswer(tasks, !refuses(n)), n + 1, refuses)
  }

  lemma IssuedUnfolds(tasks: seq<seq<Effect>>, n: nat, refuses: nat -> bool)
    requires tasks != []
    ensures tasks[0] == [] ==> Issued(tasks, n, refuses) == Issued(tasks[1..], n, refuses)
    ensures tasks[0] != [] ==>
      Issued(tasks, n, refuses) == [tasks[0][0]] + Issued(AfterAnswer(tasks, !refuses(n)), n + 1, refuses)
  {
    hide AfterAnswer;
  }

  lemma AnswerSplit(a: seq<seq<Effect>>, b: seq<seq<Effect>>, ok: bool)
    requires a != [] && a[0] != []
    ensures AfterAnswer(a + b, ok) == AfterAnswer(a, ok) + b
  {
    assert (a + b)[1..] == a[1..] + b;
  }

  lemma {:induction false} IssuedSplit(a: seq<seq<Effect>>, b: seq<seq<Effect>>, n: nat, refuses: nat -> bool)
    ensures Issued(a + b, n, refuses)
         == Issued(a, n, refuses) + Issued(b, n + |Issued(a, n, refuses)|, refuses)
    decreases Size(a)
  {
    hide Issued, AfterAnswer, Size;
    if a == [] {
      assert a + b == b;
      NothingIssued(n, refuses);
    } else {
      IssuedUnfolds(a, n, refuses);
      IssuedUnfolds(a + b, n, refuses);
      if a[0] == [] {
        assert (a + b)[1..] == a[1..] + b;
        TailIsSmaller(a);
        IssuedSplit(a[1..], b, n, refuses);
      } else {
        var todo := AfterAnswer(a, !refuses(n));
        AnswerIsSmaller(a, !refuses(n));
        AnswerSplit(a, b, !refuses(n));
        IssuedSplit(todo, b, n + 1, refuses);
        ConsSplit(a[0][0], Issued(todo, n + 1, refuses),
                  Issued(b, n + 1 + |Issued(todo, n + 1, refuses)|, refuses));
      }
    }
  }

  lemma NothingIssued(n: nat, refuses: nat -> bool)
    ensures Issued([], n, refuses) == []
  {}

  lemma TailIsSmaller(tasks: seq<seq<Effect>>)
    requires tasks != []
    ensures Size(tasks[1..]) < Size(tasks)
  {}

  lemma ConsSplit(e: Effect, a: seq<Effect>, b: seq<Effect>)
    ensures [e] + (a + b) == ([e] + a) + b
  {}

  lemma IssuedOneMore(tasks: seq<seq<Effect>>, e: Effect, n: nat, refuses: nat -> bool)
    ensures Issued(tasks + [[e]], n, refuses) == Issued(tasks, n, refuses) + [e]
  {
    hide Issued;
    IssuedSplit(tasks, [[e]], n, refuses);
    IssuedOne(e, n + |Issued(tasks, n, refuses)|, refuses);
  }

  lemma IssuedOne(e: Effect, n: nat, refuses: nat -> bool)
    ensures Issued([[e]], n, refuses) == [e]
  {
    hide Issued, AfterAnswer;
    var one: seq<seq<Effect>> := [[e]];
    var done: seq<seq<Effect>> := [[]];
    assert one[1..] == [] && one[0][1..] == [] && done[1..] == [] && done == [one[0][1..]] + [];
    IssuedUnfolds(one, n, refuses);
    FirstDone(one, []);
    IssuedUnfolds(done, n + 1, refuses);
    NothingIssued(n + 1, refuses);
  }

  lemma {:induction false} TaggedCount(nodes: seq<View>, k: Key, v: View)
    ensures multiset(Tagged(nodes, k))[v] == if KeyOf(v) == k then multiset(nodes)[v] else 0
  {
    if nodes != [] {
      TaggedCount(nodes[1..], k, v);
      assert nodes == [nodes[0]] + nodes[1..];
    }
  }

  /** The outside: the store and chala, seen from the reconciler. */
  class Port {
    const refuses: nat -> bool
    var issued: seq<Effect>

    constructor (refuses: nat -> bool)
      ensures this.refuses == refuses && issued == []
    {
      this.refuses := refuses;
      issued := [];
    }

    method Do(e: Effect) returns (ok: bool)
      modifies this
      ensures issued == old(issued) + [e] && ok == !refuses(|old(issued)|)
    {
      ok := !refuses(|issued|);
      issued := issued + [e];
    }

    /** What will have been issued once `tasks` are done too. */
    ghost function Outcome(tasks: seq<seq<Effect>>): seq<Effect>
      reads this
    {
      issued + Issued(tasks, |issued|, refuses)
    }

    /** Issues the head of the first task; `todo` is what that leaves. */
    method Next(ghost tasks: seq<seq<Effect>>, e: Effect) returns (ok: bool, ghost todo: seq<seq<Effect>>)
      requires tasks != [] && tasks[0] != [] && tasks[0][0] == e
      modifies this
      ensures todo == AfterAnswer(tasks, ok) && Outcome(todo) == old(Outcome(tasks))
      ensures ok == !refuses(|old(issued)|) && issued == old(issued) + [e]
    {
      hide AfterAnswer;
      ok := Do(e);
      todo := AfterAnswer(tasks, ok);
      assert old(issued) + ([e] + Issued(todo, |issued|, refuses)) == issued + Issued(todo, |issued|, refuses);
    }

    ghost predicate Clean(from: nat)
      reads this
    {
      forall i | from <= i < |issued| :: !refuses(i)
    }
  }

  lemma FirstDone(tasks: seq<seq<Effect>>, rest: seq<seq<Effect>>)
    requires tasks != [] && tasks[0] != [] && tasks[1..] == rest
    ensures AfterAnswer(tasks, false) == rest
    ensures AfterAnswer(tasks, true) == [tasks[0][1..]] + rest
  {}

  function Flat(tasks: seq<seq<Effect>>): seq<Effect> {
    if tasks == [] then [] else tasks[0] + Flat(tasks[1..])
  }

  /** With no failure, everything that was planned is issued. */
  lemma {:induction false} NothingRefused(tasks: seq<seq<Effect>>, n: nat)
    ensures Issued(tasks, n, m => false) == Flat(tasks)
    decreases Size(tasks)
  {
    hide Issued, AfterAnswer, Size;
    var never: nat -> bool := m => false;
    if tasks == [] {
      NothingIssued(n, never);
    } else {
      IssuedUnfolds(tasks, n, never);
      if tasks[0] == [] {
        TailIsSmaller(tasks);
        NothingRefused(tasks[1..], n);
      } else {
        AnswerIsSmaller(tasks, true);
        FirstDone(tasks, tasks[1..]);
        NothingRefused(AfterAnswer(tasks, true), n + 1);
        ConsFlat(tasks);
      }
    }
  }

  lemma ConsFlat(tasks: seq<seq<Effect>>)
    requires tasks != [] && tasks[0] != []
    ensures [tasks[0][0]] + Flat([tasks[0][1..]] + tasks[1..]) == Flat(tasks)
  {
    assert ([tasks[0][1..]] + tasks[1..])[1..] == tasks[1..];
  }

  lemma EmptyTask(p: Port, rest: seq<seq<Effect>>)
    ensures p.Outcome([[]] + rest) == p.Outcome(rest)
  {
    var tasks: seq<seq<Effect>> := [[]] + rest;
    assert tasks[1..] == rest;
  }

  function Filed(byCluster: map<Key, seq<View>>, k: Key): seq<View> {
    if k in byCluster then byCluster[k] else []
  }

  lemma NoOrphanWork()
    ensures OrphanWork([]) == []
  {}

  lemma KeysOfNone()
    ensures KeysOf([]) == {}
  {}

  lemma KeysOfOneMore(clusters: seq<Cluster>, i: nat)
    requires i < |clusters|
    ensures KeysOf(clusters[..i + 1]) == KeysOf(clusters[..i]) + {clusters[i].0}
  {
    assert clusters[..i + 1] == clusters[..i] + [clusters[i]];
  }

  lemma KeyIsNew(clusters: seq<Cluster>, i: nat)
    requires i < |clusters| && forall i, j | 0 <= i < j < |clusters| :: clusters[i].0 != clusters[j].0
    ensures clusters[i].0 !in KeysOf(clusters[..i])
  {}

  lemma Regroup(a: seq<Effect>, b: seq<Effect>, c: seq<Effect>)
    ensures (a + b) + c == a + (b + c) && b + [] == b
  {}

  class Reconciler {
    const port: Port

    constructor (port: Port)
      ensures this.port == port
    {
      this.port := port;
    }

    /** One effect, the head of the first task. */
    method Attempt(e: Effect, ghost after: seq<Effect>, ghost rest: seq<seq<Effect>>) returns (ok: bool)
      modifies port
      ensures port.Outcome(if ok then [after] + rest else rest) == old(port.Outcome([[e] + after] + rest))
      ensures port.issued == old(port.issued) + [e]
      ensures ok == !port.refuses(|old(port.issued)|)
    {
      hide Issued;
      ghost var tasks := [[e] + after] + rest;
      assert tasks[1..] == rest && tasks[0][1..] == after;
      FirstDone(tasks, rest);
      ghost var todo;
      ok, todo := port.Next(tasks, e);
    }

    method TerminateAll(nodes: seq<View>, ghost after: seq<Effect>, ghost rest: seq<seq<Effect>>)
      returns (ok: bool)
      modifies port
      ensures port.Outcome(if ok then [after] + rest else rest)
           == old(port.Outcome([Terminates(nodes) + after] + rest))
      ensures old(port.issued) <= port.issued && (ok <==> port.Clean(|old(port.issued)|))
    {
      hide Issued;
      assert Terminates(nodes[0..]) == Terminates(nodes);
      for i := 0 to |nodes|
        invariant port.Outcome([Terminates(nodes[i..]) + after] + rest)
               == old(port.Outcome([Terminates(nodes) + after] + rest))
        invariant old(port.issued) <= port.issued && port.Clean(|old(port.issued)|)
      {
        assert Terminates(nodes[i..]) + after == [Terminate(nodes[i].name)] + (Terminates(nodes[i + 1..]) + after);
        ok := Attempt(Terminate(nodes[i].name), Terminates(nodes[i + 1..]) + after, rest);
        if !ok {
          return false;
        }
      }
      assert Terminates(nodes[|nodes|..]) + after == after;
      return true;
    }

    /** Keeps the node named `want` and terminates the others. */
    method RemoveStrays(nodes: seq<View>, want: string, ghost after: seq<Effect>, ghost rest: seq<seq<Effect>>)
      returns (ok: bool, node: Option<View>)
      modifies port
      ensures port.Outcome(if ok then [after] + rest else rest)
           == old(port.Outcome([Terminates(Strays(nodes, want)) + after] + rest))
      ensures ok ==> node == Own(nodes, want)
      ensures old(port.issued) <= port.issued && (ok <==> port.Clean(|old(port.issued)|))
    {
      hide Issued;
      node := None;
      assert nodes[0..] == nodes;
      for i := 0 to |nodes|
        invariant port.Outcome([Terminates(Strays(nodes[i..], want)) + after] + rest)
               == old(port.Outcome([Terminates(Strays(nodes, want)) + after] + rest))
        invariant Own(nodes, want) == if Own(nodes[i..], want).Some? then Own(nodes[i..], want) else node
        invariant old(port.issued) <= port.issued && port.Clean(|old(port.issued)|)
      {
        assert nodes[i..][1..] == nodes[i + 1..];
        ghost var left := Terminates(Strays(nodes[i + 1..], want));
        if nodes[i].name == want {
          assert Strays(nodes[i..], want) == Strays(nodes[i + 1..], want);
          node := Some(nodes[i]);
          continue;
        }
        assert Terminates(Strays(nodes[i..], want)) + after == [Terminate(nodes[i].name)] + (left + after);
        ok := Attempt(Terminate(nodes[i].name), left + after, rest);
        if !ok {
          return false, None;
        }
      }
      assert Terminates(Strays(nodes[|nodes|..], want)) + after == after;
      ok := true;
    }

    /** `reconcile`: closes the gap for one cluster. */
    method Reconcile(c: Cluster, nodes: seq<View>, ghost rest: seq<seq<Effect>>) returns (ok: bool)
      modifies port
      ensures port.Outcome(rest) == old(port.Outcome([PlanFor(c, nodes)] + rest))
      ensures old(port.issued) <= port.issued && (ok <==> port.Clean(|old(port.issued)|))
    {
      hide Issued, Decide, Own, Strays;
      var (k, state) := c;
      var want := NodeName(k.account, k.cluster);
      EmptyTask(port, rest);
      if state == Deleting {
        ok := TerminateAll(nodes, [Forget(k)], rest);
        if !ok {
          return;
        }
        assert [Forget(k)] == [Forget(k)] + [];
        ok := Attempt(Forget(k), [], rest);
        EmptyTask(port, rest);
        return;
      }
      var node;
      ok, node := RemoveStrays(nodes, want, Decide(k, Own(nodes, want)), rest);
      if !ok {
        return;
      }
      ok := Act(k, node, rest);
    }

    method Act(k: Key, node: Option<View>, ghost rest: seq<seq<Effect>>) returns (ok: bool)
      modifies port
      ensures port.Outcome(rest) == old(port.Outcome([Decide(k, node)] + rest))
      ensures old(port.issued) <= port.issued && (ok <==> port.Clean(|old(port.issued)|))
    {
      hide Issued;
      var status := NodeCreating;
      if node.None? || node.value.state == Pending {
        assert Decide(k, node) == [RunNode(k)] + [Observe(k, NodeCreating, false)];
        ok := Attempt(RunNode(k), [Observe(k, NodeCreating, false)], rest);
        if !ok {
          return;
        }
      } else if node.value.state == Stopped || node.value.health == Unhealthy {
        assert Decide(k, node)
            == [Terminate(NodeName(k.account, k.cluster))] + [Observe(k, NodeImpaired, false)];
        ok := Attempt(Terminate(NodeName(k.account, k.cluster)), [Observe(k, NodeImpaired, false)], rest);
        if !ok {
          return;
        }
        status := NodeImpaired;
      } else if node.value.health == Healthy {
        status := NodeAvailable;
      }
      ghost var last := Observe(k, status, status == NodeAvailable);
      assert [last] == [last] + [];
      ok := Attempt(Observe(k, status, status == NodeAvailable), [], rest);
      EmptyTask(port, rest);
    }

    /** The nodes by the cluster they are tagged for. */
    method Group(nodes: seq<View>) returns (byCluster: map<Key, seq<View>>)
      ensures forall k :: Filed(byCluster, k) == Tagged(nodes, k)
    {
      byCluster := map[];
      assert nodes[0..] == nodes;
      for i := 0 to |nodes|
        invariant forall k :: Tagged(nodes, k) == Filed(byCluster, k) + Tagged(nodes[i..], k)
      {
        var k := KeyOf(nodes[i]);
        assert nodes[i..][1..] == nodes[i + 1..];
        byCluster := byCluster[k := Filed(byCluster, k) + [nodes[i]]];
      }
    }

    /** The clusters, one after the other; `left` are the nodes filed under no cluster. */
    method PassClusters(clusters: seq<Cluster>, nodes: seq<View>) returns (ok: bool, left: map<Key, seq<View>>)
      requires forall i, j | 0 <= i < j < |clusters| :: clusters[i].0 != clusters[j].0
      modifies port
      ensures port.Outcome([]) == old(port.Outcome(ClusterWork(clusters, nodes)))
      ensures forall k :: Filed(left, k) == if k in KeysOf(clusters) then [] else Tagged(nodes, k)
      ensures old(port.issued) <= port.issued && (ok <==> port.Clean(|old(port.issued)|))
    {
      hide Issued, PlanFor, Tagged, KeysOf;
      left := Group(nodes);
      ok := true;
      assert clusters[0..] == clusters;
      KeysOfNone();
      for i := 0 to |clusters|
        invariant port.Outcome(ClusterWork(clusters[i..], nodes)) == old(port.Outcome(ClusterWork(clusters, nodes)))
        invariant forall k :: Filed(left, k) == if k in KeysOf(clusters[..i]) then [] else Tagged(nodes, k)
        invariant old(port.issued) <= port.issued && (ok <==> port.Clean(|old(port.issued)|))
      {
        var k := clusters[i].0;
        KeysOfOneMore(clusters, i);
        KeyIsNew(clusters, i);
        ghost var rest := ClusterWork(clusters[i + 1..], nodes);
        assert ClusterWork(clusters[i..], nodes) == [PlanFor(clusters[i], Filed(left, k))] + rest;
        var fine := Reconcile(clusters[i], Filed(left, k), rest);
        ok := ok && fine;
        left := left - {k};
      }
      assert clusters[..|clusters|] == clusters;
      assert ClusterWork(clusters[|clusters|..], nodes) == [];
    }

    /** The nodes of one key.  `from` is where the orphans' effects start. */
    method TerminateOrphans(nodes: seq<View>, before: seq<View>, ghost from: seq<Effect>)
      returns (ok: bool, orphans: seq<View>)
      requires port.issued == from + Issued(OrphanWork(before), |from|, port.refuses)
      modifies port
      ensures port.issued == from + Issued(OrphanWork(orphans), |from|, port.refuses)
      ensures orphans == before + nodes
      ensures old(port.issued) <= port.issued && (ok <==> port.Clean(|old(port.issued)|))
    {
      hide Issued;
      ok, orphans := true, before;
      for i := 0 to |nodes|
        invariant orphans == before + nodes[..i]
        invariant port.issued == from + Issued(OrphanWork(orphans), |from|, port.refuses)
        invariant old(port.issued) <= port.issued && (ok <==> port.Clean(|old(port.issued)|))
      {
        var e := Terminate(nodes[i].name);
        assert OrphanWork(orphans + [nodes[i]]) == OrphanWork(orphans) + [[e]];
        IssuedOneMore(OrphanWork(orphans), e, |from|, port.refuses);
        var fine := port.Do(e);
        ok := ok && fine;
        orphans := orphans + [nodes[i]];
      }
    }

    /** What is left belongs to no cluster.  The keys are taken in any order. */
    method PassOrphans(left: map<Key, seq<View>>) returns (ok: bool, orphans: seq<View>)
      requires forall k, v | k in left && v in left[k] :: KeyOf(v) == k
      modifies port
      ensures port.issued == old(port.issued)
        + Issued(OrphanWork(orphans), |old(port.issued)|, port.refuses)
      ensures forall v :: multiset(orphans)[v] == multiset(Filed(left, KeyOf(v)))[v]
      ensures ok <==> port.Clean(|old(port.issued)|)
    {
      hide Issued, KeyOf, OrphanWork;
      ok, orphans := true, [];
      ghost var from := port.issued;
      var keys := left.Keys;
      NoOrphanWork();
      NothingIssued(|port.issued|, port.refuses);
      while keys != {}
        invariant keys <= left.Keys
        invariant from <= port.issued && port.issued == from + Issued(OrphanWork(orphans), |from|, port.refuses)
        invariant forall v ::
          multiset(orphans)[v] == if KeyOf(v) in keys then 0 else multiset(Filed(left, KeyOf(v)))[v]
        invariant ok <==> port.Clean(|from|)
      {
        var k :| k in keys;
        forall v | KeyOf(v) != k ensures multiset(left[k])[v] == 0 {}
        var fine;
        fine, orphans := TerminateOrphans(left[k], orphans, from);
        ok := ok && fine;
        keys := keys - {k};
      }
    }

    /** `Pass`, from the two listings on.  What was taken for an orphan is returned in order. */
    method Pass(clusters: seq<Cluster>, nodes: seq<View>) returns (ok: bool, orphans: seq<View>)
      requires forall i, j | 0 <= i < j < |clusters| :: clusters[i].0 != clusters[j].0
      modifies port
      ensures port.issued == old(port.issued)
        + Issued(Work(clusters, nodes, orphans), |old(port.issued)|, port.refuses)
      ensures AreOrphans(clusters, nodes, orphans)
      ensures ok <==> port.Clean(|old(port.issued)|)
    {
      hide Issued, Tagged, ClusterWork, OrphanWork, KeyOf, KeysOf;
      forall k, v ensures multiset(Tagged(nodes, k))[v] == if KeyOf(v) == k then multiset(nodes)[v] else 0 {
        TaggedCount(nodes, k, v);
      }
      ghost var was := port.issued;
      var left, fine;
      ok, left := PassClusters(clusters, nodes);
      NothingIssued(|port.issued|, port.refuses);
      Regroup(was, port.issued, []);
      forall k, v | k in left && v in left[k] ensures KeyOf(v) == k {
        assert Filed(left, k) == left[k];
        assert multiset(left[k])[v] > 0;
      }
      fine, orphans := PassOrphans(left);
      ok := ok && fine;
      ghost var first := Issued(ClusterWork(clusters, nodes), |was|, port.refuses);
      ghost var second := Issued(OrphanWork(orphans), |was + first|, port.refuses);
      IssuedSplit(ClusterWork(clusters, nodes), OrphanWork(orphans), |was|, port.refuses);
      Regroup(was, first, second);
    }
  }

  // ---- What a pass does about each node and each row ----

  lemma {:induction false} InFlat(tasks: seq<seq<Effect>>, e: Effect)
    ensures e in Flat(tasks) <==> exists i :: 0 <= i < |tasks| && e in tasks[i]
  {
    if tasks != [] {
      InFlat(tasks[1..], e);
      if i :| 0 <= i < |tasks| && e in tasks[i] {
        assert i > 0 ==> tasks[1..][i - 1] == tasks[i];
      }
      if i :| 0 <= i < |tasks| - 1 && e in tasks[1..][i] {
        assert tasks[i + 1] == tasks[1..][i];
      }
    }
  }

  lemma {:induction false} TaggedHas(nodes: seq<View>, k: Key, v: View)
    ensures v in Tagged(nodes, k) <==> v in nodes && KeyOf(v) == k
  {
    hide KeyOf;
    if nodes != [] {
      TaggedHas(nodes[1..], k, v);
    }
  }

  lemma {:induction false} StraysHas(nodes: seq<View>, want: string, v: View)
    ensures v in Strays(nodes, want) <==> v in nodes && v.name != want
  {
    if nodes != [] {
      StraysHas(nodes[1..], want, v);
    }
  }

  lemma {:induction false} OwnIsOne(nodes: seq<View>, want: string)
    ensures Own(nodes, want).Some? ==> Own(nodes, want).value in nodes && Own(nodes, want).value.name == want
    ensures Own(nodes, want).None? ==> forall v | v in nodes :: v.name != want
  {
    if nodes != [] {
      OwnIsOne(nodes[1..], want);
    }
  }

  lemma TerminatesHas(nodes: seq<View>, e: Effect)
    ensures e in Terminates(nodes) <==> e.Terminate? && exists v :: v in nodes && v.name == e.name
  {
    if e.Terminate? {
      if v :| v in nodes && v.name == e.name {
        var i :| 0 <= i < |nodes| && nodes[i] == v;
        assert Terminates(nodes)[i] == e;
      }
    }
  }

  /** A node that is replaced: it has stopped, or it runs and is not well. */
  predicate Failing(v: View) { v.state != Pending && (v.state == Stopped || v.health == Unhealthy) }

  /** The cluster's own node, in this listing. */
  predicate IsOwn(v: View, k: Key) { KeyOf(v) == k && v.name == NodeName(k.account, k.cluster) }

  /** Whose nodes a listing shows is told apart by their names. */
  predicate DistinctNames(nodes: seq<View>) {
    forall i, j | 0 <= i < j < |nodes| :: nodes[i].name != nodes[j].name
  }

  /** What is planned for one cluster. */
  ghost predicate PlansAs(c: Cluster, nodes: seq<View>, e: Effect) {
    var (k, state) := c;
    match e
    case Terminate(name) =>
      exists v :: v in nodes && v.name == name && KeyOf(v) == k && (state == Deleting || !IsOwn(v, k) || Failing(v))
    case RunNode(key) => key == k && state != Deleting && forall v | v in nodes && IsOwn(v, k) :: v.state == Pending
    case Forget(key) => key == k && state == Deleting
    case Observe(key, status, active) =>
      && key == k && state != Deleting && (active <==> status == NodeAvailable)
      && (status == NodeImpaired <==> exists v :: v in nodes && IsOwn(v, k) && Failing(v))
      && (status == NodeAvailable <==>
            exists v :: v in nodes && IsOwn(v, k) && v.state != Pending && v.state != Stopped && v.health == Healthy)
  }

  lemma PlanIff(c: Cluster, nodes: seq<View>, e: Effect)
    requires DistinctNames(nodes)
    ensures e in PlanFor(c, Tagged(nodes, c.0)) <==> PlansAs(c, nodes, e)
  {
    hide Tagged, Own, Strays, KeyOf, NodeName, Terminates;
    var (k, state) := c;
    var want, tagged := NodeName(k.account, k.cluster), Tagged(nodes, k);
    forall v ensures v in tagged <==> v in nodes && KeyOf(v) == k { TaggedHas(nodes, k, v); }
    forall v ensures v in Strays(tagged, want) <==> v in tagged && v.name != want { StraysHas(tagged, want, v); }
    TerminatesHas(tagged, e);
    TerminatesHas(Strays(tagged, want), e);
    OwnIsOne(tagged, want);
    forall v | v in nodes && IsOwn(v, k) ensures Own(tagged, want) == Some(v) {
      OnlyName(nodes, v, Own(tagged, want).value);
    }
    DecideIff(k, Own(tagged, want), e);
  }

  lemma OnlyName(nodes: seq<View>, u: View, v: View)
    requires DistinctNames(nodes) && u in nodes && v in nodes && u.name == v.name
    ensures u == v
  {}

  lemma DecideIff(k: Key, own: Option<View>, e: Effect)
    ensures e in Decide(k, own) <==>
      match e
      case Terminate(name) => name == NodeName(k.account, k.cluster) && own.Some? && Failing(own.value)
      case RunNode(key) => key == k && (own.Some? ==> own.value.state == Pending)
      case Forget(_) => false
      case Observe(key, status, active) =>
        && key == k && (active <==> status == NodeAvailable)
        && (status == NodeImpaired <==> own.Some? && Failing(own.value))
        && (status == NodeAvailable <==>
              own.Some? && own.value.state != Pending && own.value.state != Stopped && own.value.health == Healthy)
  {
    hide NodeName;
  }

  /** Everything a pass would do, whatever its two listings show: it terminates exactly the nodes of clusters that
      are gone or being deleted, strays and nodes that fail; it asks for exactly the nodes that are missing or
      half made; it forgets exactly the rows that are being deleted, and writes of the others what was seen. */
  lemma PassDoes(clusters: seq<Cluster>, nodes: seq<View>, orphans: seq<View>, e: Effect)
    requires DistinctNames(nodes) && AreOrphans(clusters, nodes, orphans)
    ensures e in Flat(Work(clusters, nodes, orphans)) <==>
      || (exists c :: c in clusters && PlansAs(c, nodes, e))
      || (e.Terminate? && exists v ::
            v in nodes && v.name == e.name && forall c | c in clusters :: c.0 != KeyOf(v))
  {
    hide PlanFor, Tagged, KeyOf, PlansAs;
    var tasks := Work(clusters, nodes, orphans);
    InFlat(tasks, e);
    forall v ensures v in orphans <==> v in nodes && forall c | c in clusters :: c.0 != KeyOf(v) {
      OrphanIff(clusters, nodes, orphans, v);
    }
    if i :| 0 <= i < |tasks| && e in tasks[i] {
      if i < |clusters| {
        PlanIff(clusters[i], nodes, e);
      } else {
        assert tasks[i] == [Terminate(orphans[i - |clusters|].name)];
      }
    }
    if c :| c in clusters && PlansAs(c, nodes, e) {
      var i :| 0 <= i < |clusters| && clusters[i] == c;
      PlanIff(c, nodes, e);
      assert tasks[i] == PlanFor(c, Tagged(nodes, c.0));
    }
    if v :| e.Terminate? && v in orphans && v.name == e.name {
      var i :| 0 <= i < |orphans| && orphans[i] == v;
      assert tasks[|clusters| + i] == [e];
    }
  }

  lemma OrphanIff(clusters: seq<Cluster>, nodes: seq<View>, orphans: seq<View>, v: View)
    requires AreOrphans(clusters, nodes, orphans)
    ensures v in orphans <==> v in nodes && forall c | c in clusters :: c.0 != KeyOf(v)
  {
    hide KeyOf;
    assert v in orphans <==> multiset(orphans)[v] > 0;
    assert v in nodes <==> multiset(nodes)[v] > 0;
    assert KeyOf(v) in KeysOf(clusters) <==> exists c :: c in clusters && c.0 == KeyOf(v);
  }
}
