/** What a pass sees in its listing, while other accounts go on and nodes turn healthy. */
module NacheListing {
  import opened ChalaNames
  import opened Docker
  import opened Chala
  import opened NacheStore
  import opened NacheCompute
  import opened NacheReconciler
  import opened NacheRuns
  import opened NacheQuiet
  import opened Wrappers
  import Handlers = ChalaRuns

  /** A view of a container, taken when it was no older. */
  predicate Fits(v: View, c: Container) {
    && v.name == c.made.name && v.tags == TagsFrom(LabelsFor(c.made)) && v.state == StateOf(c.status)
    && (v.health == c.health || (c.health == Healthy && StateOf(c.status) == InService))
  }

  lemma FitsNow(c: Container)
    ensures Fits(ViewOf(c), c)
  {
    hide TagsFrom, LabelsFor;
  }

  lemma FitsOn(v: View, c: Container, c': Container)
    requires Fits(v, c) && Aged(c, c')
    ensures Fits(v, c')
  {
    hide TagsFrom, LabelsFor, StateOf;
  }

  /** Nothing of nache's has changed, but that nodes may have turned healthy. */
  ghost predicate SameSoFar(cfg: Config, s: State, s': State) {
    s'.rows == s.rows
    && forall slot: Slot | slot.account == cfg.nache :: Kept(s.chala.daemon, s'.chala.daemon, slot)
  }

  lemma SameSelf(cfg: Config, s: State)
    ensures SameSoFar(cfg, s, s)
  {}

  lemma SameOn(cfg: Config, s: State, s1: State, s2: State)
    requires SameSoFar(cfg, s, s1) && SameSoFar(cfg, s1, s2)
    ensures SameSoFar(cfg, s, s2)
  {
    hide Kept;
    forall slot: Slot | slot.account == cfg.nache ensures Kept(s.chala.daemon, s2.chala.daemon, slot) {
      KeptOn(s.chala.daemon, s1.chala.daemon, s2.chala.daemon, slot);
    }
  }

  /** As long as the pass is not at an effect, no quiet step changes anything of nache's. */
  lemma NothingChanges(cfg: Config, s: State, step: Step)
    requires Enabled(cfg, s, step) && Quiet(cfg, s, step) && OnlyOwn(cfg, s) && !At(s.pass)
    ensures SameSoFar(cfg, s, After(cfg, s, step))
  {
    hide Handlers.Enabled, Handlers.After, QuietCall, Kept, Work, ListsAll, AreOrphans, AllIds, ViewOf, KeyOf,
      ShowsHealthy, Marked, CreateStep, Shows;
    var s' := After(cfg, s, step);
    SameSelf(cfg, s);
    if step.Compute? {
      forall slot: Slot | slot.account == cfg.nache ensures Kept(s.chala.daemon, s'.chala.daemon, slot) {
        CallKeeps(cfg, s, step.step, slot);
      }
    } else {
      SameDaemon(cfg, s, s');
    }
  }

  lemma SameDaemon(cfg: Config, s: State, s': State)
    requires s'.rows == s.rows && s'.chala.daemon == s.chala.daemon
    ensures SameSoFar(cfg, s, s')
  {}

  // ---- The listing ----

  ghost predicate ListedSoFar(cfg: Config, d: Daemon, pass: Pass)
    requires pass.Listing?
  {
    && (forall slot | slot in pass.todo ::
          slot.account == cfg.nache && slot in d.containers && d.containers[slot].id == pass.todo[slot])
    && (forall v | v in pass.seen ::
          var slot := Slot(cfg.nache, v.name);
          slot in d.containers && slot !in pass.todo && Fits(v, d.containers[slot]))
    && (forall slot | slot in d.containers && slot.account == cfg.nache ::
          slot in pass.todo || exists v :: v in pass.seen && v.name == slot.name)
    && (forall i, j | 0 <= i < j < |pass.seen| :: pass.seen[i].name != pass.seen[j].name)
  }

  lemma ListedOn(cfg: Config, s: State, s': State)
    requires s.pass.Listing? && s'.pass == s.pass && ListedSoFar(cfg, s.chala.daemon, s.pass)
    requires SameSoFar(cfg, s, s')
    ensures ListedSoFar(cfg, s'.chala.daemon, s'.pass)
  {
    hide Fits;
    var d, d' := s.chala.daemon, s'.chala.daemon;
    forall v | v in s.pass.seen
      ensures Slot(cfg.nache, v.name) in d'.containers && Fits(v, d'.containers[Slot(cfg.nache, v.name)])
    {
      var slot := Slot(cfg.nache, v.name);
      assert Kept(d, d', slot);
      FitsOn(v, d.containers[slot], d'.containers[slot]);
    }
  }

  lemma ListingStarts(cfg: Config, s: State)
    requires Inv(cfg, s) && s.pass.Listed?
    ensures ListedSoFar(cfg, s.chala.daemon, Listing(s.pass.clusters, AllIds(cfg, s.chala.daemon), []))
  {
    hide Validated, ClustersOk, RowsOk, Asks, NodeRequest, IsListed, Fits, Handlers.GoodRuns;
    var d := s.chala.daemon;
    forall slot | slot in d.containers ensures IsListed(cfg.nache, d.containers[slot]) <==> slot.account == cfg.nache {
      assert Handlers.GoodContainer(cfg.chala, d, slot);
      if slot.account == cfg.nache {
        NodeIsListedUnderItsKey(cfg.nache, NodeKey(d.containers[slot].made), d.containers[slot]);
      }
      ListedHasAccount(cfg.nache, d.containers[slot]);
    }
  }

  lemma ListedHasAccount(nache: string, c: Container)
    ensures IsListed(nache, c) ==> c.made.account == nache
  {
    hide TagsFrom, LabelsFor;
  }

  lemma InspectOn(cfg: Config, s: State, slot: Slot)
    requires Inv(cfg, s) && s.pass.Listing? && slot in s.pass.todo && ListedSoFar(cfg, s.chala.daemon, s.pass)
    ensures var s' := AfterInspectOf(cfg, s, slot);
      s'.pass.Listing? && ListedSoFar(cfg, s'.chala.daemon, s'.pass)
  {
    hide Fits, ViewOf, KeyOf, ShowsHealthy, Inv;
    var d, pass, pass' := s.chala.daemon, s.pass, AfterInspectOf(cfg, s, slot).pass;
    var c := d.containers[slot];
    InItsSlot(cfg, s, slot);
    NamedAsMade(c);
    FitsNow(c);
    assert pass'.seen == pass.seen + [ViewOf(c)] && pass'.todo == pass.todo - {slot};
    forall other | other in d.containers && other.account == cfg.nache
      ensures other in pass'.todo || exists v :: v in pass'.seen && v.name == other.name
    {
      if other == slot {
        assert ViewOf(c) in pass'.seen;
      } else if other !in pass.todo {
        var v :| v in pass.seen && v.name == other.name;
        assert v in pass'.seen;
      }
    }
    forall i | 0 <= i < |pass.seen| ensures pass.seen[i].name != slot.name {
      assert pass.seen[i] in pass.seen;
    }
  }

  lemma InItsSlot(cfg: Config, s: State, slot: Slot)
    requires Inv(cfg, s) && slot in s.chala.daemon.containers
    ensures SlotOf(s.chala.daemon.containers[slot].made) == slot
  {
    hide Validated, Nodes, Asks, RowsOk, CreatesOk, PassOk, Handlers.GoodRuns;
    assert Handlers.GoodContainer(cfg.chala, s.chala.daemon, slot);
  }

  lemma NamedAsMade(c: Container)
    ensures ViewOf(c).name == c.made.name
  {
    hide TagsFrom, LabelsFor;
  }

  /** A view is no older than the listing: it has the health of then, or is healthy. */
  ghost predicate SeenSince(cfg: Config, d0: Daemon, seen: seq<View>) {
    forall v | v in seen ::
      var slot := Slot(cfg.nache, v.name);
      slot in d0.containers && (v.health == d0.containers[slot].health || v.health == Healthy)
  }

  lemma InspectSince(cfg: Config, s0: State, s: State, slot: Slot)
    requires Inv(cfg, s) && s.pass.Listing? && slot in s.pass.todo && ListedSoFar(cfg, s.chala.daemon, s.pass)
    requires SameSoFar(cfg, s0, s) && SeenSince(cfg, s0.chala.daemon, s.pass.seen)
    ensures AfterInspectOf(cfg, s, slot).pass.Listing?
    ensures SeenSince(cfg, s0.chala.daemon, AfterInspectOf(cfg, s, slot).pass.seen)
  {
    hide Fits, KeyOf, ShowsHealthy, Inv, TagsFrom, LabelsFor;
    InItsSlot(cfg, s, slot);
    assert Kept(s0.chala.daemon, s.chala.daemon, slot);
  }

  // ---- What it comes to ----

  /** A listing that shows every node once, as it is but for its health. */
  ghost predicate Shown(cfg: Config, d: Daemon, seen: seq<View>) {
    && (forall v | v in seen ::
          Slot(cfg.nache, v.name) in d.containers && Fits(v, d.containers[Slot(cfg.nache, v.name)]))
    && (forall slot | slot in d.containers && slot.account == cfg.nache :: exists v :: v in seen && v.name == slot.name)
    && (forall i, j | 0 <= i < j < |seen| :: seen[i].name != seen[j].name)
  }

  lemma ListingEnds(cfg: Config, d: Daemon, pass: Pass)
    requires pass.Listing? && pass.todo == map[] && ListedSoFar(cfg, d, pass)
    ensures Shown(cfg, d, pass.seen)
  {
    hide Fits;
  }

  /** A view is filed under the key of the node it shows. */
  lemma ShownKey(cfg: Config, s: State, seen: seq<View>, v: View)
    requires Inv(cfg, s) && Shown(cfg, s.chala.daemon, seen) && v in seen
    ensures KeyOf(v) in s.rows && ValidKey(KeyOf(v))
    ensures Slot(cfg.nache, v.name) == NodeSlot(cfg.nache, KeyOf(v))
  {
    hide NodeName, KeyOf, NodeKey, Fits, RowsOk, ValidKey, Asks, PassOk, CreatesOk, Handlers.Inv, ViewOf;
    var slot := Slot(cfg.nache, v.name);
    var c := s.chala.daemon.containers[slot];
    NodeIsListedUnderItsKey(cfg.nache, NodeKey(c.made), c);
    SameTagsSameKey(v, c);
    InItsSlot(cfg, s, slot);
    AskSlot(cfg, c.made);
    KeysAreValid(cfg, s, KeyOf(v));
  }

  lemma SameTagsSameKey(v: View, c: Container)
    requires Fits(v, c)
    ensures KeyOf(v) == KeyOf(ViewOf(c))
  {
    hide TagsFrom, LabelsFor, StateOf;
  }

  lemma AskSlot(cfg: Config, r: Request)
    requires r == NodeRequest(cfg.nache, NodeKey(r))
    ensures SlotOf(r) == NodeSlot(cfg.nache, NodeKey(r))
  {
    hide NodeName;
  }

  lemma KeysAreValid(cfg: Config, s: State, k: Key)
    requires Inv(cfg, s) && k in s.rows
    ensures ValidKey(k)
  {
    hide ValidKey, Handlers.Inv, PassOk;
  }

  lemma {:induction false} TaggedOne(nodes: seq<View>, k: Key, v: View)
    requires forall u | u in nodes && KeyOf(u) == k :: u == v
    requires forall i, j | 0 <= i < j < |nodes| :: nodes[i].name != nodes[j].name
    requires KeyOf(v) == k
    ensures Tagged(nodes, k) == if v in nodes then [v] else []
  {
    hide KeyOf;
    if nodes != [] {
      TaggedOne(nodes[1..], k, v);
      assert nodes == [nodes[0]] + nodes[1..];
      NotAgain(nodes);
    }
  }

  lemma NotAgain(nodes: seq<View>)
    requires nodes != [] && forall i, j | 0 <= i < j < |nodes| :: nodes[i].name != nodes[j].name
    ensures nodes[0] !in nodes[1..]
  {
    forall i | 0 <= i < |nodes| - 1 ensures nodes[1..][i] != nodes[0] {
      assert nodes[1..][i] == nodes[i + 1];
    }
  }

  lemma {:induction false} TaggedNone(nodes: seq<View>, k: Key)
    requires forall u | u in nodes :: KeyOf(u) != k
    ensures Tagged(nodes, k) == []
  {
    if nodes != [] {
      TaggedNone(nodes[1..], k);
    }
  }

  lemma SameName(nodes: seq<View>, u: View, v: View)
    requires u in nodes && v in nodes && u.name == v.name
    requires forall i, j | 0 <= i < j < |nodes| :: nodes[i].name != nodes[j].name
    ensures u == v
  {}

  /** Of each cluster the listing shows its own node, or nothing. */
  lemma TaggedShows(cfg: Config, s: State, seen: seq<View>, k: Key)
    requires Inv(cfg, s) && Shown(cfg, s.chala.daemon, seen) && ValidKey(k)
    ensures var slot := NodeSlot(cfg.nache, k);
      if slot in s.chala.daemon.containers then
        |Tagged(seen, k)| == 1 && Tagged(seen, k)[0] in seen && Tagged(seen, k)[0].name == slot.name
        && Fits(Tagged(seen, k)[0], s.chala.daemon.containers[slot])
      else Tagged(seen, k) == []
  {
    hide Inv, Tagged, KeyOf, Fits, NodeName, ValidKey, IsAccountId;
    var d, slot := s.chala.daemon, NodeSlot(cfg.nache, k);
    forall u | u in seen && KeyOf(u) == k ensures slot in d.containers && u.name == slot.name {
      ShownKey(cfg, s, seen, u);
    }
    if slot in d.containers {
      var v :| v in seen && v.name == slot.name;
      ShownKey(cfg, s, seen, v);
      SameNode(k, KeyOf(v));
      forall u | u in seen && KeyOf(u) == k ensures u == v {
        SameName(seen, u, v);
      }
      TaggedOne(seen, k, v);
    } else {
      TaggedNone(seen, k);
    }
  }

  lemma SameNode(k: Key, k': Key)
    requires ValidKey(k) && ValidKey(k') && NodeName(k.account, k.cluster) == NodeName(k'.account, k'.cluster)
    ensures k == k'
  {
    hide NodeName, IsAccountId, IsClusterName;
    NodeNameInjective(k, k');
  }

  /** Nothing is taken for an orphan. */
  lemma NoOrphans(cfg: Config, s: State, clusters: seq<Cluster>, seen: seq<View>, orphans: seq<View>)
    requires Inv(cfg, s) && Shown(cfg, s.chala.daemon, seen) && ListsAll(s.rows, clusters)
    requires AreOrphans(clusters, seen, orphans)
    ensures orphans == []
  {
    hide Inv, KeyOf, Shown, NodeName, ValidKey;
    forall v ensures v !in multiset(orphans) {
      if v in seen {
        ShownKey(cfg, s, seen, v);
        assert (KeyOf(v), s.rows[KeyOf(v)].state) in clusters;
      }
    }
    EmptyIf(orphans);
  }

  lemma EmptyIf<T>(s: seq<T>)
    ensures (forall v :: v !in multiset(s)) ==> s == []
  {
    if s != [] {
      assert s[0] in multiset(s);
    }
  }
}
