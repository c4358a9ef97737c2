/** What holds in every run of nache and chala. */
module NacheSafety {
  import opened ChalaNames
  import opened Docker
  import opened Chala
  import opened NacheStore
  import opened NacheCompute
  import opened NacheReconciler
  import opened NacheRuns
  import opened Sets
  import Handlers = ChalaRuns

  // ---- A cluster has one node, on its customer's network, for as long as it has a row ----

  lemma NodesBelong(cfg: Config, steps: seq<Step>, states: seq<State>, i: nat, slot: Slot)
    requires IsConfig(cfg) && IsRun(cfg, steps, states) && i < |states|
    requires slot in states[i].chala.daemon.containers && slot.account == cfg.nache
    ensures var c := states[i].chala.daemon.containers[slot];
      var k := KeyOf(ViewOf(c));
      && k in states[i].rows
      && slot == NodeSlot(cfg.nache, k)
      && (forall n | n in c.networks :: n == NetworkName(cfg.nache) || n == NetworkName(k.account))
      && (c.status != Created ==> NetworkName(k.account) in c.networks)
  {
    hide IsRun, NodeName, NetworkName, IsConfig, Inv, NodeRequest, NodeKey, KeyOf, ViewOf, Validated,
      Handlers.OwnNetworks, IsListed;
    RunsKeep(cfg, steps, states, i);
    var c := states[i].chala.daemon.containers[slot];
    NodeIsGood(cfg, states[i], slot);
    NodeIsListedUnderItsKey(cfg.nache, NodeKey(c.made), c);
    AttachedToCustomer(cfg, states[i].rows, c.made);
  }

  lemma NodeIsGood(cfg: Config, s: State, slot: Slot)
    requires Inv(cfg, s) && slot in s.chala.daemon.containers && slot.account == cfg.nache
    ensures Handlers.GoodContainer(cfg.chala, s.chala.daemon, slot)
    ensures IsAsk(cfg, s.rows, s.chala.daemon.containers[slot].made)
    ensures NodeKey(s.chala.daemon.containers[slot].made).account != ""
  {
    hide Handlers.GoodContainer, NodeKey, NodeRequest, IsClusterName, Asks, PassOk, Handlers.GoodRuns;
    assert ValidKey(NodeKey(s.chala.daemon.containers[slot].made));
  }

  lemma AttachedToCustomer(cfg: Config, rows: Rows, r: Request)
    requires IsAsk(cfg, rows, r)
    ensures r.attach == NodeKey(r).account && SlotOf(r) == NodeSlot(cfg.nache, NodeKey(r))
    ensures Handlers.OwnNetworks(r) <= {NetworkName(r.account), NetworkName(r.attach)}
  {
    hide NodeName, NetworkName;
  }

  lemma OneNodePerCluster(cfg: Config, steps: seq<Step>, states: seq<State>, i: nat, slot: Slot, slot': Slot)
    requires IsConfig(cfg) && IsRun(cfg, steps, states) && i < |states|
    requires slot in states[i].chala.daemon.containers && slot.account == cfg.nache
    requires slot' in states[i].chala.daemon.containers && slot'.account == cfg.nache
    requires var cs := states[i].chala.daemon.containers; KeyOf(ViewOf(cs[slot])) == KeyOf(ViewOf(cs[slot']))
    ensures slot == slot'
  {
    hide IsRun, ViewOf, KeyOf;
    NodesBelong(cfg, steps, states, i, slot);
    NodesBelong(cfg, steps, states, i, slot');
  }

  // ---- Histories ----

  lemma HistoryStep(cfg: Config, s: State, step: Step, k: Key)
    requires Enabled(cfg, s, step)
    ensures var s' := After(cfg, s, step);
      && Advances(s.rows, s'.rows)
      && (k in s'.rows && k !in s.rows ==>
            k in s'.since && s'.since[k] == s.chala.daemon.nextId && k !in s'.shown)
      && (k in s'.rows && k in s.rows && k in s.since ==> k in s'.since && s'.since[k] == s.since[k])
      && (k in s'.shown && k !in s.shown ==>
            && step.Inspect? && s'.rows == s.rows
            && Shows(cfg, s, step.slot)
            && ShowsHealthy(ViewOf(s.chala.daemon.containers[step.slot]))
            && KeyOf(ViewOf(s.chala.daemon.containers[step.slot])) == k)
  {
    hide Handlers.Enabled, Handlers.After, Work, ListsAll, AreOrphans, AllIds, Answers, ValidKey, RowsOf, ViewOf,
      KeyOf, ShowsHealthy, Answer, Marked, Applied, CreateStep, Advances;
    NothingAdvances(s.rows);
    match step {
      case CreateCall(h) => CreateStepAdvances(s.rows, s.creates[h].key, s.creates[h].pc, cfg.maxClusters);
      case Delete(key) => StatementsAdvance(s.rows, key, [], false); InRows(s.rows, key);
      case Statement => AppliedAdvances(s.rows, Head(s.pass));
      case FailedStatement(_) => AppliedAdvances(s.rows, Head(s.pass));
      case _ =>
    }
  }

  lemma NothingAdvances(rows: Rows)
    ensures Advances(rows, rows)
  {}

  lemma InRows(rows: Rows, k: Key)
    ensures Marked(rows, k).Keys == rows.Keys
  {}

  lemma AppliedAdvances(rows: Rows, e: Effect)
    ensures Advances(rows, Applied(rows, e)) && Applied(rows, e).Keys <= rows.Keys
  {
    hide NodeName, Advances;
    NothingAdvances(rows);
    match e {
      case Observe(k, status, active) =>
        StatementsAdvance(rows, k, [Node(NodeName(k.account, k.cluster), status)], active);
      case Forget(k) => StatementsAdvance(rows, k, [], false);
      case _ =>
    }
  }

  lemma CreateStepAdvances(rows: Rows, k: Key, pc: CreatePc, max: nat)
    ensures Advances(rows, CreateStep(rows, k, pc, max).0)
    ensures rows.Keys <= CreateStep(rows, k, pc, max).0.Keys <= rows.Keys + {k}
  {
    hide RowsOf, Advances;
    NothingAdvances(rows);
    StatementsAdvance(rows, k, [], false);
  }

  /** A row is there from just after state `from` until state `to`. */
  ghost predicate Lives(states: seq<State>, k: Key, from: nat, to: nat) {
    from < to < |states| && forall m | from < m <= to :: k in states[m].rows
  }

  lemma LivesOn(states: seq<State>, k: Key, from: nat, to: nat)
    requires Lives(states, k, from, to) && to + 1 < |states| && k in states[to + 1].rows
    ensures Lives(states, k, from, to + 1)
  {}

  /** Every row was inserted at some step, before which there was none. */
  lemma {:induction false} BirthOf(cfg: Config, steps: seq<Step>, states: seq<State>, i: nat, k: Key)
    returns (j: nat)
    requires IsConfig(cfg) && IsRun(cfg, steps, states) && i < |states| && k in states[i].rows
    ensures Lives(states, k, j, i) && k !in states[j].rows
    ensures k in states[i].since && states[i].since[k] == states[j].chala.daemon.nextId
  {
    hide Enabled, After, IsConfig;
    j := i - 1;
    assert states[j + 1] == After(cfg, states[j], steps[j]);
    HistoryStep(cfg, states[j], steps[j], k);
    if k in states[j].rows {
      j := BirthOf(cfg, steps, states, i - 1, k);
      LivesOn(states, k, j, i - 1);
    }
  }

  /** A re-created cluster never inherits an old node: what runs for a row was made after the row,
      and at the row's birth neither a node of its name was left nor was anybody making one. */
  lemma NodeIsYoungerThanItsRow(cfg: Config, steps: seq<Step>, states: seq<State>, i: nat, k: Key)
    returns (j: nat)
    requires IsConfig(cfg) && IsRun(cfg, steps, states) && i < |states| && k in states[i].rows
    ensures Lives(states, k, j, i) && k !in states[j].rows
    ensures NodeSlot(cfg.nache, k) !in states[j].chala.daemon.containers
    ensures forall h | h in states[j].chala.runs && OpenAsk(cfg, states[j].chala.runs[h]) ::
      SlotOf(states[j].chala.runs[h].request) != NodeSlot(cfg.nache, k)
    ensures var d, slot := states[i].chala.daemon, NodeSlot(cfg.nache, k);
      slot in d.containers ==> d.containers[slot].id >= states[j].chala.daemon.nextId
  {
    hide IsRun, IsConfig, NodeName, Asks, CreatesOk, PassOk, Handlers.GoodRuns, NodeKey, IsClusterName, IsAccountId;
    j := BirthOf(cfg, steps, states, i, k);
    RunsKeep(cfg, steps, states, i);
    RunsKeep(cfg, steps, states, j);
    assert ValidKey(k);
    RowIsBornAlone(cfg, states[j], k);
    var d, slot := states[i].chala.daemon, NodeSlot(cfg.nache, k);
    if slot in d.containers {
      assert Handlers.GoodContainer(cfg.chala, d, slot);
      SameNode(cfg, states[i].rows, k, d.containers[slot].made);
    }
  }

  // ---- The life of a row ----

  /** Creating, then perhaps active, then perhaps deleting, then gone. */
  lemma RowsAdvance(cfg: Config, steps: seq<Step>, states: seq<State>, i: nat)
    requires IsRun(cfg, steps, states) && i < |steps|
    ensures Advances(states[i].rows, states[i + 1].rows)
  {
    hide Enabled, After, Advances;
    HistoryStep(cfg, states[i], steps[i], Key("", ""));
  }

  lemma {:induction false} RowsNeverGoBack(cfg: Config, steps: seq<Step>, states: seq<State>, i: nat, j: nat, k: Key)
    requires IsRun(cfg, steps, states) && i <= j < |states|
    requires forall m | i <= m <= j :: k in states[m].rows
    ensures Rank(states[i].rows[k].state) <= Rank(states[j].rows[k].state)
    ensures states[i].rows[k].state == Active ==> states[j].rows[k].state != Creating
    ensures states[i].rows[k].state == Deleting ==> states[j].rows[k].state == Deleting
  {
    hide IsRun, Rank;
    if i < j {
      RowsNeverGoBack(cfg, steps, states, i, j - 1, k);
      assert |steps| == |states| - 1 by { RunLength(cfg, steps, states); }
      RowsAdvance(cfg, steps, states, j - 1);
    }
    RanksMean(states[i].rows[k].state, states[j].rows[k].state);
  }

  lemma RanksMean(before: RowState, after: RowState)
    requires Rank(before) <= Rank(after)
    ensures before == Active ==> after != Creating
    ensures before == Deleting ==> after == Deleting
  {}

  /** From the first state after its delete a row is deleting, until it is gone. */
  lemma DeletedIsDeleting(cfg: Config, steps: seq<Step>, states: seq<State>, i: nat, j: nat, k: Key)
    requires IsRun(cfg, steps, states) && i < |steps| && steps[i] == Delete(k) && k in states[i].rows
    requires i < j < |states| && forall m | i < m <= j :: k in states[m].rows
    ensures states[j].rows[k].state == Deleting
  {
    hide Handlers.Enabled, Handlers.After;
    assert Enabled(cfg, states[i], steps[i]) && states[i + 1] == After(cfg, states[i], steps[i]);
    MarkedIsDeleting(states[i].rows, k);
    RowsNeverGoBack(cfg, steps, states, i + 1, j, k);
  }

  lemma RunLength(cfg: Config, steps: seq<Step>, states: seq<State>)
    requires IsRun(cfg, steps, states)
    ensures |states| == |steps| + 1
  {}

  /** An active cluster's own node was seen healthy, in a listing made while the row was there. */
  lemma {:induction false} ActiveWasSeenHealthy(cfg: Config, steps: seq<Step>, states: seq<State>, i: nat, k: Key)
    returns (j: nat)
    requires IsConfig(cfg) && IsRun(cfg, steps, states) && i < |states|
    requires k in states[i].rows && states[i].rows[k].state == Active
    ensures j < i && steps[j] == Inspect(NodeSlot(cfg.nache, k))
    ensures forall m | j <= m <= i :: k in states[m].rows
    ensures var d, slot := states[j].chala.daemon, NodeSlot(cfg.nache, k);
      && slot in d.containers && d.containers[slot].health == Healthy
      && StateOf(d.containers[slot].status) !in {Pending, Stopped}
  {
    hide IsRun, IsConfig, Nodes, Asks, CreatesOk, PassOk, Handlers.Inv, ValidKey;
    RunsKeep(cfg, steps, states, i);
    j := ShownAt(cfg, steps, states, i, k);
  }

  lemma {:induction false} ShownAt(cfg: Config, steps: seq<Step>, states: seq<State>, i: nat, k: Key)
    returns (j: nat)
    requires IsConfig(cfg) && IsRun(cfg, steps, states) && i < |states|
    requires k in states[i].rows && k in states[i].shown
    ensures j < i && steps[j] == Inspect(NodeSlot(cfg.nache, k))
    ensures forall m | j <= m <= i :: k in states[m].rows
    ensures var d, slot := states[j].chala.daemon, NodeSlot(cfg.nache, k);
      && slot in d.containers && d.containers[slot].health == Healthy
      && StateOf(d.containers[slot].status) !in {Pending, Stopped}
  {
    hide Enabled, After, IsConfig, ShowsHealthy, KeyOf, ViewOf, NodeName, StateOf;
    j := i - 1;
    assert states[j + 1] == After(cfg, states[j], steps[j]);
    HistoryStep(cfg, states[j], steps[j], k);
    if k in states[j].shown {
      j := ShownAt(cfg, steps, states, i - 1, k);
    } else {
      ShownNow(cfg, steps, states, j, k);
    }
  }

  lemma ShownNow(cfg: Config, steps: seq<Step>, states: seq<State>, j: nat, k: Key)
    requires IsConfig(cfg) && IsRun(cfg, steps, states) && j < |steps| && steps[j].Inspect?
    requires var slot := steps[j].slot;
      && Shows(cfg, states[j], slot)
      && ShowsHealthy(ViewOf(states[j].chala.daemon.containers[slot]))
      && KeyOf(ViewOf(states[j].chala.daemon.containers[slot])) == k
    ensures steps[j].slot == NodeSlot(cfg.nache, k)
    ensures var c := states[j].chala.daemon.containers[steps[j].slot];
      c.health == Healthy && StateOf(c.status) !in {Pending, Stopped}
  {
    hide *;
    RunLength(cfg, steps, states);
    ShowsOwn(cfg, steps, states, j, steps[j].slot);
    HealthyView(states[j].chala.daemon.containers[steps[j].slot]);
    NodesBelong(cfg, steps, states, j, steps[j].slot);
  }

  lemma HealthyView(c: Container)
    requires ShowsHealthy(ViewOf(c))
    ensures c.health == Healthy && StateOf(c.status) !in {Pending, Stopped}
  {
    hide KeyOf, StateOf, LabelsFor, TagsFrom, NodeName;
  }

  lemma ShowsOwn(cfg: Config, steps: seq<Step>, states: seq<State>, j: nat, slot: Slot)
    requires IsConfig(cfg) && IsRun(cfg, steps, states) && j < |states| && Shows(cfg, states[j], slot)
    ensures slot in states[j].chala.daemon.containers && slot.account == cfg.nache
  {
    hide IsRun, IsConfig, Nodes, Asks, RowsOk, CreatesOk, PassOk, Handlers.GoodRuns;
    RunsKeep(cfg, steps, states, j);
    assert Handlers.GoodContainer(cfg.chala, states[j].chala.daemon, slot);
  }

  // ---- Creates ----

  lemma RefusedAtEachStep(rows: Rows, k: Key, pc: CreatePc, max: nat)
    requires k in rows && rows[k].state == Deleting
    requires pc == Look || pc == Insert || pc == ReadBack(false) || pc == Refused(NameStillDeleting)
    ensures CreateStep(rows, k, pc, max).1 in {Insert, ReadBack(false), Refused(NameStillDeleting)}
  {}

  /** A create that finds its name being deleted all along can only be refused. */
  lemma {:induction false} DeletingRefusesCreate(cfg: Config, steps: seq<Step>, states: seq<State>,
                                                 a: nat, b: nat, h: nat, k: Key)
    requires IsRun(cfg, steps, states) && a < b < |states| && steps[a] == ArriveCreate(h, k)
    requires forall m | a < m <= b :: k in states[m].rows && states[m].rows[k].state == Deleting
    requires forall m | a < m < b :: steps[m] != DropCreate(h)
    ensures h in states[b].creates && states[b].creates[h].key == k
    ensures states[b].creates[h].pc in {Look, Insert, ReadBack(false), Refused(NameStillDeleting)}
  {
    hide Handlers.Enabled, Handlers.After, Work, ListsAll, AreOrphans, AllIds, Answers, ValidKey, AfterInspectOf,
      Answer, Marked, Applied, CreateStep, Shows;
    var j := b - 1;
    assert Enabled(cfg, states[j], steps[j]) && states[j + 1] == After(cfg, states[j], steps[j]);
    if steps[j].Inspect? {
      InspectCreates(cfg, states[j], steps[j].slot);
    }
    if a < j {
      DeletingRefusesCreate(cfg, steps, states, a, j, h, k);
      RefusedAtEachStep(states[j].rows, k, states[j].creates[h].pc, cfg.maxClusters);
    }
  }

  /** What a create is answered, in any run: the row that is there, and not one that was being deleted when the
      name was found taken; or the refusal that holds just then. */
  lemma CreateAnswersMean(cfg: Config, steps: seq<Step>, states: seq<State>, i: nat, h: nat)
    requires IsRun(cfg, steps, states) && i < |steps| && steps[i] == CreateCall(h)
    ensures h in states[i].creates && h in states[i + 1].creates
    ensures var rows, k := states[i].rows, states[i].creates[h].key;
      var before, pc := states[i].creates[h].pc, states[i + 1].creates[h].pc;
      !before.Accepted? && !before.Refused? ==>
        && (pc.Accepted? ==> k in rows && pc.row == rows[k] && (pc.created || rows[k].state != Deleting))
        && (pc.ReadBack? ==> (pc.created <==> k !in rows) && k in states[i + 1].rows)
        && (pc == Refused(CreateError.LimitExceeded) ==>
              |set key | key in rows && key.account == k.account| >= cfg.maxClusters)
        && (pc == Refused(NameStillDeleting) ==> k in rows && rows[k].state == Deleting)
        && (pc == Refused(Lost) ==> k !in rows)
  {
    hide Handlers.Enabled, Handlers.After;
    assert Enabled(cfg, states[i], steps[i]) && states[i + 1] == After(cfg, states[i], steps[i]);
    var rows, k := states[i].rows, states[i].creates[h].key;
    assert (set key | key in rows && key.account == k.account) == RowsOf(rows, k.account);
    StatementsWrite(rows, k, [], false);
  }

  /** The creates of an account that are not answered yet. */
  function OpenCreates(s: State, account: string): set<nat> {
    set h | h in s.creates && s.creates[h].key.account == account
            && !s.creates[h].pc.Accepted? && !s.creates[h].pc.Refused?
  }

  /** The clusters an account has, or is about to have. */
  function ClusterNames(s: State, account: string): set<Key> {
    RowsOf(s.rows, account)
    + set h | h in s.creates && s.creates[h].key.account == account && s.creates[h].pc.Insert?
        :: s.creates[h].key
  }

  lemma InsertingAreOpen(s: State, account: string)
    ensures |ClusterNames(s, account)| <= |RowsOf(s.rows, account)| + |OpenCreates(s, account)|
  {
    var open := OpenCreates(s, account);
    var inserting := set h | h in s.creates && s.creates[h].key.account == account && s.creates[h].pc.Insert?
      :: s.creates[h].key;
    forall k | k in inserting ensures exists h :: h in open && s.creates[h].key == k {
      var h :| h in s.creates && s.creates[h].key.account == account && s.creates[h].pc.Insert?
               && s.creates[h].key == k;
      assert h in open;
    }
    ImageSize(open, inserting, h requires h in s.creates => s.creates[h].key);
    UnionSize(RowsOf(s.rows, account), inserting);
  }

  /** Only the count lets a new name in. */
  lemma ClusterNamesShrink(cfg: Config, s: State, step: Step, account: string)
    requires Enabled(cfg, s, step)
    ensures ClusterNames(After(cfg, s, step), account) <= ClusterNames(s, account)
      || (step.CreateCall? && s.creates[step.h].pc.Tally? && After(cfg, s, step).rows == s.rows
          && |RowsOf(s.rows, s.creates[step.h].key.account)| < cfg.maxClusters
          && s.creates[step.h].key.account == account)
  {
    hide Handlers.Enabled, Handlers.After, Work, ListsAll, AreOrphans, AllIds, Answers, ValidKey, AfterInspectOf,
      Answer, Marked, Applied, Shows;
    match step {
      case CreateCall(h) => CreateCallNames(cfg, s, h, account);
      case Delete(k) => InRows(s.rows, k);
      case Statement => AppliedAdvances(s.rows, Head(s.pass));
      case FailedStatement(_) => AppliedAdvances(s.rows, Head(s.pass));
      case Inspect(slot) => InspectCreates(cfg, s, slot);
      case _ =>
    }
  }

  lemma InspectCreates(cfg: Config, s: State, slot: Slot)
    requires s.pass.Listing? && slot in s.pass.todo
    ensures AfterInspectOf(cfg, s, slot).creates == s.creates && AfterInspectOf(cfg, s, slot).rows == s.rows
  {
    hide Shows, ShowsHealthy, ViewOf, KeyOf;
  }

  lemma CreateCallNames(cfg: Config, s: State, h: nat, account: string)
    requires h in s.creates
    ensures ClusterNames(AfterCreateCall(cfg, s, h), account) <= ClusterNames(s, account)
      || (s.creates[h].pc.Tally? && AfterCreateCall(cfg, s, h).rows == s.rows
          && |RowsOf(s.rows, s.creates[h].key.account)| < cfg.maxClusters
          && s.creates[h].key.account == account)
  {
    hide ClusterNames, AfterCreateCall, RowsOf;
    if !Admits(cfg, s, h, account) {
      forall n | n in ClusterNames(AfterCreateCall(cfg, s, h), account) ensures n in ClusterNames(s, account) {
        NameWasThere(cfg, s, h, account, n);
      }
    } else {
      TallyKeepsRows(cfg, s, h);
    }
  }

  predicate Admits(cfg: Config, s: State, h: nat, account: string)
    requires h in s.creates
  {
    && s.creates[h].pc.Tally? && s.creates[h].key.account == account
    && |RowsOf(s.rows, account)| < cfg.maxClusters
  }

  lemma TallyKeepsRows(cfg: Config, s: State, h: nat)
    requires h in s.creates && s.creates[h].pc.Tally?
    ensures AfterCreateCall(cfg, s, h).rows == s.rows
  {
    hide RowsOf;
  }

  /** A name comes past the count, or is there already. */
  lemma CreateStepNames(rows: Rows, k: Key, pc: CreatePc, max: nat)
    ensures var (rows', pc') := CreateStep(rows, k, pc, max);
      && rows'.Keys <= rows.Keys + (if pc.Insert? then {k} else {})
      && (pc'.Insert? ==> (pc.Look? && k in rows) || (pc.Tally? && |RowsOf(rows, k.account)| < max))
  {
    hide RowsOf;
  }

  lemma NameWasThere(cfg: Config, s: State, h: nat, account: string, n: Key)
    requires h in s.creates && !Admits(cfg, s, h, account) && n in ClusterNames(AfterCreateCall(cfg, s, h), account)
    ensures n in ClusterNames(s, account)
  {
    hide CreateStep;
    var CreateHandler(k, pc) := s.creates[h];
    var s' := AfterCreateCall(cfg, s, h);
    CreateStepNames(s.rows, k, pc, cfg.maxClusters);
    if n in RowsOf(s'.rows, account) {
      assert n in s.rows || (n == k && pc.Insert?);
    } else {
      var g :| g in s'.creates && s'.creates[g].key == n && s'.creates[g].pc.Insert?;
      assert g in s.creates && s.creates[g].key == n;
      assert g != h ==> s.creates[g].pc.Insert?;
    }
  }

  lemma ClusterQuotaStep(cfg: Config, s: State, step: Step, account: string, n: nat)
    requires Enabled(cfg, s, step) && n >= 1
    requires |OpenCreates(After(cfg, s, step), account)| <= n
    requires |ClusterNames(s, account)| <= cfg.maxClusters + n - 1
    ensures |ClusterNames(After(cfg, s, step), account)| <= cfg.maxClusters + n - 1
  {
    hide Enabled, After, ClusterNames, OpenCreates, RowsOf;
    var s' := After(cfg, s, step);
    ClusterNamesShrink(cfg, s, step, account);
    if ClusterNames(s', account) <= ClusterNames(s, account) {
      SubsetSize(ClusterNames(s', account), ClusterNames(s, account));
    } else {
      InsertingAreOpen(s', account);
    }
  }

  lemma NoClusters(account: string)
    ensures ClusterNames(EMPTY, account) == {}
  {}

  lemma {:induction false} ClusterQuota(cfg: Config, steps: seq<Step>, states: seq<State>, i: nat,
                                        account: string, n: nat)
    requires IsRun(cfg, steps, states) && i < |states| && n >= 1
    requires forall j | 0 <= j <= i :: |OpenCreates(states[j], account)| <= n
    ensures |ClusterNames(states[i], account)| <= cfg.maxClusters + n - 1
  {
    hide Enabled, After, ClusterNames, OpenCreates;
    if i == 0 {
      NoClusters(account);
    } else {
      ClusterQuota(cfg, steps, states, i - 1, account, n);
      var j := i - 1;
      assert states[j + 1] == After(cfg, states[j], steps[j]);
      ClusterQuotaStep(cfg, states[j], steps[j], account, n);
    }
  }

  /** With at most `n` creates of an account unanswered at any time, it overshoots by less than `n`;
      although a name that is found is let past the count and may be gone when it is inserted. */
  lemma ClustersOvershootByLessThanInFlight(cfg: Config, steps: seq<Step>, states: seq<State>, i: nat,
                                            account: string, n: nat)
    requires IsRun(cfg, steps, states) && i < |states| && n >= 1
    requires forall j | 0 <= j <= i :: |OpenCreates(states[j], account)| <= n
    ensures |set k | k in states[i].rows && k.account == account| <= cfg.maxClusters + n - 1
  {
    hide IsRun, OpenCreates;
    ClusterQuota(cfg, steps, states, i, account, n);
    assert (set k | k in states[i].rows && k.account == account) == RowsOf(states[i].rows, account);
    SubsetSize(RowsOf(states[i].rows, account), ClusterNames(states[i], account));
  }
}
