/** nache and chala together: API calls, passes of one reconciler, every daemon call of every handler,
    crashes and failures between any two of them.

    Assumptions: one reconciler; nobody else asks chala for instances in nache's account; no RunInstance
    of an earlier pass is still being worked on when a pass begins. */
module NacheRuns {
  import opened ChalaNames
  import opened Docker
  import opened Chala
  import opened NacheStore
  import opened NacheCompute
  import opened NacheReconciler
  import opened Wrappers
  import Handlers = ChalaRuns

  /** `nache` is the service account. */
  datatype Config = Config(chala: Handlers.Config, nache: string, maxClusters: nat)

  ghost predicate IsConfig(cfg: Config) {
    IsAccountId(cfg.nache) && Handlers.ServiceOf(cfg.chala, cfg.nache) == SERVICE
  }

  /** The pass in flight. */
  datatype Pass =
    | Idle
    | Listed(clusters: seq<Cluster>)
    | Listing(clusters: seq<Cluster>, todo: map<Slot, nat>, seen: seq<View>)
    | Working(clusters: seq<Cluster>, tasks: seq<seq<Effect>>, awaited: Option<nat>)

  datatype CreateHandler = CreateHandler(key: Key, pc: CreatePc)

  /** The last two are history: the daemon's next id when a row was inserted, and the rows of which a
      listing has shown the node healthy since. */
  datatype State = State(
    rows: Rows, chala: Handlers.State, creates: map<nat, CreateHandler>, pass: Pass,
    since: map<Key, nat>, shown: set<Key>)

  datatype Step =
    | ArriveCreate(h: nat, key: Key)
    | CreateCall(h: nat)
    | DropCreate(h: nat)
    | Delete(key: Key)
    | Compute(step: Handlers.Step)
    | BeginPass(clusters: seq<Cluster>)
    | ListIds
    | Inspect(slot: Slot)
    | BeginWork(orphans: seq<View>)
    | NextTask
    | Send(h: nat)
    | Succeed
    | Fail
    | Statement
    | FailedStatement(applied: bool)
    | EndPass
    | Crash

  predicate OpenAsk(cfg: Config, h: Handlers.RunHandler) {
    h.request.account == cfg.nache && !Chala.Answered(h.pc)
  }

  /** The effect the pass is at. */
  predicate At(pass: Pass) { pass.Working? && pass.tasks != [] && pass.tasks[0] != [] }

  function Head(pass: Pass): Effect
    requires At(pass)
  {
    pass.tasks[0][0]
  }

  predicate IsCall(e: Effect) { e.RunNode? || e.Terminate? }

  /** chala has done what the pass waits for. */
  predicate Answers(cfg: Config, c: Handlers.State, e: Effect, h: nat) {
    match e
    case RunNode(k) => h in c.runs && c.runs[h].request == NodeRequest(cfg.nache, k) && c.runs[h].pc.Done?
    case Terminate(name) =>
      h in c.stops && c.stops[h].slot == Slot(cfg.nache, name)
      && (c.stops[h].pc.Removed? || c.stops[h].pc.NotThere?)
    case _ => false
  }

  /** The call of an effect, as a handler that arrives at chala. */
  function Arrival(cfg: Config, e: Effect, h: nat): Handlers.Step
    requires IsCall(e)
  {
    match e
    case RunNode(k) => Handlers.Arrive(h, NodeRequest(cfg.nache, k))
    case Terminate(name) => Handlers.ArriveStop(h, Slot(cfg.nache, name))
  }

  ghost predicate Enabled(cfg: Config, s: State, step: Step) {
    match step
    case ArriveCreate(h, k) => h !in s.creates && ValidKey(k)
    case CreateCall(h) => h in s.creates
    case DropCreate(h) => h in s.creates
    case Delete(_) => true
    case Compute(step) =>
      Handlers.Enabled(cfg.chala, s.chala, step) && (step.Arrive? ==> step.request.account != cfg.nache)
    case BeginPass(clusters) =>
      s.pass.Idle? && ListsAll(s.rows, clusters)
      && forall h | h in s.chala.runs :: !OpenAsk(cfg, s.chala.runs[h])
    case ListIds => s.pass.Listed?
    case Inspect(slot) => s.pass.Listing? && slot in s.pass.todo
    // chala sorts a listing by name; here it may come in any order.
    case BeginWork(orphans) =>
      s.pass.Listing? && s.pass.todo == map[] && AreOrphans(s.pass.clusters, s.pass.seen, orphans)
    case NextTask => s.pass.Working? && s.pass.tasks != [] && s.pass.tasks[0] == []
    case Send(h) =>
      && At(s.pass) && IsCall(Head(s.pass)) && s.pass.awaited == None
      && Handlers.Enabled(cfg.chala, s.chala, Arrival(cfg, Head(s.pass), h))
    case Succeed =>
      && At(s.pass) && IsCall(Head(s.pass)) && s.pass.awaited.Some?
      && Answers(cfg, s.chala, Head(s.pass), s.pass.awaited.value)
    // Refused, timed out or never delivered; chala may be at it still.
    case Fail => At(s.pass) && IsCall(Head(s.pass))
    case Statement => At(s.pass) && !IsCall(Head(s.pass))
    case FailedStatement(_) => At(s.pass) && !IsCall(Head(s.pass))
    case EndPass => s.pass.Working? && s.pass.tasks == []
    case Crash => !s.pass.Idle?
  }

  function Applied(rows: Rows, e: Effect): Rows {
    match e
    case Observe(k, status, active) =>
      Observed(rows, k, [Node(NodeName(k.account, k.cluster), status)], active)
    case Forget(k) => Forgotten(rows, k)
    case _ => rows
  }

  /** The listing shows a cluster's own node healthy. */
  predicate ShowsHealthy(v: View) {
    && v.name == NodeName(KeyOf(v).account, KeyOf(v).cluster)
    && v.health == Healthy && v.state != Pending && v.state != Stopped
  }

  function Answer(pass: Pass, ok: bool): Pass
    requires At(pass)
  {
    pass.(tasks := AfterAnswer(pass.tasks, ok), awaited := None)
  }

  function AfterCreateCall(cfg: Config, s: State, h: nat): State
    requires h in s.creates
  {
    var CreateHandler(k, pc) := s.creates[h];
    var (rows, pc') := CreateStep(s.rows, k, pc, cfg.maxClusters);
    var s' := s.(rows := rows, creates := s.creates[h := CreateHandler(k, pc')]);
    if k !in s.rows && k in rows then
      s'.(since := s.since[k := s.chala.daemon.nextId], shown := s.shown - {k})
    else s'
  }

  /** What a listing shows is still there when it is looked at, and of the account. */
  predicate Shows(cfg: Config, s: State, slot: Slot) {
    && s.pass.Listing? && slot in s.pass.todo
    && Has(s.chala.daemon, slot, s.pass.todo[slot])
    && s.chala.daemon.containers[slot].made.account == cfg.nache
  }

  function AfterInspectOf(cfg: Config, s: State, slot: Slot): State
    requires s.pass.Listing? && slot in s.pass.todo
  {
    var left := s.pass.(todo := s.pass.todo - {slot});
    if !Shows(cfg, s, slot) then s.(pass := left)
    else
      var v := ViewOf(s.chala.daemon.containers[slot]);
      s.(pass := left.(seen := s.pass.seen + [v]),
         shown := if ShowsHealthy(v) then s.shown + {KeyOf(v)} else s.shown)
  }

  function AllIds(cfg: Config, d: Daemon): map<Slot, nat> {
    map slot | slot in d.containers && IsListed(cfg.nache, d.containers[slot])
      :: d.containers[slot].id
  }

  ghost function After(cfg: Config, s: State, step: Step): State
    requires Enabled(cfg, s, step)
  {
    match step
    case ArriveCreate(h, k) => s.(creates := s.creates[h := CreateHandler(k, Look)])
    case CreateCall(h) => AfterCreateCall(cfg, s, h)
    case DropCreate(h) => s.(creates := s.creates - {h})
    case Delete(k) => s.(rows := Marked(s.rows, k))
    case Compute(step) => s.(chala := Handlers.After(cfg.chala, s.chala, step))
    case BeginPass(clusters) => s.(pass := Listed(clusters))
    case ListIds => s.(pass := Listing(s.pass.clusters, AllIds(cfg, s.chala.daemon), []))
    case Inspect(slot) => AfterInspectOf(cfg, s, slot)
    case BeginWork(orphans) =>
      s.(pass := Working(s.pass.clusters, Work(s.pass.clusters, s.pass.seen, orphans), None))
    case NextTask => s.(pass := s.pass.(tasks := s.pass.tasks[1..]))
    case Send(h) =>
      s.(chala := Handlers.After(cfg.chala, s.chala, Arrival(cfg, Head(s.pass), h)),
         pass := s.pass.(awaited := Some(h)))
    case Succeed => s.(pass := Answer(s.pass, true))
    case Fail => s.(pass := Answer(s.pass, false))
    case Statement => s.(rows := Applied(s.rows, Head(s.pass)), pass := Answer(s.pass, true))
    case FailedStatement(applied) =>
      s.(rows := if applied then Applied(s.rows, Head(s.pass)) else s.rows, pass := Answer(s.pass, false))
    case EndPass => s.(pass := Idle)
    case Crash => s.(pass := Idle)
  }

  const EMPTY := State(map[], Handlers.EMPTY, map[], Idle, map[], {})

  ghost predicate IsRun(cfg: Config, steps: seq<Step>, states: seq<State>) {
    && |states| == |steps| + 1
    && states[0] == EMPTY
    && forall i | 0 <= i < |steps| ::
         Enabled(cfg, states[i], steps[i]) && states[i + 1] == After(cfg, states[i], steps[i])
  }

  // ---- What every step keeps ----

  predicate Doomed(clusters: seq<Cluster>, k: Key) { (k, Deleting) in clusters }

  predicate Wanted(clusters: seq<Cluster>, k: Key) { (k, Creating) in clusters || (k, Active) in clusters }

  function NodeKey(r: Request): Key { Key(Label(r.tags, TAG_CLUSTER_ACCOUNT), Label(r.tags, TAG_CLUSTER)) }

  /** What nache asked for, for a row there is. */
  ghost predicate IsAsk(cfg: Config, rows: Rows, r: Request) {
    r == NodeRequest(cfg.nache, NodeKey(r)) && NodeKey(r) in rows
  }

  /** Every container of nache's account is the node of a row, and younger than the row. */
  ghost predicate Nodes(cfg: Config, rows: Rows, since: map<Key, nat>, d: Daemon) {
    forall slot | slot in d.containers && slot.account == cfg.nache ::
      && IsAsk(cfg, rows, d.containers[slot].made)
      && NodeKey(d.containers[slot].made) in since
      && since[NodeKey(d.containers[slot].made)] <= d.containers[slot].id
  }

  /** Every RunInstance nache has open is for a row, and in a pass for one it wants. */
  ghost predicate Asks(cfg: Config, rows: Rows, pass: Pass, runs: map<nat, Handlers.RunHandler>) {
    forall h | h in runs && OpenAsk(cfg, runs[h]) ::
      && IsAsk(cfg, rows, runs[h].request)
      && (pass.Idle? || (pass.Working? && Wanted(pass.clusters, NodeKey(runs[h].request))))
  }

  ghost predicate RowsOk(rows: Rows, since: map<Key, nat>, shown: set<Key>, nextId: nat) {
    forall k | k in rows ::
      && ValidKey(k)
      && k in since && since[k] <= nextId
      && (rows[k].state == Active ==> k in shown)
  }

  ghost predicate CreatesOk(creates: map<nat, CreateHandler>) {
    forall h | h in creates :: ValidKey(creates[h].key)
  }

  /** A row that was wanted when the pass began is there still: only a pass forgets rows. */
  ghost predicate ClustersOk(rows: Rows, clusters: seq<Cluster>) {
    && (forall k | Wanted(clusters, k) :: k in rows && !Doomed(clusters, k))
    && (forall k | Doomed(clusters, k) :: ValidKey(k))
  }

  /** No node of a cluster that is being deleted will be missed: the listing reaches it, … */
  ghost predicate ListingOk(cfg: Config, d: Daemon, pass: Pass)
    requires pass.Listing?
  {
    forall slot | slot in d.containers && slot.account == cfg.nache ::
      || (slot in pass.todo && pass.todo[slot] == d.containers[slot].id)
      || exists v :: v in pass.seen && v.name == slot.name && KeyOf(v) == NodeKey(d.containers[slot].made)
  }

  ghost predicate SeenOk(shown: set<Key>, clusters: seq<Cluster>, seen: seq<View>) {
    forall v | v in seen && ShowsHealthy(v) && Wanted(clusters, KeyOf(v)) :: KeyOf(v) in shown
  }

  /** … and is terminated before the row is forgotten. */
  predicate Covered(cfg: Config, d: Daemon, task: seq<Effect>, k: Key) {
    NodeSlot(cfg.nache, k) in d.containers ==> Terminate(NodeName(k.account, k.cluster)) in task
  }

  ghost predicate EffectOk(cfg: Config, d: Daemon, shown: set<Key>, clusters: seq<Cluster>, task: seq<Effect>,
                           e: Effect)
  {
    match e
    case RunNode(k) => Wanted(clusters, k)
    case Observe(k, _, active) => Wanted(clusters, k) && (active ==> k in shown)
    case Forget(k) => Doomed(clusters, k) && Covered(cfg, d, task, k)
    case Terminate(_) => true
  }

  /** A row is forgotten last. */
  ghost predicate TaskOk(cfg: Config, d: Daemon, shown: set<Key>, clusters: seq<Cluster>, task: seq<Effect>) {
    && (forall e | e in task :: EffectOk(cfg, d, shown, clusters, task, e))
    && (forall i | 0 <= i < |task| - 1 :: !task[i].Forget?)
  }

  ghost predicate TasksOk(cfg: Config, d: Daemon, shown: set<Key>, pass: Pass)
    requires pass.Working?
  {
    forall t | t in pass.tasks :: TaskOk(cfg, d, shown, pass.clusters, t)
  }

  ghost predicate AwaitedOk(cfg: Config, c: Handlers.State, pass: Pass) {
    pass.Working? && pass.awaited.Some? ==>
      && At(pass) && IsCall(Head(pass))
      && (Head(pass).Terminate? ==>
            forall k | Forget(k) in pass.tasks[0] && Head(pass).name == NodeName(k.account, k.cluster) ::
              Handlers.StopOk(c, pass.awaited.value, NodeSlot(cfg.nache, k)))
  }

  ghost predicate PassOk(cfg: Config, rows: Rows, shown: set<Key>, c: Handlers.State, pass: Pass) {
    && (!pass.Idle? ==> ClustersOk(rows, pass.clusters))
    && (pass.Listing? ==> ListingOk(cfg, c.daemon, pass) && SeenOk(shown, pass.clusters, pass.seen))
    && (pass.Working? ==> TasksOk(cfg, c.daemon, shown, pass))
    && AwaitedOk(cfg, c, pass)
  }

  ghost predicate Inv(cfg: Config, s: State) {
    && Handlers.Inv(cfg.chala, s.chala)
    && Nodes(cfg, s.rows, s.since, s.chala.daemon)
    && Asks(cfg, s.rows, s.pass, s.chala.runs)
    && RowsOk(s.rows, s.since, s.shown, s.chala.daemon.nextId)
    && CreatesOk(s.creates)
    && PassOk(cfg, s.rows, s.shown, s.chala, s.pass)
  }

  // ---- A step of chala ----

  /** The only RunInstances of nache's account are those the pass sends. */
  ghost predicate FromPass(cfg: Config, s: State, step: Handlers.Step) {
    step.Arrive? && step.request.account == cfg.nache ==>
      && s.pass.Working? && IsAsk(cfg, s.rows, step.request)
      && Wanted(s.pass.clusters, NodeKey(step.request))
  }

  /** A container of nache's account that a step of chala makes is one the pass asked for. */
  lemma NewNodeIsAskedFor(cfg: Config, s: State, step: Handlers.Step, slot: Slot)
    requires Inv(cfg, s) && Handlers.Enabled(cfg.chala, s.chala, step)
    requires slot.account == cfg.nache && slot in Handlers.After(cfg.chala, s.chala, step).daemon.containers
    ensures var d := s.chala.daemon;
      var c := Handlers.After(cfg.chala, s.chala, step).daemon.containers[slot];
      || (slot in d.containers && d.containers[slot].id == c.id && d.containers[slot].made == c.made)
      || (&& IsAsk(cfg, s.rows, c.made) && c.id == d.nextId
          && (s.pass.Idle? || (s.pass.Working? && Wanted(s.pass.clusters, NodeKey(c.made)))))
  {
    hide Handlers.Enabled, Handlers.After, IsAsk, Wanted, NodeKey, PassOk, Nodes, RowsOk, Handlers.Inv;
    Handlers.WhereContainersComeFrom(cfg.chala, s.chala, step, slot);
  }

  lemma NoNewNode(cfg: Config, s: State, step: Handlers.Step, k: Key)
    requires Inv(cfg, s) && Handlers.Enabled(cfg.chala, s.chala, step)
    requires !s.pass.Idle? && Doomed(s.pass.clusters, k)
    ensures var d, d' := s.chala.daemon, Handlers.After(cfg.chala, s.chala, step).daemon;
      var slot := NodeSlot(cfg.nache, k);
      slot in d'.containers ==> slot in d.containers && d.containers[slot].id == d'.containers[slot].id
  {
    hide Handlers.Enabled, Handlers.After, NodeKey, Doomed, Wanted, NodeName, IsClusterName, IsAccountId;
    var d' := Handlers.After(cfg.chala, s.chala, step).daemon;
    var slot := NodeSlot(cfg.nache, k);
    if slot in d'.containers {
      NewNodeIsAskedFor(cfg, s, step, slot);
      var made := d'.containers[slot].made;
      if IsAsk(cfg, s.rows, made) {
        Handlers.StepKeeps(cfg.chala, s.chala, step);
        assert Handlers.GoodContainer(cfg.chala, d', slot);
        NodeNameInjective(k, NodeKey(made));
      }
    }
  }

  lemma NodesKept(cfg: Config, s: State, step: Handlers.Step)
    requires Inv(cfg, s) && Handlers.Enabled(cfg.chala, s.chala, step)
    ensures Nodes(cfg, s.rows, s.since, Handlers.After(cfg.chala, s.chala, step).daemon)
  {
    hide Handlers.Enabled, Handlers.After, IsAsk, Wanted, NodeKey, PassOk, Handlers.Inv;
    var d' := Handlers.After(cfg.chala, s.chala, step).daemon;
    forall slot | slot in d'.containers && slot.account == cfg.nache
      ensures IsAsk(cfg, s.rows, d'.containers[slot].made)
      ensures NodeKey(d'.containers[slot].made) in s.since
      ensures s.since[NodeKey(d'.containers[slot].made)] <= d'.containers[slot].id
    {
      NewNodeIsAskedFor(cfg, s, step, slot);
      IsAskInRows(cfg, s.rows, d'.containers[slot].made);
    }
  }

  lemma IsAskInRows(cfg: Config, rows: Rows, r: Request)
    ensures IsAsk(cfg, rows, r) ==> NodeKey(r) in rows
  {}

  lemma AsksKept(cfg: Config, s: State, step: Handlers.Step)
    requires Inv(cfg, s) && Handlers.Enabled(cfg.chala, s.chala, step) && FromPass(cfg, s, step)
    ensures Asks(cfg, s.rows, s.pass, Handlers.After(cfg.chala, s.chala, step).runs)
  {
    hide Handlers.Enabled, Handlers.After, IsAsk, Wanted, NodeKey, PassOk, Nodes, RowsOk, Handlers.Inv;
    var runs' := Handlers.After(cfg.chala, s.chala, step).runs;
    forall h | h in runs' && OpenAsk(cfg, runs'[h])
      ensures IsAsk(cfg, s.rows, runs'[h].request)
      ensures s.pass.Idle? || (s.pass.Working? && Wanted(s.pass.clusters, NodeKey(runs'[h].request)))
    {
      Handlers.WhereOpenRunsComeFrom(cfg.chala, s.chala, step, h);
    }
  }

  lemma ListingKept(cfg: Config, s: State, step: Handlers.Step)
    requires Inv(cfg, s) && Handlers.Enabled(cfg.chala, s.chala, step) && s.pass.Listing?
    ensures ListingOk(cfg, Handlers.After(cfg.chala, s.chala, step).daemon, s.pass)
  {
    hide Handlers.Enabled, Handlers.After, IsAsk, Wanted, NodeKey, KeyOf, Handlers.Inv;
    var d' := Handlers.After(cfg.chala, s.chala, step).daemon;
    forall slot | slot in d'.containers && slot.account == cfg.nache
      ensures (slot in s.pass.todo && s.pass.todo[slot] == d'.containers[slot].id)
        || exists v :: v in s.pass.seen && v.name == slot.name && KeyOf(v) == NodeKey(d'.containers[slot].made)
    {
      NewNodeIsAskedFor(cfg, s, step, slot);
    }
  }

  lemma TasksKept(cfg: Config, s: State, step: Handlers.Step)
    requires Inv(cfg, s) && Handlers.Enabled(cfg.chala, s.chala, step) && s.pass.Working?
    ensures TasksOk(cfg, Handlers.After(cfg.chala, s.chala, step).daemon, s.shown, s.pass)
  {
    hide Handlers.Enabled, Handlers.After, Wanted, NodeName, Handlers.Inv, Nodes, Asks, RowsOk, Doomed;
    var d' := Handlers.After(cfg.chala, s.chala, step).daemon;
    forall t, e | t in s.pass.tasks && e in t
      ensures EffectOk(cfg, d', s.shown, s.pass.clusters, t, e)
    {
      assert TaskOk(cfg, s.chala.daemon, s.shown, s.pass.clusters, t);
      assert EffectOk(cfg, s.chala.daemon, s.shown, s.pass.clusters, t, e);
      if e.Forget? {
        NoNewNode(cfg, s, step, e.key);
      }
    }
  }

  lemma AwaitedKept(cfg: Config, s: State, step: Handlers.Step)
    requires Inv(cfg, s) && Handlers.Enabled(cfg.chala, s.chala, step)
    ensures AwaitedOk(cfg, Handlers.After(cfg.chala, s.chala, step), s.pass)
  {
    hide Handlers.Enabled, Handlers.After, Wanted, NodeName, Nodes, Asks, RowsOk, Doomed, Handlers.StopOk,
      Covered, ListingOk, SeenOk, ClustersOk;
    if s.pass.Working? && s.pass.awaited.Some? && Head(s.pass).Terminate? {
      forall k | Forget(k) in s.pass.tasks[0] && Head(s.pass).name == NodeName(k.account, k.cluster)
        ensures Handlers.StopOk(Handlers.After(cfg.chala, s.chala, step), s.pass.awaited.value,
                                NodeSlot(cfg.nache, k))
      {
        assert TaskOk(cfg, s.chala.daemon, s.shown, s.pass.clusters, s.pass.tasks[0]);
        assert EffectOk(cfg, s.chala.daemon, s.shown, s.pass.clusters, s.pass.tasks[0], Forget(k));
        NoNewNode(cfg, s, step, k);
        Handlers.StopKept(cfg.chala, s.chala, step, s.pass.awaited.value, NodeSlot(cfg.nache, k));
      }
    }
  }

  lemma ChalaKeeps(cfg: Config, s: State, step: Handlers.Step)
    requires Inv(cfg, s) && Handlers.Enabled(cfg.chala, s.chala, step) && FromPass(cfg, s, step)
    ensures Inv(cfg, s.(chala := Handlers.After(cfg.chala, s.chala, step)))
  {
    hide Handlers.Enabled, Handlers.After, Wanted, NodeName, Nodes, Asks, Doomed, Covered, ListingOk, SeenOk,
      ClustersOk, Handlers.Inv, TasksOk, AwaitedOk, FromPass;
    Handlers.StepKeeps(cfg.chala, s.chala, step);
    NodesKept(cfg, s, step);
    AsksKept(cfg, s, step);
    AwaitedKept(cfg, s, step);
    if s.pass.Listing? { ListingKept(cfg, s, step); }
    if s.pass.Working? { TasksKept(cfg, s, step); }
  }

  // ---- A step of the API ----

  /** A new row has no node yet: none of its name is left, and nobody is making one. */
  lemma RowIsBornAlone(cfg: Config, s: State, k: Key)
    requires Inv(cfg, s) && IsAccountId(k.account) && k !in s.rows
    ensures NodeSlot(cfg.nache, k) !in s.chala.daemon.containers
    ensures forall h | h in s.chala.runs && OpenAsk(cfg, s.chala.runs[h]) ::
      SlotOf(s.chala.runs[h].request) != NodeSlot(cfg.nache, k)
  {
    hide NodeName, Handlers.GoodRuns, PassOk, IsClusterName, IsAccountId, NodeKey;
    var slot := NodeSlot(cfg.nache, k);
    var d := s.chala.daemon;
    if slot in d.containers {
      assert Handlers.GoodContainer(cfg.chala, d, slot);
      SameNode(cfg, s.rows, k, d.containers[slot].made);
    }
    forall h | h in s.chala.runs && OpenAsk(cfg, s.chala.runs[h])
      ensures SlotOf(s.chala.runs[h].request) != slot
    {
      if SlotOf(s.chala.runs[h].request) == slot {
        SameNode(cfg, s.rows, k, s.chala.runs[h].request);
      }
    }
  }

  lemma SameNode(cfg: Config, rows: Rows, k: Key, r: Request)
    requires IsAsk(cfg, rows, r) && SlotOf(r) == NodeSlot(cfg.nache, k)
    requires IsAccountId(k.account) && forall k' | k' in rows :: ValidKey(k')
    ensures NodeKey(r) == k && k in rows
  {
    hide NodeName, IsClusterName, IsAccountId;
    NodeNameInjective(k, NodeKey(r));
  }

  lemma InsertKeeps(cfg: Config, s: State, k: Key)
    requires Inv(cfg, s) && ValidKey(k) && k !in s.rows
    ensures Inv(cfg, s.(rows := Inserted(s.rows, k), since := s.since[k := s.chala.daemon.nextId],
                        shown := s.shown - {k}))
  {
    hide Handlers.Inv, NodeName, IsClusterName, IsAccountId, NodeKey, KeyOf, Doomed, Wanted, Covered, ListingOk,
      Handlers.StopOk;
  }

  lemma CreateCallKeeps(cfg: Config, s: State, h: nat)
    requires Inv(cfg, s) && h in s.creates
    ensures Inv(cfg, AfterCreateCall(cfg, s, h))
  {
    hide Handlers.Inv, Nodes, Asks, RowsOk, PassOk, ValidKey, RowsOf;
    var k := s.creates[h].key;
    if s.creates[h].pc.Insert? && k !in s.rows {
      InsertKeeps(cfg, s, k);
    }
  }

  lemma DeleteKeeps(cfg: Config, s: State, k: Key)
    requires Inv(cfg, s)
    ensures Inv(cfg, s.(rows := Marked(s.rows, k)))
  {
    hide Handlers.Inv, NodeName, ValidKey, NodeKey, KeyOf, Doomed, Wanted, ListingOk, SeenOk, TasksOk, AwaitedOk;
  }

  // ---- A step of the pass ----

  lemma BeginPassKeeps(cfg: Config, s: State, clusters: seq<Cluster>)
    requires Inv(cfg, s) && Enabled(cfg, s, BeginPass(clusters))
    ensures Inv(cfg, After(cfg, s, BeginPass(clusters)))
  {
    hide Handlers.Inv, ValidKey, Nodes;
  }

  lemma ListIdsKeeps(cfg: Config, s: State)
    requires Inv(cfg, s) && Enabled(cfg, s, ListIds)
    ensures Inv(cfg, After(cfg, s, ListIds))
  {
    hide ValidKey, ClustersOk, RowsOk, Asks, NodeRequest;
    var d := s.chala.daemon;
    forall slot | slot in d.containers && slot.account == cfg.nache
      ensures IsListed(cfg.nache, d.containers[slot])
    {
      NodeIsListedUnderItsKey(cfg.nache, NodeKey(d.containers[slot].made), d.containers[slot]);
    }
    AsksOfAListing(cfg, s.rows, s.pass, Listing(s.pass.clusters, AllIds(cfg, d), []), s.chala.runs);
  }

  /** While it lists, nache has nothing open. */
  lemma AsksOfAListing(cfg: Config, rows: Rows, pass: Pass, pass': Pass, runs: map<nat, Handlers.RunHandler>)
    requires Asks(cfg, rows, pass, runs) && (pass.Listed? || pass.Listing?)
    ensures Asks(cfg, rows, pass', runs)
  {}

  lemma InspectListing(cfg: Config, s: State, slot: Slot)
    requires Inv(cfg, s) && s.pass.Listing? && slot in s.pass.todo
    ensures ListingOk(cfg, s.chala.daemon, AfterInspectOf(cfg, s, slot).pass)
  {
    hide ValidKey, ClustersOk, NodeRequest, ShowsHealthy, KeyOf, NodeKey, ViewOf, NodeName, IsListed,
      RowsOk, Asks, SeenOk, Handlers.GoodRuns;
    var d := s.chala.daemon;
    var pass, pass' := s.pass, AfterInspectOf(cfg, s, slot).pass;
    forall other | other in d.containers && other.account == cfg.nache
      ensures (other in pass'.todo && pass'.todo[other] == d.containers[other].id)
        || exists v :: v in pass'.seen && v.name == other.name && KeyOf(v) == NodeKey(d.containers[other].made)
    {
      if other == slot && Shows(cfg, s, slot) {
        var c := d.containers[slot];
        assert Handlers.GoodContainer(cfg.chala, d, slot);
        NodeIsListedUnderItsKey(cfg.nache, NodeKey(c.made), c);
        SlotIsOfNode(cfg, c.made);
        assert ViewOf(c) in pass'.seen;
      } else if other !in pass.todo || pass.todo[other] != d.containers[other].id {
        var v :| v in pass.seen && v.name == other.name && KeyOf(v) == NodeKey(d.containers[other].made);
        assert v in pass'.seen;
      }
    }
  }

  lemma SlotIsOfNode(cfg: Config, r: Request)
    requires r == NodeRequest(cfg.nache, NodeKey(r))
    ensures SlotOf(r).name == NodeName(NodeKey(r).account, NodeKey(r).cluster)
  {
    hide NodeName;
  }

  lemma ShownGrows(rows: Rows, since: map<Key, nat>, shown: set<Key>, k: Key, nextId: nat)
    requires RowsOk(rows, since, shown, nextId)
    ensures RowsOk(rows, since, shown + {k}, nextId)
  {}

  lemma SeenMore(shown: set<Key>, clusters: seq<Cluster>, seen: seq<View>, v: View)
    requires SeenOk(shown, clusters, seen)
    ensures SeenOk(if ShowsHealthy(v) then shown + {KeyOf(v)} else shown, clusters, seen + [v])
  {
    hide ShowsHealthy, KeyOf, Wanted;
  }

  lemma InspectKeeps(cfg: Config, s: State, slot: Slot)
    requires Inv(cfg, s) && s.pass.Listing? && slot in s.pass.todo
    ensures Inv(cfg, AfterInspectOf(cfg, s, slot))
  {
    hide ClustersOk, ShowsHealthy, Handlers.Inv, ListingOk, Nodes, KeyOf, Asks, RowsOk, SeenOk, ViewOf;
    InspectListing(cfg, s, slot);
    AsksOfAListing(cfg, s.rows, s.pass, AfterInspectOf(cfg, s, slot).pass, s.chala.runs);
    if Shows(cfg, s, slot) {
      var v := ViewOf(s.chala.daemon.containers[slot]);
      ShownGrows(s.rows, s.since, s.shown, KeyOf(v), s.chala.daemon.nextId);
      SeenMore(s.shown, s.pass.clusters, s.pass.seen, v);
    }
  }

  /** A cluster that is wanted gets a sound task, … */
  lemma WantedTaskOk(cfg: Config, d: Daemon, shown: set<Key>, clusters: seq<Cluster>, seen: seq<View>, c: Cluster)
    requires SeenOk(shown, clusters, seen) && c in clusters && c.1 != Deleting
    ensures TaskOk(cfg, d, shown, clusters, PlanFor(c, Tagged(seen, c.0)))
  {
    hide Tagged, Own, Strays, KeyOf, NodeName;
    var want := NodeName(c.0.account, c.0.cluster);
    var nodes := Tagged(seen, c.0);
    assert Wanted(clusters, c.0) by { assert c == (c.0, c.1); }
    OwnIsOne(nodes, want);
    if Own(nodes, want).Some? {
      TaggedHas(seen, c.0, Own(nodes, want).value);
    }
  }

  /** … and so does one that is being deleted, once everything has been looked at. */
  lemma NodeIsSeen(cfg: Config, s: State, k: Key)
    requires Inv(cfg, s) && s.pass.Listing? && s.pass.todo == map[] && Doomed(s.pass.clusters, k)
    requires NodeSlot(cfg.nache, k) in s.chala.daemon.containers
    ensures Terminate(NodeName(k.account, k.cluster)) in Terminates(Tagged(s.pass.seen, k))
  {
    hide Tagged, KeyOf, NodeName, NodeKey, Asks, SeenOk, Handlers.GoodRuns, IsClusterName, IsAccountId, Wanted,
      Doomed;
    var d := s.chala.daemon;
    var nodes := Tagged(s.pass.seen, k);
    var slot := NodeSlot(cfg.nache, k);
    assert Handlers.GoodContainer(cfg.chala, d, slot);
    SameNode(cfg, s.rows, k, d.containers[slot].made);
    var v :| v in s.pass.seen && v.name == slot.name && KeyOf(v) == k;
    TaggedHas(s.pass.seen, k, v);
    var i :| 0 <= i < |nodes| && nodes[i] == v;
    assert Terminates(nodes)[i] == Terminate(slot.name);
  }

  lemma TerminatesOnly(nodes: seq<View>)
    ensures forall e | e in Terminates(nodes) :: e.Terminate?
  {}

  lemma DoomedTaskOk(cfg: Config, s: State, k: Key)
    requires Inv(cfg, s) && s.pass.Listing? && s.pass.todo == map[] && Doomed(s.pass.clusters, k)
    ensures TaskOk(cfg, s.chala.daemon, s.shown, s.pass.clusters, PlanFor((k, Deleting), Tagged(s.pass.seen, k)))
  {
    hide Inv, Tagged, Terminates, NodeName, Wanted, Doomed;
    var terminates := Terminates(Tagged(s.pass.seen, k));
    TerminatesOnly(Tagged(s.pass.seen, k));
    if NodeSlot(cfg.nache, k) in s.chala.daemon.containers {
      NodeIsSeen(cfg, s, k);
    }
    assert forall i | 0 <= i < |terminates| :: terminates[i] in terminates;
  }

  lemma BeginWorkKeeps(cfg: Config, s: State, orphans: seq<View>)
    requires Inv(cfg, s) && s.pass.Listing? && s.pass.todo == map[]
    ensures Inv(cfg, s.(pass := Working(s.pass.clusters, Work(s.pass.clusters, s.pass.seen, orphans), None)))
  {
    hide ClustersOk, Handlers.Inv, ListingOk, Nodes, Asks, RowsOk, SeenOk, TaskOk, PlanFor, Tagged, Doomed;
    var clusters, seen := s.pass.clusters, s.pass.seen;
    var pass := Working(clusters, Work(clusters, seen, orphans), None);
    forall t | t in pass.tasks ensures TaskOk(cfg, s.chala.daemon, s.shown, clusters, t) {
      var i :| 0 <= i < |pass.tasks| && pass.tasks[i] == t;
      if i < |clusters| {
        var c := clusters[i];
        if c.1 == Deleting {
          IsDoomed(clusters, c);
          DoomedTaskOk(cfg, s, c.0);
        } else {
          WantedTaskOk(cfg, s.chala.daemon, s.shown, clusters, seen, c);
        }
      } else {
        OrphanTaskOk(cfg, s.chala.daemon, s.shown, clusters, orphans[i - |clusters|]);
      }
    }
    AsksOfAListing(cfg, s.rows, s.pass, pass, s.chala.runs);
  }

  lemma IsDoomed(clusters: seq<Cluster>, c: Cluster)
    requires c in clusters && c.1 == Deleting
    ensures Doomed(clusters, c.0) && c == (c.0, Deleting)
  {}

  lemma OrphanTaskOk(cfg: Config, d: Daemon, shown: set<Key>, clusters: seq<Cluster>, v: View)
    ensures TaskOk(cfg, d, shown, clusters, [Terminate(v.name)])
  {}

  /** The rest of a task is sound when its head is done, … */
  lemma TailOk(cfg: Config, d: Daemon, shown: set<Key>, clusters: seq<Cluster>, task: seq<Effect>)
    requires TaskOk(cfg, d, shown, clusters, task) && task != []
    requires forall k | Forget(k) in task && task[0] == Terminate(NodeName(k.account, k.cluster)) ::
      NodeSlot(cfg.nache, k) !in d.containers
    ensures TaskOk(cfg, d, shown, clusters, task[1..])
  {
    hide NodeName, Wanted, Doomed;
    var rest := task[1..];
    assert forall e | e in rest :: e in task;
    forall e | e in rest ensures EffectOk(cfg, d, shown, clusters, rest, e) {
      assert EffectOk(cfg, d, shown, clusters, task, e);
      if e.Forget? && NodeSlot(cfg.nache, e.key) in d.containers {
        var gone := Terminate(NodeName(e.key.account, e.key.cluster));
        assert gone in task && task[0] != gone;
        assert task == [task[0]] + rest;
      }
    }
  }

  /** … and the node is gone when the row is forgotten. */
  lemma ForgetIsLast(cfg: Config, d: Daemon, shown: set<Key>, clusters: seq<Cluster>, task: seq<Effect>, k: Key)
    requires TaskOk(cfg, d, shown, clusters, task) && task != [] && task[0] == Forget(k)
    ensures Doomed(clusters, k) && NodeSlot(cfg.nache, k) !in d.containers
  {
    hide NodeName, Wanted, Doomed;
    assert EffectOk(cfg, d, shown, clusters, task, task[0]);
    assert |task| == 1;
  }

  /** Dropping a whole task is always sound. */
  lemma DropKeeps(cfg: Config, s: State)
    requires Inv(cfg, s) && s.pass.Working? && s.pass.tasks != []
    ensures Inv(cfg, s.(pass := Working(s.pass.clusters, s.pass.tasks[1..], None)))
  {
    hide ClustersOk, Handlers.Inv, Nodes, RowsOk, TaskOk, Doomed, Wanted, NodeName;
  }

  lemma SucceedKeeps(cfg: Config, s: State)
    requires Inv(cfg, s) && At(s.pass)
    requires IsCall(Head(s.pass)) ==>
      s.pass.awaited.Some? && Answers(cfg, s.chala, Head(s.pass), s.pass.awaited.value)
    ensures Inv(cfg, s.(pass := Answer(s.pass, true)))
  {
    hide ClustersOk, Handlers.Inv, Nodes, RowsOk, TaskOk, Doomed, Wanted, NodeName;
    var pass := Answer(s.pass, true);
    forall t | t in pass.tasks ensures TaskOk(cfg, s.chala.daemon, s.shown, pass.clusters, t) {
      if t == s.pass.tasks[0][1..] {
        assert s.pass.tasks[0] in s.pass.tasks;
        TailOk(cfg, s.chala.daemon, s.shown, pass.clusters, s.pass.tasks[0]);
      } else {
        assert t in s.pass.tasks;
      }
    }
  }

  lemma OverKeeps(cfg: Config, s: State)
    requires Inv(cfg, s)
    ensures Inv(cfg, s.(pass := Idle))
  {
    hide Handlers.Inv, Nodes, RowsOk, TasksOk, ListingOk, SeenOk, ClustersOk;
  }

  /** A row forgotten, with its node gone and nobody making another. */
  lemma ForgetKeeps(cfg: Config, s: State)
    requires Inv(cfg, s) && At(s.pass) && Head(s.pass).Forget?
    ensures Inv(cfg, s.(rows := Forgotten(s.rows, Head(s.pass).key)))
  {
    hide NodeName, TasksOk, ListingOk, SeenOk, NodeKey, IsClusterName, IsAccountId, Wanted, Doomed,
      Handlers.GoodRuns, AwaitedOk;
    var k := Head(s.pass).key;
    assert TaskOk(cfg, s.chala.daemon, s.shown, s.pass.clusters, s.pass.tasks[0]) by { FirstTaskOk(cfg, s); }
    ForgetIsLast(cfg, s.chala.daemon, s.shown, s.pass.clusters, s.pass.tasks[0], k);
    forall slot | slot in s.chala.daemon.containers && slot.account == cfg.nache
      ensures NodeKey(s.chala.daemon.containers[slot].made) != k
    {
      assert Handlers.GoodContainer(cfg.chala, s.chala.daemon, slot);
    }
  }

  lemma FirstTaskOk(cfg: Config, s: State)
    requires Inv(cfg, s) && At(s.pass)
    ensures TaskOk(cfg, s.chala.daemon, s.shown, s.pass.clusters, s.pass.tasks[0])
  {
    hide Handlers.Inv, TaskOk, Nodes, Asks;
  }

  lemma ObserveKeeps(cfg: Config, s: State, k: Key, nodes: seq<Node>, active: bool)
    requires Inv(cfg, s) && (active ==> k in s.shown)
    ensures Inv(cfg, s.(rows := Observed(s.rows, k, nodes, active)))
  {
    hide Handlers.Inv, NodeName, ValidKey, NodeKey, Doomed, Wanted, ListingOk, SeenOk, TasksOk, AwaitedOk;
  }

  lemma AppliedKeeps(cfg: Config, s: State)
    requires Inv(cfg, s) && At(s.pass)
    ensures Inv(cfg, s.(rows := Applied(s.rows, Head(s.pass))))
  {
    hide Inv, NodeName, TaskOk;
    match Head(s.pass) {
      case Forget(k) => ForgetKeeps(cfg, s);
      case Observe(k, status, active) =>
        FirstTaskOk(cfg, s);
        HeadOk(cfg, s.chala.daemon, s.shown, s.pass.clusters, s.pass.tasks[0]);
        ObserveKeeps(cfg, s, k, [Node(NodeName(k.account, k.cluster), status)], active);
      case _ =>
    }
  }

  lemma HeadOk(cfg: Config, d: Daemon, shown: set<Key>, clusters: seq<Cluster>, task: seq<Effect>)
    requires TaskOk(cfg, d, shown, clusters, task) && task != []
    ensures EffectOk(cfg, d, shown, clusters, task, task[0])
  {
    hide EffectOk;
    assert task[0] in task;
  }

  lemma SendKeeps(cfg: Config, s: State, h: nat)
    requires IsConfig(cfg) && Inv(cfg, s) && Enabled(cfg, s, Send(h))
    ensures Inv(cfg, After(cfg, s, Send(h)))
  {
    hide Handlers.Enabled, Handlers.After, Handlers.Inv, Nodes, Asks, RowsOk, TasksOk, NodeName;
    var e := Head(s.pass);
    if e.RunNode? {
      FirstTaskOk(cfg, s);
      HeadOk(cfg, s.chala.daemon, s.shown, s.pass.clusters, s.pass.tasks[0]);
      AskIsFromPass(cfg, s, e.key);
    }
    var c := Handlers.After(cfg.chala, s.chala, Arrival(cfg, e, h));
    ChalaKeeps(cfg, s, Arrival(cfg, e, h));
    FreshStop(cfg, s, h);
    Awaiting(cfg, s.rows, s.shown, c, s.pass, h);
  }

  lemma Awaiting(cfg: Config, rows: Rows, shown: set<Key>, c: Handlers.State, pass: Pass, h: nat)
    requires At(pass) && Asks(cfg, rows, pass, c.runs) && TasksOk(cfg, c.daemon, shown, pass)
    ensures Asks(cfg, rows, pass.(awaited := Some(h)), c.runs)
    ensures TasksOk(cfg, c.daemon, shown, pass.(awaited := Some(h)))
  {
    hide IsAsk, TaskOk, Wanted;
  }

  lemma AskIsFromPass(cfg: Config, s: State, k: Key)
    requires Inv(cfg, s) && s.pass.Working? && Wanted(s.pass.clusters, k)
    ensures IsAsk(cfg, s.rows, NodeRequest(cfg.nache, k)) && NodeKey(NodeRequest(cfg.nache, k)) == k
  {
    hide Handlers.Inv, NodeName, Endpoint, Wanted;
    TagKeysDiffer();
  }

  lemma FreshStop(cfg: Config, s: State, h: nat)
    requires Enabled(cfg, s, Send(h))
    ensures AwaitedOk(cfg, Handlers.After(cfg.chala, s.chala, Arrival(cfg, Head(s.pass), h)),
                      s.pass.(awaited := Some(h)))
  {
    hide NodeName, NodeRequest;
  }

  lemma StepKeeps(cfg: Config, s: State, step: Step)
    requires IsConfig(cfg) && Inv(cfg, s) && Enabled(cfg, s, step)
    ensures Inv(cfg, After(cfg, s, step))
  {
    hide Handlers.Enabled, Handlers.After, Handlers.Inv, Nodes, Asks, RowsOk, PassOk, Work, ListsAll, AreOrphans,
      AfterInspectOf, AfterCreateCall, AllIds, Marked, Applied, Answers, IsConfig, ValidKey;
    match step {
      case CreateCall(h) => CreateCallKeeps(cfg, s, h);
      case Delete(k) => DeleteKeeps(cfg, s, k);
      case Compute(c) => ChalaKeeps(cfg, s, c);
      case BeginPass(clusters) => BeginPassKeeps(cfg, s, clusters);
      case ListIds => ListIdsKeeps(cfg, s);
      case Inspect(slot) => InspectKeeps(cfg, s, slot);
      case BeginWork(orphans) => BeginWorkKeeps(cfg, s, orphans);
      case NextTask => NextTaskKeeps(cfg, s);
      case Send(h) => SendKeeps(cfg, s, h);
      case Succeed => SucceedKeeps(cfg, s);
      case Fail => FailKeeps(cfg, s);
      case Statement =>
        AppliedKeeps(cfg, s);
        SucceedKeeps(cfg, s.(rows := Applied(s.rows, Head(s.pass))));
      case FailedStatement(applied) =>
        if applied {
          AppliedKeeps(cfg, s);
          FailKeeps(cfg, s.(rows := Applied(s.rows, Head(s.pass))));
        } else {
          FailKeeps(cfg, s);
        }
      case EndPass => OverKeeps(cfg, s);
      case Crash => OverKeeps(cfg, s);
      case _ =>
    }
  }

  lemma NextTaskKeeps(cfg: Config, s: State)
    requires Inv(cfg, s) && s.pass.Working? && s.pass.tasks != [] && s.pass.tasks[0] == []
    ensures Inv(cfg, s.(pass := s.pass.(tasks := s.pass.tasks[1..])))
  {
    hide ClustersOk, Handlers.Inv, Nodes, RowsOk, TasksOk, Asks;
    assert s.pass.awaited == None;
    assert s.pass.(tasks := s.pass.tasks[1..]) == Working(s.pass.clusters, s.pass.tasks[1..], None);
    DropKeeps(cfg, s);
  }

  lemma FailKeeps(cfg: Config, s: State)
    requires Inv(cfg, s) && At(s.pass)
    ensures Inv(cfg, s.(pass := Answer(s.pass, false)))
  {
    hide Inv;
    assert Answer(s.pass, false) == Working(s.pass.clusters, s.pass.tasks[1..], None);
    DropKeeps(cfg, s);
  }

  lemma {:induction false} RunsKeep(cfg: Config, steps: seq<Step>, states: seq<State>, i: nat)
    requires IsConfig(cfg) && IsRun(cfg, steps, states) && i < |states|
    ensures Inv(cfg, states[i])
  {
    hide Enabled, After, IsConfig;
    if i > 0 {
      RunsKeep(cfg, steps, states, i - 1);
      var j := i - 1;
      assert states[j + 1] == After(cfg, states[j], steps[j]);
      StepKeeps(cfg, states[j], steps[j]);
    }
  }
}
