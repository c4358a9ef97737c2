/** A pass that is left alone comes to its end: from any state of it there is a way on, and so there are
    runs that converge. */
module NacheProgress {
  import opened ChalaNames
  import opened Docker
  import opened Chala
  import opened NacheStore
  import opened NacheCompute
  import opened NacheReconciler
  import opened NacheRuns
  import opened NacheQuiet
  import opened NacheListing
  import opened NachePass
  import opened NacheConvergence
  import opened Sets
  import opened Wrappers
  import Handlers = ChalaRuns

  // ---- How far a pass is from its end ----

  function Stage(pass: Pass): nat {
    match pass
    case Idle => 0
    case Listed(_) => 3
    case Listing(_, _, _) => 2
    case Working(_, _, _) => 1
  }

  function Left(pass: Pass): nat {
    match pass
    case Listing(_, todo, _) => |todo|
    case Working(_, tasks, _) => Size(tasks)
    case _ => 0
  }

  function StopLeft(pc: TerminatePc): nat {
    match pc
    case Find => 2
    case Remove(_) => 1
    case _ => 0
  }

  function CallLeft(s: State): nat {
    if !At(s.pass) || s.pass.awaited == None then 11
    else
      var h := s.pass.awaited.value;
      if Head(s.pass).RunNode? && h in s.chala.runs then CallsLeft(s.chala.runs[h].pc)
      else if Head(s.pass).Terminate? && h in s.chala.stops then StopLeft(s.chala.stops[h].pc)
      else 0
  }

  predicate Nearer(s: State, s': State) {
    || Stage(s'.pass) < Stage(s.pass)
    || (Stage(s'.pass) == Stage(s.pass)
        && (Left(s'.pass) < Left(s.pass)
            || (Left(s'.pass) == Left(s.pass) && CallLeft(s') < CallLeft(s))))
  }

  /** chala is at the call the pass waits for: its handler did not die. */
  predicate Attended(cfg: Config, s: State) {
    At(s.pass) && s.pass.awaited.Some? ==>
      var h, c := s.pass.awaited.value, s.chala;
      match Head(s.pass)
      case RunNode(k) => h in c.runs && c.runs[h].request == NodeRequest(cfg.nache, k)
      case Terminate(name) => h in c.stops && c.stops[h].slot == Slot(cfg.nache, name)
      case _ => true
  }

  /** There is room for the nodes of all customers. */
  predicate HasRoom(cfg: Config, rows: Rows) { |Customers(cfg, rows)| <= cfg.chala.maxInstances }

  ghost predicate IsWayOn(cfg: Config, s: State, step: Step) {
    && Enabled(cfg, s, step) && Quiet(cfg, s, step) && !step.BeginPass?
    && Attended(cfg, After(cfg, s, step)) && (step.EndPass? || Nearer(s, After(cfg, s, step)))
  }

  // ---- The next step ----

  lemma ListingGoesOn(cfg: Config, s: State) returns (step: Step)
    requires Inv(cfg, s) && s.pass.Listing? && ListedSoFar(cfg, s.chala.daemon, s.pass)
    requires ListsAll(s.rows, s.pass.clusters)
    ensures IsWayOn(cfg, s, step)
  {
    hide Inv, ListedSoFar, ListsAll, Shown, IsWayOn;
    if s.pass.todo == map[] {
      ListingEnds(cfg, s.chala.daemon, s.pass);
      NoneUnclaimed(cfg, s);
      step := BeginWork([]);
      WorkIsNext(cfg, s);
    } else {
      var slot :| slot in s.pass.todo;
      step := Inspect(slot);
      LookIsNext(cfg, s, slot);
    }
  }

  lemma WorkIsNext(cfg: Config, s: State)
    requires s.pass.Listing? && s.pass.todo == map[] && AreOrphans(s.pass.clusters, s.pass.seen, [])
    ensures IsWayOn(cfg, s, BeginWork([]))
  {
    hide Work, AreOrphans, Size;
  }

  lemma LookIsNext(cfg: Config, s: State, slot: Slot)
    requires s.pass.Listing? && slot in s.pass.todo
    ensures IsWayOn(cfg, s, Inspect(slot))
  {
    hide ViewOf, KeyOf, ShowsHealthy, Shows;
    FewerLeft(s.pass.todo, slot);
  }

  lemma FewerLeft<T>(m: map<Slot, T>, slot: Slot)
    requires slot in m
    ensures |m - {slot}| < |m|
  {
    var rest := m - {slot};
    assert rest[slot := m[slot]] == m;
    assert |rest[slot := m[slot]]| == |rest| + 1;
  }

  lemma NoneUnclaimed(cfg: Config, s: State)
    requires Inv(cfg, s) && s.pass.Listing? && Shown(cfg, s.chala.daemon, s.pass.seen)
    requires ListsAll(s.rows, s.pass.clusters)
    ensures AreOrphans(s.pass.clusters, s.pass.seen, [])
  {
    hide Inv, KeyOf, Shown, NodeName, ValidKey;
    forall v | v in s.pass.seen ensures KeyOf(v) in KeysOf(s.pass.clusters) {
      ShownKey(cfg, s, s.pass.seen, v);
      assert (KeyOf(v), s.rows[KeyOf(v)].state) in s.pass.clusters;
    }
  }

  lemma AwaitedGoesOn(cfg: Config, s0: State, s: State, seen: seq<View>, n: nat, done: nat) returns (step: Step)
    requires WorkInv(cfg, s0, s, seen, n, done) && Attended(cfg, s) && HasRoom(cfg, s0.rows)
    requires At(s.pass) && IsCall(Head(s.pass)) && s.pass.awaited.Some?
    ensures IsWayOn(cfg, s, step)
  {
    hide WorkInv, NodeName, NodeRequest, RunStep, TerminateStep, Size, AfterAnswer, CallsLeft, HasRoom, Customers;
    var h, c := s.pass.awaited.value, s.chala;
    if Head(s.pass).RunNode? {
      if !Chala.Answered(c.runs[h].pc) {
        step := Compute(Handlers.RunCall(h));
        StepDescends(c.daemon, c.runs[h].request, c.runs[h].pc, cfg.chala.maxInstances);
      } else {
        NotRefused(cfg, s0, s, seen, n, done);
        step := Succeed;
        AnswerIsSmaller(s.pass.tasks, true);
      }
    } else {
      StopDescends(c.daemon, c.stops[h].slot, c.stops[h].pc);
      if c.stops[h].pc.Find? || c.stops[h].pc.Remove? {
        step := Compute(Handlers.StopCall(h));
      } else {
        step := Succeed;
        AnswerIsSmaller(s.pass.tasks, true);
      }
    }
  }

  lemma StopDescends(d: Daemon, slot: Slot, pc: TerminatePc)
    ensures pc.Find? || pc.Remove? ==> StopLeft(TerminateStep(d, slot, pc).1) < StopLeft(pc)
  {}

  lemma NotRefused(cfg: Config, s0: State, s: State, seen: seq<View>, n: nat, done: nat)
    requires WorkInv(cfg, s0, s, seen, n, done) && At(s.pass) && Head(s.pass).RunNode? && s.pass.awaited.Some?
    requires Attended(cfg, s) && HasRoom(cfg, s0.rows)
    ensures !s.chala.runs[s.pass.awaited.value].pc.Failed?
  {
    hide WorkInv, NodeName, NodeRequest, Customers;
    RefusedForRoom(cfg, s0, s, seen, n, done);
  }

  lemma SendGoesOn(cfg: Config, s0: State, s: State, seen: seq<View>, n: nat, done: nat) returns (step: Step)
    requires IsConfig(cfg) && WorkInv(cfg, s0, s, seen, n, done)
    requires At(s.pass) && IsCall(Head(s.pass)) && s.pass.awaited == None
    ensures IsWayOn(cfg, s, step)
  {
    hide WorkInv, NodeName, Size, AfterAnswer, CallsLeft, Validated, IsConfig, ValidKey, Endpoint;
    if Head(s.pass).RunNode? && Head(s.pass).key.account == cfg.nache {
      step := Fail;
      AnswerIsSmaller(s.pass.tasks, false);
    } else if Head(s.pass).RunNode? {
      ServiceIs(cfg);
      AskedIsValid(cfg, s0, s, seen, n, done);
      NodeRequestIsValid(cfg.nache, Head(s.pass).key);
      var h := FreshKey(s.chala.runs);
      step := Send(h);
      CallsAtFirst();
    } else {
      var h := FreshKey(s.chala.stops);
      step := Send(h);
    }
  }

  lemma CallsAtFirst()
    ensures CallsLeft(LookUp) < 11
  {}

  lemma ServiceIs(cfg: Config)
    requires IsConfig(cfg)
    ensures IsAccountId(cfg.nache) && Handlers.ServiceOf(cfg.chala, cfg.nache) == SERVICE
  {}

  lemma AskedIsValid(cfg: Config, s0: State, s: State, seen: seq<View>, n: nat, done: nat)
    requires WorkInv(cfg, s0, s, seen, n, done) && At(s.pass) && Head(s.pass).RunNode?
    ensures ValidKey(Head(s.pass).key)
  {
    hide WorkInv, PlanFor, Tagged, PhaseShown, NodeName, ValidKey;
    HeadIs(cfg, s0, s, seen, n, done);
    PlanOf(cfg, s0, s, seen, n, done);
    PlanNames(s.pass.clusters[n].0, PhaseAt(s.pass.clusters, seen, n), Tagged(seen, s.pass.clusters[n].0) != [], done);
    ClusterIs(cfg, s0, s, seen, n, done);
  }

  lemma WorkGoesOn(cfg: Config, s0: State, s: State) returns (step: Step)
    requires IsConfig(cfg) && InPass(cfg, s0, s) && s.pass.Working? && Attended(cfg, s) && HasRoom(cfg, s0.rows)
    ensures IsWayOn(cfg, s, step)
  {
    hide WorkInv, NodeName, Size, AfterAnswer, Attended, HasRoom, IsConfig, Applied;
    var seen, n: nat, done: nat :| WorkInv(cfg, s0, s, seen, n, done);
    if s.pass.tasks == [] {
      step := EndPass;
      AttendedElse(cfg, After(cfg, s, EndPass));
    } else if s.pass.tasks[0] == [] {
      step := NextTask;
      TailIsSmaller(s.pass.tasks);
      NoneAwaited(cfg, s0, s, seen, n, done);
      AttendedElse(cfg, After(cfg, s, NextTask));
    } else if !IsCall(Head(s.pass)) {
      step := Statement;
      AnswerIsSmaller(s.pass.tasks, true);
      AttendedElse(cfg, After(cfg, s, Statement));
    } else if s.pass.awaited == None {
      step := SendGoesOn(cfg, s0, s, seen, n, done);
    } else {
      step := AwaitedGoesOn(cfg, s0, s, seen, n, done);
    }
  }

  lemma AttendedElse(cfg: Config, s: State)
    requires !At(s.pass) || s.pass.awaited == None
    ensures Attended(cfg, s)
  {}

  lemma NoneAwaited(cfg: Config, s0: State, s: State, seen: seq<View>, n: nat, done: nat)
    requires WorkInv(cfg, s0, s, seen, n, done) && s.pass.tasks != [] && s.pass.tasks[0] == []
    ensures s.pass.awaited == None
  {
    hide ListsAll, SeenFrom, Becomes, Waiting, Tagged, PlanFor, PhaseShown, Called, Calling;
    TasksStep(s.pass.clusters, seen, s.pass.tasks, n, done);
  }

  /** In every state of a quiet pass there is a quiet step that brings it nearer to its end. */
  lemma GoesOn(cfg: Config, s0: State, s: State) returns (step: Step)
    requires IsConfig(cfg) && Inv(cfg, s) && InPass(cfg, s0, s) && Attended(cfg, s) && HasRoom(cfg, s0.rows)
    ensures IsWayOn(cfg, s, step)
  {
    hide Inv, WorkInv, HasRoom, IsConfig, AllIds, ListedSoFar, SeenSince, ListsAll;
    match s.pass {
      case Listed(_) => step := ListIds;
      case Listing(_, _, _) => RowsAreSame(cfg, s0, s); step := ListingGoesOn(cfg, s);
      case Working(_, _, _) => step := WorkGoesOn(cfg, s0, s);
    }
  }

  lemma RowsAreSame(cfg: Config, s0: State, s: State)
    requires InPass(cfg, s0, s) && s.pass.Listing?
    ensures ListsAll(s.rows, s.pass.clusters) && ListedSoFar(cfg, s.chala.daemon, s.pass)
  {
    hide ListsAll, ListedSoFar, Kept;
  }

  // ---- To the end of the pass ----

  lemma RunExtends(cfg: Config, steps: seq<Step>, states: seq<State>, b: nat, step: Step)
    requires QuietRun(cfg, steps, states, b, |steps|) && b <= |steps|
    requires Enabled(cfg, states[|steps|], step) && Quiet(cfg, states[|steps|], step)
    ensures QuietRun(cfg, steps + [step], states + [After(cfg, states[|steps|], step)], b, |steps| + 1)
  {
    hide Enabled, After, Quiet, IsConfig;
    var all, through := steps + [step], states + [After(cfg, states[|steps|], step)];
    forall i | 0 <= i < |all|
      ensures Enabled(cfg, through[i], all[i]) && through[i + 1] == After(cfg, through[i], all[i])
      ensures b <= i ==> Quiet(cfg, through[i], all[i])
    {
      if i < |steps| {
        assert through[i] == states[i] && through[i + 1] == states[i + 1] && all[i] == steps[i];
      }
    }
  }

  /** A quiet pass can be brought to its end from wherever it is, if the handler it waits for did not die and
      there is room for the nodes of all customers. */
  lemma {:induction false} PassCanEnd(cfg: Config, steps: seq<Step>, states: seq<State>, b: nat)
    returns (all: seq<Step>, through: seq<State>)
    requires QuietRun(cfg, steps, states, b, |steps|) && b < |steps| && steps[b].BeginPass?
    requires NoBoundary(steps, b + 1, |steps|) && NoneTerminating(cfg, states[b]) && HasRoom(cfg, states[b].rows)
    requires Attended(cfg, states[|steps|])
    ensures steps <= all && states <= through && |all| > |steps| && QuietRun(cfg, all, through, b, |all|)
    ensures IsPass(all, b, |all| - 1)
    decreases Stage(states[|steps|].pass), Left(states[|steps|].pass), CallLeft(states[|steps|])
  {
    hide QuietRun, NoneTerminating, HasRoom, Attended, Enabled, After, Quiet, Inv, InPass, OnlyOwn, Stage, Left,
      CallLeft;
    ConfigOf(cfg, steps, states, b, |steps|);
    var s := states[|steps|];
    InvAt(cfg, steps, states, b, |steps|, |steps|);
    PassGoes(cfg, steps, states, b, |steps|);
    var step := GoesOn(cfg, states[b], s);
    RunExtends(cfg, steps, states, b, step);
    all, through := steps + [step], states + [After(cfg, s, step)];
    if !step.EndPass? {
      all, through := PassCanEnd(cfg, all, through, b);
    }
  }

  /** At rest, with room and no node half removed, a pass can always be made. */
  ghost predicate AtRest(cfg: Config, s: State) {
    s.pass.Idle? && OnlyOwn(cfg, s) && NoneTerminating(cfg, s) && HasRoom(cfg, s.rows)
  }

  lemma PassCanBeMade(cfg: Config, steps: seq<Step>, states: seq<State>, a: nat)
    returns (all: seq<Step>, through: seq<State>)
    requires QuietRun(cfg, steps, states, a, |steps|) && a <= |steps| && AtRest(cfg, states[|steps|])
    ensures steps <= all && states <= through && QuietRun(cfg, all, through, a, |all|)
    ensures |all| > 0 && IsPass(all, |steps|, |all| - 1)
  {
    hide QuietRun, NoneTerminating, HasRoom, Inv, ListsAll, Quiet, Enabled, After, Attended, OnlyOwn;
    ConfigOf(cfg, steps, states, a, |steps|);
    var s := states[|steps|];
    var clusters := ListingOf(s.rows, s.rows.Keys);
    var step := BeginPass(clusters);
    IsListing(s.rows, clusters);
    Begins(cfg, s, clusters);
    RunExtends(cfg, steps, states, a, step);
    all, through := steps + [step], states + [After(cfg, s, step)];
    Later(cfg, all, through, a, |steps|, |all|);
    var all', through' := PassCanEnd(cfg, all, through, |steps|);
    Whole(cfg, all, through, all', through', a, |steps|);
    all, through := all', through';
  }

  lemma Begins(cfg: Config, s: State, clusters: seq<Cluster>)
    requires AtRest(cfg, s) && ListsAll(s.rows, clusters)
    ensures Enabled(cfg, s, BeginPass(clusters)) && Quiet(cfg, s, BeginPass(clusters))
    ensures Attended(cfg, After(cfg, s, BeginPass(clusters)))
  {
    hide ListsAll, OpenAsk, HasRoom, NoneTerminating;
  }

  lemma Later(cfg: Config, steps: seq<Step>, states: seq<State>, a: nat, b: nat, c: nat)
    requires QuietRun(cfg, steps, states, a, c) && a <= b
    ensures QuietRun(cfg, steps, states, b, c)
  {
    QuietPart(cfg, steps, states, a, c, b, c);
  }

  lemma Whole(cfg: Config, steps: seq<Step>, states: seq<State>, all: seq<Step>, through: seq<State>, a: nat, b: nat)
    requires QuietRun(cfg, steps, states, a, |steps|) && steps <= all && states <= through && b <= |steps|
    requires QuietRun(cfg, all, through, b, |all|)
    ensures QuietRun(cfg, all, through, a, |all|)
  {
    hide Quiet, Enabled, After, IsConfig;
    assert |states| == |steps| + 1;
    forall i | a <= i < |all| ensures Quiet(cfg, through[i], all[i]) {
      assert Enabled(cfg, through[i], all[i]);
      if i < b {
        assert through[i] == states[i] && all[i] == steps[i];
      }
    }
  }

  lemma {:induction false} ListingOf(rows: Rows, keys: set<Key>) returns (clusters: seq<Cluster>)
    requires keys <= rows.Keys
    ensures forall c | c in clusters :: c.0 in keys && rows[c.0].state == c.1
    ensures forall k | k in keys :: (k, rows[k].state) in clusters
    ensures forall i, j | 0 <= i < j < |clusters| :: clusters[i].0 != clusters[j].0
  {
    clusters := [];
    if keys != {} {
      var k :| k in keys;
      var rest := ListingOf(rows, keys - {k});
      assert forall c | c in rest :: c.0 != k;
      clusters := [(k, rows[k].state)] + rest;
    }
  }

  lemma IsListing(rows: Rows, clusters: seq<Cluster>)
    requires forall c | c in clusters :: c.0 in rows.Keys && rows[c.0].state == c.1
    requires forall k | k in rows.Keys :: (k, rows[k].state) in clusters
    requires forall i, j | 0 <= i < j < |clusters| :: clusters[i].0 != clusters[j].0
    ensures ListsAll(rows, clusters)
  {}

  // ---- There are runs that converge ----

  function Ailing(cfg: Config, s: State): set<Slot> {
    set slot | slot in s.chala.daemon.containers && slot.account == cfg.nache
      && StateOf(s.chala.daemon.containers[slot].status) == InService
      && s.chala.daemon.containers[slot].health != Healthy
  }

  /** The nodes that are up turn healthy. */
  lemma {:induction false} CanHeal(cfg: Config, steps: seq<Step>, states: seq<State>, a: nat)
    returns (all: seq<Step>, through: seq<State>)
    requires QuietRun(cfg, steps, states, a, |steps|) && a <= |steps| && AtRest(cfg, states[|steps|])
    ensures steps <= all && states <= through && QuietRun(cfg, all, through, a, |all|)
    ensures NoBoundary(all, |steps|, |all|) && AtRest(cfg, through[|all|]) && AllHealthy(cfg, through[|all|])
    decreases |Ailing(cfg, states[|steps|])|
  {
    hide QuietRun, AtRest, Enabled, After, Quiet, StateOf;
    ConfigOf(cfg, steps, states, a, |steps|);
    var s := states[|steps|];
    if Ailing(cfg, s) == {} {
      assert AllHealthy(cfg, s) by {
        forall slot | slot in s.chala.daemon.containers && slot.account == cfg.nache
          && StateOf(s.chala.daemon.containers[slot].status) == InService
          ensures s.chala.daemon.containers[slot].health == Healthy
        {
          assert slot !in Ailing(cfg, s);
        }
      }
      all, through := steps, states;
    } else {
      var slot :| slot in Ailing(cfg, s);
      var step := Compute(Handlers.ChangeHealth(slot, Healthy));
      Heals(cfg, s, slot);
      RunExtends(cfg, steps, states, a, step);
      all, through := CanHeal(cfg, steps + [step], states + [After(cfg, s, step)], a);
    }
  }

  lemma Heals(cfg: Config, s: State, slot: Slot)
    requires AtRest(cfg, s) && slot in Ailing(cfg, s)
    ensures var step := Compute(Handlers.ChangeHealth(slot, Healthy));
      && Enabled(cfg, s, step) && Quiet(cfg, s, step) && AtRest(cfg, After(cfg, s, step))
      && |Ailing(cfg, After(cfg, s, step))| < |Ailing(cfg, s)|
  {
    hide StateOf, Customers;
    var s' := After(cfg, s, Compute(Handlers.ChangeHealth(slot, Healthy)));
    assert Ailing(cfg, s') == Ailing(cfg, s) - {slot};
  }

  lemma Still(cfg: Config, steps: seq<Step>, states: seq<State>)
    requires IsConfig(cfg) && IsRun(cfg, steps, states)
    ensures QuietRun(cfg, steps, states, |steps|, |steps|)
  {
    hide IsConfig, Quiet;
  }

  /** A pass leaves nache at rest. */
  lemma RestsAfter(cfg: Config, steps: seq<Step>, states: seq<State>, a: nat, b: nat)
    requires QuietRun(cfg, steps, states, a, |steps|) && a <= b && |steps| > 0 && IsPass(steps, b, |steps| - 1)
    requires AtRest(cfg, states[b])
    ensures AtRest(cfg, states[|steps|])
  {
    hide QuietRun, NoneTerminating, OnlyOwn, Passed, Inv;
    ConfigOf(cfg, steps, states, a, |steps|);
    Later(cfg, steps, states, a, b, |steps|);
    QuietPassDoes(cfg, steps, states, b, |steps| - 1);
    InvAt(cfg, steps, states, a, |steps|, |steps|);
    var s, s' := states[b], states[|steps|];
    SameSelf(cfg, s');
    NoneTerminatingAfter(cfg, s, s', s');
    SurvivorsOf(cfg, s, s');
    assert Customers(cfg, s'.rows) <= Customers(cfg, s.rows);
    SubsetSize(Customers(cfg, s'.rows), Customers(cfg, s.rows));
  }

  lemma PassOfPrefix(steps: seq<Step>, all: seq<Step>, b: nat, e: nat)
    requires steps <= all
    ensures IsPass(steps, b, e) ==> IsPass(all, b, e)
    ensures NoBoundary(steps, b, e) ==> NoBoundary(all, b, e)
  {}

  /** From any state at rest a run may go on to where every customer is served. */
  lemma CanConverge(cfg: Config, steps: seq<Step>, states: seq<State>)
    returns (all: seq<Step>, through: seq<State>)
    requires IsConfig(cfg) && IsRun(cfg, steps, states) && AtRest(cfg, states[|steps|])
    ensures IsRun(cfg, all, through) && steps <= all && states <= through && Converged(cfg, through[|all|])
  {
    hide IsRun, QuietRun, AtRest, Converged, AllHealthy, IsConfig, NoneTerminating, IsPass, NoBoundary;
    var b := |steps|;
    Still(cfg, steps, states);
    ConfigOf(cfg, steps, states, b, b);
    var p1, q1 := PassCanBeMade(cfg, steps, states, b);
    ConfigOf(cfg, p1, q1, b, |p1|);
    RestsAfter(cfg, p1, q1, b, b);
    var p2, q2 := CanHeal(cfg, p1, q1, b);
    ConfigOf(cfg, p2, q2, b, |p2|);
    var p3, q3 := PassCanBeMade(cfg, p2, q2, b);
    ConfigOf(cfg, p3, q3, b, |p3|);
    RestsAfter(cfg, p3, q3, b, |p2|);
    var p4, q4 := CanHeal(cfg, p3, q3, b);
    ConfigOf(cfg, p4, q4, b, |p4|);
    all, through := PassCanBeMade(cfg, p4, q4, b);
    ConfigOf(cfg, all, through, b, |all|);
    PassOfPrefix(p1, all, b, |p1| - 1);
    PassOfPrefix(p2, all, |p1|, |p2|);
    PassOfPrefix(p3, all, |p2|, |p3| - 1);
    PassOfPrefix(p4, all, |p3|, |p4|);
    Bounds(p1, b, |p1| - 1);
    Bounds(p3, |p2|, |p3| - 1);
    Bounds(all, |p4|, |all| - 1);
    StartsAtRest(cfg, states[b]);
    AreRounds(cfg, all, through, b, |p1|, |p2|, |p3|, |p4|);
    ThreePasses(cfg, all, through, b, |p1| - 1, |p2|, |p3| - 1, |p4|, |all| - 1);
    RunOf(cfg, all, through, b);
  }

  lemma Bounds(steps: seq<Step>, b: nat, e: nat)
    requires IsPass(steps, b, e)
    ensures b < e < |steps|
  {}

  lemma StartsAtRest(cfg: Config, s: State)
    requires AtRest(cfg, s)
    ensures NoneTerminating(cfg, s)
  {}

  lemma RunOf(cfg: Config, steps: seq<Step>, states: seq<State>, a: nat)
    requires QuietRun(cfg, steps, states, a, |steps|)
    ensures IsRun(cfg, steps, states)
  {}

  lemma AreRounds(cfg: Config, all: seq<Step>, through: seq<State>, b: nat, c1: nat, b2: nat, c2: nat, b3: nat)
    requires 0 < c1 && 0 < c2 && |all| > 0 && c1 <= b2 && c2 <= b3
    requires IsPass(all, b, c1 - 1) && NoBoundary(all, c1, b2) && IsPass(all, b2, c2 - 1) && NoBoundary(all, c2, b3)
    requires IsPass(all, b3, |all| - 1) && QuietRun(cfg, all, through, b, |all|)
    ensures Rounds(cfg, all, through, b, c1 - 1, b2, c2 - 1, b3, |all| - 1)
  {
    hide IsPass, NoBoundary, QuietRun;
  }
}
