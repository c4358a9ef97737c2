/** Any number of Gets of one cache, the loads they share, invalidations, changes at the source and the
    clock, interleaved step by step.

    Assumption: from the moment it reads the source until it answers those who wait, a load takes at most
    `maxLoad`. */
module TtlCacheRuns {
  import opened Sets
  import opened TtlCache
  import opened Wrappers

  datatype Config = Config(ttl: nat, negativeTtl: nat, maxEntries: nat, maxLoad: nat)

  /** One state of a key at the source, and since when. */
  datatype Version = Version(kind: Kind, from: int)

  /** What a load read, when it read it, and when the expiry was computed. */
  datatype Reading = Reading(version: nat, kind: Kind, readAt: int, stampedAt: int)

  datatype Stage =
    | Opened
    | HasRead(reading: Reading)
    | HasStamped(entry: Entry<Reading>)
    | HasStored(reading: Reading)

  datatype Pc =
    | Asking
    | Checking(found: Option<Entry<Reading>>)
    | Missed
    | Waiting
    | Answered(reading: Reading, at: int, hit: bool)

  datatype Get = Get(key: string, pc: Pc)

  /** At most one load of a key is open.  `log` holds every version a key ever had, oldest first. */
  datatype State = State(
    now: int, log: map<string, seq<Version>>, entries: Entries<Reading>, flights: map<string, Stage>,
    gets: map<nat, Get>)

  datatype Step =
    | Tick(d: nat)
    | Change(key: string, kind: Kind)
    | Arrive(h: nat, key: string)
    | LookUp(h: nat)
    | CheckClock(h: nat)
    | Join(h: nat)
    | ReadSource(key: string, fails: bool)
    | Stamp(key: string)
    | Store(key: string)
    | Land(key: string)
    | Invalidate(key: string)

  /** Before anything is said of a key, there is no such thing. */
  function Log(log: map<string, seq<Version>>, key: string): (r: seq<Version>)
    ensures r != []
  {
    if key in log && log[key] != [] then log[key] else [Version(Negative, 0)]
  }

  ghost predicate LogsOk(s: State) {
    && s.now >= 0
    && (forall key, i | 0 <= i < |Log(s.log, key)| :: Log(s.log, key)[i].from <= s.now)
  }

  function Ttl(cfg: Config, kind: Kind): nat { if kind == Good then cfg.ttl else cfg.negativeTtl }

  predicate InTime(cfg: Config, s: State, r: Reading) { s.now <= r.readAt + cfg.maxLoad }

  predicate Enabled(cfg: Config, s: State, step: Step)
  {
    match step
    case Tick(_) => true
    case Change(_, kind) => kind != Failure
    case Arrive(h, _) => h !in s.gets
    case LookUp(h) => h in s.gets && s.gets[h].pc.Asking?
    case CheckClock(h) => h in s.gets && s.gets[h].pc.Checking?
    case Join(h) => h in s.gets && s.gets[h].pc.Missed?
    case ReadSource(key, _) => key in s.flights && s.flights[key].Opened?
    case Stamp(key) =>
      key in s.flights && s.flights[key].HasRead? && InTime(cfg, s, s.flights[key].reading)
    case Store(key) =>
      key in s.flights && s.flights[key].HasStamped? && InTime(cfg, s, s.flights[key].entry.answer)
    case Land(key) =>
      key in s.flights && s.flights[key].HasStored? && InTime(cfg, s, s.flights[key].reading)
    case Invalidate(_) => true
  }

  function Current(s: State, key: string, fails: bool): Reading
  {
    var version := |Log(s.log, key)| - 1;
    Reading(version, if fails then Failure else Log(s.log, key)[version].kind, s.now, s.now)
  }

  function Stamped(cfg: Config, r: Reading, now: int): Stage {
    if r.kind == Failure then HasStored(r.(stampedAt := now))
    else HasStamped(Entry(r.(stampedAt := now), now + Ttl(cfg, r.kind)))
  }

  /** Everybody who waited gets what the load came back with. */
  function Landed(gets: map<nat, Get>, key: string, r: Reading, now: int): map<nat, Get> {
    map h | h in gets ::
      if gets[h].key == key && gets[h].pc.Waiting? then Get(key, Answered(r, now, false)) else gets[h]
  }

  function Moved(s: State, h: nat, pc: Pc): State
    requires h in s.gets
  {
    s.(gets := s.gets[h := s.gets[h].(pc := pc)])
  }

  function After(cfg: Config, s: State, step: Step): State
    requires Enabled(cfg, s, step)
  {
    match step
    case Tick(d) => s.(now := s.now + d)
    case Change(key, kind) => s.(log := s.log[key := Log(s.log, key) + [Version(kind, s.now)]])
    case Arrive(h, key) => s.(gets := s.gets[h := Get(key, Asking)])
    case LookUp(h) =>
      var key := s.gets[h].key;
      Moved(s, h, Checking(if key in s.entries then Some(s.entries[key]) else None))
    case CheckClock(h) =>
      var found := s.gets[h].pc.found;
      Moved(s, h, if found.Some? && Live(found.value, s.now) then Answered(found.value.answer, s.now, true)
                  else Missed)
    case Join(h) =>
      var key := s.gets[h].key;
      Moved(if key in s.flights then s else s.(flights := s.flights[key := Opened]), h, Waiting)
    case ReadSource(key, fails) => s.(flights := s.flights[key := HasRead(Current(s, key, fails))])
    case Stamp(key) => s.(flights := s.flights[key := Stamped(cfg, s.flights[key].reading, s.now)])
    case Store(key) =>
      var e := s.flights[key].entry;
      s.(entries := Stored(s.entries, key, e, cfg.maxEntries, s.now),
         flights := s.flights[key := HasStored(e.answer)])
    case Land(key) =>
      s.(flights := s.flights - {key}, gets := Landed(s.gets, key, s.flights[key].reading, s.now))
    case Invalidate(key) => s.(entries := s.entries - {key})
  }

  const EMPTY := State(0, map[], map[], map[], map[])

  ghost predicate IsRun(cfg: Config, steps: seq<Step>, states: seq<State>) {
    && |states| == |steps| + 1
    && states[0] == EMPTY
    && forall i | 0 <= i < |steps| ::
         Enabled(cfg, states[i], steps[i]) && states[i + 1] == After(cfg, states[i], steps[i])
  }

  // ---- What every step keeps ----

  /** The version was current when it was read. */
  predicate ReadingOk(s: State, key: string, r: Reading)
  {
    && r.version < |Log(s.log, key)| && r.readAt <= r.stampedAt <= s.now
    && (r.kind != Failure ==> r.kind == Log(s.log, key)[r.version].kind)
    && Log(s.log, key)[r.version].from <= r.readAt
    && (r.version + 1 < |Log(s.log, key)| ==> r.readAt <= Log(s.log, key)[r.version + 1].from)
  }

  predicate EntryOk(cfg: Config, s: State, key: string, e: Entry<Reading>)
  {
    && ReadingOk(s, key, e.answer) && e.answer.kind != Failure
    && e.answer.stampedAt <= e.answer.readAt + cfg.maxLoad
    && e.expiresAt == e.answer.stampedAt + Ttl(cfg, e.answer.kind)
  }

  predicate StageOk(cfg: Config, s: State, key: string, stage: Stage)
  {
    match stage
    case Opened => true
    case HasRead(r) => ReadingOk(s, key, r)
    case HasStamped(e) => EntryOk(cfg, s, key, e)
    case HasStored(r) => ReadingOk(s, key, r)
  }

  predicate PcOk(cfg: Config, s: State, key: string, pc: Pc)
  {
    match pc
    case Checking(found) => found.Some? ==> EntryOk(cfg, s, key, found.value)
    case Answered(r, at, hit) =>
      && ReadingOk(s, key, r) && at <= s.now
      && (hit ==> EntryOk(cfg, s, key, Entry(r, r.stampedAt + Ttl(cfg, r.kind)))
                  && at < r.stampedAt + Ttl(cfg, r.kind))
      && (!hit ==> at <= r.readAt + cfg.maxLoad)
    case _ => true
  }

  ghost predicate Inv(cfg: Config, s: State) {
    && LogsOk(s)
    && |s.entries| <= cfg.maxEntries
    && (forall key | key in s.entries :: EntryOk(cfg, s, key, s.entries[key]))
    && (forall key | key in s.flights :: StageOk(cfg, s, key, s.flights[key]))
    && (forall h | h in s.gets :: PcOk(cfg, s, s.gets[h].key, s.gets[h].pc))
  }

  /** The clock goes on and logs grow. */
  ghost predicate Later(s: State, s': State) {
    && LogsOk(s) && LogsOk(s') && s.now <= s'.now
    && forall key :: Log(s.log, key) <= Log(s'.log, key)
         && (|Log(s.log, key)| < |Log(s'.log, key)| ==> s.now <= Log(s'.log, key)[|Log(s.log, key)|].from)
  }

  lemma ReadingLater(s: State, s': State, key: string, r: Reading)
    requires Later(s, s') && ReadingOk(s, key, r)
    ensures ReadingOk(s', key, r)
  {
    hide Log;
    var log, log' := Log(s.log, key), Log(s'.log, key);
    assert log <= log';
    assert log'[r.version] == log[r.version];
    if r.version + 1 < |log| {
      assert log'[r.version + 1] == log[r.version + 1];
    }
  }

  lemma StageLater(cfg: Config, s: State, s': State, key: string, stage: Stage)
    requires Later(s, s') && StageOk(cfg, s, key, stage)
    ensures StageOk(cfg, s', key, stage)
  {
    hide ReadingOk, Log;
    match stage {
      case Opened =>
      case HasRead(r) => ReadingLater(s, s', key, r);
      case HasStamped(e) => ReadingLater(s, s', key, e.answer);
      case HasStored(r) => ReadingLater(s, s', key, r);
    }
  }

  lemma PcLater(cfg: Config, s: State, s': State, key: string, pc: Pc)
    requires Later(s, s') && PcOk(cfg, s, key, pc)
    ensures PcOk(cfg, s', key, pc)
  {
    hide ReadingOk, Log;
    match pc {
      case Checking(found) => if found.Some? { ReadingLater(s, s', key, found.value.answer); }
      case Answered(r, _, _) => ReadingLater(s, s', key, r);
      case _ =>
    }
  }

  lemma GoesOn(cfg: Config, s: State, step: Step)
    requires LogsOk(s) && Enabled(cfg, s, step)
    ensures Later(s, After(cfg, s, step))
  {
    hide Stored, Stamped, Landed, Live, Current, Log, LogsOk, Later;
    var s' := After(cfg, s, step);
    if step.Change? {
      LogGrows(s, step.key, Version(step.kind, s.now));
    } else {
      SameLogs(s, s');
    }
  }

  lemma SameLogs(s: State, s': State)
    requires LogsOk(s) && s'.log == s.log && s.now <= s'.now
    ensures Later(s, s')
  {
    hide Log;
  }

  lemma LogGrows(s: State, key: string, v: Version)
    requires LogsOk(s) && v.from == s.now
    ensures Later(s, s.(log := s.log[key := Log(s.log, key) + [v]]))
  {
    hide Log;
    var s' := s.(log := s.log[key := Log(s.log, key) + [v]]);
    forall k ensures Log(s'.log, k) == if k == key then Log(s.log, k) + [v] else Log(s.log, k) {
      LogAfter(s.log, key, Log(s.log, key) + [v], k);
    }
  }

  lemma LogAfter(log: map<string, seq<Version>>, key: string, versions: seq<Version>, k: string)
    requires versions != []
    ensures Log(log[key := versions], k) == if k == key then versions else Log(log, k)
  {}

  /** Everything that was right stays right, wherever it is afterwards. */
  lemma StepKeeps(cfg: Config, s: State, step: Step)
    requires Inv(cfg, s) && Enabled(cfg, s, step)
    ensures Inv(cfg, After(cfg, s, step))
  {
    hide Stored, EntryOk, StageOk, PcOk, Later, After, LogsOk;
    var s' := After(cfg, s, step);
    GoesOn(cfg, s, step);
    LaterLogs(s, s');
    EntriesKeep(cfg, s, step);
    forall key | key in s'.flights ensures StageOk(cfg, s', key, s'.flights[key]) {
      FlightKeeps(cfg, s, step, key);
    }
    forall h | h in s'.gets ensures PcOk(cfg, s', s'.gets[h].key, s'.gets[h].pc) {
      GetKeeps(cfg, s, step, h);
    }
  }

  lemma LaterLogs(s: State, s': State)
    requires Later(s, s')
    ensures LogsOk(s')
  {}

  lemma EntriesKeep(cfg: Config, s: State, step: Step)
    requires Inv(cfg, s) && Enabled(cfg, s, step)
    ensures var s' := After(cfg, s, step);
      && |s'.entries| <= cfg.maxEntries
      && forall key | key in s'.entries :: EntryOk(cfg, s', key, s'.entries[key])
  {
    hide Stored, ReadingOk, PcOk, Stamped, Landed, Later, LogsOk, Current;
    var s' := After(cfg, s, step);
    GoesOn(cfg, s, step);
    match step {
      case Store(key) =>
        assert StageOk(cfg, s, key, s.flights[key]);
        StoringIsSafe(s.entries, key, s.flights[key].entry, cfg.maxEntries, s.now);
      case Invalidate(key) => RemovalSize(s.entries, key);
      case _ =>
    }
    forall key | key in s'.entries ensures EntryOk(cfg, s', key, s'.entries[key]) {
      ReadingLater(s, s', key, s'.entries[key].answer);
    }
  }

  lemma RemovalSize<K, V>(m: map<K, V>, k: K)
    ensures |m - {k}| <= |m|
  {
    assert (m - {k}).Keys == m.Keys - {k};
  }

  lemma FlightKeeps(cfg: Config, s: State, step: Step, key: string)
    requires Inv(cfg, s) && Enabled(cfg, s, step) && key in After(cfg, s, step).flights
    ensures var s' := After(cfg, s, step); StageOk(cfg, s', key, s'.flights[key])
  {
    hide Stored, PcOk, Landed, Later, EntryOk;
    var s' := After(cfg, s, step);
    GoesOn(cfg, s, step);
    if key in s.flights && s'.flights[key] == s.flights[key] {
      StageLater(cfg, s, s', key, s.flights[key]);
    } else {
      FlightMoves(cfg, s, step, key);
    }
  }

  lemma FlightMoves(cfg: Config, s: State, step: Step, key: string)
    requires Inv(cfg, s) && Enabled(cfg, s, step) && key in After(cfg, s, step).flights
    requires key !in s.flights || After(cfg, s, step).flights[key] != s.flights[key]
    ensures var s' := After(cfg, s, step); StageOk(cfg, s', key, s'.flights[key])
  {
    hide Stored, PcOk, Landed, Later, Log;
    assert key in s.flights ==> StageOk(cfg, s, key, s.flights[key]);
  }

  lemma GetKeeps(cfg: Config, s: State, step: Step, h: nat)
    requires Inv(cfg, s) && Enabled(cfg, s, step) && h in After(cfg, s, step).gets
    ensures var s' := After(cfg, s, step); PcOk(cfg, s', s'.gets[h].key, s'.gets[h].pc)
  {
    hide Stored, Later, EntryOk;
    var s' := After(cfg, s, step);
    GoesOn(cfg, s, step);
    if h in s.gets && s'.gets[h] == s.gets[h] {
      PcLater(cfg, s, s', s.gets[h].key, s.gets[h].pc);
    } else {
      GetMoves(cfg, s, step, h);
    }
  }

  lemma GetMoves(cfg: Config, s: State, step: Step, h: nat)
    requires Inv(cfg, s) && Enabled(cfg, s, step) && h in After(cfg, s, step).gets
    requires h !in s.gets || After(cfg, s, step).gets[h] != s.gets[h]
    ensures var s' := After(cfg, s, step); PcOk(cfg, s', s'.gets[h].key, s'.gets[h].pc)
  {
    hide Stored, Later, Stamped, Current, Log, LogsOk, EntryOk, ReadingOk, StageOk, PcOk, Live;
    var s' := After(cfg, s, step);
    GoesOn(cfg, s, step);
    if step.LookUp? {
      LooksUp(cfg, s, h);
    } else if step.CheckClock? {
      ChecksClock(cfg, s, h);
    } else if step.Land? {
      Lands(cfg, s, step.key);
    } else {
      NothingFound(cfg, s);
    }
    PcLater(cfg, s, s', s'.gets[h].key, s'.gets[h].pc);
  }

  lemma NothingFound(cfg: Config, s: State)
    ensures forall key :: PcOk(cfg, s, key, Asking) && PcOk(cfg, s, key, Waiting)
  {}

  lemma LooksUp(cfg: Config, s: State, h: nat)
    requires Inv(cfg, s) && h in s.gets
    ensures var key := s.gets[h].key;
      PcOk(cfg, s, key, Checking(if key in s.entries then Some(s.entries[key]) else None))
  {
    hide EntryOk, StageOk, LogsOk;
  }

  lemma ChecksClock(cfg: Config, s: State, h: nat)
    requires Inv(cfg, s) && h in s.gets && s.gets[h].pc.Checking?
    ensures var found := s.gets[h].pc.found;
      PcOk(cfg, s, s.gets[h].key,
           if found.Some? && Live(found.value, s.now) then Answered(found.value.answer, s.now, true) else Missed)
  {
    hide StageOk, LogsOk, ReadingOk;
    assert PcOk(cfg, s, s.gets[h].key, s.gets[h].pc);
  }

  lemma Lands(cfg: Config, s: State, key: string)
    requires Inv(cfg, s) && Enabled(cfg, s, Land(key))
    ensures PcOk(cfg, s, key, Answered(s.flights[key].reading, s.now, false))
  {
    hide EntryOk, LogsOk, ReadingOk;
    assert StageOk(cfg, s, key, s.flights[key]);
  }

  lemma {:induction false} RunsKeep(cfg: Config, steps: seq<Step>, states: seq<State>, i: nat)
    requires IsRun(cfg, steps, states) && i < |states|
    ensures Inv(cfg, states[i])
  {
    hide Enabled, After;
    if i > 0 {
      RunsKeep(cfg, steps, states, i - 1);
      var j := i - 1;
      assert states[j + 1] == After(cfg, states[j], steps[j]);
      StepKeeps(cfg, states[j], steps[j]);
    }
  }

  lemma {:induction false} ReadingOn(cfg: Config, steps: seq<Step>, states: seq<State>, i: nat, j: nat, key: string,
                                     r: Reading)
    requires IsRun(cfg, steps, states) && i <= j < |states| && ReadingOk(states[i], key, r)
    ensures ReadingOk(states[j], key, r)
  {
    hide Enabled, After, ReadingOk, Later, LogsOk;
    if i < j {
      ReadingOn(cfg, steps, states, i, j - 1, key, r);
      var m := j - 1;
      assert states[m + 1] == After(cfg, states[m], steps[m]);
      RunsKeep(cfg, steps, states, m);
      GoesOn(cfg, states[m], steps[m]);
      ReadingLater(states[m], states[j], key, r);
    }
  }

  // ---- What the cache promises ----

  lemma HoldsOnlyDefinitiveAnswers(cfg: Config, steps: seq<Step>, states: seq<State>, i: nat)
    requires IsRun(cfg, steps, states) && i < |states|
    ensures |states[i].entries| <= cfg.maxEntries
    ensures forall key | key in states[i].entries :: states[i].entries[key].answer.kind != Failure
  {
    hide IsRun;
    RunsKeep(cfg, steps, states, i);
  }

  /** Whatever the cache is full of, storing one key costs no other key its live entry. */
  lemma StoreKeepsOthers(cfg: Config, steps: seq<Step>, states: seq<State>, i: nat, key: string, other: string)
    requires IsRun(cfg, steps, states) && i < |steps| && steps[i] == Store(key) && other != key
    requires other in states[i].entries && Live(states[i].entries[other], states[i].now)
    ensures other in states[i + 1].entries && states[i + 1].entries[other] == states[i].entries[other]
  {
    hide Stored, Log;
    RunsKeep(cfg, steps, states, i);
    assert Enabled(cfg, states[i], steps[i]) && states[i + 1] == After(cfg, states[i], steps[i]);
    StoringIsSafe(states[i].entries, key, states[i].flights[key].entry, cfg.maxEntries, states[i].now);
  }

  /** A hit is younger than the TTL, counted from when its answer was stored; and a change at the source
      is hidden for less than the TTL and the time a load takes. */
  lemma HitsAreFresh(cfg: Config, steps: seq<Step>, states: seq<State>, i: nat, h: nat)
    requires IsRun(cfg, steps, states) && i < |states|
    requires h in states[i].gets && states[i].gets[h].pc.Answered? && states[i].gets[h].pc.hit
    ensures var Answered(r, at, _) := states[i].gets[h].pc;
      var log := Log(states[i].log, states[i].gets[h].key);
      var ttl := if r.kind == Good then cfg.ttl else cfg.negativeTtl;
      && r.version < |log| && r.kind == log[r.version].kind && r.kind != Failure
      && at < r.stampedAt + ttl
      && at < r.readAt + cfg.maxLoad + ttl
      && (r.version + 1 < |log| ==> at < log[r.version + 1].from + cfg.maxLoad + ttl)
  {
    hide IsRun, Log;
    RunsKeep(cfg, steps, states, i);
    assert PcOk(cfg, states[i], states[i].gets[h].key, states[i].gets[h].pc);
  }

  /** Nor does a Get that waited for a load get anything older than the load. */
  lemma AnswersAreFresh(cfg: Config, steps: seq<Step>, states: seq<State>, i: nat, h: nat)
    requires IsRun(cfg, steps, states) && i < |states| && cfg.ttl > 0 && cfg.negativeTtl > 0
    requires h in states[i].gets && states[i].gets[h].pc.Answered?
    ensures var Answered(r, at, _) := states[i].gets[h].pc;
      var log := Log(states[i].log, states[i].gets[h].key);
      && r.version < |log| && at < r.readAt + cfg.maxLoad + Ttl(cfg, r.kind)
      && log[r.version].from <= r.readAt
      && (r.version + 1 < |log| ==> r.readAt <= log[r.version + 1].from)
  {
    hide IsRun, Log;
    RunsKeep(cfg, steps, states, i);
    assert PcOk(cfg, states[i], states[i].gets[h].key, states[i].gets[h].pc);
  }

  // ---- And what it is for ----

  /** A Get that looks up a key while an entry of it is there, and asks the clock before that has expired, is
      answered from it without a load; otherwise it waits for one. */
  lemma HitsWhileLive(cfg: Config, steps: seq<Step>, states: seq<State>, i: nat, j: nat, h: nat)
    requires IsRun(cfg, steps, states) && i < j < |steps| && steps[i] == LookUp(h) && steps[j] == CheckClock(h)
    requires forall m | i < m < j :: steps[m] != CheckClock(h)
    ensures h in states[i].gets && h in states[j + 1].gets
    ensures var key, pc := states[i].gets[h].key, states[j + 1].gets[h].pc;
      if key in states[i].entries && states[j].now < states[i].entries[key].expiresAt then
        pc == Answered(states[i].entries[key].answer, states[j].now, true)
      else pc == Missed
  {
    hide Stored, Log, Stamped, Landed, Current, InTime;
    assert Enabled(cfg, states[i], steps[i]) && states[i + 1] == After(cfg, states[i], steps[i]);
    assert Enabled(cfg, states[j], steps[j]) && states[j + 1] == After(cfg, states[j], steps[j]);
    StillChecking(cfg, steps, states, i + 1, j, h);
  }

  lemma {:induction false} StillChecking(cfg: Config, steps: seq<Step>, states: seq<State>, i: nat, j: nat, h: nat)
    requires IsRun(cfg, steps, states) && i <= j < |states| && h in states[i].gets && states[i].gets[h].pc.Checking?
    requires forall m | i <= m < j :: steps[m] != CheckClock(h)
    ensures h in states[j].gets && states[j].gets[h] == states[i].gets[h]
  {
    hide Enabled, After;
    if i < j {
      StillChecking(cfg, steps, states, i, j - 1, h);
      var m := j - 1;
      assert Enabled(cfg, states[m], steps[m]) && states[m + 1] == After(cfg, states[m], steps[m]);
      ChecksOn(cfg, states[m], steps[m], h);
    }
  }

  lemma ChecksOn(cfg: Config, s: State, step: Step, h: nat)
    requires Enabled(cfg, s, step) && h in s.gets && s.gets[h].pc.Checking? && step != CheckClock(h)
    ensures h in After(cfg, s, step).gets && After(cfg, s, step).gets[h] == s.gets[h]
  {
    hide Stored, Log, Stamped, Current, InTime, Live;
  }

  /** A live entry is there until its key is invalidated or stored again. */
  lemma {:induction false} EntryStays(cfg: Config, steps: seq<Step>, states: seq<State>, i: nat, j: nat, key: string)
    requires IsRun(cfg, steps, states) && i <= j < |states| && key in states[i].entries
    requires states[j].now < states[i].entries[key].expiresAt
    requires forall m | i <= m < j :: steps[m] != Invalidate(key) && steps[m] != Store(key)
    ensures states[i].now <= states[j].now
    ensures key in states[j].entries && states[j].entries[key] == states[i].entries[key]
    decreases j
  {
    hide Enabled, After, Inv, Later;
    if i < j {
      var m := j - 1;
      assert Enabled(cfg, states[m], steps[m]) && states[m + 1] == After(cfg, states[m], steps[m]);
      RunsKeep(cfg, steps, states, m);
      Ticks(cfg, states[m], steps[m]);
      EntryStays(cfg, steps, states, i, m, key);
      EntryKept(cfg, states[m], steps[m], key);
    }
  }

  lemma Ticks(cfg: Config, s: State, step: Step)
    requires Enabled(cfg, s, step)
    ensures s.now <= After(cfg, s, step).now
  {
    hide Stored, Log, Stamped, Current, InTime, Live, Landed;
  }

  lemma EntryKept(cfg: Config, s: State, step: Step, key: string)
    requires Inv(cfg, s) && Enabled(cfg, s, step) && key in s.entries && s.now < s.entries[key].expiresAt
    requires step != Invalidate(key) && step != Store(key)
    ensures key in After(cfg, s, step).entries && After(cfg, s, step).entries[key] == s.entries[key]
  {
    hide Stored, Log, Stamped, Current, InTime, Landed, EntryOk, StageOk, PcOk, LogsOk;
    if step.Store? {
      StoringIsSafe(s.entries, step.key, s.flights[step.key].entry, cfg.maxEntries, s.now);
    }
  }

  /** What a load brings is kept for the time of its kind, unless the cache is full of live entries. */
  lemma LoadsAreKept(cfg: Config, steps: seq<Step>, states: seq<State>, i: nat, key: string)
    requires IsRun(cfg, steps, states) && i < |steps| && steps[i] == Store(key)
    requires |set k | k in states[i].entries && states[i].now < states[i].entries[k].expiresAt| < cfg.maxEntries
    ensures key in states[i].flights && states[i].flights[key].HasStamped?
    ensures key in states[i + 1].entries
    ensures var e, r := states[i + 1].entries[key], states[i].flights[key].entry.answer;
      && e.answer == r && r.kind != Failure
      && e.expiresAt == r.stampedAt + if r.kind == Good then cfg.ttl else cfg.negativeTtl
  {
    hide Stored, Log, Stamped, Current, Landed, ReadingOk, PcOk, LogsOk;
    assert Enabled(cfg, states[i], steps[i]) && states[i + 1] == After(cfg, states[i], steps[i]);
    RunsKeep(cfg, steps, states, i);
    assert StageOk(cfg, states[i], key, states[i].flights[key]);
    StoringKeeps(states[i].entries, key, states[i].flights[key].entry, cfg.maxEntries, states[i].now);
  }

  // ---- Invalidation ----

  predicate StageFrom(stage: Stage, version: nat) {
    match stage
    case Opened => true
    case HasRead(r) => r.version >= version
    case HasStamped(e) => e.answer.version >= version
    case HasStored(r) => r.version >= version
  }

  function ReadingOf(stage: Stage): Reading
    requires !stage.Opened?
  {
    match stage
    case HasRead(r) => r
    case HasStamped(e) => e.answer
    case HasStored(r) => r
  }

  /** A load that read an older version and took too long already will answer nobody. */
  predicate FlightFrom(cfg: Config, s: State, key: string, version: nat) {
    key in s.flights ==>
      StageFrom(s.flights[key], version) || (!s.flights[key].Opened? && !InTime(cfg, s, ReadingOf(s.flights[key])))
  }

  predicate PcFrom(pc: Pc, version: nat) {
    match pc
    case Checking(found) => found.Some? ==> found.value.answer.version >= version
    case Answered(r, _, _) => r.version >= version
    case _ => true
  }

  /** For one key, nothing older than a version is left, but in Gets that were there `before`. */
  ghost predicate OnlyFrom(cfg: Config, s: State, key: string, version: nat, before: set<nat>) {
    && version < |Log(s.log, key)|
    && before <= s.gets.Keys
    && (key in s.entries ==> s.entries[key].answer.version >= version)
    && FlightFrom(cfg, s, key, version)
    && (forall h | h in s.gets && h !in before && s.gets[h].key == key :: PcFrom(s.gets[h].pc, version))
  }

  lemma OnlyFromStep(cfg: Config, s: State, step: Step, key: string, version: nat, before: set<nat>)
    requires Inv(cfg, s) && Enabled(cfg, s, step) && OnlyFrom(cfg, s, key, version, before)
    ensures OnlyFrom(cfg, After(cfg, s, step), key, version, before)
  {
    hide EntryOk, ReadingOk, PcOk, StageOk, LogsOk, Live, Stored, Log, PcFrom, Landed, Later, Ttl, Stamped;
    var s' := After(cfg, s, step);
    GoesOn(cfg, s, step);
    LogLater(s, s', key);
    if step.Store? {
      StoringIsSafe(s.entries, step.key, s.flights[step.key].entry, cfg.maxEntries, s.now);
    }
    FlightStaysFrom(cfg, s, step, key, version, before);
    forall h | h in s'.gets && h !in before && s'.gets[h].key == key ensures PcFrom(s'.gets[h].pc, version) {
      GetFrom(cfg, s, step, key, version, before, h);
    }
    GetsStay(cfg, s, step);
  }

  lemma FlightStaysFrom(cfg: Config, s: State, step: Step, key: string, version: nat, before: set<nat>)
    requires Enabled(cfg, s, step) && OnlyFrom(cfg, s, key, version, before)
    ensures FlightFrom(cfg, After(cfg, s, step), key, version)
  {
    hide Live, Stored, Log, PcFrom, Landed;
  }

  lemma GetFrom(cfg: Config, s: State, step: Step, key: string, version: nat, before: set<nat>, h: nat)
    requires Enabled(cfg, s, step) && OnlyFrom(cfg, s, key, version, before)
    requires h in After(cfg, s, step).gets && h !in before && After(cfg, s, step).gets[h].key == key
    ensures PcFrom(After(cfg, s, step).gets[h].pc, version)
  {
    hide Live, Stored, Log, Stamped, Current, InTime;
  }

  lemma GetsStay(cfg: Config, s: State, step: Step)
    requires Enabled(cfg, s, step)
    ensures s.gets.Keys <= After(cfg, s, step).gets.Keys
  {
    hide Live, Stored, Log, Stamped, Current, InTime;
  }

  lemma LogLater(s: State, s': State, key: string)
    requires Later(s, s')
    ensures |Log(s.log, key)| <= |Log(s'.log, key)|
  {
    hide Log;
  }

  lemma {:induction false} OnlyFromOn(cfg: Config, steps: seq<Step>, states: seq<State>, i: nat, j: nat,
                                      key: string, version: nat, before: set<nat>)
    requires IsRun(cfg, steps, states) && i <= j < |states| && OnlyFrom(cfg, states[i], key, version, before)
    ensures OnlyFrom(cfg, states[j], key, version, before)
  {
    hide Enabled, After, OnlyFrom;
    if i < j {
      OnlyFromOn(cfg, steps, states, i, j - 1, key, version, before);
      var m := j - 1;
      assert states[m + 1] == After(cfg, states[m], steps[m]);
      RunsKeep(cfg, steps, states, m);
      OnlyFromStep(cfg, states[m], steps[m], key, version, before);
    }
  }

  /** A load of the key is open that read an older version than the source holds, and may still answer. */
  predicate HoldsOlder(cfg: Config, s: State, key: string) {
    && key in s.flights && !s.flights[key].Opened?
    && ReadingOf(s.flights[key]).version < |Log(s.log, key)| - 1 && InTime(cfg, s, ReadingOf(s.flights[key]))
  }

  /** After an invalidation with no such load open, no Get that starts later returns anything older than
      what the source held then. */
  lemma InvalidationIsFinal(cfg: Config, steps: seq<Step>, states: seq<State>, i: nat, j: nat, key: string, h: nat)
    requires IsRun(cfg, steps, states) && i < |steps| && steps[i] == Invalidate(key) && i < j < |states|
    requires !HoldsOlder(cfg, states[i], key)
    requires h !in states[i].gets && h in states[j].gets
    requires states[j].gets[h].key == key && states[j].gets[h].pc.Answered?
    ensures states[j].gets[h].pc.reading.version >= |Log(states[i].log, key)| - 1
  {
    hide Log;
    var version := |Log(states[i].log, key)| - 1;
    assert states[i + 1] == After(cfg, states[i], steps[i]);
    assert OnlyFrom(cfg, states[i + 1], key, version, states[i].gets.Keys);
    OnlyFromOn(cfg, steps, states, i + 1, j, key, version, states[i].gets.Keys);
  }

  // ---- And with such a load it is not ----

  /** `s` comes at the end of a run. */
  ghost predicate EndsIn(cfg: Config, steps: seq<Step>, states: seq<State>, s: State) {
    IsRun(cfg, steps, states) && states[|steps|] == s
  }

  lemma Extend(cfg: Config, steps: seq<Step>, states: seq<State>, s: State, step: Step, s': State)
    requires EndsIn(cfg, steps, states, s) && Enabled(cfg, s, step) && After(cfg, s, step) == s'
    ensures EndsIn(cfg, steps + [step], states + [s'], s')
  {
    hide Enabled, After;
    var steps', states' := steps + [step], states + [s'];
    forall i | 0 <= i < |steps'|
      ensures Enabled(cfg, states'[i], steps'[i]) && states'[i + 1] == After(cfg, states'[i], steps'[i])
    {
      if i == |steps| {
        assert states'[i] == s && steps'[i] == step;
      } else {
        assert states'[i] == states[i] && states'[i + 1] == states[i + 1] && steps'[i] == steps[i];
      }
    }
  }

  /** A Get comes after the invalidation and waits for the load. */
  lemma WaitsForLoad(cfg: Config, steps: seq<Step>, states: seq<State>, s: State, key: string, h: nat)
    returns (all: seq<Step>, through: seq<State>)
    requires EndsIn(cfg, steps, states, s) && key in s.flights && h !in s.gets
    ensures steps <= all && states <= through && |all| > |steps| && all[|steps|] == Invalidate(key)
    ensures EndsIn(cfg, all, through, s.(entries := s.entries - {key}, gets := s.gets[h := Get(key, Waiting)]))
  {
    hide IsRun;
    var s1 := s.(entries := s.entries - {key});
    var s2 := s1.(gets := s.gets[h := Get(key, Asking)]);
    var s3 := s1.(gets := s.gets[h := Get(key, Checking(None))]);
    var s4 := s1.(gets := s.gets[h := Get(key, Missed)]);
    var s5 := s1.(gets := s.gets[h := Get(key, Waiting)]);
    Replaced(s.gets, h);
    Extend(cfg, steps, states, s, Invalidate(key), s1);
    all, through := steps + [Invalidate(key)], states + [s1];
    Extend(cfg, all, through, s1, Arrive(h, key), s2);
    all, through := all + [Arrive(h, key)], through + [s2];
    Extend(cfg, all, through, s2, LookUp(h), s3);
    all, through := all + [LookUp(h)], through + [s3];
    Extend(cfg, all, through, s3, CheckClock(h), s4);
    all, through := all + [CheckClock(h)], through + [s4];
    Extend(cfg, all, through, s4, Join(h), s5);
    all, through := all + [Join(h)], through + [s5];
  }

  lemma Replaced<T>(m: map<nat, T>, h: nat)
    ensures forall x: T, y: T {:trigger m[h := x][h := y]} :: m[h := x][h := y] == m[h := y]
  {}

  function StagesLeft(stage: Stage): nat {
    match stage
    case Opened => 3
    case HasRead(_) => 2
    case HasStamped(_) => 1
    case HasStored(_) => 0
  }

  /** The load goes on to where it answers those who wait. */
  lemma {:induction false} LoadAnswers(cfg: Config, steps: seq<Step>, states: seq<State>, s: State, key: string, h: nat)
    returns (all: seq<Step>, through: seq<State>)
    requires EndsIn(cfg, steps, states, s) && key in s.flights && !s.flights[key].Opened?
    requires InTime(cfg, s, ReadingOf(s.flights[key])) && h in s.gets && s.gets[h] == Get(key, Waiting)
    ensures IsRun(cfg, all, through) && steps <= all && states <= through && h in through[|all|].gets
    ensures var g := through[|all|].gets[h];
      g.key == key && g.pc.Answered? && g.pc.reading.version == ReadingOf(s.flights[key]).version
    decreases StagesLeft(s.flights[key])
  {
    hide IsRun, Stored;
    var step := match s.flights[key] case HasRead(_) => Stamp(key) case HasStamped(_) => Store(key) case _ => Land(key);
    var s' := After(cfg, s, step);
    Extend(cfg, steps, states, s, step, s');
    all, through := steps + [step], states + [s'];
    if !step.Land? {
      all, through := LoadAnswers(cfg, all, through, s', key, h);
    } else {
      RunSize(cfg, steps, states);
    }
  }

  /** Whatever run it is, a Get that starts after the invalidation may be answered with the older version. */
  lemma OlderIsServed(cfg: Config, steps: seq<Step>, states: seq<State>, key: string)
    returns (all: seq<Step>, through: seq<State>, h: nat)
    requires IsRun(cfg, steps, states) && HoldsOlder(cfg, states[|steps|], key)
    ensures IsRun(cfg, all, through) && steps < all && states <= through && all[|steps|] == Invalidate(key)
    ensures h !in states[|steps|].gets && h in through[|all|].gets
    ensures through[|all|].gets[h].key == key && through[|all|].gets[h].pc.Answered?
    ensures through[|all|].gets[h].pc.reading.version < |Log(states[|steps|].log, key)| - 1
  {
    hide IsRun, Log;
    RunSize(cfg, steps, states);
    var s := states[|steps|];
    h := FreshKey(s.gets);
    var s' := s.(entries := s.entries - {key}, gets := s.gets[h := Get(key, Waiting)]);
    all, through := WaitsForLoad(cfg, steps, states, s, key, h);
    all, through := LoadAnswers(cfg, all, through, s', key, h);
  }

  /** The run goes on with an invalidation, and a Get that starts later is answered, at `j`, with an older
      version than the source held when the key was invalidated. */
  ghost predicate AnswersOlder(cfg: Config, steps: seq<Step>, states: seq<State>, key: string,
                               all: seq<Step>, through: seq<State>, j: nat, h: nat)
  {
    && IsRun(cfg, all, through) && |states| == |steps| + 1 && steps < all && states <= through
    && all[|steps|] == Invalidate(key) && |steps| < j < |through|
    && h !in states[|steps|].gets && h in through[j].gets
    && through[j].gets[h].key == key && through[j].gets[h].pc.Answered?
    && through[j].gets[h].pc.reading.version < |Log(states[|steps|].log, key)| - 1
  }

  ghost predicate IsFinal(cfg: Config, steps: seq<Step>, states: seq<State>, key: string) {
    !exists all: seq<Step>, through: seq<State>, j: nat, h: nat ::
      AnswersOlder(cfg, steps, states, key, all, through, j, h)
  }

  /** An invalidation is final if and only if no open load of the key holds an older version. */
  lemma InvalidationIsFinalIff(cfg: Config, steps: seq<Step>, states: seq<State>, key: string)
    requires IsRun(cfg, steps, states)
    ensures IsFinal(cfg, steps, states, key) <==> !HoldsOlder(cfg, states[|steps|], key)
  {
    hide IsRun, Log, HoldsOlder;
    RunSize(cfg, steps, states);
    if HoldsOlder(cfg, states[|steps|], key) {
      var all, through, h := OlderIsServed(cfg, steps, states, key);
      RunSize(cfg, all, through);
      assert AnswersOlder(cfg, steps, states, key, all, through, |all|, h);
    } else {
      forall all: seq<Step>, through: seq<State>, j: nat, h: nat
        ensures !AnswersOlder(cfg, steps, states, key, all, through, j, h)
      {
        if AnswersOlder(cfg, steps, states, key, all, through, j, h) {
          InvalidationIsFinal(cfg, all, through, |steps|, j, key, h);
        }
      }
    }
  }

  // ---- One such run ----

  const SLOW := Config(30, 5, 10, 5)
  const STALE := Reading(0, Negative, 0, 0)
  const CHANGED: map<string, seq<Version>> := map["k" := [Version(Negative, 0), Version(Good, 0)]]

  /** A Get opens a load, which reads; the key changes. */
  lemma LoadIsOpen() returns (steps: seq<Step>, states: seq<State>)
    ensures EndsIn(SLOW, steps, states,
                   State(0, CHANGED, map[], map["k" := HasRead(STALE)], map[0 := Get("k", Waiting)]))
    ensures |steps| == 6
  {
    hide IsRun;
    var s1 := State(0, map[], map[], map[], map[0 := Get("k", Asking)]);
    var s2 := s1.(gets := map[0 := Get("k", Checking(None))]);
    var s3 := s1.(gets := map[0 := Get("k", Missed)]);
    var s4 := State(0, map[], map[], map["k" := Opened], map[0 := Get("k", Waiting)]);
    var s5 := s4.(flights := map["k" := HasRead(STALE)]);
    var s6 := s5.(log := CHANGED);
    steps, states := [], [EMPTY];
    assert EndsIn(SLOW, steps, states, EMPTY) by { Starts(); }
    Extend(SLOW, steps, states, EMPTY, Arrive(0, "k"), s1);
    steps, states := steps + [Arrive(0, "k")], states + [s1];
    Extend(SLOW, steps, states, s1, LookUp(0), s2);
    steps, states := steps + [LookUp(0)], states + [s2];
    Extend(SLOW, steps, states, s2, CheckClock(0), s3);
    steps, states := steps + [CheckClock(0)], states + [s3];
    Extend(SLOW, steps, states, s3, Join(0), s4);
    steps, states := steps + [Join(0)], states + [s4];
    Extend(SLOW, steps, states, s4, ReadSource("k", false), s5);
    steps, states := steps + [ReadSource("k", false)], states + [s5];
    assert [Version(Negative, 0)] + [Version(Good, 0)] == [Version(Negative, 0), Version(Good, 0)];
    Extend(SLOW, steps, states, s5, Change("k", Good), s6);
    steps, states := steps + [Change("k", Good)], states + [s6];
  }

  lemma Starts()
    ensures EndsIn(SLOW, [], [EMPTY], EMPTY)
  {}

  /** The key is invalidated; the load keeps what it read. */
  lemma LoadIsKept() returns (steps: seq<Step>, states: seq<State>)
    ensures EndsIn(SLOW, steps, states, State(0, CHANGED, map["k" := Entry(STALE, 5)], map[],
                                              map[0 := Get("k", Answered(STALE, 0, false))]))
    ensures |steps| == 10 && steps[6] == Invalidate("k")
    ensures "k" in states[6].flights && 1 !in states[6].gets && states[6].log == CHANGED
  {
    hide IsRun, Stored;
    steps, states := LoadIsOpen();
    RunSize(SLOW, steps, states);
    var s6 := states[6];
    var entry := Entry(STALE, 5);
    var s8 := s6.(flights := map["k" := HasStamped(entry)]);
    var s9 := s6.(entries := map["k" := entry], flights := map["k" := HasStored(STALE)]);
    var s10 := State(0, CHANGED, map["k" := entry], map[], map[0 := Get("k", Answered(STALE, 0, false))]);
    Extend(SLOW, steps, states, s6, Invalidate("k"), s6);
    steps, states := steps + [Invalidate("k")], states + [s6];
    Extend(SLOW, steps, states, s6, Stamp("k"), s8);
    steps, states := steps + [Stamp("k")], states + [s8];
    StoredFirst(entry);
    Extend(SLOW, steps, states, s8, Store("k"), s9);
    steps, states := steps + [Store("k")], states + [s9];
    Extend(SLOW, steps, states, s9, Land("k"), s10);
    steps, states := steps + [Land("k")], states + [s10];
  }

  /** And it answers a Get that starts after the invalidation. */
  lemma OpenLoadUndoesInvalidation() returns (steps: seq<Step>, states: seq<State>)
    ensures IsRun(SLOW, steps, states) && |steps| == 13
    ensures steps[6] == Invalidate("k") && "k" in states[6].flights && 1 !in states[6].gets
    ensures 1 in states[13].gets && states[13].gets[1] == Get("k", Answered(STALE, 0, true))
    ensures STALE.version < |Log(states[6].log, "k")| - 1
  {
    hide IsRun, Stored;
    steps, states := LoadIsKept();
    RunSize(SLOW, steps, states);
    var entry, s10 := Entry(STALE, 5), states[10];
    var s11 := s10.(gets := s10.gets[1 := Get("k", Asking)]);
    var s12 := s10.(gets := s10.gets[1 := Get("k", Checking(Some(entry)))]);
    var s13 := s10.(gets := s10.gets[1 := Get("k", Answered(STALE, 0, true))]);
    Extend(SLOW, steps, states, s10, Arrive(1, "k"), s11);
    steps, states := steps + [Arrive(1, "k")], states + [s11];
    Extend(SLOW, steps, states, s11, LookUp(1), s12);
    steps, states := steps + [LookUp(1)], states + [s12];
    Extend(SLOW, steps, states, s12, CheckClock(1), s13);
    steps, states := steps + [CheckClock(1)], states + [s13];
    RunSize(SLOW, steps, states);
  }

  lemma RunSize(cfg: Config, steps: seq<Step>, states: seq<State>)
    requires IsRun(cfg, steps, states)
    ensures |states| == |steps| + 1
  {}

  lemma StoredFirst(e: Entry<Reading>)
    ensures Stored(map[], "k", e, SLOW.maxEntries, 0) == map["k" := e]
  {}
}
