/** nache's rows: which cache clusters customers want.  One SQL statement is one step. */
module NacheStore {
  import opened Wrappers

  datatype Key = Key(account: string, cluster: string)

  datatype RowState = Creating | Active | Deleting

  datatype NodeStatus = NodeCreating | NodeAvailable | NodeImpaired

  datatype Node = Node(id: string, status: NodeStatus)

  datatype Row = Row(state: RowState, nodes: seq<Node>)

  type Rows = map<Key, Row>

  datatype StoreError = NoAccount | NoSuchRow | StillDeleting

  const NEW_ROW := Row(Creating, [])

  // ---- The statements ----

  /** `INSERT … ON CONFLICT DO NOTHING` */
  function Inserted(rows: Rows, k: Key): Rows {
    if k in rows then rows else rows[k := NEW_ROW]
  }

  function Marked(rows: Rows, k: Key): Rows {
    if k in rows then rows[k := rows[k].(state := Deleting)] else rows
  }

  /** `UPDATE … WHERE state <> 'deleting'` */
  function Observed(rows: Rows, k: Key, nodes: seq<Node>, active: bool): Rows {
    if k in rows && rows[k].state != Deleting then
      rows[k := Row(if active then Active else rows[k].state, nodes)]
    else rows
  }

  /** `DELETE … WHERE state = 'deleting'` */
  function Forgotten(rows: Rows, k: Key): Rows {
    if k in rows && rows[k].state == Deleting then rows - {k} else rows
  }

  function RowsOf(rows: Rows, account: string): set<Key> {
    set k | k in rows && k.account == account
  }

  function Rank(s: RowState): nat {
    match s case Creating => 0 case Active => 1 case Deleting => 2
  }

  /** The life of a row, one step of it: from nothing to creating, only forwards, and from deleting to
      nothing. */
  predicate Advances(rows: Rows, rows': Rows) {
    && (forall k | k in rows && k in rows' :: Rank(rows[k].state) <= Rank(rows'[k].state))
    && (forall k | k in rows && k !in rows' :: rows[k].state == Deleting)
    && (forall k | k in rows' && k !in rows :: rows'[k].state == Creating)
  }

  lemma StatementsAdvance(rows: Rows, k: Key, nodes: seq<Node>, active: bool)
    ensures Advances(rows, Inserted(rows, k)) && Advances(rows, Marked(rows, k))
    ensures Advances(rows, Observed(rows, k, nodes, active)) && Advances(rows, Forgotten(rows, k))
  {}

  /** A delete marks its row, which keeps its nodes, and no other; without a row it does nothing. */
  lemma MarkedIsDeleting(rows: Rows, k: Key)
    ensures Marked(rows, k).Keys == rows.Keys
    ensures k in rows ==> Marked(rows, k)[k].state == Deleting && Marked(rows, k)[k].nodes == rows[k].nodes
    ensures forall other | other in rows && other != k :: Marked(rows, k)[other] == rows[other]
  {}

  /** What the other statements write, and that they write one row. */
  lemma StatementsWrite(rows: Rows, k: Key, nodes: seq<Node>, active: bool)
    ensures var inserted := Inserted(rows, k);
      && inserted.Keys == rows.Keys + {k}
      && (k !in rows ==> inserted[k].state == Creating && inserted[k].nodes == [])
      && forall other | other in rows :: inserted[other] == rows[other]
    ensures var observed := Observed(rows, k, nodes, active);
      && observed.Keys == rows.Keys
      && (k in rows && rows[k].state != Deleting ==>
            observed[k].nodes == nodes && observed[k].state == if active then Active else rows[k].state)
      && forall other | other in rows && (other != k || rows[other].state == Deleting) ::
           observed[other] == rows[other]
    ensures var forgotten := Forgotten(rows, k);
      && (k in forgotten <==> k in rows && rows[k].state != Deleting)
      && forall other | other != k || k in forgotten ::
           (other in forgotten <==> other in rows) && (other in rows ==> forgotten[other] == rows[other])
  {}

  /** Every row once. */
  predicate ListsAll(rows: Rows, clusters: seq<(Key, RowState)>) {
    && (forall c | c in clusters :: c.0 in rows && rows[c.0].state == c.1)
    && (forall k | k in rows :: (k, rows[k].state) in clusters)
    && (forall i, j | 0 <= i < j < |clusters| :: clusters[i].0 != clusters[j].0)
  }

  // ---- An API create, one statement at a time ----

  datatype CreateError = LimitExceeded | NameStillDeleting | Lost

  datatype CreatePc =
    | Look
    | Tally
    | Insert
    | ReadBack(created: bool)
    | Accepted(row: Row, created: bool)
    | Refused(error: CreateError)

  function CreateStep(rows: Rows, k: Key, pc: CreatePc, max: nat): (Rows, CreatePc) {
    match pc
    // The quota is only for a name that does not exist yet.
    case Look => (rows, if k in rows then Insert else Tally)
    case Tally => (rows, if |RowsOf(rows, k.account)| >= max then Refused(LimitExceeded) else Insert)
    case Insert => (Inserted(rows, k), ReadBack(k !in rows))
    case ReadBack(created) =>
      (rows, if k !in rows then Refused(Lost)
             else if !created && rows[k].state == Deleting then Refused(NameStillDeleting)
             else Accepted(rows[k], created))
    case _ => (rows, pc)
  }

  /** The whole create with nothing in between. */
  function CreateAlone(rows: Rows, k: Key, max: nat): (Rows, CreatePc) {
    if k in rows then
      (rows, if rows[k].state == Deleting then Refused(NameStillDeleting) else Accepted(rows[k], false))
    else if |RowsOf(rows, k.account)| >= max then (rows, Refused(LimitExceeded))
    else (rows[k := NEW_ROW], Accepted(NEW_ROW, true))
  }

  function CreateSteps(rows: Rows, k: Key, pc: CreatePc, max: nat, n: nat): (Rows, CreatePc)
    decreases n
  {
    if n == 0 then (rows, pc) else
    var (rows', pc') := CreateStep(rows, k, pc, max);
    CreateSteps(rows', k, pc', max, n - 1)
  }

  lemma CreateAloneIsItsSteps(rows: Rows, k: Key, max: nat)
    ensures CreateSteps(rows, k, Look, max, 4) == CreateAlone(rows, k, max)
  {
    hide RowsOf;
    var (rows1, pc1) := CreateStep(rows, k, Look, max);
    var (rows2, pc2) := CreateStep(rows1, k, pc1, max);
    var (rows3, pc3) := CreateStep(rows2, k, pc2, max);
    var (rows4, pc4) := CreateStep(rows3, k, pc3, max);
    assert CreateSteps(rows4, k, pc4, max, 0) == (rows4, pc4);
    assert CreateSteps(rows3, k, pc3, max, 1) == (rows4, pc4);
    assert CreateSteps(rows2, k, pc2, max, 2) == (rows4, pc4);
    assert CreateSteps(rows1, k, pc1, max, 3) == (rows4, pc4);
  }

  /** What comes of a create: a new name gets a row while its account has room, and is refused without; a
      name that is taken keeps its row, and is refused while that is being deleted. */
  lemma CreateOutcome(rows: Rows, k: Key, max: nat)
    ensures var (rows', answer) := CreateSteps(rows, k, Look, max, 4);
      && (k !in rows && |set key | key in rows && key.account == k.account| < max ==>
            rows' == rows[k := Row(Creating, [])] && answer == Accepted(Row(Creating, []), true))
      && (k !in rows && |set key | key in rows && key.account == k.account| >= max ==>
            rows' == rows && answer == Refused(LimitExceeded))
      && (k in rows && rows[k].state == Deleting ==> rows' == rows && answer == Refused(NameStillDeleting))
      && (k in rows && rows[k].state != Deleting ==> rows' == rows && answer == Accepted(rows[k], false))
  {
    CreateAloneIsItsSteps(rows, k, max);
  }

  class Store {
    var rows: Rows

    constructor ()
      ensures rows == map[]
    {
      rows := map[];
    }

    /** Records a cluster, or returns the one already recorded. */
    method Create(k: Key) returns (r: Result<(Row, bool), StoreError>)
      modifies this
      ensures rows == (if k.account == "" then old(rows) else Inserted(old(rows), k))
      ensures r.Ok? <==> k.account != "" && (k in old(rows) ==> old(rows)[k].state != Deleting)
      ensures r.Ok? ==> k in rows && r.value == (rows[k], k !in old(rows))
      ensures r.Err? ==> r.error == if k.account == "" then NoAccount else StillDeleting
    {
      if k.account == "" {
        return Err(NoAccount);
      }
      var created := false;
      if k !in rows {
        rows := rows[k := NEW_ROW];
        created := true;
      }
      if !created && rows[k].state == Deleting {
        return Err(StillDeleting);
      }
      return Ok((rows[k], created));
    }

    method Get(k: Key) returns (r: Result<Row, StoreError>)
      ensures r == if k in rows then Ok(rows[k]) else Err(NoSuchRow)
    {
      if k !in rows {
        return Err(NoSuchRow);
      }
      return Ok(rows[k]);
    }

    method Count(account: string) returns (n: nat)
      ensures n == |RowsOf(rows, account)|
    {
      var left := rows.Keys;
      n := 0;
      while left != {}
        invariant left <= rows.Keys
        invariant n == |RowsOf(rows, account) - left|
      {
        var k :| k in left;
        if k.account == account {
          assert RowsOf(rows, account) - (left - {k}) == (RowsOf(rows, account) - left) + {k};
          n := n + 1;
        } else {
          assert RowsOf(rows, account) - (left - {k}) == RowsOf(rows, account) - left;
        }
        left := left - {k};
      }
      assert RowsOf(rows, account) - {} == RowsOf(rows, account);
    }

    /** Deletion is one-way. */
    method MarkDeleting(k: Key) returns (r: Result<Row, StoreError>)
      modifies this
      ensures rows == Marked(old(rows), k)
      ensures k in old(rows) ==> k in rows && rows[k].state == Deleting
      ensures r == if k in old(rows) then Ok(rows[k]) else Err(NoSuchRow)
    {
      if k !in rows {
        return Err(NoSuchRow);
      }
      rows := rows[k := rows[k].(state := Deleting)];
      return Ok(rows[k]);
    }

    method SetObserved(k: Key, nodes: seq<Node>, active: bool)
      modifies this
      ensures rows == Observed(old(rows), k, nodes, active)
    {
      if k in rows && rows[k].state != Deleting {
        rows := rows[k := Row(if active then Active else rows[k].state, nodes)];
      }
    }

    method Forget(k: Key)
      modifies this
      ensures rows == Forgotten(old(rows), k)
    {
      if k in rows && rows[k].state == Deleting {
        rows := rows - {k};
      }
    }

    method All() returns (clusters: seq<(Key, RowState)>)
      ensures ListsAll(rows, clusters)
    {
      var left := rows.Keys;
      clusters := [];
      while left != {}
        invariant left <= rows.Keys
        invariant forall c | c in clusters :: c.0 in rows && rows[c.0].state == c.1 && c.0 !in left
        invariant forall k | k in rows && k !in left :: (k, rows[k].state) in clusters
        invariant forall i, j | 0 <= i < j < |clusters| :: clusters[i].0 != clusters[j].0
      {
        var k :| k in left;
        assert forall c | c in clusters :: c.0 != k;
        clusters := clusters + [(k, rows[k].state)];
        left := left - {k};
      }
    }

    /** The API's create over this store. */
    method CreateCluster(k: Key, max: nat) returns (answer: CreatePc)
      requires k.account != ""
      modifies this
      ensures (rows, answer) == CreateAlone(old(rows), k, max)
    {
      var found := Get(k);
      if found.Err? {
        var n := Count(k.account);
        if n >= max {
          return Refused(LimitExceeded);
        }
      }
      var r := Create(k);
      match r
      case Err(_) => return Refused(NameStillDeleting);
      case Ok((row, created)) => return Accepted(row, created);
    }
  }
}
