/** `batch_insert_crack_detections` over an abstract transactional store in which each statement may
    succeed, be answered by an error, not reach the server, or find the connection broken, and other
    clients commit in between. */
module BatchInsert {
  import opened Common

  // Fails: the server answers with an error. Undelivered: it never sees the statement.
  datatype Outcome = Succeeds | Fails | Undelivered | Disconnects

  datatype Statement = Begin | Insert | Commit | Rollback

  // How a connection stands: broken, outside a transaction, in one, or in one of which the server has
  // refused a statement.
  datatype State = Broken | Idle | Open | Aborted

  // What a statement with outcome o makes of a connection. BEGIN in a transaction changes nothing; an
  // error aborts the transaction, or, to COMMIT, ends it.
  function Sent(statement: Statement, s: State, o: Outcome): State {
    if s.Broken? || o.Disconnects? then Broken
    else if o.Undelivered? then s
    else if o.Fails? then (if s.Idle? || statement.Commit? then Idle else Aborted)
    else
      match statement
      case Begin => if s.Aborted? then Aborted else Open
      case Insert => s
      case Commit => Idle
      case Rollback => Idle
  }

  datatype Row =
    | LaserRow(id: nat, laser: LaserData)
    | CrackRow(id: nat, porcelainId: int, crack: CrackInfo)
    | PointRow(crackId: nat, point: Point3D)

  /** The server. The three functions say what happens at the n-th statement of this session:
      its outcome, the rows others have just committed, the ids others have just drawn. */
  class Store {
    var committed: seq<Row>
    var lastId: nat
    var clock: nat
    const outcome: nat -> Outcome
    const others: nat -> seq<Row>
    const gap: nat -> nat

    constructor (outcome: nat -> Outcome, others: nat -> seq<Row>, gap: nat -> nat)
      ensures this.outcome == outcome && this.others == others && this.gap == gap
      ensures committed == [] && lastId == 0 && clock == 0
    {
      this.outcome, this.others, this.gap := outcome, others, gap;
      committed, lastId, clock := [], 0, 0;
    }

    method Tick() returns (o: Outcome)
      modifies this
      ensures o == outcome(old(clock)) && clock == old(clock) + 1
      ensures committed == old(committed) + others(old(clock)) && lastId == old(lastId)
    {
      o := outcome(clock);
      committed := committed + others(clock);
      clock := clock + 1;
    }
  }

  // What other clients commit during the statements from..to.
  ghost function Meanwhile(others: nat -> seq<Row>, from: nat, to: nat): seq<Row>
    requires from <= to
  {
    if from == to then [] else Meanwhile(others, from, to - 1) + others(to - 1)
  }

  class Connection {
    const store: Store
    var alive: bool
    var open: bool            // inside BEGIN .. COMMIT/ROLLBACK
    var aborted: bool         // the server has refused a statement of the open transaction
    var staged: seq<Row>

    constructor (store: Store)
      ensures this.store == store && Valid() && State().Idle?
    {
      this.store := store;
      alive, open, aborted, staged := true, false, false, [];
    }

    ghost predicate Valid()
      reads this
    {
      (open ==> alive) && (staged != [] ==> open && !aborted) && (aborted ==> open)
    }

    function State(): State
      reads this
    {
      if !alive then Broken else if !open then Idle else if aborted then Aborted else Open
    }

    // What the server does on an error: a transaction that is open is aborted.
    method Refuse()
      requires Valid() && alive
      modifies this
      ensures Valid() && State() == if old(State()).Idle? then Idle else Aborted
    {
      staged := [];
      aborted := open;
    }

    // A broken connection: the server discards whatever was staged.
    method Drop()
      modifies this
      ensures Valid() && State().Broken?
    {
      alive, open, aborted, staged := false, false, false, [];
    }

    method Begin() returns (ok: bool)
      requires Valid()
      modifies this, store
      ensures Valid() && State() == Sent(Statement.Begin, old(State()), store.outcome(old(store.clock)))
      ensures ok <==> !old(State()).Broken? && !old(State()).Aborted? && store.outcome(old(store.clock)).Succeeds?
      ensures State().Open? ==> staged == old(staged)
      ensures store.lastId == old(store.lastId) && store.clock == old(store.clock) + (if old(alive) then 1 else 0)
      ensures store.committed == old(store.committed) + Meanwhile(store.others, old(store.clock), store.clock)
    {
      if !alive { return false; }
      var o := store.Tick();
      ok := o.Succeeds? && !aborted;
      if o.Succeeds? { open := true; }
      if o.Fails? { Refuse(); }
      if o.Disconnects? { Drop(); }
    }

    // One INSERT inside a transaction; `id` is what RETURNING yields.
    method Insert(row: nat -> Row) returns (ok: bool, id: nat)
      requires Valid() && State().Open?
      modifies this, store
      ensures Valid() && State() == Sent(Statement.Insert, Open, store.outcome(old(store.clock)))
      ensures ok <==> store.outcome(old(store.clock)).Succeeds?
      ensures State().Open? ==> staged == old(staged) + if ok then [row(id)] else []
      ensures store.clock == old(store.clock) + 1 && old(store.lastId) <= store.lastId
      ensures store.committed == old(store.committed) + store.others(old(store.clock))
      ensures ok ==> old(store.lastId) < id <= store.lastId
    {
      var o := store.Tick();
      ok := o.Succeeds?;
      id := store.lastId + 1 + store.gap(store.clock);
      if ok {
        store.lastId := id;
        staged := staged + [row(id)];
      }
      if o.Fails? { Refuse(); }
      if o.Disconnects? { Drop(); }
    }

    // COMMIT; one that is reported as failed has not taken effect.
    method Commit() returns (ok: bool)
      requires Valid() && State().Open?
      modifies this, store
      ensures Valid() && State() == Sent(Statement.Commit, Open, store.outcome(old(store.clock)))
      ensures ok <==> store.outcome(old(store.clock)).Succeeds?
      ensures State().Open? ==> staged == old(staged)
      ensures store.clock == old(store.clock) + 1 && store.lastId == old(store.lastId)
      ensures store.committed ==
        old(store.committed) + store.others(old(store.clock)) + (if ok then old(staged) else [])
    {
      var rows := staged;
      var o := store.Tick();
      ok := o.Succeeds?;
      if ok { store.committed := store.committed + rows; }
      if ok || o.Fails? { open, staged := false, []; }
      if o.Disconnects? { Drop(); }
    }

    // ROLLBACK, whose result nobody reads.
    method Rollback()
      requires Valid()
      modifies this, store
      ensures Valid() && State() == Sent(Statement.Rollback, old(State()), store.outcome(old(store.clock)))
      ensures State().Open? ==> staged == old(staged)
      ensures store.lastId == old(store.lastId) && store.clock == old(store.clock) + (if old(alive) then 1 else 0)
      ensures store.committed == old(store.committed) + Meanwhile(store.others, old(store.clock), store.clock)
    {
      if alive {
        var o := store.Tick();
        if o.Succeeds? { open, aborted, staged := false, false, []; }
        if o.Fails? { Refuse(); }
        if o.Disconnects? { Drop(); }
      }
    }
  }

  // ------------------------------------------------- the rows of one batch

  function PointRows(crackId: nat, points: seq<Point3D>): seq<Row> {
    seq(|points|, i requires 0 <= i < |points| => PointRow(crackId, points[i]))
  }

  function Pairs(cracks: seq<CrackInfo>, points: seq<seq<Point3D>>): nat {
    if |cracks| <= |points| then |cracks| else |points|
  }

  function CrackRows(cracks: seq<CrackInfo>, points: seq<seq<Point3D>>, porcelainId: int, ids: seq<nat>): seq<Row>
    requires |ids| <= |cracks| && |ids| <= |points|
  {
    if ids == [] then [] else
    var n := |ids| - 1;
    CrackRows(cracks, points, porcelainId, ids[..n]) + OneCrack(ids[n], porcelainId, cracks[n], points[n])
  }

  function OneCrack(id: nat, porcelainId: int, crack: CrackInfo, points: seq<Point3D>): seq<Row> {
    [CrackRow(id, porcelainId, crack)] + PointRows(id, points)
  }

  function BatchRows(laser: LaserData, laserId: nat, cracks: seq<CrackInfo>, points: seq<seq<Point3D>>,
                     porcelainId: int, ids: seq<nat>): seq<Row>
    requires |ids| <= |cracks| && |ids| <= |points|
  {
    [LaserRow(laserId, laser)] + CrackRows(cracks, points, porcelainId, ids)
  }

  // One INSERT per crack and per point, for the first n cracks.
  function CrackStatements(points: seq<seq<Point3D>>, n: nat): nat
    requires n <= |points|
  {
    if n == 0 then 0 else CrackStatements(points, n - 1) + (1 + |points[n - 1]|)
  }

  // BEGIN, the INSERTs, COMMIT.
  function Statements(cracks: seq<CrackInfo>, points: seq<seq<Point3D>>): nat {
    3 + CrackStatements(points, Pairs(cracks, points))
  }

  // The batch consists of one laser row and then, per crack, its row and its points.
  lemma {:induction false} CrackRowsCount(cracks: seq<CrackInfo>, points: seq<seq<Point3D>>, porcelainId: int,
                                          ids: seq<nat>)
    requires |ids| <= |cracks| && |ids| <= |points|
    ensures |CrackRows(cracks, points, porcelainId, ids)| == CrackStatements(points, |ids|)
  {
    if ids != [] {
      CrackRowsCount(cracks, points, porcelainId, ids[..|ids| - 1]);
    }
  }

  // From `at` on stand the row of a crack and, under its id, one row for each of these points, in order.
  ghost predicate Block(rows: seq<Row>, at: nat, id: nat, porcelainId: int, crack: CrackInfo, points: seq<Point3D>) {
    && at + 1 + |points| <= |rows| && rows[at] == CrackRow(id, porcelainId, crack)
    && forall j {:trigger points[j]} :: 0 <= j < |points| ==> rows[at + 1 + j] == PointRow(id, points[j])
  }

  // The rows are, block after block, those of the first cracks under these ids.
  ghost predicate Blocks(rows: seq<Row>, cracks: seq<CrackInfo>, points: seq<seq<Point3D>>, porcelainId: int,
                         ids: seq<nat>)
  {
    && |ids| <= |cracks| && |ids| <= |points| && |rows| == CrackStatements(points, |ids|)
    && forall c {:trigger ids[c]} :: 0 <= c < |ids| ==>
         Block(rows, CrackStatements(points, c), ids[c], porcelainId, cracks[c], points[c])
  }

  lemma BlockGrows(rows: seq<Row>, more: seq<Row>, at: nat, id: nat, porcelainId: int, crack: CrackInfo,
                   points: seq<Point3D>)
    requires Block(rows, at, id, porcelainId, crack, points)
    ensures Block(rows + more, at, id, porcelainId, crack, points)
  {
  }

  lemma LastBlock(rows: seq<Row>, id: nat, porcelainId: int, crack: CrackInfo, points: seq<Point3D>)
    ensures Block(rows + OneCrack(id, porcelainId, crack, points), |rows|, id, porcelainId, crack, points)
  {
  }

  /** What the rows of the cracks hold, by position. */
  lemma {:induction false} CrackRowsAreBlocks(cracks: seq<CrackInfo>, points: seq<seq<Point3D>>, porcelainId: int,
                                              ids: seq<nat>)
    requires |ids| <= |cracks| && |ids| <= |points|
    ensures Blocks(CrackRows(cracks, points, porcelainId, ids), cracks, points, porcelainId, ids)
  {
    hide Block, OneCrack;
    CrackRowsCount(cracks, points, porcelainId, ids);
    if ids != [] {
      var n := |ids| - 1;
      var rows := CrackRows(cracks, points, porcelainId, ids[..n]);
      var more := OneCrack(ids[n], porcelainId, cracks[n], points[n]);
      CrackRowsAreBlocks(cracks, points, porcelainId, ids[..n]);
      forall c | 0 <= c < n
        ensures Block(rows + more, CrackStatements(points, c), ids[c], porcelainId, cracks[c], points[c])
      {
        assert ids[..n][c] == ids[c];
        BlockGrows(rows, more, CrackStatements(points, c), ids[c], porcelainId, cracks[c], points[c]);
      }
      LastBlock(rows, ids[n], porcelainId, cracks[n], points[n]);
    }
  }

  /** The blocks leave no room for another row. */
  lemma {:induction false} NoOtherRows(points: seq<seq<Point3D>>, n: nat, k: nat) returns (c: nat, j: nat)
    requires n <= |points| && k < CrackStatements(points, n)
    ensures c < n && j <= |points[c]| && k == CrackStatements(points, c) + j
  {
    if k >= CrackStatements(points, n - 1) {
      c, j := n - 1, k - CrackStatements(points, n - 1);
    } else {
      c, j := NoOtherRows(points, n - 1, k);
    }
  }

  // One laser row and then the blocks.
  ghost predicate IsBatch(rows: seq<Row>, laser: LaserData, laserId: nat, cracks: seq<CrackInfo>,
                          points: seq<seq<Point3D>>, porcelainId: int, ids: seq<nat>)
  {
    rows != [] && rows[0] == LaserRow(laserId, laser) && Blocks(rows[1..], cracks, points, porcelainId, ids)
  }

  lemma BatchRowsAreBatch(laser: LaserData, laserId: nat, cracks: seq<CrackInfo>, points: seq<seq<Point3D>>,
                          porcelainId: int, ids: seq<nat>)
    requires |ids| <= |cracks| && |ids| <= |points|
    ensures IsBatch(BatchRows(laser, laserId, cracks, points, porcelainId, ids), laser, laserId, cracks, points,
                    porcelainId, ids)
  {
    hide Blocks, CrackRows;
    CrackRowsAreBlocks(cracks, points, porcelainId, ids);
  }

  lemma {:induction false} CrackStatementsMonotone(points: seq<seq<Point3D>>, m: nat, n: nat)
    requires m <= n <= |points|
    ensures CrackStatements(points, m) <= CrackStatements(points, n)
  {
    if m < n { CrackStatementsMonotone(points, m, n - 1); }
  }

  ghost predicate Increasing(from: nat, ids: seq<nat>) {
    && (forall i :: 0 <= i < |ids| ==> from < ids[i])
    && (forall i, j :: 0 <= i < j < |ids| ==> ids[i] < ids[j])
  }

  ghost predicate AllSucceed(outcome: nat -> Outcome, from: nat, count: nat) {
    forall t: nat :: from <= t < from + count ==> outcome(t).Succeeds?
  }

  lemma {:induction false} MeanwhileSplit(others: nat -> seq<Row>, a: nat, b: nat, c: nat)
    requires a <= b <= c
    ensures Meanwhile(others, a, c) == Meanwhile(others, a, b) + Meanwhile(others, b, c)
    decreases c - b
  {
    if b < c {
      MeanwhileSplit(others, a, b, c - 1);
    }
  }

  // The first failure in a run of statements is the one before `to`.
  ghost predicate Failed(outcome: nat -> Outcome, from: nat, to: nat) {
    from < to && AllSucceed(outcome, from, to - 1 - from) && !outcome(to - 1).Succeeds?
  }

  lemma FailedThen(outcome: nat -> Outcome, from: nat, mid: nat, to: nat)
    requires from <= mid && AllSucceed(outcome, from, mid - from) && Failed(outcome, mid, to)
    ensures Failed(outcome, from, to)
  {
  }

  // How many statements succeed before the first that does not, of `total`.
  ghost function Successes(outcome: nat -> Outcome, from: nat, total: nat): nat
    decreases total
  {
    if total == 0 || !outcome(from).Succeeds? then 0 else 1 + Successes(outcome, from + 1, total - 1)
  }

  lemma {:induction false} SuccessesAre(outcome: nat -> Outcome, from: nat, total: nat, n: nat)
    requires n <= total && AllSucceed(outcome, from, n) && (n < total ==> !outcome(from + n).Succeeds?)
    ensures Successes(outcome, from, total) == n
    decreases n
  {
    if n > 0 {
      assert outcome(from).Succeeds?;
      SuccessesAre(outcome, from + 1, total - 1, n - 1);
    }
  }

  lemma {:induction false} SuccessesEnd(outcome: nat -> Outcome, from: nat, total: nat)
    ensures var n := Successes(outcome, from, total);
      n <= total && (n < total ==> !outcome(from + n).Succeeds?)
      && (n == 0 <==> total == 0 || !outcome(from).Succeeds?)
    decreases total
  {
    if total > 0 && outcome(from).Succeeds? { SuccessesEnd(outcome, from + 1, total - 1); }
  }

  // How a batch of `total` statements leaves a connection that was in state s: by BEGIN alone, if that
  // does not succeed; by all of them; or by the first that does not succeed and ROLLBACK.
  ghost function After(outcome: nat -> Outcome, from: nat, total: nat, s: State): State {
    var n := Successes(outcome, from, total);
    if s.Broken? then Broken
    else if s.Aborted? || n == 0 then Sent(Begin, s, outcome(from))
    else if n == total then Idle
    else Sent(Rollback, Sent(if n == total - 1 then Commit else Insert, Open, outcome(from + n)), outcome(from + n + 1))
  }

  // How many statements it sends: a broken connection is not asked to ROLLBACK.
  ghost function Sends(outcome: nat -> Outcome, from: nat, total: nat, s: State): nat {
    var n := Successes(outcome, from, total);
    if s.Broken? then 0
    else if s.Aborted? || n == 0 then 1
    else if n == total then total
    else if outcome(from + n).Disconnects? then n + 1
    else n + 2
  }

  // Neither done nor the end of the connection.
  predicate Stays(o: Outcome) { o.Fails? || o.Undelivered? }

  /** A connection goes back to the pool inside a transaction exactly when it was taken from it so and
      BEGIN neither succeeded nor broke it; or when, after BEGIN, the first statement that does not
      succeed leaves the transaction open (all do but a COMMIT that is refused, or a broken connection)
      and so does the ROLLBACK that follows. */
  lemma LeftInTransactionIff(outcome: nat -> Outcome, from: nat, total: nat, s: State)
    requires total > 1
    ensures var n := Successes(outcome, from, total);
      After(outcome, from, total, s) in {Open, Aborted} <==>
        || (s in {Open, Aborted} && (s.Aborted? || n == 0) && !outcome(from).Disconnects?)
        || (s in {Idle, Open} && 0 < n < total && Stays(outcome(from + n)) && Stays(outcome(from + n + 1))
            && !(n == total - 1 && outcome(from + n).Fails?))
  {
    hide Successes;
    SuccessesEnd(outcome, from, total);
  }

  // ------------------------------------------------- the batch

  // The session at one moment.
  datatype Moment = Moment(clock: nat, lastId: nat, committed: seq<Row>, staged: seq<Row>)

  ghost function Now(conn: Connection): Moment
    reads conn, conn.store
  {
    Moment(conn.store.clock, conn.store.lastId, conn.store.committed, conn.staged)
  }

  // Between the moments only others have committed, and time has not run backwards.
  ghost predicate Passed(store: Store, a: Moment, b: Moment) {
    a.clock <= b.clock && a.lastId <= b.lastId && b.committed == a.committed + Meanwhile(store.others, a.clock, b.clock)
  }

  // `count` statements were executed, all successful, and staged `rows`.
  ghost predicate Staged(store: Store, a: Moment, b: Moment, count: nat, rows: seq<Row>) {
    Passed(store, a, b) && b.clock == a.clock + count && AllSucceed(store.outcome, a.clock, count)
      && b.staged == a.staged + rows
  }

  lemma StagedThen(store: Store, a: Moment, b: Moment, c: Moment, m: nat, xs: seq<Row>, n: nat, ys: seq<Row>)
    requires Staged(store, a, b, m, xs) && Staged(store, b, c, n, ys)
    ensures Staged(store, a, c, m + n, xs + ys)
  {
    MeanwhileSplit(store.others, a.clock, b.clock, c.clock);
  }

  lemma PassedThen(store: Store, a: Moment, b: Moment, c: Moment)
    requires Passed(store, a, b) && Passed(store, b, c)
    ensures Passed(store, a, c)
  {
    MeanwhileSplit(store.others, a.clock, b.clock, c.clock);
  }

  ghost predicate InTransaction(conn: Connection)
    reads conn
  {
    conn.Valid() && conn.State().Open?
  }

  // After the first statement since a that did not succeed.
  ghost predicate Stuck(conn: Connection, a: Moment)
    reads conn, conn.store
  {
    var clock := conn.store.clock;
    && conn.Valid() && Failed(conn.store.outcome, a.clock, clock)
    && conn.State() == Sent(Insert, Open, conn.store.outcome(clock - 1))
    && (conn.State().Open? ==> a.staged <= conn.staged)
  }

  // What `count` statements that were to stage `rows` have done since a.
  ghost predicate Done(ok: bool, conn: Connection, a: Moment, count: nat, rows: seq<Row>)
    reads conn, conn.store
  {
    if ok then InTransaction(conn) && Staged(conn.store, a, Now(conn), count, rows)
    else Stuck(conn, a) && conn.store.clock <= a.clock + count && Passed(conn.store, a, Now(conn))
  }

  lemma DoneThen(ok: bool, conn: Connection, a: Moment, b: Moment, m: nat, xs: seq<Row>, n: nat, ys: seq<Row>)
    requires Staged(conn.store, a, b, m, xs) && Done(ok, conn, b, n, ys)
    ensures Done(ok, conn, a, m + n, xs + ys)
  {
    if ok {
      StagedThen(conn.store, a, b, Now(conn), m, xs, n, ys);
    } else {
      PassedThen(conn.store, a, b, Now(conn));
      FailedThen(conn.store.outcome, a.clock, b.clock, conn.store.clock);
      assert a.staged <= b.staged;
    }
  }

  lemma NotDoneWithin(conn: Connection, a: Moment, count: nat, rows: seq<Row>, total: nat, whole: seq<Row>)
    requires Done(false, conn, a, count, rows) && count <= total
    ensures Done(false, conn, a, total, whole)
  {
    hide Stuck, Passed;
  }

  lemma DoneIff(ok: bool, conn: Connection, a: Moment, count: nat, rows: seq<Row>)
    requires Done(ok, conn, a, count, rows)
    ensures ok <==> AllSucceed(conn.store.outcome, a.clock, count)
  {
    hide Passed, InTransaction;
    if !ok {
      var t := conn.store.clock - 1;
      assert a.clock <= t < a.clock + count && !conn.store.outcome(t).Succeeds?;
    }
  }

  lemma DoneNothing(conn: Connection)
    requires InTransaction(conn)
    ensures Done(true, conn, Now(conn), 0, [])
  {
  }

  method InsertRow(conn: Connection, row: nat -> Row) returns (ok: bool, id: nat)
    requires InTransaction(conn)
    modifies conn, conn.store
    ensures Done(ok, conn, old(Now(conn)), 1, [row(id)])
    ensures ok ==> old(conn.store.lastId) < id <= conn.store.lastId
  {
    ghost var clock := conn.store.clock;
    ok, id := conn.Insert(row);
    assert Meanwhile(conn.store.others, clock, clock) == [];
  }

  // One row for each point, in order, under this id.
  ghost predicate PointsStaged(staged: seq<Row>, before: seq<Row>, crackId: nat, points: seq<Point3D>) {
    && |staged| == |before| + |points| && staged[..|before|] == before
    && forall j {:trigger points[j]} :: 0 <= j < |points| ==> staged[|before| + j] == PointRow(crackId, points[j])
  }

  // The loop over the points of one crack.
  method InsertPoints(conn: Connection, crackId: nat, points: seq<Point3D>) returns (ok: bool)
    requires InTransaction(conn)
    modifies conn, conn.store
    ensures Done(ok, conn, old(Now(conn)), |points|, PointRows(crackId, points))
    ensures ok <==> AllSucceed(conn.store.outcome, old(Now(conn)).clock, |points|)
    ensures ok ==> PointsStaged(conn.staged, old(conn.staged), crackId, points)
  {
    hide Done, Staged, Stuck, AllSucceed, InTransaction, PointsStaged;
    ghost var start, whole := Now(conn), PointRows(crackId, points);
    DoneNothing(conn);
    assert PointRows(crackId, points[..0]) == [];
    var j := 0;
    while j < |points|
      invariant j <= |points| && Done(true, conn, start, j, PointRows(crackId, points[..j]))
    {
      ghost var before := Now(conn);
      var point := points[j];
      DoneSoFar(conn, start, j, PointRows(crackId, points[..j]));
      var stored, _ := InsertRow(conn, (id: nat) => PointRow(crackId, point));
      DoneThen(stored, conn, start, before, j, PointRows(crackId, points[..j]), 1, [PointRow(crackId, point)]);
      if !stored {
        NotDoneWithin(conn, start, j + 1, PointRows(crackId, points[..j]) + [PointRow(crackId, point)], |points|,
                      whole);
        DoneIff(false, conn, start, |points|, whole);
        return false;
      }
      assert PointRows(crackId, points[..j + 1]) == PointRows(crackId, points[..j]) + [PointRow(crackId, point)];
      j := j + 1;
    }
    assert points[..|points|] == points;
    DoneIff(true, conn, start, |points|, whole);
    PointsAreStaged(conn, start, crackId, points);
    return true;
  }

  lemma PointsAreStaged(conn: Connection, a: Moment, crackId: nat, points: seq<Point3D>)
    requires Done(true, conn, a, |points|, PointRows(crackId, points))
    ensures PointsStaged(conn.staged, a.staged, crackId, points)
  {
  }

  lemma DoneSoFar(conn: Connection, a: Moment, count: nat, rows: seq<Row>)
    requires Done(true, conn, a, count, rows)
    ensures InTransaction(conn) && Staged(conn.store, a, Now(conn), count, rows)
  {
  }

  // One turn of the loop over the cracks.
  method InsertCrack(conn: Connection, crack: CrackInfo, points: seq<Point3D>, porcelainId: int)
    returns (ok: bool, crackId: nat)
    requires InTransaction(conn)
    modifies conn, conn.store
    ensures Done(ok, conn, old(Now(conn)), 1 + |points|, OneCrack(crackId, porcelainId, crack, points))
    ensures ok ==> old(conn.store.lastId) < crackId <= conn.store.lastId
  {
    hide Done, Staged, Stuck, AllSucceed, InTransaction;
    ghost var start := Now(conn);
    ok, crackId := InsertRow(conn, (id: nat) => CrackRow(id, porcelainId, crack));
    ghost var row := [CrackRow(crackId, porcelainId, crack)];
    if !ok {
      NotDoneWithin(conn, start, 1, row, 1 + |points|, OneCrack(crackId, porcelainId, crack, points));
      return;
    }
    ghost var before := Now(conn);
    DoneSoFar(conn, start, 1, row);
    ok := InsertPoints(conn, crackId, points);
    DoneThen(ok, conn, start, before, 1, row, |points|, PointRows(crackId, points));
    if ok { IdsGrow(conn, before, |points|, PointRows(crackId, points)); }
  }

  lemma IdsGrow(conn: Connection, a: Moment, count: nat, rows: seq<Row>)
    requires Done(true, conn, a, count, rows)
    ensures a.lastId <= conn.store.lastId
  {
  }

  lemma NextCrackRows(cracks: seq<CrackInfo>, points: seq<seq<Point3D>>, porcelainId: int, ids: seq<nat>, id: nat)
    requires |ids| < |cracks| && |ids| < |points|
    ensures CrackRows(cracks, points, porcelainId, ids + [id]) ==
      CrackRows(cracks, points, porcelainId, ids) + OneCrack(id, porcelainId, cracks[|ids|], points[|ids|])
    ensures CrackStatements(points, |ids + [id]|) == CrackStatements(points, |ids|) + (1 + |points[|ids|]|)
  {
    assert (ids + [id])[..|ids|] == ids;
  }

  function Last(from: nat, ids: seq<nat>): nat { if ids == [] then from else ids[|ids| - 1] }

  lemma IncreasingSnoc(from: nat, ids: seq<nat>, id: nat)
    requires Increasing(from, ids) && Last(from, ids) < id
    ensures Increasing(from, ids + [id]) && Last(from, ids + [id]) == id
  {
  }

  // The loop over the cracks.
  method InsertCracks(conn: Connection, cracks: seq<CrackInfo>, points: seq<seq<Point3D>>, porcelainId: int)
    returns (ok: bool, ids: seq<nat>)
    requires InTransaction(conn)
    modifies conn, conn.store
    ensures |ids| <= Pairs(cracks, points) && (ok ==> |ids| == Pairs(cracks, points))
    ensures Done(ok, conn, old(Now(conn)), CrackStatements(points, Pairs(cracks, points)),
                 CrackRows(cracks, points, porcelainId, ids))
    ensures ok <==> AllSucceed(conn.store.outcome, old(Now(conn)).clock, CrackStatements(points, Pairs(cracks, points)))
    ensures ok ==> Increasing(old(conn.store.lastId), ids)
  {
    hide Done, Staged, Stuck, AllSucceed, InTransaction, CrackStatements, CrackRows, Increasing, Last;
    ids := [];
    ghost var start, total := Now(conn), CrackStatements(points, Pairs(cracks, points));
    DoneNothing(conn);
    NoCracks(cracks, points, porcelainId, start.lastId);
    var ci := 0;
    while ci < |cracks| && ci < |points|
      invariant 0 <= ci <= |cracks| && ci <= |points| && |ids| == ci
      invariant Done(true, conn, start, CrackStatements(points, ci), CrackRows(cracks, points, porcelainId, ids))
      invariant Increasing(start.lastId, ids) && Last(start.lastId, ids) <= conn.store.lastId
    {
      ghost var before := Now(conn);
      ghost var count, done := CrackStatements(points, ci), CrackRows(cracks, points, porcelainId, ids);
      DoneSoFar(conn, start, count, done);
      var inserted, crackId := InsertCrack(conn, cracks[ci], points[ci], porcelainId);
      ghost var more := OneCrack(crackId, porcelainId, cracks[ci], points[ci]);
      DoneThen(inserted, conn, start, before, count, done, 1 + |points[ci]|, more);
      NextCrackRows(cracks, points, porcelainId, ids, crackId);
      if !inserted {
        CrackStatementsMonotone(points, ci + 1, Pairs(cracks, points));
        NotDoneWithin(conn, start, count + (1 + |points[ci]|), done + more, total, done);
        DoneIff(false, conn, start, total, done);
        return false, ids;
      }
      IncreasingSnoc(start.lastId, ids, crackId);
      ids := ids + [crackId];
      ci := ci + 1;
    }
    DoneIff(true, conn, start, total, CrackRows(cracks, points, porcelainId, ids));
    return true, ids;
  }

  lemma NoCracks(cracks: seq<CrackInfo>, points: seq<seq<Point3D>>, porcelainId: int, from: nat)
    ensures CrackStatements(points, 0) == 0 && CrackRows(cracks, points, porcelainId, []) == []
    ensures Increasing(from, []) && Last(from, []) == from
  {
  }

  // All the rows of the batch, inside the transaction.
  method InsertRows(conn: Connection, laser: LaserData, cracks: seq<CrackInfo>, points: seq<seq<Point3D>>,
                    porcelainId: int)
    returns (ok: bool, laserId: nat, ids: seq<nat>)
    requires InTransaction(conn)
    modifies conn, conn.store
    ensures |ids| <= Pairs(cracks, points) && (ok ==> |ids| == Pairs(cracks, points))
    ensures Done(ok, conn, old(Now(conn)), Statements(cracks, points) - 2,
                 BatchRows(laser, laserId, cracks, points, porcelainId, ids))
    ensures ok ==> old(conn.store.lastId) < laserId && Increasing(laserId, ids)
  {
    hide Done, Staged, Stuck, AllSucceed, InTransaction, CrackStatements, CrackRows, Increasing;
    ids := [];
    ghost var start := Now(conn);
    ghost var rest := CrackStatements(points, Pairs(cracks, points));
    ok, laserId := InsertRow(conn, (id: nat) => LaserRow(id, laser));
    ghost var row := [LaserRow(laserId, laser)];
    if !ok {
      NotDoneWithin(conn, start, 1, row, 1 + rest, BatchRows(laser, laserId, cracks, points, porcelainId, ids));
      return;
    }
    ghost var before := Now(conn);
    DoneSoFar(conn, start, 1, row);
    ok, ids := InsertCracks(conn, cracks, points, porcelainId);
    DoneThen(ok, conn, start, before, 1, row, rest, CrackRows(cracks, points, porcelainId, ids));
    if ok { IncreasingFrom(laserId, before.lastId, ids); }
  }

  lemma IncreasingFrom(from: nat, later: nat, ids: seq<nat>)
    requires from <= later && Increasing(later, ids)
    ensures Increasing(from, ids)
  {
  }

  // Others have committed, and after them this session committed `rows`, all at once.
  ghost predicate CommittedRows(store: Store, a: Moment, b: Moment, rows: seq<Row>) {
    a.clock <= b.clock && b.committed == a.committed + Meanwhile(store.others, a.clock, b.clock) + rows
  }

  // What this session committed are the rows it found staged and those of the batch, and nothing else.
  ghost predicate Published(store: Store, a: Moment, b: Moment, laser: LaserData, laserId: nat,
                            cracks: seq<CrackInfo>, points: seq<seq<Point3D>>, porcelainId: int, ids: seq<nat>)
  {
    exists rows :: IsBatch(rows, laser, laserId, cracks, points, porcelainId, ids)
      && CommittedRows(store, a, b, a.staged + rows)
  }

  lemma BatchIsPublished(store: Store, a: Moment, b: Moment, laser: LaserData, laserId: nat, cracks: seq<CrackInfo>,
                         points: seq<seq<Point3D>>, porcelainId: int, ids: seq<nat>)
    requires |ids| <= |cracks| && |ids| <= |points|
    requires CommittedRows(store, a, b, a.staged + BatchRows(laser, laserId, cracks, points, porcelainId, ids))
    ensures Published(store, a, b, laser, laserId, cracks, points, porcelainId, ids)
  {
    hide IsBatch, BatchRows, CommittedRows;
    BatchRowsAreBatch(laser, laserId, cracks, points, porcelainId, ids);
  }

  lemma PassedThenCommitted(store: Store, a: Moment, b: Moment, c: Moment, rows: seq<Row>)
    requires Passed(store, a, b) && CommittedRows(store, b, c, rows)
    ensures CommittedRows(store, a, c, rows)
  {
    MeanwhileSplit(store.others, a.clock, b.clock, c.clock);
  }

  // COMMIT if every row went in; otherwise, or if it fails, ROLLBACK.
  method Finish(conn: Connection, inserted: bool) returns (ok: bool)
    requires conn.Valid() && (inserted ==> InTransaction(conn))
    modifies conn, conn.store
    ensures conn.Valid()
    ensures ok <==> inserted && conn.store.outcome(old(conn.store.clock)).Succeeds?
    ensures conn.State() == Finished(conn.store.outcome, old(conn.store.clock), inserted, old(conn.State()))
    ensures conn.store.clock ==
      old(conn.store.clock) + FinishSends(conn.store.outcome, old(conn.store.clock), inserted, old(conn.State()))
    ensures conn.State().Open? ==> old(conn.State()).Open? && conn.staged == old(conn.staged)
    ensures if ok then CommittedRows(conn.store, old(Now(conn)), Now(conn), old(conn.staged))
            else Passed(conn.store, old(Now(conn)), Now(conn))
  {
    ghost var start := Now(conn);
    ok := false;
    if inserted {
      ok := conn.Commit();
      assert Meanwhile(conn.store.others, start.clock, start.clock) == [];
    }
    if !ok {
      ghost var before := Now(conn);
      conn.Rollback();
      PassedThen(conn.store, start, before, Now(conn));
    }
  }

  function Finished(outcome: nat -> Outcome, clock: nat, inserted: bool, s: State): State {
    if !inserted then Sent(Rollback, s, outcome(clock))
    else if outcome(clock).Succeeds? then Idle
    else Sent(Rollback, Sent(Commit, s, outcome(clock)), outcome(clock + 1))
  }

  function FinishSends(outcome: nat -> Outcome, clock: nat, inserted: bool, s: State): nat {
    if !inserted then (if s.Broken? then 0 else 1)
    else if outcome(clock).Succeeds? || outcome(clock).Disconnects? then 1
    else 2
  }

  lemma AfterBegin(outcome: nat -> Outcome, from: nat, total: nat, s: State)
    requires total > 0 && (s.Broken? || s.Aborted? || !outcome(from).Succeeds?)
    ensures After(outcome, from, total, s) == Sent(Begin, s, outcome(from))
    ensures Sends(outcome, from, total, s) == if s.Broken? then 0 else 1
  {
  }

  lemma AfterFinish(outcome: nat -> Outcome, from: nat, total: nat, s: State, at: nat, inserted: bool)
    requires from < at < from + total && AllSucceed(outcome, from, at - from) && s in {Idle, Open}
    requires if inserted then at == from + total - 1 else at < from + total - 1 && !outcome(at).Succeeds?
    ensures After(outcome, from, total, s) ==
      if inserted then Finished(outcome, at, true, Open)
      else Finished(outcome, at + 1, false, Sent(Insert, Open, outcome(at)))
    ensures from + Sends(outcome, from, total, s) ==
      if inserted then at + FinishSends(outcome, at, true, Open)
      else at + 1 + FinishSends(outcome, at + 1, false, Sent(Insert, Open, outcome(at)))
  {
    var n := at - from;
    assert outcome(from).Succeeds?;
    SuccessesAre(outcome, from, total, if inserted && outcome(at).Succeeds? then total else n);
  }

  // Where a batch of `total` statements stands after BEGIN and the INSERTs.
  lemma BatchGoes(outcome: nat -> Outcome, from: nat, total: nat, clock: nat, inserted: bool)
    requires total > 2 && outcome(from).Succeeds? && from < clock <= from + total - 1
    requires if inserted then clock == from + total - 1 && AllSucceed(outcome, from + 1, total - 2)
             else Failed(outcome, from + 1, clock)
    ensures AllSucceed(outcome, from, total - 1) <==> inserted
    ensures AllSucceed(outcome, from, total) <==> inserted && outcome(clock).Succeeds?
    ensures inserted ==> AllSucceed(outcome, from, clock - from)
    ensures !inserted ==>
      AllSucceed(outcome, from, clock - 1 - from) && !outcome(clock - 1).Succeeds? && from + 1 < clock
  {
  }

  lemma DoneMeans(ok: bool, conn: Connection, a: Moment, count: nat, rows: seq<Row>)
    requires Done(ok, conn, a, count, rows)
    ensures conn.Valid() && Passed(conn.store, a, Now(conn)) && conn.store.clock <= a.clock + count
    ensures ok ==> InTransaction(conn) && Staged(conn.store, a, Now(conn), count, rows)
    ensures !ok ==> Failed(conn.store.outcome, a.clock, conn.store.clock)
    ensures !ok ==> conn.State() == Sent(Insert, Open, conn.store.outcome(conn.store.clock - 1))
    ensures conn.State().Open? ==> a.staged <= conn.staged && (ok ==> conn.staged == a.staged + rows)
  {
  }

  // The rows that a batch leaves in a transaction it does not end: some or all of its own, after
  // those it found there.
  ghost predicate Residue(conn: Connection, a: Moment, complete: bool, rows: seq<Row>)
    reads conn
  {
    conn.State().Open? ==> a.staged <= conn.staged && (complete ==> conn.staged == a.staged + rows)
  }

  /** All or nothing. `true` comes back exactly when the connection was alive and not in an aborted
      transaction and each of the statements succeeded; then one laser row, one row per crack that has
      a point list, and all the points of these, with the id of their crack, are committed together,
      after whatever an earlier batch has left in the transaction. Otherwise only other clients have
      committed anything. The connection goes back to the pool as `After` says. */
  method RunBatch(conn: Connection, laser: LaserData, cracks: seq<CrackInfo>, points: seq<seq<Point3D>>,
                  porcelainId: int)
    returns (ok: bool, ghost laserId: nat, ghost ids: seq<nat>)
    requires conn.Valid()
    modifies conn, conn.store
    ensures conn.Valid() && |ids| <= Pairs(cracks, points)
    ensures ok <==> old(conn.State()) in {Idle, Open}
                    && AllSucceed(conn.store.outcome, old(Now(conn)).clock, Statements(cracks, points))
    ensures ok ==> |ids| == Pairs(cracks, points) && old(conn.store.lastId) < laserId && Increasing(laserId, ids)
    ensures if ok then CommittedRows(conn.store, old(Now(conn)), Now(conn),
                                     old(conn.staged) + BatchRows(laser, laserId, cracks, points, porcelainId, ids))
            else Passed(conn.store, old(Now(conn)), Now(conn))
    ensures ok ==>
      Published(conn.store, old(Now(conn)), Now(conn), laser, laserId, cracks, points, porcelainId, ids)
    ensures conn.State() ==
      After(conn.store.outcome, old(Now(conn)).clock, Statements(cracks, points), old(conn.State()))
    ensures conn.store.clock == old(conn.store.clock)
              + Sends(conn.store.outcome, old(Now(conn)).clock, Statements(cracks, points), old(conn.State()))
    ensures Residue(conn, old(Now(conn)),
                    AllSucceed(conn.store.outcome, old(Now(conn)).clock, Statements(cracks, points) - 1),
                    BatchRows(laser, laserId, cracks, points, porcelainId, ids))
  {
    hide Done, Stuck, AllSucceed, CrackStatements, CrackRows, Increasing, After, Sends, Finished, FinishSends, Failed,
      Sent, Passed, CommittedRows, BatchRows, Published;
    ok, laserId, ids := false, 0, [];
    ghost var start, total, state := Now(conn), Statements(cracks, points), conn.State();
    var begun := conn.Begin();
    BeginPasses(conn.store, start, Now(conn));
    ghost var outcome := conn.store.outcome;
    if !begun {
      AfterBegin(outcome, start.clock, total, state);
      BeginRefused(outcome, start.clock, total, state);
      return;
    }
    BeginAccepted(outcome, start.clock, state);
    ghost var begunAt := Now(conn);
    var inserted, rowId, rowIds := InsertRows(conn, laser, cracks, points, porcelainId);
    laserId, ids := rowId, rowIds;
    ghost var filled := Now(conn);
    ghost var rows := BatchRows(laser, rowId, cracks, points, porcelainId, rowIds);
    DoneIff(inserted, conn, begunAt, total - 2, rows);
    DoneMeans(inserted, conn, begunAt, total - 2, rows);
    PassedThen(conn.store, start, begunAt, filled);
    BatchGoes(outcome, start.clock, total, filled.clock, inserted);
    AfterFinish(outcome, start.clock, total, state, if inserted then filled.clock else filled.clock - 1, inserted);
    ok := Finish(conn, inserted);
    if ok {
      PassedThenCommitted(conn.store, start, filled, Now(conn), start.staged + rows);
      BatchIsPublished(conn.store, start, Now(conn), laser, laserId, cracks, points, porcelainId, ids);
    } else {
      PassedThen(conn.store, start, filled, Now(conn));
    }
  }

  lemma BeginPasses(store: Store, a: Moment, b: Moment)
    requires a.clock <= b.clock && a.lastId == b.lastId
    requires b.committed == a.committed + Meanwhile(store.others, a.clock, b.clock)
    ensures Passed(store, a, b)
  {
  }

  lemma BeginRefused(outcome: nat -> Outcome, from: nat, total: nat, s: State)
    requires total > 1 && (s.Broken? || s.Aborted? || !outcome(from).Succeeds?)
    ensures s in {Idle, Open} ==> !AllSucceed(outcome, from, total) && !AllSucceed(outcome, from, total - 1)
    ensures Sent(Begin, s, outcome(from)).Open? ==> s in {Idle, Open}
  {
  }

  lemma BeginAccepted(outcome: nat -> Outcome, from: nat, s: State)
    requires s in {Idle, Open} && outcome(from).Succeeds?
    ensures Sent(Begin, s, outcome(from)).Open?
  {
  }

  // An outcome for every statement: a COMMIT and the ROLLBACK after it do not reach the server.
  function CommitLost(t: nat): Outcome { if t == 2 || t == 3 then Undelivered else Succeeds }
  function Nobody(t: nat): seq<Row> { [] }

  lemma LostCommitLeavesOpen()
    ensures After(CommitLost, 0, 3, Idle) == Open && Sends(CommitLost, 0, 3, Idle) == 4
    ensures AllSucceed(CommitLost, 0, 2) && !AllSucceed(CommitLost, 0, 3) && AllSucceed(CommitLost, 4, 3)
    ensures Sends(CommitLost, 4, 3, Open) == 3
  {
    assert !CommitLost(2).Succeeds?;
    SuccessesAre(CommitLost, 0, 3, 2);
    SuccessesAre(CommitLost, 4, 3, 3);
  }

  /** A batch that was rejected is committed by the next one, when neither its COMMIT nor its ROLLBACK
      reached the server. */
  method RejectedBatchIsCommitted(first: LaserData, second: LaserData)
    returns (ok: bool, later: bool, committed: seq<Row>, ghost ids: (nat, nat))
    ensures !ok && later && committed == [LaserRow(ids.0, first), LaserRow(ids.1, second)]
  {
    hide After, Sends, AllSucceed, Meanwhile, CommitLost, Increasing, Published;
    var store := new Store(CommitLost, Nobody, (t: nat) => 0);
    var conn := new Connection(store);
    ghost var id, more, none, alsoNone := 0, 0, [], [];
    LostCommitLeavesOpen();
    assert Statements([], []) == 3;
    ok, id, none := RunBatch(conn, first, [], [], 0);
    NobodyCommits(Nobody, 0, 4);
    later, more, alsoNone := RunBatch(conn, second, [], [], 0);
    NobodyCommits(Nobody, 4, 7);
    ids := (id, more);
    committed := store.committed;
  }

  lemma {:induction false} NobodyCommits(others: nat -> seq<Row>, a: nat, b: nat)
    requires a <= b && forall t: nat :: others(t) == []
    ensures Meanwhile(others, a, b) == []
    decreases b
  {
    if a < b { NobodyCommits(others, a, b - 1); }
  }

  class DatabaseManager {
    var available: seq<Connection>   // the idle connections of the pool

    constructor (connections: seq<Connection>)
      ensures available == connections
    {
      available := connections;
    }

    // One connection is taken from the back of the pool and put back there on every path, in whatever
    // state the batch leaves it.
    method BatchInsertCrackDetections(laser: LaserData, cracks: seq<CrackInfo>, points: seq<seq<Point3D>>,
                                      porcelainId: int)
      returns (ok: bool, ghost laserId: nat, ghost ids: seq<nat>)
      requires available != [] && available[|available| - 1].Valid()
      modifies this, available[|available| - 1], available[|available| - 1].store
      ensures available == old(available) && available[|available| - 1].Valid() && |ids| <= Pairs(cracks, points)
      ensures var conn, total := available[|available| - 1], Statements(cracks, points);
        && (ok <==> old(conn.State()) in {Idle, Open} && AllSucceed(conn.store.outcome, old(Now(conn)).clock, total))
        && (ok ==> |ids| == Pairs(cracks, points) && old(conn.store.lastId) < laserId && Increasing(laserId, ids))
        && (if ok then CommittedRows(conn.store, old(Now(conn)), Now(conn),
                                     old(conn.staged) + BatchRows(laser, laserId, cracks, points, porcelainId, ids))
            else Passed(conn.store, old(Now(conn)), Now(conn)))
        && (ok ==> Published(conn.store, old(Now(conn)), Now(conn), laser, laserId, cracks, points, porcelainId, ids))
        && conn.State() == After(conn.store.outcome, old(Now(conn)).clock, total, old(conn.State()))
        && conn.store.clock == old(conn.store.clock)
             + Sends(conn.store.outcome, old(Now(conn)).clock, total, old(conn.State()))
    {
      hide AllSucceed, Statements, Increasing, After, Sends, CommittedRows, Passed, Residue, BatchRows, Published;
      var conn := available[|available| - 1];
      available := available[..|available| - 1];
      ok, laserId, ids := RunBatch(conn, laser, cracks, points, porcelainId);
      available := available + [conn];
    }
  }

  // ------------------------------------------------- a thread that stores one detection after the other

  datatype Batch = Batch(laser: LaserData, cracks: seq<CrackInfo>, points: seq<seq<Point3D>>, porcelainId: int)

  ghost predicate Unusable(s: State) { s.Broken? || s.Aborted? }

  // BEGIN is refused on an aborted connection, and not even sent on a broken one.
  lemma StaysUnusable(outcome: nat -> Outcome, from: nat, total: nat, s: State)
    requires Unusable(s)
    ensures Unusable(After(outcome, from, total, s)) && (s.Broken? ==> After(outcome, from, total, s).Broken?)
    ensures Sends(outcome, from, total, s) <= 1
  {
  }

  /** Acquire and release both use the back of the pool. Once the connection there is broken, or in an
      aborted transaction, no batch ever succeeds again, whatever the statements would do and whatever
      the other connections are; each batch sends one statement at most. */
  method StoreInTurn(db: DatabaseManager, batches: seq<Batch>) returns (oks: seq<bool>)
    requires db.available != [] && db.available[|db.available| - 1].Valid()
    modifies db, db.available[|db.available| - 1], db.available[|db.available| - 1].store
    ensures db.available == old(db.available) && |oks| == |batches|
    ensures var conn := db.available[|db.available| - 1];
      && conn.Valid()
      && (Unusable(old(conn.State())) ==>
            && (forall i :: 0 <= i < |oks| ==> !oks[i])
            && Unusable(conn.State()) && Passed(conn.store, old(Now(conn)), Now(conn))
            && conn.store.clock <= old(conn.store.clock) + |batches|)
  {
    hide Increasing, Statements, CommittedRows, Passed, After, Sends, AllSucceed, BatchRows, Residue, Published;
    oks := [];
    ghost var conn := db.available[|db.available| - 1];
    ghost var start, state := Now(conn), conn.State();
    assert Meanwhile(conn.store.others, start.clock, start.clock) == [];
    BeginPasses(conn.store, start, start);
    for i := 0 to |batches|
      invariant db.available == old(db.available) && conn.Valid() && |oks| == i
      invariant Unusable(state) ==> Unusable(conn.State()) && Passed(conn.store, start, Now(conn))
      invariant Unusable(state) ==> conn.store.clock <= start.clock + i && forall j :: 0 <= j < i ==> !oks[j]
    {
      ghost var before, was := Now(conn), conn.State();
      var batch := batches[i];
      var ok, _, _ := db.BatchInsertCrackDetections(batch.laser, batch.cracks, batch.points, batch.porcelainId);
      if Unusable(state) {
        StaysUnusable(conn.store.outcome, before.clock, Statements(batch.cracks, batch.points), was);
        PassedThen(conn.store, start, before, Now(conn));
      }
      oks := oks + [ok];
    }
  }
}
