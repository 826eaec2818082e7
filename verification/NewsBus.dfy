/**
 * The shared news bus: an append-only table with a purge, and readers with their own cursor
 * (src/agentic_investor/experiments/news_bus.py).
 */
module NewsBus {
  import opened Basics

  datatype Row = Row(id: nat, tsReceived: int, tsPublished: string, headline: string)

  /** The table with its AUTOINCREMENT counter: an id is never handed out twice, whatever has been deleted. */
  datatype Bus = Bus(rows: map<nat, Row>, nextId: nat)

  predicate IdsBelow(b: Bus) {
    forall id | id in b.rows :: id < b.nextId
  }

  function Insert(b: Bus, tsReceived: int, tsPublished: string, headline: string): Bus {
    Bus(b.rows[b.nextId := Row(b.nextId, tsReceived, tsPublished, headline)], b.nextId + 1)
  }

  /** DELETE ... WHERE ts_received < cutoff */
  function Purge(b: Bus, cutoff: int): Bus {
    b.(rows := map id | id in b.rows && b.rows[id].tsReceived >= cutoff :: b.rows[id])
  }

  /** SELECT ... WHERE id > lo ORDER BY id */
  function After(b: Bus, lo: nat): seq<Row>
    decreases b.nextId - lo
  {
    if lo + 1 >= b.nextId then []
    else if lo + 1 in b.rows then [b.rows[lo + 1]] + After(b, lo + 1)
    else After(b, lo + 1)
  }

  // ---- the reader object ----

  class BusTable {
    var rows: map<nat, Row>
    var nextId: nat

    /** Ids in use are below the counter. */
    ghost predicate Valid()
      reads this
    {
      IdsBelow(Contents())
    }

    constructor ()
      ensures Valid() && Contents() == Bus(map[], 1)
    {
      rows, nextId := map[], 1;
    }

    function Contents(): Bus
      reads this
    {
      Bus(rows, nextId)
    }

    /** The new row's id is not in use and exceeds every id ever used; all other rows stay. */
    method InsertEvent(tsReceived: int, tsPublished: string, headline: string) returns (id: nat)
      requires Valid()
      modifies this
      ensures Valid() && Contents() == Insert(old(Contents()), tsReceived, tsPublished, headline)
      ensures id !in old(rows) && forall x | x in old(rows) :: x < id
      ensures rows.Keys == old(rows).Keys + {id} && rows[id] == Row(id, tsReceived, tsPublished, headline)
      ensures forall x | x in old(rows) :: rows[x] == old(rows)[x]
    {
      id := nextId;
      rows := rows[nextId := Row(nextId, tsReceived, tsPublished, headline)];
      nextId := nextId + 1;
    }

    method PurgeBefore(cutoff: int) returns (deleted: nat)
      requires Valid()
      modifies this
      ensures Valid() && Contents() == Purge(old(Contents()), cutoff)
      ensures rows == map id | id in old(rows) && !(old(rows)[id].tsReceived < cutoff) :: old(rows)[id]
      ensures nextId == old(nextId) && deleted == |old(rows).Keys - rows.Keys|
    {
      var expired := set id | id in rows && rows[id].tsReceived < cutoff;
      deleted := |expired|;
      rows := map id | id in rows && rows[id].tsReceived >= cutoff :: rows[id];
      assert expired == old(rows).Keys - rows.Keys;
    }
  }

  class SharedBusStream {
    var lastId: nat
    /** Rows whose callback has completed, in order. */
    ghost var delivered: seq<Row>

    constructor ()
      ensures lastId == 0 && delivered == []
    {
      lastId, delivered := 0, [];
    }

    /** A failed query is an empty batch; the next poll retries from the same cursor. */
    method FetchNewRows(table: BusTable, ok: bool) returns (batch: seq<Row>)
      ensures batch == if ok then After(table.Contents(), lastId) else []
    {
      batch := [];
      if !ok {
        return;
      }
      var id := lastId;
      while id + 1 < table.nextId
        invariant batch + After(table.Contents(), id) == After(table.Contents(), lastId)
        decreases table.nextId - id
      {
        id := id + 1;
        if id in table.rows {
          batch := batch + [table.rows[id]];
        }
      }
    }

    /**
     * The delivery loop of one poll: the cursor follows each completed callback. The callback of row `raisesAt` of the
     * batch, if there is one, raises and ends the loop; that row and the rest stay past the cursor.
     */
    method DeliverBatch(batch: seq<Row>, raisesAt: nat) returns (ok: bool)
      modifies this
      ensures ok <==> |batch| <= raisesAt
      ensures var done := if ok then batch else batch[..raisesAt];
              && delivered == old(delivered) + done
              && lastId == if done == [] then old(lastId) else done[|done| - 1].id
    {
      for i := 0 to |batch|
        invariant i <= raisesAt && delivered == old(delivered) + batch[..i]
        invariant lastId == if i == 0 then old(lastId) else batch[i - 1].id
      {
        if i == raisesAt {
          return false;
        }
        delivered := delivered + [batch[i]];
        lastId := batch[i].id;
      }
      ok := true;
    }
  }

  // ---- any interleaving of writer, purge and readers ----

  /**
   * One reader. `base` and `baseCount` record its first successful fetch: the rows in the table then, and how many had
   * ever been inserted; `upTo` and `lastFetch` record the latest one.
   */
  datatype Reader = Reader(lastId: nat, pending: seq<Row>, delivered: seq<Row>,
                           base: seq<Row>, baseCount: nat, upTo: nat, lastFetch: int)

  /** `all` is every row ever inserted, in id order. */
  datatype World = World(bus: Bus, all: seq<Row>, readers: map<string, Reader>, now: int)

  datatype Step =
    | Tick(dt: nat)
    | InsertRow(tsReceived: int, tsPublished: string, headline: string)
    | PurgeOlder(cutoff: int)
    | FirstFetch(reader: string)
    | Fetch(reader: string)
    | FailedFetch(reader: string)
    | Deliver(reader: string)

  predicate Enabled(w: World, step: Step, ttl: nat) {
    match step
    case PurgeOlder(cutoff) => cutoff <= w.now - ttl
    case FirstFetch(r) => r !in w.readers
    case Fetch(r) => r in w.readers && w.readers[r].pending == []
    case FailedFetch(r) => r in w.readers && w.readers[r].pending == []
    case Deliver(r) => r in w.readers && w.readers[r].pending != []
    case _ => true
  }

  function Next(w: World, step: Step): World {
    match step
    case Tick(dt) => w.(now := w.now + dt)
    case InsertRow(recv, pub, headline) =>
      w.(bus := Insert(w.bus, recv, pub, headline), all := w.all + [Row(w.bus.nextId, recv, pub, headline)])
    case PurgeOlder(cutoff) => w.(bus := Purge(w.bus, cutoff))
    case FirstFetch(r) =>
      var batch := After(w.bus, 0);
      w.(readers := w.readers[r := Reader(0, batch, [], batch, |w.all|, |w.all|, w.now)])
    case Fetch(r) =>
      if r !in w.readers then w
      else
        var reader := w.readers[r];
        var batch := After(w.bus, reader.lastId);
        w.(readers := w.readers[r := reader.(pending := batch, upTo := |w.all|, lastFetch := w.now)])
    case FailedFetch(r) => w
    case Deliver(r) =>
      if r !in w.readers || w.readers[r].pending == [] then w
      else
        var reader := w.readers[r];
        w.(readers := w.readers[r := reader.(pending := reader.pending[1..],
                                             delivered := reader.delivered + [reader.pending[0]],
                                             lastId := reader.pending[0].id)])
  }

  const EMPTY := World(Bus(map[], 1), [], map[], 0)

  function Exec(steps: seq<Step>): World {
    if steps == [] then EMPTY else Next(Exec(steps[..|steps| - 1]), steps[|steps| - 1])
  }

  predicate ValidRun(steps: seq<Step>, ttl: nat) {
    forall k | 0 <= k < |steps| :: Enabled(Exec(steps[..k]), steps[k], ttl)
  }

  /** The table is a part of the log, and ids count the log. */
  predicate LogOk(w: World) {
    && w.bus.nextId == |w.all| + 1
    && (forall i | 0 <= i < |w.all| :: w.all[i].id == i + 1)
    && (forall id | id in w.bus.rows :: 1 <= id <= |w.all| && w.bus.rows[id] == w.all[id - 1])
  }

  /** Strictly increasing ids above `lo`, every row as it was inserted. */
  predicate Ascending(rows: seq<Row>, lo: nat, all: seq<Row>) {
    && (forall i | 0 <= i < |rows| :: lo < rows[i].id <= |all| && rows[i] == all[rows[i].id - 1])
    && (forall i, j | 0 <= i < j < |rows| :: rows[i].id < rows[j].id)
  }

  predicate ReaderOk(r: Reader, all: seq<Row>) {
    && Ascending(r.delivered + r.pending, 0, all)
    && r.lastId == (if r.delivered == [] then 0 else r.delivered[|r.delivered| - 1].id)
  }

  lemma {:induction false} AfterAscends(w: World, lo: nat)
    requires LogOk(w)
    ensures Ascending(After(w.bus, lo), lo, w.all)
    ensures forall id | id in w.bus.rows && id > lo :: w.bus.rows[id] in After(w.bus, lo)
    decreases w.bus.nextId - lo
  {
    if lo + 1 < w.bus.nextId {
      AfterAscends(w, lo + 1);
      var rest := After(w.bus, lo + 1);
      if lo + 1 in w.bus.rows {
        assert After(w.bus, lo) == [w.bus.rows[lo + 1]] + rest;
        AscendingCons(w.bus.rows[lo + 1], rest, lo + 1, w.all);
      } else {
        assert After(w.bus, lo) == rest;
      }
      hide After;
    }
  }

  lemma AscendingCons(row: Row, rest: seq<Row>, id: nat, all: seq<Row>)
    requires Ascending(rest, id, all) && 1 <= id <= |all| && row == all[id - 1] && row.id == id
    ensures Ascending([row] + rest, id - 1, all)
    ensures forall x | x in rest :: x in [row] + rest
  {
  }

  lemma AscendingJoin(a: seq<Row>, b: seq<Row>, all: seq<Row>)
    requires Ascending(a, 0, all) && Ascending(b, if a == [] then 0 else a[|a| - 1].id, all)
    ensures Ascending(a + b, 0, all)
  {
    var ab := a + b;
    assert forall i | 0 <= i < |ab| :: ab[i] == if i < |a| then a[i] else b[i - |a|];
    assert a != [] ==> forall i | 0 <= i < |a| :: a[i].id <= a[|a| - 1].id;
    assert forall i | 0 <= i < |b| :: 0 < b[i].id;
  }

  lemma AscendingGrows(rows: seq<Row>, all: seq<Row>, row: Row)
    requires Ascending(rows, 0, all)
    ensures Ascending(rows, 0, all + [row])
  {
  }

  ghost predicate WorldOk(w: World) {
    LogOk(w) && forall r | r in w.readers :: ReaderOk(w.readers[r], w.all)
  }

  lemma FetchKeeps(w: World, reader: Reader)
    requires LogOk(w) && ReaderOk(reader, w.all) && reader.pending == []
    ensures Ascending(reader.delivered + After(w.bus, reader.lastId), 0, w.all)
  {
    AfterAscends(w, reader.lastId);
    assert reader.delivered + [] == reader.delivered;
    AscendingJoin(reader.delivered, After(w.bus, reader.lastId), w.all);
    hide After;
  }

  lemma ReaderStep(w: World, step: Step, ttl: nat, r: string)
    requires WorldOk(w) && Enabled(w, step, ttl) && r in Next(w, step).readers
    requires !step.InsertRow?
    ensures ReaderOk(Next(w, step).readers[r], w.all)
  {
    match step
    case FirstFetch(q) =>
      AfterAscends(w, 0);
      assert [] + After(w.bus, 0) == After(w.bus, 0);
    case Fetch(q) =>
      if q == r {
        FetchKeeps(w, w.readers[r]);
      }
    case Deliver(q) =>
      if q == r {
        var reader := w.readers[r];
        assert reader.delivered + [reader.pending[0]] + reader.pending[1..] == reader.delivered + reader.pending;
      }
    case _ =>
  }

  lemma WorldStep(w: World, step: Step, ttl: nat)
    requires WorldOk(w) && Enabled(w, step, ttl)
    ensures WorldOk(Next(w, step))
  {
    if step.InsertRow? {
      forall r | r in w.readers ensures ReaderOk(w.readers[r], Next(w, step).all) {
        AscendingGrows(w.readers[r].delivered + w.readers[r].pending, w.all, Next(w, step).all[|w.all|]);
      }
      hide ReaderOk;
    } else {
      forall r | r in Next(w, step).readers ensures ReaderOk(Next(w, step).readers[r], w.all) {
        ReaderStep(w, step, ttl, r);
      }
      hide ReaderOk;
    }
  }

  lemma {:induction false} WorldStaysOk(steps: seq<Step>, ttl: nat)
    requires ValidRun(steps, ttl)
    ensures WorldOk(Exec(steps))
  {
    hide Next, Enabled;
    if steps != [] {
      var n := |steps| - 1;
      assert forall k | 0 <= k < n :: steps[..n][..k] == steps[..k];
      WorldStaysOk(steps[..n], ttl);
      WorldStep(Exec(steps[..n]), steps[n], ttl);
    } else {
      assert WorldOk(EMPTY);
    }
  }

  lemma AscendingPrefix(a: seq<Row>, b: seq<Row>, all: seq<Row>)
    requires Ascending(a + b, 0, all)
    ensures Ascending(a, 0, all)
  {
    assert forall i | 0 <= i < |a| :: (a + b)[i] == a[i];
  }

  lemma DeliveredAscends(w: World, r: string)
    requires WorldOk(w) && r in w.readers
    ensures Ascending(w.readers[r].delivered, 0, w.all)
  {
    AscendingPrefix(w.readers[r].delivered, w.readers[r].pending, w.all);
    hide Ascending, LogOk;
  }

  /** In every run each reader's delivered ids strictly increase - so nothing repeats - and rows arrive as inserted. */
  lemma {:induction false} AtMostOnceInOrder(steps: seq<Step>, ttl: nat, r: string)
    requires ValidRun(steps, ttl) && r in Exec(steps).readers
    ensures var w := Exec(steps);
            var d := w.readers[r].delivered;
            Ascending(d, 0, w.all)
  {
    hide Exec, ValidRun, WorldOk;
    WorldStaysOk(steps, ttl);
    DeliveredAscends(Exec(steps), r);
  }

  // ---- nothing is missed while fetches keep ahead of the purge ----

  /** A reader has, delivered or in hand, every row of its first fetch and every row inserted up to its latest one. */
  predicate Complete(r: Reader, w: World, lag: nat) {
    && r.baseCount <= r.upTo <= |w.all| && r.lastFetch <= w.now
    && (forall i | 0 <= i < |r.base| :: r.base[i].id <= r.baseCount)
    && r.delivered + r.pending == r.base + w.all[r.baseCount..r.upTo]
    // what it has not fetched yet is still in the table, and recent
    && (forall id | r.upTo < id <= |w.all| :: id in w.bus.rows && w.bus.rows[id].tsReceived >= r.lastFetch - lag)
    // what the table still has of earlier rows, it has fetched
    && (forall id | id in w.bus.rows && id <= r.upTo :: Has(r, w.bus.rows[id]))
  }

  predicate Has(r: Reader, row: Row) {
    row in r.delivered || row in r.pending
  }

  /** Receive stamps lag their insert by at most `lag`, and every reader has fetched within the last `gap`. */
  predicate Timely(w: World, step: Step, lag: nat, gap: nat) {
    && (step.InsertRow? ==> step.tsReceived >= w.now - lag)
    && (step.PurgeOlder? ==> forall r | r in w.readers :: w.now - w.readers[r].lastFetch <= gap)
  }

  predicate TimelyRun(steps: seq<Step>, lag: nat, gap: nat) {
    forall k | 0 <= k < |steps| :: Timely(Exec(steps[..k]), steps[k], lag, gap)
  }

  /** When the table has every row past `lo`, the query returns the end of the log. */
  lemma {:induction false} AfterIsSuffix(w: World, lo: nat)
    requires LogOk(w) && lo <= |w.all| && forall id | lo < id <= |w.all| :: id in w.bus.rows
    ensures After(w.bus, lo) == w.all[lo..]
    decreases |w.all| - lo
  {
    if lo < |w.all| {
      AfterIsSuffix(w, lo + 1);
      assert w.bus.rows[lo + 1] == w.all[lo];
      assert After(w.bus, lo) == [w.all[lo]] + After(w.bus, lo + 1);
      hide After, LogOk;
      assert w.all[lo..] == [w.all[lo]] + w.all[lo + 1..];
    }
  }

  /** Ids that are gone from the table are skipped. */
  lemma {:induction false} AfterSkips(b: Bus, lo: nat, hi: nat)
    requires lo <= hi && forall id | lo < id <= hi :: id !in b.rows
    ensures After(b, lo) == After(b, hi)
    decreases hi - lo
  {
    if lo < hi && lo + 1 < b.nextId { AfterSkips(b, lo + 1, hi); }
  }

  lemma CursorBelow(r: Reader, w: World, lag: nat)
    requires LogOk(w) && ReaderOk(r, w.all) && Complete(r, w, lag)
    ensures r.lastId <= r.upTo
  {
    if r.delivered != [] {
      var n := |r.delivered| - 1;
      assert r.delivered[n] == (r.delivered + r.pending)[n];
      assert (r.base + w.all[r.baseCount..r.upTo])[n].id <= r.upTo by { hide ReaderOk; }
    }
  }

  /** A fetch starts where the last one ended and returns everything inserted since. */
  lemma FetchReturnsNews(w: World, r: Reader, lag: nat)
    requires LogOk(w) && ReaderOk(r, w.all) && r.pending == [] && Complete(r, w, lag)
    ensures After(w.bus, r.lastId) == w.all[r.upTo..]
  {
    var d := r.delivered;
    assert d + r.pending == d;
    CursorBelow(r, w, lag);
    forall id | id in w.bus.rows && id <= r.upTo ensures id <= r.lastId {
      assert Has(r, w.bus.rows[id]);
      var i :| 0 <= i < |d| && d[i] == w.bus.rows[id];
    }
    hide Complete, Has;
    AfterSkips(w.bus, r.lastId, r.upTo);
    AfterIsSuffix(w, r.upTo);
  }

  lemma FetchCompletes(w: World, r: Reader, lag: nat)
    requires LogOk(w) && ReaderOk(r, w.all) && r.pending == [] && Complete(r, w, lag)
    ensures Complete(r.(pending := After(w.bus, r.lastId), upTo := |w.all|, lastFetch := w.now), w, lag)
  {
    FetchReturnsNews(w, r, lag);
    hide After, ReaderOk;
    var news, n := w.all[r.upTo..], |w.all|;
    var r' := r.(pending := news, upTo := n, lastFetch := w.now);
    FetchSequence(r.delivered, r.base, w.all, r.baseCount, r.upTo);
    assert r.delivered + r.pending == r.delivered;
    forall id | id in w.bus.rows && id <= n ensures Has(r', w.bus.rows[id]) {
      if id > r.upTo { assert news[id - 1 - r.upTo] == w.bus.rows[id]; } else { assert Has(r, w.bus.rows[id]); }
    }
    hide Has;
  }

  lemma FetchSequence(d: seq<Row>, base: seq<Row>, all: seq<Row>, bc: nat, up: nat)
    requires bc <= up <= |all| && d == base + all[bc..up]
    ensures d + all[up..] == base + all[bc..|all|]
  {
    assert all[bc..up] + all[up..] == all[bc..|all|];
  }

  lemma FirstFetchCompletes(w: World, lag: nat)
    requires LogOk(w)
    ensures var batch := After(w.bus, 0);
            Complete(Reader(0, batch, [], batch, |w.all|, |w.all|, w.now), w, lag)
  {
    var batch, n := After(w.bus, 0), |w.all|;
    AfterAscends(w, 0);
    hide After;
    var r := Reader(0, batch, [], batch, n, n, w.now);
    assert [] + batch == batch + w.all[n..n];
    assert forall id | id in w.bus.rows && id <= n :: Has(r, w.bus.rows[id]);
    assert forall i | 0 <= i < |r.base| :: r.base[i].id <= n;
    hide Has, Ascending;
  }

  lemma InsertCompletes(w: World, r: Reader, step: Step, lag: nat)
    requires LogOk(w) && Complete(r, w, lag) && step.InsertRow? && step.tsReceived >= w.now - lag
    ensures Complete(r, Next(w, step), lag)
  {
    var w' := Next(w, step);
    assert w'.all[r.baseCount..r.upTo] == w.all[r.baseCount..r.upTo];
  }

  /** The purge spares every row the reader has not fetched. */
  lemma PurgeCompletes(w: World, r: Reader, cutoff: int, ttl: nat, lag: nat, gap: nat)
    requires LogOk(w) && Complete(r, w, lag) && gap + lag <= ttl
    requires cutoff <= w.now - ttl && w.now - r.lastFetch <= gap
    ensures Complete(r, Next(w, PurgeOlder(cutoff)), lag)
  {
  }

  ghost predicate AllComplete(w: World, lag: nat) {
    forall r | r in w.readers :: Complete(w.readers[r], w, lag)
  }

  lemma CompleteStep(w: World, step: Step, ttl: nat, lag: nat, gap: nat)
    requires WorldOk(w) && AllComplete(w, lag) && Enabled(w, step, ttl) && Timely(w, step, lag, gap)
    requires gap + lag <= ttl
    ensures AllComplete(Next(w, step), lag)
  {
    var w' := Next(w, step);
    hide Complete, ReaderOk, LogOk, After, Purge, Insert;
    forall r | r in w'.readers ensures Complete(w'.readers[r], w', lag) {
      match step
      case Tick(dt) => SameTable(w.readers[r], w, w', lag);
      case InsertRow(_, _, _) => InsertCompletes(w, w.readers[r], step, lag);
      case PurgeOlder(cutoff) => PurgeCompletes(w, w.readers[r], cutoff, ttl, lag, gap);
      case FirstFetch(q) =>
        if q == r { FirstFetchCompletes(w, lag); }
        SameTable(w'.readers[r], w, w', lag);
      case Fetch(q) =>
        if q == r { FetchCompletes(w, w.readers[r], lag); }
        SameTable(w'.readers[r], w, w', lag);
      case FailedFetch(q) =>
      case Deliver(q) =>
        if q == r { DeliverCompletes(w, w.readers[r], lag); }
        SameTable(w'.readers[r], w, w', lag);
    }
  }

  lemma SameTable(r: Reader, w: World, w': World, lag: nat)
    requires Complete(r, w, lag) && w'.all == w.all && w'.bus == w.bus && w'.now >= w.now
    ensures Complete(r, w', lag)
  {
  }

  lemma DeliverCompletes(w: World, r: Reader, lag: nat)
    requires Complete(r, w, lag) && r.pending != []
    ensures Complete(r.(pending := r.pending[1..], delivered := r.delivered + [r.pending[0]],
                        lastId := r.pending[0].id), w, lag)
  {
    assert r.delivered + [r.pending[0]] + r.pending[1..] == r.delivered + r.pending;
  }

  lemma {:induction false} AllStayComplete(steps: seq<Step>, ttl: nat, lag: nat, gap: nat)
    requires ValidRun(steps, ttl) && TimelyRun(steps, lag, gap) && gap + lag <= ttl
    ensures WorldOk(Exec(steps)) && AllComplete(Exec(steps), lag)
  {
    hide Next, Enabled, Timely, AllComplete, WorldOk;
    WorldStaysOk(steps, ttl);
    if steps == [] {
      assert AllComplete(EMPTY, lag) by { NoReaders(lag); }
    } else {
      var n := |steps| - 1;
      assert forall k | 0 <= k < n :: steps[..n][..k] == steps[..k];
      AllStayComplete(steps[..n], ttl, lag, gap);
      CompleteStep(Exec(steps[..n]), steps[n], ttl, lag, gap);
    }
  }

  lemma NoReaders(lag: nat)
    ensures AllComplete(EMPTY, lag)
  {
  }

  /**
   * Exactly once: when the fetch gap plus the insert lag stays within the TTL, what a reader has delivered or holds is
   * exactly the rows of its first fetch followed by every row inserted up to its latest one; the rest is still there.
   */
  lemma {:induction false} ExactlyOnce(steps: seq<Step>, ttl: nat, lag: nat, gap: nat, r: string)
    requires ValidRun(steps, ttl) && TimelyRun(steps, lag, gap) && gap + lag <= ttl && r in Exec(steps).readers
    ensures var w := Exec(steps);
            var reader := w.readers[r];
            && reader.baseCount <= reader.upTo <= |w.all|
            && reader.delivered + reader.pending == reader.base + w.all[reader.baseCount..reader.upTo]
            && forall id | reader.upTo < id <= |w.all| :: id in w.bus.rows
  {
    AllStayComplete(steps, ttl, lag, gap);
    hide Exec, ValidRun, TimelyRun, WorldOk;
    assert Complete(Exec(steps).readers[r], Exec(steps), lag);
  }

  /** The bound is exact: as soon as gap + lag exceeds the TTL, a timely run loses a row. */
  lemma MissedBeyondTheTtl(ttl: nat, lag: nat, gap: nat) returns (steps: seq<Step>)
    requires gap + lag > ttl
    ensures ValidRun(steps, ttl) && TimelyRun(steps, lag, gap)
    ensures var w := Exec(steps);
            && "A" in w.readers && |w.all| == 1 && 1 !in w.bus.rows
            && w.readers["A"].delivered == [] && w.readers["A"].pending == []
  {
    var s0, s1, s2, s3 := FirstFetch("A"), InsertRow(0 - lag, "t", "h"), Tick(gap), PurgeOlder(gap - ttl);
    var w1, w2, w3 := Next(EMPTY, s0), Next(Next(EMPTY, s0), s1), Next(Next(Next(EMPTY, s0), s1), s2);
    steps := [s0, s1, s2, s3];
    assert steps[..0] == [] && steps[..1] == [s0] && steps[..2] == [s0, s1] && steps[..3] == [s0, s1, s2];
    assert [s0][..0] == [] && [s0, s1][..1] == [s0] && [s0, s1, s2][..2] == [s0, s1];
    assert Exec([s0]) == w1;
    assert Exec([s0, s1]) == w2;
    assert Exec([s0, s1, s2]) == w3;
    assert Exec(steps) == Next(w3, s3);
    assert After(EMPTY.bus, 0) == [];
    hide Exec;
    assert forall k | 0 <= k < 4 :: Enabled(Exec(steps[..k]), steps[k], ttl);
    assert forall k | 0 <= k < 4 :: Timely(Exec(steps[..k]), steps[k], lag, gap);
  }

  // ---- REST backfill with dedup ----

  /** An article of the REST response; `createdAt` may be absent. */
  datatype Article = Article(headline: string, createdAt: Option<string>)

  predicate HasKey(b: Bus, headline: string, tsPublished: string) {
    exists id | id in b.rows :: b.rows[id].headline == headline && b.rows[id].tsPublished == tsPublished
  }

  function Published(a: Article, nowIso: string): string {
    if a.createdAt.Some? then a.createdAt.value else nowIso
  }

  predicate Fetched(b: Bus, a: Article, nowIso: string) {
    a.headline == "" || HasKey(b, a.headline, Published(a, nowIso))
  }

  function BackfillOne(b: Bus, a: Article, nowIso: string, recv: int): Bus {
    if Fetched(b, a, nowIso) then b else Insert(b, recv, Published(a, nowIso), a.headline)
  }

  function Backfilled(b: Bus, arts: seq<Article>, nowIso: string, recv: int): Bus {
    if arts == [] then b
    else BackfillOne(Backfilled(b, arts[..|arts| - 1], nowIso, recv), arts[|arts| - 1], nowIso, recv)
  }

  /** Inserts what is missing, article by article; the count is the number of ids handed out. */
  method BackfillNews(table: BusTable, arts: seq<Article>, nowIso: string, recv: int) returns (n: nat)
    requires table.Valid()
    modifies table
    ensures table.Valid() && table.Contents() == Backfilled(old(table.Contents()), arts, nowIso, recv)
    ensures n == table.nextId - old(table.nextId)
  {
    n := 0;
    for i := 0 to |arts|
      invariant table.Valid() && table.Contents() == Backfilled(old(table.Contents()), arts[..i], nowIso, recv)
      invariant n == table.nextId - old(table.nextId)
    {
      assert arts[..i + 1][..i] == arts[..i];
      var a := arts[i];
      if a.headline == "" {
        continue;
      }
      var pub := Published(a, nowIso);
      if HasKey(table.Contents(), a.headline, pub) {
        continue;
      }
      var _ := table.InsertEvent(recv, pub, a.headline);
      n := n + 1;
    }
    assert arts[..|arts|] == arts;
  }

  /** No two rows share (headline, ts_published), and ids in use are below the counter. */
  predicate NoDuplicates(b: Bus) {
    && IdsBelow(b)
    && forall i, j | i in b.rows && j in b.rows && i != j ::
         b.rows[i].headline != b.rows[j].headline || b.rows[i].tsPublished != b.rows[j].tsPublished
  }

  lemma {:induction false} BackfillKeepsUnique(b: Bus, arts: seq<Article>, nowIso: string, recv: int)
    requires NoDuplicates(b)
    ensures NoDuplicates(Backfilled(b, arts, nowIso, recv))
  {
    if arts != [] { BackfillKeepsUnique(b, arts[..|arts| - 1], nowIso, recv); }
  }

  lemma {:induction false} BackfillGrows(b: Bus, arts: seq<Article>, nowIso: string, recv: int)
    requires IdsBelow(b)
    ensures var b' := Backfilled(b, arts, nowIso, recv);
            && IdsBelow(b')
            && b.nextId <= b'.nextId
            && (b'.nextId == b.nextId ==> b' == b)
            && (forall id | id in b.rows :: id in b'.rows && b'.rows[id] == b.rows[id])
  {
    if arts != [] { BackfillGrows(b, arts[..|arts| - 1], nowIso, recv); }
  }

  /** The row carries the article's headline and its creation time, or the clock's time when it has none. */
  predicate RowOf(row: Row, a: Article, nowIso: string) {
    && row.headline == a.headline
    && (if a.createdAt.Some? then Some(row.tsPublished) == a.createdAt else row.tsPublished == nowIso)
  }

  ghost predicate HasRow(b: Bus, a: Article, nowIso: string) {
    exists id :: id in b.rows && RowOf(b.rows[id], a, nowIso)
  }

  /** After a backfill every article with a headline has its row. */
  lemma {:induction false} BackfillCovers(b: Bus, arts: seq<Article>, nowIso: string, recv: int)
    requires IdsBelow(b)
    ensures forall a | a in arts && a.headline != "" :: HasRow(Backfilled(b, arts, nowIso, recv), a, nowIso)
  {
    if arts != [] {
      var init, last := arts[..|arts| - 1], arts[|arts| - 1];
      BackfillCovers(b, init, nowIso, recv);
      BackfillGrows(b, init, nowIso, recv);
      var b1, b2 := Backfilled(b, init, nowIso, recv), Backfilled(b, arts, nowIso, recv);
      BackfillOneRow(b1, last, nowIso, recv);
      assert b2 == BackfillOne(b1, last, nowIso, recv);
      hide BackfillOne, Backfilled, RowOf;
      forall a | a in arts && a.headline != "" ensures HasRow(b2, a, nowIso) {
        if a in init {
          var id :| id in b1.rows && RowOf(b1.rows[id], a, nowIso);
          assert id in b2.rows;
        } else {
          assert a == last;
        }
      }
    }
  }

  /** One article: it has its row afterwards, and a row is added only for a pair of fields that no row has yet. */
  lemma BackfillOneRow(b: Bus, a: Article, nowIso: string, recv: int)
    requires IdsBelow(b)
    ensures var b' := BackfillOne(b, a, nowIso, recv);
            && (forall id | id in b.rows :: id in b'.rows && b'.rows[id] == b.rows[id])
            && (a.headline != "" ==> HasRow(b', a, nowIso))
            && (b' != b ==>
                  && a.headline != "" && (forall id | id in b.rows :: !RowOf(b.rows[id], a, nowIso))
                  && b'.rows.Keys == b.rows.Keys + {b.nextId} && b'.nextId == b.nextId + 1
                  && RowOf(b'.rows[b.nextId], a, nowIso)
                  && b'.rows[b.nextId].tsReceived == recv && b'.rows[b.nextId].id == b.nextId)
  {
    var b' := BackfillOne(b, a, nowIso, recv);
    if b' != b {
      assert b.nextId in b'.rows;
    } else if a.headline != "" {
      assert HasKey(b, a.headline, Published(a, nowIso));
      var id :| id in b.rows && b.rows[id].headline == a.headline && b.rows[id].tsPublished == Published(a, nowIso);
      assert RowOf(b'.rows[id], a, nowIso);
    }
  }

  /** A row that a backfill may add: that of an article with a headline, and unlike every older row. */
  ghost predicate Missing(rows: map<nat, Row>, id: nat, arts: seq<Article>, nowIso: string, recv: int)
    requires id in rows
  {
    && rows[id].id == id && rows[id].tsReceived == recv
    && (exists a :: a in arts && a.headline != "" && RowOf(rows[id], a, nowIso))
    && (forall x | x in rows && x < id ::
          rows[x].headline != rows[id].headline || rows[x].tsPublished != rows[id].tsPublished)
  }

  /**
   * And nothing else is added: every row of before stays, every new one is that of an article with a headline, as
   * received at `recv`, and no older row has the same headline and publishing time.
   */
  lemma {:induction false} BackfillAddsOnlyMissing(b: Bus, arts: seq<Article>, nowIso: string, recv: int)
    requires IdsBelow(b)
    ensures var rows := Backfilled(b, arts, nowIso, recv).rows;
            && (forall id | id in b.rows :: id in rows && rows[id] == b.rows[id])
            && (forall id | id in rows && id !in b.rows :: id >= b.nextId && Missing(rows, id, arts, nowIso, recv))
  {
    if arts != [] {
      var init, last := arts[..|arts| - 1], arts[|arts| - 1];
      BackfillAddsOnlyMissing(b, init, nowIso, recv);
      BackfillGrows(b, init, nowIso, recv);
      var b1 := Backfilled(b, init, nowIso, recv);
      var b2 := BackfillOne(b1, last, nowIso, recv);
      BackfillOneRow(b1, last, nowIso, recv);
      assert arts == init + [last];
      hide BackfillOne, Missing;
      forall id | id in b2.rows && id !in b.rows
        ensures id >= b.nextId && Missing(b2.rows, id, arts, nowIso, recv)
      {
        if id in b1.rows {
          StillMissing(b1.rows, b2.rows, id, init, last, nowIso, recv, b1.nextId);
        } else {
          NewlyMissing(b1.rows, b2.rows, id, init, last, nowIso, recv);
        }
      }
    }
  }

  lemma StillMissing(rows: map<nat, Row>, more: map<nat, Row>, id: nat, arts: seq<Article>, a: Article,
                     nowIso: string, recv: int, next: nat)
    requires id in rows && Missing(rows, id, arts, nowIso, recv) && id < next
    requires forall x | x in rows :: x in more && more[x] == rows[x]
    requires forall x | x in more && x !in rows :: x == next
    ensures Missing(more, id, arts + [a], nowIso, recv)
  {
    hide RowOf;
  }

  lemma NewlyMissing(rows: map<nat, Row>, more: map<nat, Row>, id: nat, arts: seq<Article>, a: Article,
                     nowIso: string, recv: int)
    requires id in more && more[id].id == id && more[id].tsReceived == recv
    requires a.headline != "" && RowOf(more[id], a, nowIso)
    requires forall x | x in rows :: x in more && more[x] == rows[x] && !RowOf(rows[x], a, nowIso)
    requires forall x | x in more && x !in rows :: x == id
    ensures Missing(more, id, arts + [a], nowIso, recv)
  {
    assert a in arts + [a];
  }

  lemma {:induction false} NothingNew(b: Bus, arts: seq<Article>, nowIso: string, recv: int)
    requires forall a | a in arts :: Fetched(b, a, nowIso)
    ensures Backfilled(b, arts, nowIso, recv) == b
  {
    if arts != [] {
      assert arts[|arts| - 1] in arts;
      NothingNew(b, arts[..|arts| - 1], nowIso, recv);
      hide Fetched;
    }
  }

  lemma {:induction false} SomethingNew(b: Bus, arts: seq<Article>, nowIso: string, recv: int, k: nat)
    requires IdsBelow(b)
    requires k < |arts| && !Fetched(b, arts[k], nowIso)
    ensures Backfilled(b, arts, nowIso, recv).nextId > b.nextId
  {
    var n := |arts| - 1;
    BackfillGrows(b, arts[..n], nowIso, recv);
    if k < n { SomethingNew(b, arts[..n], nowIso, recv, k); }
    hide Fetched;
  }

  /**
   * Replaying a response inserts nothing exactly when every article with a headline carries its creation time; the
   * replay reads a clock value that no row carries yet.
   */
  lemma ReplayInsertsNothing(b: Bus, arts: seq<Article>, now1: string, recv1: int, now2: string, recv2: int)
    requires IdsBelow(b)
    requires var b1 := Backfilled(b, arts, now1, recv1); forall id | id in b1.rows :: b1.rows[id].tsPublished != now2
    ensures var b1 := Backfilled(b, arts, now1, recv1);
            Backfilled(b1, arts, now2, recv2) == b1 <==> forall a | a in arts && a.headline != "" :: a.createdAt.Some?
  {
    var b1 := Backfilled(b, arts, now1, recv1);
    BackfillCovers(b, arts, now1, recv1);
    BackfillGrows(b, arts, now1, recv1);
    hide Backfilled, HasKey;
    if forall a | a in arts && a.headline != "" :: a.createdAt.Some? {
      forall a | a in arts ensures Fetched(b1, a, now2) { DatedIsFetched(b1, a, now1, now2); }
      NothingNew(b1, arts, now2, recv2);
    } else {
      var a :| a in arts && a.headline != "" && a.createdAt.None?;
      var k :| 0 <= k < |arts| && arts[k] == a;
      KeyAbsent(b1, a.headline, now2);
      SomethingNew(b1, arts, now2, recv2, k);
    }
  }

  /** Concretely: an article without a creation time is inserted again by the replay. */
  lemma UndatedArticleReplays(now1: string, now2: string)
    requires now1 != now2
    ensures var arts := [Article("h", None)];
            var once := Backfilled(Bus(map[], 1), arts, now1, 0);
            Backfilled(once, arts, now2, 1).rows == map[1 := Row(1, 0, now1, "h"), 2 := Row(2, 1, now2, "h")]
  {
    var a := Article("h", None);
    var b0 := Bus(map[], 1);
    var b1 := Bus(map[1 := Row(1, 0, now1, "h")], 2);
    assert [a][..0] == [];
    assert !HasKey(b0, "h", now1);
    assert BackfillOne(b0, a, now1, 0) == b1;
    assert Backfilled(b0, [a], now1, 0) == b1;
    assert !HasKey(b1, "h", now2);
    hide HasKey;
    assert BackfillOne(b1, a, now2, 1).rows == b1.rows[2 := Row(2, 1, now2, "h")];
  }

  lemma DatedIsFetched(b: Bus, a: Article, now1: string, now2: string)
    requires a.headline != "" ==> a.createdAt.Some?
    requires a.headline != "" ==> HasRow(b, a, now1)
    ensures Fetched(b, a, now2)
  {
    if a.headline != "" {
      var id :| id in b.rows && RowOf(b.rows[id], a, now1);
      assert b.rows[id].headline == a.headline && b.rows[id].tsPublished == Published(a, now2);
    }
  }

  lemma KeyAbsent(b: Bus, headline: string, pub: string)
    requires forall id | id in b.rows :: b.rows[id].tsPublished != pub
    ensures !HasKey(b, headline, pub)
  {
  }
}
