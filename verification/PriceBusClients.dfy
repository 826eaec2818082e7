/** The arm side of the shared price bus (src/agentic_investor/experiments/price_bus.py, `PriceBusClient`). */
module PriceBusClients {
  import opened Basics
  import opened Text

  /** Primary key of `price_subscriptions`. */
  datatype Sub = Sub(arm: string, ticker: string)

  /** The table: key to `updated_at`, in seconds. */
  type Rows = map<Sub, real>

  const REFRESH_SEC := 30.0

  /** The table as one client sees it, with that client's two debounce dictionaries (monotonic seconds). */
  datatype St = St(rows: Rows, lastReg: map<string, real>, lastUnreg: map<string, real>)

  /** The tickers of `arm` with a row. */
  function Mine(rows: Rows, arm: string): set<string> {
    set s | s in rows && s.arm == arm :: s.ticker
  }

  /** Tickers whose last write of this kind is more than the refresh interval ago; a missing entry reads as zero. */
  function Due(last: map<string, real>, tickers: set<string>, now: real): set<string> {
    set t | t in UpperAll(tickers) && now - Get(last, t, 0.0) > REFRESH_SEC
  }

  function Upsert(rows: Rows, arm: string, ts: set<string>, iso: real): Rows {
    rows + map t | t in ts :: Sub(arm, t) := iso
  }

  function Delete(rows: Rows, arm: string, ts: set<string>): Rows {
    map s | s in rows && !(s.arm == arm && s.ticker in ts) :: rows[s]
  }

  function Stamp(last: map<string, real>, ts: set<string>, now: real): map<string, real> {
    last + map t | t in ts :: now
  }

  function Registered(st: St, arm: string, tickers: set<string>, now: real, iso: real): St {
    var due := Due(st.lastReg, tickers, now);
    St(Upsert(st.rows, arm, due, iso), Stamp(st.lastReg, due, now), st.lastUnreg - due)
  }

  function DropNow(st: St, arm: string, ts: set<string>, now: real): St {
    St(Delete(st.rows, arm, ts), st.lastReg - ts, Stamp(st.lastUnreg, ts, now))
  }

  function Unregistered(st: St, arm: string, tickers: set<string>, now: real): St {
    DropNow(st, arm, Due(st.lastUnreg, tickers, now), now)
  }

  /** The clock readings of one `set_subscriptions` call: each of its transactions reads the clocks again. */
  datatype Clocks = Clocks(add: real, addIso: real, drop: real, keep: real, keepIso: real)

  /** The states that `set_subscriptions` passes through: after the add, the drop and the keep transaction. */
  function SetPhases(st: St, arm: string, tickers: set<string>, c: Clocks): (St, St, St) {
    var desired, current := UpperAll(tickers), Mine(st.rows, arm);
    var s1 := Registered(st, arm, desired - current, c.add, c.addIso);
    var s2 := DropNow(s1, arm, current - desired, c.drop);
    (s1, s2, Registered(s2, arm, desired * current, c.keep, c.keepIso))
  }

  // ---- the client object ----

  class SubscriptionTable {
    var rows: Rows
    /** Every state other connections could have seen, oldest first. */
    ghost var committed: seq<Rows>

    constructor ()
      ensures rows == map[] && committed == []
    {
      rows := map[];
      committed := [];
    }

    method Commit(rows: Rows)
      modifies this
      ensures this.rows == rows && committed == old(committed) + [rows]
    {
      this.rows := rows;
      committed := committed + [rows];
    }
  }

  class PriceBusClient {
    const arm: string
    const table: SubscriptionTable
    var lastReg: map<string, real>
    var lastUnreg: map<string, real>

    constructor (table: SubscriptionTable, arm: string)
      ensures this.table == table && this.arm == arm && lastReg == map[] && lastUnreg == map[]
    {
      this.table := table;
      this.arm := arm;
      lastReg, lastUnreg := map[], map[];
    }

    ghost function State(): St
      reads this, table
    {
      St(table.rows, lastReg, lastUnreg)
    }

    method DueNow(last: map<string, real>, tickers: set<string>, now: real) returns (due: set<string>)
      ensures due == Due(last, tickers, now)
    {
      due := set t | t in UpperAll(tickers) && now - Get(last, t, 0.0) > REFRESH_SEC;
    }

    /** Upsert the due tickers in one transaction; nothing is opened when none is due. */
    method Register(tickers: set<string>, now: real, iso: real)
      modifies this, table
      ensures State() == Registered(old(State()), arm, tickers, now, iso)
      ensures table.committed == old(table.committed) + Tx(Due(old(lastReg), tickers, now), table.rows)
    {
      var due := DueNow(lastReg, tickers, now);
      NothingWritten(State(), arm, now, iso);
      hide Upsert, Stamp, Due;
      if due == {} {
        return;
      }
      var rows, todo := table.rows, due;
      ghost var done: set<string> := {};
      while todo != {}
        invariant done + todo == due && done !! todo
        invariant rows == Upsert(table.rows, arm, done, iso) && table.rows == old(table.rows)
        invariant table.committed == old(table.committed)
        invariant lastReg == Stamp(old(lastReg), done, now) && lastUnreg == old(lastUnreg) - done
        decreases todo
      {
        var t :| t in todo;
        UpsertOne(old(State()), arm, done, t, now, iso);
        todo, done := todo - {t}, done + {t};
        rows := rows[Sub(arm, t) := iso];
        lastReg := lastReg[t := now];
        lastUnreg := lastUnreg - {t};
      }
      assert done == due;
      table.Commit(rows);
    }

    method Drop(due: set<string>, now: real)
      modifies this, table
      ensures State() == DropNow(old(State()), arm, due, now)
      ensures table.committed == old(table.committed) + Tx(due, table.rows)
    {
      NothingWritten(State(), arm, now, 0.0);
      hide Delete, Stamp;
      if due == {} {
        return;
      }
      var rows, todo := table.rows, due;
      ghost var done: set<string> := {};
      while todo != {}
        invariant done + todo == due && done !! todo
        invariant rows == Delete(table.rows, arm, done) && table.rows == old(table.rows)
        invariant table.committed == old(table.committed)
        invariant lastUnreg == Stamp(old(lastUnreg), done, now) && lastReg == old(lastReg) - done
        decreases todo
      {
        var t :| t in todo;
        DeleteOne(old(State()), arm, done, t, now);
        todo, done := todo - {t}, done + {t};
        rows := rows - {Sub(arm, t)};
        lastUnreg := lastUnreg[t := now];
        lastReg := lastReg - {t};
      }
      assert done == due;
      table.Commit(rows);
    }

    method Unregister(tickers: set<string>, now: real)
      modifies this, table
      ensures State() == Unregistered(old(State()), arm, tickers, now)
      ensures table.committed == old(table.committed) + Tx(Due(old(lastUnreg), tickers, now), table.rows)
    {
      var due := DueNow(lastUnreg, tickers, now);
      hide Due, DropNow;
      Drop(due, now);
    }

    /** Replace this arm's set: up to three transactions, in the order add, drop, keep. */
    method SetSubscriptions(tickers: set<string>, c: Clocks)
      modifies this, table
      ensures State() == SetPhases(old(State()), arm, tickers, c).2
      ensures var (s1, s2, s3) := SetPhases(old(State()), arm, tickers, c);
              var desired, current := UpperAll(tickers), Mine(old(table.rows), arm);
              table.committed == old(table.committed)
                                 + Tx(Due(old(lastReg), desired - current, c.add), s1.rows)
                                 + Tx(current - desired, s2.rows)
                                 + Tx(Due(s2.lastReg, desired * current, c.keep), s3.rows)
    {
      var desired, current := UpperAll(tickers), Mine(table.rows, arm);
      hide Due, DropNow, Registered, UpperAll, Mine, Tx;
      Register(desired - current, c.add, c.addIso);
      ghost var s1 := State();
      Drop(current - desired, c.drop);
      ghost var s2 := State();
      Register(desired * current, c.keep, c.keepIso);
    }
  }

  /** What one transaction adds to the visible history: nothing when it has nothing to write. */
  function Tx(due: set<string>, rows: Rows): seq<Rows> {
    if due == {} then [] else [rows]
  }

  lemma NothingWritten(st: St, arm: string, now: real, iso: real)
    ensures Upsert(st.rows, arm, {}, iso) == st.rows && Delete(st.rows, arm, {}) == st.rows
    ensures Stamp(st.lastReg, {}, now) == st.lastReg && Stamp(st.lastUnreg, {}, now) == st.lastUnreg
    ensures st.lastReg - {} == st.lastReg && st.lastUnreg - {} == st.lastUnreg
  {
  }

  lemma UpsertOne(st: St, arm: string, done: set<string>, t: string, now: real, iso: real)
    ensures Upsert(st.rows, arm, done + {t}, iso) == Upsert(st.rows, arm, done, iso)[Sub(arm, t) := iso]
    ensures Stamp(st.lastReg, done + {t}, now) == Stamp(st.lastReg, done, now)[t := now]
    ensures st.lastUnreg - (done + {t}) == st.lastUnreg - done - {t}
  {
    var more, one := Upsert(st.rows, arm, done + {t}, iso), Upsert(st.rows, arm, done, iso)[Sub(arm, t) := iso];
    hide Stamp;
    assert more.Keys == one.Keys;
    StampOne(st.lastReg, done, t, now);
  }

  lemma StampOne(last: map<string, real>, done: set<string>, t: string, now: real)
    ensures Stamp(last, done + {t}, now) == Stamp(last, done, now)[t := now]
  {
  }

  lemma DeleteOne(st: St, arm: string, done: set<string>, t: string, now: real)
    ensures Delete(st.rows, arm, done + {t}) == Delete(st.rows, arm, done) - {Sub(arm, t)}
    ensures Stamp(st.lastUnreg, done + {t}, now) == Stamp(st.lastUnreg, done, now)[t := now]
    ensures st.lastReg - (done + {t}) == st.lastReg - done - {t}
  {
  }

  // ---- debouncing loses nothing ----

  /** One client per arm keeps this: a debounce entry is in step with the table, and its tickers are upper-case. */
  ghost predicate InStep(st: St, arm: string) {
    && (forall t | t in st.lastReg :: Sub(arm, t) in st.rows)
    && (forall t | t in st.lastUnreg :: Sub(arm, t) !in st.rows)
    && (forall s | s in st.rows && s.arm == arm :: Upper(s.ticker) == s.ticker)
  }

  lemma DueIsUpper(last: map<string, real>, tickers: set<string>, now: real)
    ensures forall t | t in Due(last, tickers, now) :: Upper(t) == t
  {
    forall t | t in Due(last, tickers, now) ensures Upper(t) == t {
      var u :| u in tickers && t == Upper(u);
      UpperIdempotent(u);
    }
  }

  /** What the debounce can hold back: a ticker that is not due has its row already, unless the clock is too young. */
  lemma DueMeaning(st: St, arm: string, tickers: set<string>, now: real)
    requires InStep(st, arm)
    ensures var due, mine := Due(st.lastReg, tickers, now), Mine(st.rows, arm);
            && due <= UpperAll(tickers)
            && (now > REFRESH_SEC ==> UpperAll(tickers) <= mine + due)
            && (now <= REFRESH_SEC ==> due <= mine)
    ensures var due, mine := Due(st.lastUnreg, tickers, now), Mine(st.rows, arm);
            && due <= UpperAll(tickers)
            && (now > REFRESH_SEC ==> UpperAll(tickers) * mine <= due)
            && (now <= REFRESH_SEC ==> due !! mine)
  {
    MineRows(st.rows, arm);
    hide UpperAll, Upper, Mine;
  }

  /** The debounce itself: of two calls for a ticker, the second writes exactly when it comes more than 30 s later. */
  lemma SecondRegister(st: St, arm: string, first: set<string>, second: set<string>, t: string, a: real, aIso: real,
                       b: real, bIso: real)
    requires t in UpperAll(first) && t in UpperAll(second) && t !in st.lastReg && a > 30.0
    ensures var once := Registered(st, arm, first, a, aIso);
            var twice := Registered(once, arm, second, b, bIso);
            && Sub(arm, t) in once.rows && once.rows[Sub(arm, t)] == aIso
            && Sub(arm, t) in twice.rows && twice.rows[Sub(arm, t)] == (if b - a > 30.0 then bIso else aIso)
  {
    var once := Registered(st, arm, first, a, aIso);
    assert t in Due(st.lastReg, first, a);
    assert once.lastReg[t] == a;
    assert t in Due(once.lastReg, second, b) <==> b - a > 30.0;
    hide UpperAll, Due;
  }

  lemma SecondUnregister(st: St, arm: string, first: set<string>, second: set<string>, t: string, a: real, b: real)
    requires t in UpperAll(first) && t in UpperAll(second) && t !in st.lastUnreg && a > 30.0
    ensures var once := Unregistered(st, arm, first, a);
            var twice := Unregistered(once, arm, second, b);
            && Sub(arm, t) !in once.rows && Sub(arm, t) !in twice.rows
            && t in twice.lastUnreg && twice.lastUnreg[t] == (if b - a > 30.0 then b else a)
  {
    var once := Unregistered(st, arm, first, a);
    assert t in Due(st.lastUnreg, first, a);
    assert once.lastUnreg[t] == a;
    assert t in Due(once.lastUnreg, second, b) <==> b - a > 30.0;
    hide UpperAll, Due;
  }

  lemma RegisterRows(st: St, arm: string, tickers: set<string>, now: real, iso: real)
    requires InStep(st, arm)
    ensures var st' := Registered(st, arm, tickers, now, iso);
            && InStep(st', arm)
            && Mine(st'.rows, arm) == Mine(st.rows, arm) + Due(st.lastReg, tickers, now)
            && OthersKept(st.rows, st'.rows, arm)
  {
    var st', due := Registered(st, arm, tickers, now, iso), Due(st.lastReg, tickers, now);
    DueIsUpper(st.lastReg, tickers, now);
    UpsertRows(st.rows, arm, due, iso);
    hide Due, Upper, Upsert, Mine;
  }

  lemma UpsertRows(rows: Rows, arm: string, ts: set<string>, iso: real)
    ensures var rows' := Upsert(rows, arm, ts, iso);
            && (forall s :: s in rows' <==> s in rows || (s.arm == arm && s.ticker in ts))
            && Mine(rows', arm) == Mine(rows, arm) + ts
            && OthersKept(rows, rows', arm)
  {
    MineRows(rows, arm);
    MineRows(Upsert(rows, arm, ts, iso), arm);
    hide Mine;
    assert forall t | t in ts :: Sub(arm, t) in Upsert(rows, arm, ts, iso);
  }

  /** Registering adds the rows of an undebounced upsert exactly when the clock is past 30 s or they are there. */
  lemma RegisterEffect(st: St, arm: string, tickers: set<string>, now: real, iso: real)
    requires InStep(st, arm)
    ensures var st' := Registered(st, arm, tickers, now, iso);
            && InStep(st', arm)
            && (Mine(st'.rows, arm) == Mine(st.rows, arm) + UpperAll(tickers)
                <==> now > REFRESH_SEC || UpperAll(tickers) <= Mine(st.rows, arm))
            && Mine(st.rows, arm) <= Mine(st'.rows, arm) <= Mine(st.rows, arm) + UpperAll(tickers)
            && OthersKept(st.rows, st'.rows, arm)
  {
    RegisterRows(st, arm, tickers, now, iso);
    DueMeaning(st, arm, tickers, now);
    hide Registered, InStep, Due, Mine, UpperAll, OthersKept;
  }

  lemma MineRows(rows: Rows, arm: string)
    ensures forall t :: t in Mine(rows, arm) <==> Sub(arm, t) in rows
  {
    forall t | Sub(arm, t) in rows ensures t in Mine(rows, arm) {
      assert Sub(arm, t).arm == arm;
    }
  }

  /** No other arm's row is touched. */
  ghost predicate OthersKept(before: Rows, after: Rows, arm: string) {
    forall s: Sub | s.arm != arm :: (s in before <==> s in after) && (s in before ==> before[s] == after[s])
  }

  lemma DropEffect(st: St, arm: string, ts: set<string>, now: real)
    requires InStep(st, arm)
    ensures var st' := DropNow(st, arm, ts, now);
            && InStep(st', arm)
            && Mine(st'.rows, arm) == Mine(st.rows, arm) - ts
            && OthersKept(st.rows, st'.rows, arm)
  {
    MineRows(st.rows, arm);
    MineRows(DropNow(st, arm, ts, now).rows, arm);
    hide Mine, Upper;
  }

  /** Unregistering removes the rows of an undebounced delete exactly when the clock is past 30 s or none is there. */
  lemma UnregisterEffect(st: St, arm: string, tickers: set<string>, now: real)
    requires InStep(st, arm)
    ensures var st' := Unregistered(st, arm, tickers, now);
            && InStep(st', arm)
            && (Mine(st'.rows, arm) == Mine(st.rows, arm) - UpperAll(tickers)
                <==> now > REFRESH_SEC || UpperAll(tickers) !! Mine(st.rows, arm))
            && OthersKept(st.rows, st'.rows, arm)
  {
    DropEffect(st, arm, Due(st.lastUnreg, tickers, now), now);
    DueMeaning(st, arm, tickers, now);
    hide DropNow, InStep, Due, Mine, UpperAll, OthersKept;
  }

  lemma UpperOfUpper(ts: set<string>)
    requires forall t | t in ts :: Upper(t) == t
    ensures UpperAll(ts) == ts
  {
    assert forall t | t in ts :: t == Upper(t);
  }

  lemma UpperAllIsUpper(tickers: set<string>)
    ensures forall t | t in UpperAll(tickers) :: Upper(t) == t
  {
    forall t | t in UpperAll(tickers) ensures Upper(t) == t {
      var u :| u in tickers && t == Upper(u);
      UpperIdempotent(u);
    }
  }

  /** A state between the two sets: every kept ticker has its row, and no other arm is touched. */
  ghost predicate Between(before: Rows, rows: Rows, arm: string, desired: set<string>) {
    && desired * Mine(before, arm) <= Mine(rows, arm) <= desired + Mine(before, arm)
    && OthersKept(before, rows, arm)
  }

  /** Replacing set `c` by `d` through `m1` (after adding) and `m2` (after dropping). */
  lemma ReplaceAlgebra<T>(d: set<T>, c: set<T>, m1: set<T>, m2: set<T>)
    requires c <= m1 <= c + d && m2 == m1 - (c - d)
    ensures d * c <= m1 <= d + c && d * c <= m2 <= d
    ensures m2 == d <==> m1 == c + d
  {
    if m2 == d {
      assert m1 == c + d;
    }
    if m1 == c + d {
      assert m2 == d;
    }
  }

  lemma AtomicAlgebra<T>(d: set<T>, c: set<T>)
    ensures c + d == c || c + d == d <==> d <= c || c <= d
  {
    if d <= c { assert c + d == c; }
    if c <= d { assert c + d == d; }
  }

  /** The three phases in terms of row membership alone. */
  lemma PhaseRows(st: St, arm: string, tickers: set<string>, c: Clocks)
    requires InStep(st, arm)
    ensures var (s1, s2, s3) := SetPhases(st, arm, tickers, c);
            var desired, current := UpperAll(tickers), Mine(st.rows, arm);
            && current <= Mine(s1.rows, arm) <= current + desired
            && (Mine(s1.rows, arm) == current + desired <==> c.add > REFRESH_SEC || desired <= current)
            && Mine(s2.rows, arm) == Mine(s1.rows, arm) - (current - desired)
            && Mine(s3.rows, arm) == Mine(s2.rows, arm)
            && InStep(s3, arm)
    ensures var (s1, s2, s3) := SetPhases(st, arm, tickers, c);
            && OthersKept(st.rows, s1.rows, arm) && OthersKept(s1.rows, s2.rows, arm)
            && OthersKept(s2.rows, s3.rows, arm)
  {
    var desired, current := UpperAll(tickers), Mine(st.rows, arm);
    UpperAllIsUpper(tickers);
    UpperOfUpper(desired - current);
    UpperOfUpper(desired * current);
    hide UpperAll, Upper, Mine, Registered, DropNow, InStep, OthersKept;
    var (s1, s2, s3) := SetPhases(st, arm, tickers, c);
    RegisterEffect(st, arm, desired - current, c.add, c.addIso);
    DropEffect(s1, arm, current - desired, c.drop);
    RegisterEffect(s2, arm, desired * current, c.keep, c.keepIso);
    assert current + (desired - current) == current + desired;
    assert desired - current <= current <==> desired <= current;
    KeptAlgebra(desired, current, Mine(s1.rows, arm), Mine(s2.rows, arm), Mine(s3.rows, arm));
  }

  lemma KeptAlgebra<T>(d: set<T>, c: set<T>, m1: set<T>, m2: set<T>, m3: set<T>)
    requires c <= m1 && m2 == m1 - (c - d) && m2 <= m3 <= m2 + d * c
    ensures m3 == m2
  {
    assert d * c <= m2;
  }

  /**
   * `set_subscriptions(T)` ends with exactly the upper-cased T - exactly when the clock is past 30 s at the add or
   * nothing new is added - and no state on the way lacks a kept ticker or touches another arm.
   */
  lemma SetSubscriptionsEffect(st: St, arm: string, tickers: set<string>, c: Clocks)
    requires InStep(st, arm)
    ensures var (s1, s2, s3) := SetPhases(st, arm, tickers, c);
            var desired, current := UpperAll(tickers), Mine(st.rows, arm);
            && InStep(s3, arm)
            && (Mine(s3.rows, arm) == desired <==> c.add > REFRESH_SEC || desired <= current)
            && Between(st.rows, s1.rows, arm, desired) && Between(st.rows, s2.rows, arm, desired)
            && Between(st.rows, s3.rows, arm, desired)
  {
    var (s1, s2, s3) := SetPhases(st, arm, tickers, c);
    PhaseRows(st, arm, tickers, c);
    ReplaceAlgebra(UpperAll(tickers), Mine(st.rows, arm), Mine(s1.rows, arm), Mine(s2.rows, arm));
    KeptByAll(st.rows, s1.rows, s2.rows, s3.rows, arm);
    hide SetPhases, InStep, Mine, UpperAll, OthersKept;
  }

  /**
   * The time stamps it leaves: an added ticker carries the time of the add, a kept one the time of the keep when its
   * last write is more than 30 s old, and its old time otherwise.
   */
  lemma SetSubscriptionsStamps(st: St, arm: string, tickers: set<string>, c: Clocks, t: string)
    requires InStep(st, arm) && t in UpperAll(tickers)
    ensures var rows := SetPhases(st, arm, tickers, c).2.rows;
            if t !in Mine(st.rows, arm) then
              c.add > 30.0 ==> Sub(arm, t) in rows && rows[Sub(arm, t)] == c.addIso
            else
              && Sub(arm, t) in rows && Sub(arm, t) in st.rows
              && rows[Sub(arm, t)]
                 == if c.keep - Get(st.lastReg, t, 0.0) > 30.0 then c.keepIso else st.rows[Sub(arm, t)]
  {
    var desired, current := UpperAll(tickers), Mine(st.rows, arm);
    UpperAllIsUpper(tickers);
    UpperOfUpper(desired - current);
    UpperOfUpper(desired * current);
    MineRows(st.rows, arm);
    hide UpperAll, Upper, Mine, Registered, DropNow;
    var s1 := Registered(st, arm, desired - current, c.add, c.addIso);
    var s2 := DropNow(s1, arm, current - desired, c.drop);
    var s3 := Registered(s2, arm, desired * current, c.keep, c.keepIso);
    assert SetPhases(st, arm, tickers, c) == (s1, s2, s3);
    hide SetPhases;
    if Sub(arm, t) !in st.rows { NoStamp(st, arm, t); }
    StampsStep(st, arm, desired - current, t, c.add, c.addIso);
    DropSpares(s1, arm, current - desired, t, c.drop);
    StampsStep(s2, arm, desired * current, t, c.keep, c.keepIso);
    hide InStep;
  }

  lemma NoStamp(st: St, arm: string, t: string)
    requires InStep(st, arm) && Sub(arm, t) !in st.rows
    ensures Get(st.lastReg, t, 0.0) == 0.0
  {
    hide Upper;
  }

  lemma DropSpares(st: St, arm: string, ts: set<string>, t: string, now: real)
    requires t !in ts
    ensures var st' := DropNow(st, arm, ts, now);
            && (Sub(arm, t) in st'.rows <==> Sub(arm, t) in st.rows)
            && (Sub(arm, t) in st.rows ==> st'.rows[Sub(arm, t)] == st.rows[Sub(arm, t)])
            && Get(st'.lastReg, t, 0.0) == Get(st.lastReg, t, 0.0)
  {
  }

  /** What one registration does to one row and its stamp. */
  lemma StampsStep(st: St, arm: string, ts: set<string>, t: string, now: real, iso: real)
    requires UpperAll(ts) == ts
    ensures var st' := Registered(st, arm, ts, now, iso);
            if t in ts && now - Get(st.lastReg, t, 0.0) > REFRESH_SEC then
              Sub(arm, t) in st'.rows && st'.rows[Sub(arm, t)] == iso && Get(st'.lastReg, t, 0.0) == now
            else
              && (Sub(arm, t) in st'.rows <==> Sub(arm, t) in st.rows)
              && (Sub(arm, t) in st.rows ==> st'.rows[Sub(arm, t)] == st.rows[Sub(arm, t)])
              && Get(st'.lastReg, t, 0.0) == Get(st.lastReg, t, 0.0)
  {
    assert t in Due(st.lastReg, ts, now) <==> t in ts && now - Get(st.lastReg, t, 0.0) > REFRESH_SEC;
    hide Due, UpperAll;
  }

  lemma KeptByAll(r0: Rows, r1: Rows, r2: Rows, r3: Rows, arm: string)
    requires OthersKept(r0, r1, arm) && OthersKept(r1, r2, arm) && OthersKept(r2, r3, arm)
    ensures OthersKept(r0, r2, arm) && OthersKept(r0, r3, arm)
  {
  }

  /**
   * The replacement is seen as atomic - every state on the way is the old set or the new one, and it ends with the new
   * one - exactly when it only drops, or only adds with the clock past 30 s at the add.
   */
  lemma AtomicOnlyOneWay(st: St, arm: string, tickers: set<string>, c: Clocks)
    requires InStep(st, arm)
    ensures var (s1, s2, s3) := SetPhases(st, arm, tickers, c);
            var desired, current := UpperAll(tickers), Mine(st.rows, arm);
            && Mine(s3.rows, arm) == Mine(s2.rows, arm)
            && ((Mine(s1.rows, arm) == current || Mine(s1.rows, arm) == desired) && Mine(s2.rows, arm) == desired
                <==> desired <= current || (current <= desired && c.add > REFRESH_SEC))
  {
    var (s1, s2, s3) := SetPhases(st, arm, tickers, c);
    PhaseRows(st, arm, tickers, c);
    ReplaceAlgebra(UpperAll(tickers), Mine(st.rows, arm), Mine(s1.rows, arm), Mine(s2.rows, arm));
    AtomicAlgebra(UpperAll(tickers), Mine(st.rows, arm));
    hide SetPhases, InStep, Mine, UpperAll, OthersKept;
  }

  /** One in, one out: between the two transactions other connections see both tickers. */
  lemma SwapShowsBoth(c: Clocks)
    requires c.add > REFRESH_SEC
    ensures var st := St(map[Sub("A", "QQQ") := 0.0], map[], map[]);
            var (s1, s2, s3) := SetPhases(st, "A", {"SPY"}, c);
            Mine(s1.rows, "A") == {"QQQ", "SPY"} && Mine(s2.rows, "A") == {"SPY"}
  {
    hide SetPhases, InStep, Mine, UpperAll, Upper, OthersKept;
    var st := St(map[Sub("A", "QQQ") := 0.0], map[], map[]);
    HoldsQqq(st);
    SwapShows(st, c);
  }

  lemma SwapShows(st: St, c: Clocks)
    requires c.add > REFRESH_SEC && InStep(st, "A") && Mine(st.rows, "A") == {"QQQ"} && UpperAll({"SPY"}) == {"SPY"}
    ensures var (s1, s2, s3) := SetPhases(st, "A", {"SPY"}, c);
            Mine(s1.rows, "A") == {"QQQ", "SPY"} && Mine(s2.rows, "A") == {"SPY"}
  {
    hide SetPhases, InStep, Mine, UpperAll, OthersKept;
    PhaseRows(st, "A", {"SPY"}, c);
    assert {"QQQ"} + {"SPY"} == {"QQQ", "SPY"};
    assert {"QQQ", "SPY"} - ({"QQQ"} - {"SPY"}) == {"SPY"};
  }

  lemma HoldsQqq(st: St)
    requires st == St(map[Sub("A", "QQQ") := 0.0], map[], map[])
    ensures InStep(st, "A") && Mine(st.rows, "A") == {"QQQ"} && UpperAll({"SPY"}) == {"SPY"}
  {
    assert Upper("SPY") == "SPY" && Upper("QQQ") == "QQQ";
    hide Upper;
    MineRows(st.rows, "A");
    assert UpperAll({"SPY"}) == {"SPY"};
  }

  /** A fresh client on a machine booted less than 30 s ago registers nothing. */
  lemma EarlyRegisterIsLost()
    ensures Registered(St(map[], map[], map[]), "A", {"SPY"}, 12.0, 0.0) == St(map[], map[], map[])
  {
    var st, due := St(map[], map[], map[]), Due(map[], {"SPY"}, 12.0);
    assert due == {};
    assert Upsert(map[], "A", due, 0.0) == map[] && Stamp(map[], due, 12.0) == map[];
  }
}
