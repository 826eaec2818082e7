/**
 * The writer side of the shared price bus (src/agentic_investor/experiments/price_bus.py): the capped, TTL-filtered
 * union of the arms' rows, the reconcile step, and whole runs of clients, reconciler and reconnecting stream.
 */
module PriceBusWriter {
  import opened Basics
  import opened Text
  import opened PriceBusClients

  const TTL_SEC := 300.0

  // ---- the desired set: newest tickers first, up to the cap ----

  /** A row updated within the TTL. */
  predicate FreshRow(rows: Rows, s: Sub, now: real) {
    s in rows && rows[s] > now - TTL_SEC
  }

  function Fresh(rows: Rows, now: real): set<string> {
    set s | s in rows && FreshRow(rows, s, now) :: s.ticker
  }

  function FreshRows(rows: Rows, now: real, t: string): set<Sub> {
    set s | s in rows && FreshRow(rows, s, now) && s.ticker == t
  }

  ghost predicate IsLatest(rows: Rows, now: real, t: string, x: real) {
    && (exists s :: s in FreshRows(rows, now, t) && rows[s] == x)
    && (forall s | s in FreshRows(rows, now, t) :: rows[s] <= x)
  }

  lemma {:induction false} NewestRow(rows: Rows, from: set<Sub>) returns (top: Sub)
    requires from != {} && forall s | s in from :: s in rows
    ensures top in from && forall s | s in from :: rows[s] <= rows[top]
    decreases from
  {
    top :| top in from;
    if from != {top} {
      var other := NewestRow(rows, from - {top});
      if rows[other] > rows[top] { top := other; }
    }
  }

  /** MAX(updated_at) over the fresh rows of a ticker. */
  ghost function Latest(rows: Rows, now: real, t: string): (x: real)
    requires t in Fresh(rows, now)
    ensures IsLatest(rows, now, t, x)
  {
    assert exists x :: IsLatest(rows, now, t, x) by {
      var s :| s in rows && FreshRow(rows, s, now) && s.ticker == t;
      assert s in FreshRows(rows, now, t);
      var top := NewestRow(rows, FreshRows(rows, now, t));
      assert IsLatest(rows, now, t, rows[top]);
    }
    var x :| IsLatest(rows, now, t, x);
    x
  }

  /**
   * What the query may return: at most `cap` fresh tickers, none of the rest newer than one returned. Ties are the
   * database's choice; a negative LIMIT is no limit.
   */
  ghost predicate Selection(rows: Rows, now: real, cap: int, d: set<string>) {
    var young := Fresh(rows, now);
    && d <= young
    && |d| == (if cap < 0 || |young| <= cap then |young| else cap)
    && forall x, y | x in d && y in young - d :: Latest(rows, now, x) >= Latest(rows, now, y)
  }

  /** Other fresh tickers that are at least as new as `t`. */
  ghost function Ahead(rows: Rows, now: real, t: string): set<string>
    requires t in Fresh(rows, now)
  {
    set e | e in Fresh(rows, now) && e != t && Latest(rows, now, e) >= Latest(rows, now, t)
  }

  ghost predicate Safe(rows: Rows, now: real, cap: int, t: string) {
    t in Fresh(rows, now) && (cap < 0 || |Ahead(rows, now, t)| < cap)
  }

  /** The `k` newest of a set of fresh tickers. */
  lemma {:induction false} Newest(rows: Rows, now: real, from: set<string>, k: nat) returns (d: set<string>)
    requires from <= Fresh(rows, now) && k <= |from|
    ensures d <= from && |d| == k
    ensures forall x, y | x in d && y in from - d :: Latest(rows, now, x) >= Latest(rows, now, y)
    decreases k
  {
    if k == 0 {
      d := {};
    } else {
      var top := NewestOne(rows, now, from);
      var rest := Newest(rows, now, from - {top}, k - 1);
      d := rest + {top};
    }
  }

  lemma {:induction false} NewestOne(rows: Rows, now: real, from: set<string>) returns (top: string)
    requires from <= Fresh(rows, now) && from != {}
    ensures top in from && forall y | y in from :: Latest(rows, now, top) >= Latest(rows, now, y)
    decreases from
  {
    top :| top in from;
    if from != {top} {
      var other := NewestOne(rows, now, from - {top});
      if Latest(rows, now, other) > Latest(rows, now, top) { top := other; }
    }
  }

  /** The query always has an answer. */
  lemma SelectionExists(rows: Rows, now: real, cap: int) returns (d: set<string>)
    ensures Selection(rows, now, cap, d)
  {
    var young := Fresh(rows, now);
    d := Newest(rows, now, young, if cap < 0 || |young| <= cap then |young| else cap);
  }

  lemma SafeIsSelected(rows: Rows, now: real, cap: int, t: string, d: set<string>)
    requires Safe(rows, now, cap, t) && Selection(rows, now, cap, d)
    ensures t in d
  {
    if t !in d {
      var young := Fresh(rows, now);
      assert t in young - d;
      SubsetSize(d, young);
      assert d <= Ahead(rows, now, t);
      SubsetSize(d, Ahead(rows, now, t));
    }
  }

  lemma UnsafeMayBeDropped(rows: Rows, now: real, cap: int, t: string) returns (d: set<string>)
    requires !Safe(rows, now, cap, t)
    ensures Selection(rows, now, cap, d) && t !in d
  {
    var young := Fresh(rows, now);
    if t !in young {
      d := SelectionExists(rows, now, cap);
    } else {
      var ahead := Ahead(rows, now, t);
      assert ahead <= young - {t};
      SubsetSize(ahead, young - {t});
      d := Newest(rows, now, ahead, cap);
    }
  }

  /** A ticker is in every possible answer exactly when it is fresh and fewer than `cap` others are at least as new. */
  lemma AlwaysSelected(rows: Rows, now: real, cap: int, t: string)
    ensures Safe(rows, now, cap, t) <==> forall d | Selection(rows, now, cap, d) :: t in d
  {
    if Safe(rows, now, cap, t) {
      forall d | Selection(rows, now, cap, d) ensures t in d { SafeIsSelected(rows, now, cap, t, d); }
    } else {
      var d := UnsafeMayBeDropped(rows, now, cap, t);
    }
  }

  /**
   * In terms of rows: a ticker that is returned has a row younger than 300 s, and one no older than any young row of a
   * ticker that is not returned.
   */
  lemma NewestAreKept(rows: Rows, now: real, cap: int, d: set<string>, x: string, s: Sub) returns (r: Sub)
    requires Selection(rows, now, cap, d) && x in d
    requires s in rows && now - rows[s] < 300.0 && s.ticker !in d
    ensures r in rows && r.ticker == x && now - rows[r] < 300.0 && rows[r] >= rows[s]
  {
    assert FreshRow(rows, s, now);
    assert s.ticker in Fresh(rows, now) - d && s in FreshRows(rows, now, s.ticker);
    assert Latest(rows, now, x) >= Latest(rows, now, s.ticker) >= rows[s];
    assert IsLatest(rows, now, x, Latest(rows, now, x));
    r :| r in FreshRows(rows, now, x) && rows[r] == Latest(rows, now, x);
  }

  /** In particular when the fresh union fits the cap. */
  lemma FittingUnionIsSafe(rows: Rows, now: real, cap: int, t: string)
    requires t in Fresh(rows, now) && |Fresh(rows, now)| <= cap
    ensures Safe(rows, now, cap, t)
  {
    SubsetSize(Ahead(rows, now, t) + {t}, Fresh(rows, now));
  }

  // ---- runs ----

  /** One arm's debounce dictionaries. */
  datatype View = View(lastReg: map<string, real>, lastUnreg: map<string, real>)

  /**
   * Table, clients, clock, and the writer's shared state: `live` is what the current stream really carries (None
   * between streams), `subscribed` the writer's own record of it, `pending` a desired set read but not yet applied.
   */
  datatype World = World(rows: Rows, views: map<string, View>, now: real,
                         live: Option<set<string>>, subscribed: set<string>, pending: Option<set<string>>)

  datatype Step =
    | Tick(dt: real)
    | RegisterTx(arm: string, tickers: set<string>)
    | UnregisterTx(arm: string, tickers: set<string>)
    | DropTx(arm: string, tickers: set<string>)
    | ReadDesired(desired: set<string>)
    | Apply(subscribeOk: bool, unsubscribeOk: bool)
    | NewStream
    | StreamEnds

  function Local(w: World, arm: string): St {
    var v := if arm in w.views then w.views[arm] else View(map[], map[]);
    St(w.rows, v.lastReg, v.lastUnreg)
  }

  function Update(w: World, arm: string, st: St): World {
    w.(rows := st.rows, views := w.views[arm := View(st.lastReg, st.lastUnreg)])
  }

  /** What a reconcile asks the stream to add and to remove. */
  function ToAdd(w: World): set<string>
    requires w.pending.Some?
  {
    w.pending.value - w.subscribed
  }

  function ToRemove(w: World): set<string>
    requires w.pending.Some?
  {
    w.subscribed - w.pending.value
  }

  /** Subscribe first, then unsubscribe; a refused call (or an empty one not made) ends or skips its part. */
  function Applied(w: World, subscribeOk: bool, unsubscribeOk: bool): World {
    if w.pending.None? || w.live.None? then w.(pending := None)
    else if ToAdd(w) != {} && !subscribeOk then w.(pending := None)
    else
      var mid := w.(live := Some(w.live.value + ToAdd(w)), subscribed := w.subscribed + ToAdd(w));
      if ToRemove(w) != {} && !unsubscribeOk then mid.(pending := None)
      else
        mid.(live := Some(mid.live.value - ToRemove(w)), subscribed := mid.subscribed - ToRemove(w), pending := None)
  }

  /** A call on the stream, accepted or refused. */
  datatype Call = SubscribeTrades(tickers: set<string>) | UnsubscribeTrades(tickers: set<string>)

  /** Calls of one pass, in order: none between streams, none with an empty list, no second after a refused first. */
  function CallsOf(w: World, subscribeOk: bool): seq<Call>
    requires w.pending.Some?
  {
    if w.live.None? then []
    else
      (if ToAdd(w) == {} then [] else [SubscribeTrades(ToAdd(w))])
      + if ToRemove(w) == {} || (ToAdd(w) != {} && !subscribeOk) then [] else [UnsubscribeTrades(ToRemove(w))]
  }

  /** What a stream carries once it has accepted a call. */
  function Carry(live: set<string>, c: Call): set<string> {
    match c
    case SubscribeTrades(ts) => live + ts
    case UnsubscribeTrades(ts) => live - ts
  }

  predicate Accepted(c: Call, subscribeOk: bool, unsubscribeOk: bool) {
    if c.SubscribeTrades? then subscribeOk else unsubscribeOk
  }

  /** What it carries after the accepted ones of a list of calls. */
  function Replay(live: set<string>, calls: seq<Call>, subscribeOk: bool, unsubscribeOk: bool): set<string> {
    if calls == [] then live
    else
      var before, c := Replay(live, calls[..|calls| - 1], subscribeOk, unsubscribeOk), calls[|calls| - 1];
      if Accepted(c, subscribeOk, unsubscribeOk) then Carry(before, c) else before
  }

  /**
   * What the calls of one pass promise: only tickers not carried are subscribed, only carried and unwanted ones are
   * unsubscribed, no list is empty, the subscribe call comes first, nothing follows a refused call, the stream carries
   * what the accepted calls make of it, and that is the desired set when all of them are accepted.
   */
  predicate PassOk(before: set<string>, desired: set<string>, calls: seq<Call>, subscribeOk: bool,
                   unsubscribeOk: bool, after: set<string>)
  {
    && (forall c | c in calls && c.SubscribeTrades? :: c.tickers != {} && c.tickers !! before && c.tickers <= desired)
    && (forall c | c in calls && c.UnsubscribeTrades? :: c.tickers != {} && c.tickers <= before && c.tickers !! desired)
    && (forall i, j | 0 <= i < j < |calls| :: calls[i].SubscribeTrades? && calls[j].UnsubscribeTrades?)
    && (forall i | 0 <= i < |calls| - 1 :: Accepted(calls[i], subscribeOk, unsubscribeOk))
    && after == Replay(before, calls, subscribeOk, unsubscribeOk)
    && ((forall c | c in calls :: Accepted(c, subscribeOk, unsubscribeOk)) ==> after == desired)
  }

  lemma CallsMeaning(w: World, subscribeOk: bool, unsubscribeOk: bool)
    requires w.pending.Some? && w.live == Some(w.subscribed)
    ensures Applied(w, subscribeOk, unsubscribeOk).live.Some?
    ensures PassOk(w.live.value, w.pending.value, CallsOf(w, subscribeOk), subscribeOk, unsubscribeOk,
                   Applied(w, subscribeOk, unsubscribeOk).live.value)
  {
    var live, d, add, rem := w.live.value, w.pending.value, ToAdd(w), ToRemove(w);
    var a, b := SubscribeTrades(add), UnsubscribeTrades(rem);
    ReplayTwo(live, a, b, subscribeOk, unsubscribeOk);
    assert live + add - rem == d;
    if add == {} {
      assert live + add == live;
      if rem == {} {
        assert live == d && CallsOf(w, subscribeOk) == [];
      } else {
        assert CallsOf(w, subscribeOk) == [b];
        OnePass(live, d, b, subscribeOk, unsubscribeOk);
      }
    } else if rem == {} || !subscribeOk {
      assert rem == {} ==> live + add == d;
      assert CallsOf(w, subscribeOk) == [a];
      OnePass(live, d, a, subscribeOk, unsubscribeOk);
    } else {
      assert CallsOf(w, subscribeOk) == [a] + [b];
      TwoPasses(live, d, add, rem, unsubscribeOk);
    }
    hide PassOk, Replay, CallsOf, Carry;
  }

  lemma OnePass(live: set<string>, d: set<string>, c: Call, subscribeOk: bool, unsubscribeOk: bool)
    requires c.tickers != {}
    requires if c.SubscribeTrades? then c.tickers == d - live else c.tickers == live - d && d <= live
    requires c.SubscribeTrades? && subscribeOk ==> live <= d
    ensures var after := if Accepted(c, subscribeOk, unsubscribeOk) then Carry(live, c) else live;
            PassOk(live, d, [c], subscribeOk, unsubscribeOk, after)
  {
    ReplayTwo(live, c, c, subscribeOk, unsubscribeOk);
    hide Replay;
    assert c in [c];
  }

  lemma TwoPasses(live: set<string>, d: set<string>, add: set<string>, rem: set<string>, unsubscribeOk: bool)
    requires add == d - live && rem == live - d && add != {} && rem != {}
    ensures var after := if unsubscribeOk then d else live + add;
            PassOk(live, d, [SubscribeTrades(add)] + [UnsubscribeTrades(rem)], true, unsubscribeOk, after)
  {
    var a, b := SubscribeTrades(add), UnsubscribeTrades(rem);
    ReplayTwo(live, a, b, true, unsubscribeOk);
    hide Replay;
    assert live + add - rem == d;
    assert b in [a] + [b];
    assert [a] + [b] == [a, b];
  }

  lemma ReplayTwo(live: set<string>, a: Call, b: Call, subscribeOk: bool, unsubscribeOk: bool)
    ensures Replay(live, [], subscribeOk, unsubscribeOk) == live
    ensures forall c | c == a || c == b :: Replay(live, [c], subscribeOk, unsubscribeOk)
              == if Accepted(c, subscribeOk, unsubscribeOk) then Carry(live, c) else live
    ensures var mid := Replay(live, [a], subscribeOk, unsubscribeOk);
            Replay(live, [a] + [b], subscribeOk, unsubscribeOk)
            == if Accepted(b, subscribeOk, unsubscribeOk) then Carry(mid, b) else mid
  {
    assert forall c: Call :: [c][..0] == [];
    assert ([a] + [b])[..1] == [a];
  }

  /** The `state` dictionary shared by the reconciler thread and the reconnect supervisor, under its lock. */
  class StreamState {
    /** What the present stream carries; None between streams. */
    var live: Option<set<string>>
    var subscribed: set<string>

    constructor ()
      ensures live == None && subscribed == {}
    {
      live, subscribed := None, {};
    }

    /** A new stream carries nothing, and the record is reset with it. */
    method Publish()
      modifies this
      ensures live == Some({}) && subscribed == {}
    {
      live, subscribed := Some({}), {};
    }

    method Retire()
      modifies this`live
      ensures live == None
    {
      live := None;
    }

    /** The locked part of one reconcile pass; the two flags say whether the stream accepts the calls. */
    method Reconcile(desired: set<string>, subscribeOk: bool, unsubscribeOk: bool, ghost w: World)
      returns (calls: seq<Call>)
      requires w.live == live && w.subscribed == subscribed && w.pending == Some(desired)
      modifies this
      ensures Applied(w, subscribeOk, unsubscribeOk).live == live
      ensures Applied(w, subscribeOk, unsubscribeOk).subscribed == subscribed
      ensures calls == CallsOf(w, subscribeOk)
      ensures old(live) == None ==> calls == [] && live == None
      ensures old(live) == Some(old(subscribed)) ==>
                && live == Some(subscribed)
                && PassOk(old(subscribed), desired, calls, subscribeOk, unsubscribeOk, subscribed)
    {
      if live == Some(subscribed) { CallsMeaning(w, subscribeOk, unsubscribeOk); }
      hide PassOk;
      calls := [];
      if live.None? {
        return;
      }
      var toAdd, toRemove := desired - subscribed, subscribed - desired;
      if toAdd != {} {
        var call := SubscribeTrades(toAdd);
        calls := calls + [call];
        if !subscribeOk {
          return;
        }
        live := Some(Carry(live.value, call));
        subscribed := subscribed + toAdd;
      } else {
        assert live.value + toAdd == live.value && subscribed + toAdd == subscribed;
      }
      if toRemove != {} {
        var call := UnsubscribeTrades(toRemove);
        calls := calls + [call];
        if !unsubscribeOk {
          return;
        }
        live := Some(Carry(live.value, call));
        subscribed := subscribed - toRemove;
      } else {
        assert live.value - toRemove == live.value && subscribed - toRemove == subscribed;
      }
    }
  }

  ghost predicate Enabled(w: World, step: Step, cap: int) {
    match step
    case Tick(dt) => dt >= 0.0
    case ReadDesired(d) => w.pending.None? && Selection(w.rows, w.now, cap, d)
    case _ => true
  }

  /** One clock serves the monotonic and the wall reading. */
  function Next(w: World, step: Step): World {
    match step
    case Tick(dt) => w.(now := w.now + dt)
    case RegisterTx(arm, ts) => Update(w, arm, Registered(Local(w, arm), arm, ts, w.now, w.now))
    case UnregisterTx(arm, ts) => Update(w, arm, Unregistered(Local(w, arm), arm, ts, w.now))
    case DropTx(arm, ts) => Update(w, arm, DropNow(Local(w, arm), arm, ts, w.now))
    case ReadDesired(d) => w.(pending := Some(d))
    case Apply(sub, unsub) => Applied(w, sub, unsub)
    case NewStream => w.(live := Some({}), subscribed := {})
    case StreamEnds => w.(live := None)
  }

  function Exec(w: World, steps: seq<Step>): World {
    if steps == [] then w else Next(Exec(w, steps[..|steps| - 1]), steps[|steps| - 1])
  }

  ghost predicate ValidRun(w: World, steps: seq<Step>, cap: int) {
    forall k | 0 <= k < |steps| :: Enabled(Exec(w, steps[..k]), steps[k], cap)
  }

  /** The calls made in this step. */
  function CallsAt(w: World, step: Step): seq<Call> {
    if step.Apply? && w.pending.Some? then CallsOf(w, step.subscribeOk) else []
  }

  /** Tickers that accepted calls of this step subscribe, or unsubscribe. */
  function Subscribes(w: World, step: Step): set<string> {
    set c, t | c in CallsAt(w, step) && c.SubscribeTrades? && step.Apply?
               && Accepted(c, step.subscribeOk, step.unsubscribeOk) && t in c.tickers :: t
  }

  function Unsubscribes(w: World, step: Step): set<string> {
    set c, t | c in CallsAt(w, step) && c.UnsubscribeTrades? && step.Apply?
               && Accepted(c, step.subscribeOk, step.unsubscribeOk) && t in c.tickers :: t
  }

  lemma UnsubscribesIs(w: World, step: Step)
    ensures Unsubscribes(w, step)
            == if step.Apply? && w.pending.Some? && w.live.Some? && (ToAdd(w) == {} || step.subscribeOk)
                  && step.unsubscribeOk then ToRemove(w) else {}
  {
    if step.Apply? && w.pending.Some? && w.live.Some? && (ToAdd(w) == {} || step.subscribeOk) {
      if ToRemove(w) != {} { assert UnsubscribeTrades(ToRemove(w)) in CallsAt(w, step); }
    }
  }

  // ---- every run: no double subscription ----

  ghost predicate RecordTrue(w: World) {
    w.live.Some? ==> w.live.value == w.subscribed
  }

  lemma {:induction false} RecordStaysTrue(w: World, steps: seq<Step>)
    requires RecordTrue(w)
    ensures RecordTrue(Exec(w, steps))
  {
    hide Registered, Unregistered, DropNow;
    if steps != [] { RecordStaysTrue(w, steps[..|steps| - 1]); }
  }

  /**
   * At every step of every run, whatever fails: the calls of a reconcile never subscribe a ticker the stream already
   * carries, never unsubscribe one it does not carry, and never unsubscribe one in the set it read.
   */
  lemma NeverSubscribesTwice(w: World, steps: seq<Step>, k: nat)
    requires RecordTrue(w) && k < |steps|
    ensures var now, calls := Exec(w, steps[..k]), CallsAt(Exec(w, steps[..k]), steps[k]);
            && (now.live.None? ==> calls == [])
            && (now.live.Some? && now.pending.Some? && steps[k].Apply? ==>
                  && Next(now, steps[k]).live.Some?
                  && PassOk(now.live.value, now.pending.value, calls, steps[k].subscribeOk, steps[k].unsubscribeOk,
                            Next(now, steps[k]).live.value))
    ensures var now := Exec(w, steps[..k]);
            && now.live.Some? ==>
                 && Subscribes(now, steps[k]) !! now.live.value
                 && Unsubscribes(now, steps[k]) <= now.live.value
                 && (now.pending.Some? ==> Unsubscribes(now, steps[k]) !! now.pending.value)
  {
    RecordStaysTrue(w, steps[..k]);
    hide Exec, Next, CallsAt, Subscribes, Unsubscribes, PassOk;
    CallsOfStep(Exec(w, steps[..k]), steps[k]);
    if Exec(w, steps[..k]).live.Some? { TickersOfCalls(Exec(w, steps[..k]), steps[k]); }
  }

  lemma CallsOfStep(now: World, step: Step)
    requires RecordTrue(now)
    ensures now.live.None? ==> CallsAt(now, step) == []
    ensures now.live.Some? && now.pending.Some? && step.Apply? ==>
              && Next(now, step).live.Some?
              && PassOk(now.live.value, now.pending.value, CallsAt(now, step), step.subscribeOk, step.unsubscribeOk,
                        Next(now, step).live.value)
  {
    if now.live.Some? && now.pending.Some? && step.Apply? {
      CallsMeaning(now, step.subscribeOk, step.unsubscribeOk);
      hide CallsOf, PassOk, Applied;
    }
  }

  lemma TickersOfCalls(now: World, step: Step)
    requires RecordTrue(now) && now.live.Some?
    ensures Subscribes(now, step) !! now.live.value && Unsubscribes(now, step) <= now.live.value
    ensures now.pending.Some? ==> Unsubscribes(now, step) !! now.pending.value
  {
    CallsOfStep(now, step);
    hide CallsAt, Next, RecordTrue, Replay;
    if step.Apply? && now.pending.Some? {
      forall t | t in Subscribes(now, step) ensures t !in now.live.value {
      }
      forall t | t in Unsubscribes(now, step) ensures t in now.live.value && t !in now.pending.value {
      }
    } else {
      assert CallsAt(now, step) == [] by { NoCalls(now, step); }
      assert Subscribes(now, step) == {} && Unsubscribes(now, step) == {};
    }
  }

  lemma NoCalls(now: World, step: Step)
    requires !(step.Apply? && now.pending.Some?)
    ensures CallsAt(now, step) == []
  {
  }

  /** An accepted reconcile leaves exactly the desired set; on the way the stream carries old and new together. */
  lemma ReconcileReachesDesired(w: World)
    requires RecordTrue(w) && w.pending.Some? && w.live.Some?
    ensures Applied(w, true, true).live == w.pending
    ensures Applied(w, true, false).live
            == if ToRemove(w) == {} then w.pending else Some(w.live.value + w.pending.value)
  {
    assert w.live.value + ToAdd(w) == w.live.value + w.pending.value;
    assert w.live.value + ToAdd(w) - ToRemove(w) == w.pending.value;
    if ToRemove(w) == {} { assert w.live.value + w.pending.value == w.pending.value; }
  }

  /** A subscribed ticker can be unsubscribed by the next reconcile exactly when it is stale or outranked at the cap. */
  lemma HeldTickerAtRisk(w: World, t: string, cap: int)
    requires RecordTrue(w) && w.live.Some? && w.pending.None? && t in w.live.value
    ensures (exists d :: Selection(w.rows, w.now, cap, d)
                         && t in Unsubscribes(Next(w, ReadDesired(d)), Apply(true, true)))
            <==> !Safe(w.rows, w.now, cap, t)
  {
    AlwaysSelected(w.rows, w.now, cap, t);
    forall d ensures t in Unsubscribes(Next(w, ReadDesired(d)), Apply(true, true)) <==> t !in d {
      UnsubscribesIs(Next(w, ReadDesired(d)), Apply(true, true));
    }
    hide Safe, Selection;
  }

  // ---- every run: debounce entries stay in step with the table, for all arms at once ----

  ghost predicate AllInStep(w: World) {
    forall arm :: InStep(Local(w, arm), arm)
  }

  /** Clients that have just started are in step exactly when the table they find is in upper case. */
  lemma FreshClients(w: World)
    requires w.views == map[]
    ensures AllInStep(w) <==> forall s | s in w.rows :: Upper(s.ticker) == s.ticker
  {
    hide Upper;
    if AllInStep(w) {
      forall s | s in w.rows ensures Upper(s.ticker) == s.ticker {
        assert InStep(Local(w, s.arm), s.arm);
      }
    }
  }

  lemma OthersStayInStep(w: World, b: string, st: St, arm: string)
    requires InStep(Local(w, arm), arm) && InStep(st, b) && OthersKept(w.rows, st.rows, b)
    ensures InStep(Local(Update(w, b, st), arm), arm)
  {
    hide Upper;
  }

  lemma InStepStep(w: World, step: Step, arm: string)
    requires AllInStep(w)
    ensures InStep(Local(Next(w, step), arm), arm)
  {
    assert InStep(Local(w, arm), arm);
    hide InStep, OthersKept, Mine, Due, UpperAll, Upsert, Delete, Stamp;
    match step
    case RegisterTx(b, ts) =>
      assert InStep(Local(w, b), b);
      RegisterEffect(Local(w, b), b, ts, w.now, w.now);
      OthersStayInStep(w, b, Registered(Local(w, b), b, ts, w.now, w.now), arm);
    case UnregisterTx(b, ts) =>
      assert InStep(Local(w, b), b);
      UnregisterEffect(Local(w, b), b, ts, w.now);
      OthersStayInStep(w, b, Unregistered(Local(w, b), b, ts, w.now), arm);
    case DropTx(b, ts) =>
      assert InStep(Local(w, b), b);
      DropEffect(Local(w, b), b, ts, w.now);
      OthersStayInStep(w, b, DropNow(Local(w, b), b, ts, w.now), arm);
    case _ =>
  }

  /**
   * In every run of every number of arms, a registration stamp has its row and an unregistration stamp has none; so at
   * every point of a run a debounced call has the effect on rows stated for one call.
   */
  lemma {:induction false} ClientsStayInStep(w: World, steps: seq<Step>)
    requires AllInStep(w)
    ensures AllInStep(Exec(w, steps))
  {
    hide Next, InStep;
    if steps != [] {
      var n := |steps| - 1;
      ClientsStayInStep(w, steps[..n]);
      forall arm ensures InStep(Local(Exec(w, steps), arm), arm) {
        InStepStep(Exec(w, steps[..n]), steps[n], arm);
      }
    }
  }

  // ---- stability of a ticker that an arm keeps registering ----

  /** The call registers `t` for `arm`. */
  predicate Renews(step: Step, arm: string, t: string) {
    step.RegisterTx? && step.arm == arm && t in UpperAll(step.tickers)
  }

  /** The call gives up `t` for `arm`. */
  predicate GivesUp(step: Step, arm: string, t: string) {
    && (step.UnregisterTx? ==> step.arm == arm && t in UpperAll(step.tickers))
    && (step.DropTx? ==> step.arm == arm && t in step.tickers)
    && (step.UnregisterTx? || step.DropTx?)
  }

  /** Time of the last renewal, `start` if there was none. */
  function LastCall(w: World, steps: seq<Step>, arm: string, t: string, start: real): real {
    if steps == [] then start
    else
      var init, step := steps[..|steps| - 1], steps[|steps| - 1];
      if Renews(step, arm, t) then Exec(w, init).now else LastCall(w, init, arm, t, start)
  }

  /** The row of (arm, t) and its debounce stamp are the same write, at most 30 s older than the last renewal. */
  ghost predicate Holding(w: World, arm: string, t: string, lastCall: real) {
    var st := Local(w, arm);
    && Sub(arm, t) in w.rows && t in st.lastReg
    && w.rows[Sub(arm, t)] == st.lastReg[t]
    && lastCall - REFRESH_SEC <= st.lastReg[t] <= lastCall <= w.now
  }

  /** The arm never gives `t` up, renews it at least every `p` seconds, and fewer than `cap` others are ever ahead. */
  ghost predicate KeepsRegistering(w: World, steps: seq<Step>, arm: string, t: string, start: real, p: real, cap: int) {
    && (forall k | 0 <= k < |steps| :: !GivesUp(steps[k], arm, t))
    && (forall k | 0 <= k <= |steps| ::
          Exec(w, steps[..k]).now - LastCall(w, steps[..k], arm, t, start) <= p)
    && (forall k | 0 <= k < |steps| && steps[k].ReadDesired? ::
          var v := Exec(w, steps[..k]);
          t in Fresh(v.rows, v.now) ==> Safe(v.rows, v.now, cap, t))
  }

  lemma RegisterKeeps(w: World, b: string, ts: set<string>, arm: string, t: string, lastCall: real)
    requires Holding(w, arm, t, lastCall)
    ensures var w' := Next(w, RegisterTx(b, ts));
            Holding(w', arm, t, if Renews(RegisterTx(b, ts), arm, t) then w.now else lastCall)
  {
    var st := Local(w, b);
    var due := Due(st.lastReg, ts, w.now);
    assert b == arm ==> (t in due <==> t in UpperAll(ts) && w.now - st.lastReg[t] > REFRESH_SEC);
    hide UpperAll, Due;
    var st' := Registered(st, b, ts, w.now, w.now);
    if b == arm && t in due {
      assert st'.rows[Sub(arm, t)] == w.now && st'.lastReg[t] == w.now;
    } else {
      assert st'.rows[Sub(arm, t)] == w.rows[Sub(arm, t)];
      assert t in st.lastReg && t !in due ==> st'.lastReg[t] == st.lastReg[t];
    }
    hide Registered;
  }

  lemma DropKeeps(w: World, b: string, ts: set<string>, arm: string, t: string, lastCall: real)
    requires Holding(w, arm, t, lastCall) && !(b == arm && t in ts)
    ensures Holding(Update(w, b, DropNow(Local(w, b), b, ts, w.now)), arm, t, lastCall)
  {
  }

  lemma HoldingStep(w: World, step: Step, arm: string, t: string, lastCall: real)
    requires Holding(w, arm, t, lastCall) && !GivesUp(step, arm, t) && (step.Tick? ==> step.dt >= 0.0)
    ensures Holding(Next(w, step), arm, t, if Renews(step, arm, t) then w.now else lastCall)
  {
    match step
    case RegisterTx(b, ts) => RegisterKeeps(w, b, ts, arm, t, lastCall);
    case UnregisterTx(b, ts) =>
      DropKeeps(w, b, Due(Local(w, b).lastUnreg, ts, w.now), arm, t, lastCall);
    case DropTx(b, ts) => DropKeeps(w, b, ts, arm, t, lastCall);
    case _ =>
  }

  /** The row is young enough, and a set read but not yet applied contains the ticker. */
  ghost predicate Good(w: World, arm: string, t: string, lastCall: real) {
    && Holding(w, arm, t, lastCall)
    && t in Fresh(w.rows, w.now)
    && (w.pending.Some? ==> t in w.pending.value)
  }

  lemma GoodStep(v: World, step: Step, arm: string, t: string, lastCall: real, p: real, cap: int)
    requires Good(v, arm, t, lastCall) && Enabled(v, step, cap) && !GivesUp(step, arm, t) && p + REFRESH_SEC < TTL_SEC
    requires step.ReadDesired? ==> Safe(v.rows, v.now, cap, t)
    requires Next(v, step).now - (if Renews(step, arm, t) then v.now else lastCall) <= p
    ensures Good(Next(v, step), arm, t, if Renews(step, arm, t) then v.now else lastCall)
  {
    var lastCall' := if Renews(step, arm, t) then v.now else lastCall;
    HoldingStep(v, step, arm, t, lastCall);
    FreshFromHolding(Next(v, step), arm, t, lastCall', p);
    if step.ReadDesired? { SafeIsSelected(v.rows, v.now, cap, t, step.desired); }
    hide Holding, Fresh, Safe, Registered, Unregistered, DropNow;
  }

  /** Invariant of a whole run: the row stays young enough, and every set read since the start contains the ticker. */
  lemma {:induction false} HoldingRun(w: World, steps: seq<Step>, arm: string, t: string, start: real, p: real,
                                      cap: int)
    requires ValidRun(w, steps, cap) && KeepsRegistering(w, steps, arm, t, start, p, cap)
    requires p + REFRESH_SEC < TTL_SEC && Good(w, arm, t, start)
    ensures Good(Exec(w, steps), arm, t, LastCall(w, steps, arm, t, start))
  {
    hide Good, Safe, Fresh, GivesUp, Renews, Next, Enabled;
    if steps != [] {
      var n := |steps| - 1;
      var init := steps[..n];
      assert forall k | 0 <= k <= n :: init[..k] == steps[..k];
      assert steps[..|steps|] == steps;
      RunPrefix(w, steps, arm, t, start, p, cap);
      HoldingRun(w, init, arm, t, start, p, cap);
      GoodIsFresh(Exec(w, init), arm, t, LastCall(w, init, arm, t, start));
      GoodStep(Exec(w, init), steps[n], arm, t, LastCall(w, init, arm, t, start), p, cap);
    }
  }

  lemma GoodIsFresh(w: World, arm: string, t: string, lastCall: real)
    requires Good(w, arm, t, lastCall)
    ensures t in Fresh(w.rows, w.now)
  {
  }

  lemma RunPrefix(w: World, steps: seq<Step>, arm: string, t: string, start: real, p: real, cap: int)
    requires ValidRun(w, steps, cap) && KeepsRegistering(w, steps, arm, t, start, p, cap)
    ensures forall k | 0 <= k <= |steps| ::
              ValidRun(w, steps[..k], cap) && KeepsRegistering(w, steps[..k], arm, t, start, p, cap)
  {
    hide Safe, Fresh, GivesUp, Renews, Next, Enabled, Exec, LastCall;
    forall k | 0 <= k <= |steps|
      ensures ValidRun(w, steps[..k], cap) && KeepsRegistering(w, steps[..k], arm, t, start, p, cap)
    {
      assert forall j | 0 <= j <= k :: steps[..k][..j] == steps[..j];
    }
  }

  lemma FreshFromHolding(w: World, arm: string, t: string, lastCall: real, p: real)
    requires Holding(w, arm, t, lastCall) && w.now - lastCall <= p && p + REFRESH_SEC < TTL_SEC
    ensures t in Fresh(w.rows, w.now)
  {
    assert FreshRow(w.rows, Sub(arm, t), w.now);
  }

  /** The first registration past the 30 s mark, with no debounce entry in the way, starts such a run. */
  lemma FirstRegistration(w: World, arm: string, tickers: set<string>, t: string)
    requires t in UpperAll(tickers) && t !in Local(w, arm).lastReg
    requires w.now > REFRESH_SEC && w.pending.None?
    ensures Good(Next(w, RegisterTx(arm, tickers)), arm, t, w.now)
  {
    var due := Due(Local(w, arm).lastReg, tickers, w.now);
    assert t in due;
    FreshFromHolding(Next(w, RegisterTx(arm, tickers)), arm, t, w.now, 0.0);
    hide UpperAll;
  }

  /** A run whose fresh union never exceeds the cap never has too many tickers ahead. */
  lemma FittingRun(w: World, steps: seq<Step>, arm: string, t: string, start: real, p: real, cap: int)
    requires forall k | 0 <= k < |steps| :: !GivesUp(steps[k], arm, t)
    requires forall k | 0 <= k <= |steps| ::
               Exec(w, steps[..k]).now - LastCall(w, steps[..k], arm, t, start) <= p
    requires forall k | 0 <= k < |steps| ::
               |Fresh(Exec(w, steps[..k]).rows, Exec(w, steps[..k]).now)| <= cap
    ensures KeepsRegistering(w, steps, arm, t, start, p, cap)
  {
    forall k | 0 <= k < |steps| && t in Fresh(Exec(w, steps[..k]).rows, Exec(w, steps[..k]).now)
      ensures Safe(Exec(w, steps[..k]).rows, Exec(w, steps[..k]).now, cap, t)
    {
      FittingUnionIsSafe(Exec(w, steps[..k]).rows, Exec(w, steps[..k]).now, cap, t);
    }
    hide Safe, Fresh, Exec, LastCall, GivesUp;
  }

  lemma GoodReconcile(v: World, step: Step, arm: string, t: string, lastCall: real)
    requires Good(v, arm, t, lastCall) && RecordTrue(v)
    ensures t !in Unsubscribes(v, step)
    ensures step.Apply? && step.subscribeOk && v.live.Some? && v.pending.Some? ==>
              Next(v, step).live.Some? && t in Next(v, step).live.value
    ensures v.live.Some? && t in v.live.value && !step.StreamEnds? && !step.NewStream? ==>
              Next(v, step).live.Some? && t in Next(v, step).live.value
  {
    hide Holding, Fresh, Registered, Unregistered, DropNow;
  }

  /** No reconcile of such a run unsubscribes the ticker, and every accepted one leaves it subscribed. */
  lemma NeverUnsubscribed(w: World, steps: seq<Step>, k: nat, arm: string, t: string, start: real, p: real, cap: int)
    requires ValidRun(w, steps, cap) && KeepsRegistering(w, steps, arm, t, start, p, cap) && RecordTrue(w)
    requires p + REFRESH_SEC < TTL_SEC && Good(w, arm, t, start) && k < |steps|
    ensures var v := Exec(w, steps[..k]);
            && t !in Unsubscribes(v, steps[k])
            && (steps[k].Apply? && steps[k].subscribeOk && v.live.Some? && v.pending.Some? ==>
                  Next(v, steps[k]).live.Some? && t in Next(v, steps[k]).live.value)
            && (v.live.Some? && t in v.live.value && !steps[k].StreamEnds? && !steps[k].NewStream? ==>
                  Next(v, steps[k]).live.Some? && t in Next(v, steps[k]).live.value)
  {
    RunPrefix(w, steps, arm, t, start, p, cap);
    HoldingRun(w, steps[..k], arm, t, start, p, cap);
    RecordStaysTrue(w, steps[..k]);
    GoodReconcile(Exec(w, steps[..k]), steps[k], arm, t, LastCall(w, steps[..k], arm, t, start));
    hide Exec, Good, Next, Unsubscribes, RecordTrue, ValidRun, KeepsRegistering;
  }

  /** Once subscribed, it stays subscribed until the stream ends. */
  lemma {:induction false} StaysSubscribed(w: World, steps: seq<Step>, i: nat, j: nat, arm: string, t: string,
                                           start: real, p: real, cap: int)
    requires ValidRun(w, steps, cap) && KeepsRegistering(w, steps, arm, t, start, p, cap) && RecordTrue(w)
    requires p + REFRESH_SEC < TTL_SEC && Good(w, arm, t, start) && i <= j <= |steps|
    requires Exec(w, steps[..i]).live.Some? && t in Exec(w, steps[..i]).live.value
    requires forall k | i <= k < j :: !steps[k].StreamEnds? && !steps[k].NewStream?
    ensures Exec(w, steps[..j]).live.Some? && t in Exec(w, steps[..j]).live.value
    decreases j
  {
    hide Next, Good, KeepsRegistering, ValidRun, RecordTrue;
    if i < j {
      StaysSubscribed(w, steps, i, j - 1, arm, t, start, p, cap);
      NeverUnsubscribed(w, steps, j - 1, arm, t, start, p, cap);
      assert steps[..j][..j - 1] == steps[..j - 1];
    }
  }

  // ---- a stream that refuses the whole call above its symbol limit ----

  /** The stream accepts a subscribe call exactly when what it would then carry is within the limit. */
  predicate LimitedBy(w: World, step: Step, limit: nat) {
    step.Apply? && w.pending.Some? && w.live.Some? ==>
      step.unsubscribeOk && (step.subscribeOk <==> |w.live.value + ToAdd(w)| <= limit)
  }

  predicate LimitedRun(w: World, steps: seq<Step>, limit: nat) {
    forall k | 0 <= k < |steps| :: LimitedBy(Exec(w, steps[..k]), steps[k], limit)
  }

  /**
   * Subscribing before unsubscribing makes a pass ask for old and new together: it reaches the desired set exactly when
   * that union is within the limit, and otherwise changes nothing.
   */
  lemma LimitDecides(w: World, step: Step, limit: nat)
    requires RecordTrue(w) && step.Apply? && w.pending.Some? && w.live.Some? && |w.live.value| <= limit
    requires LimitedBy(w, step, limit)
    ensures var w' := Next(w, step);
            if |w.live.value + w.pending.value| <= limit
            then w'.live == w.pending && w'.subscribed == w.pending.value
            else w' == w.(pending := None)
  {
    assert w.live.value + ToAdd(w) == w.live.value + w.pending.value;
    ReconcileReachesDesired(w);
    if ToAdd(w) == {} { assert w.live.value + w.pending.value == w.live.value; }
    if step.subscribeOk {
      assert w.subscribed + ToAdd(w) - ToRemove(w) == w.pending.value;
      if ToRemove(w) == {} { assert w.subscribed + ToAdd(w) == w.pending.value; }
    }
  }

  lemma LimitStep(w: World, step: Step, limit: nat)
    requires RecordTrue(w) && LimitedBy(w, step, limit) && (w.live.Some? ==> |w.live.value| <= limit)
    ensures Next(w, step).live.Some? ==> |Next(w, step).live.value| <= limit
  {
    if step.Apply? && w.pending.Some? && w.live.Some? {
      LimitDecides(w, step, limit);
      if |w.live.value + w.pending.value| <= limit { SubsetSize(w.pending.value, w.live.value + w.pending.value); }
    }
    hide LimitedBy, Registered, Unregistered, DropNow;
  }

  /** So the stream never carries more than the limit, in every run. */
  lemma {:induction false} LimitIsKept(w: World, steps: seq<Step>, limit: nat)
    requires RecordTrue(w) && LimitedRun(w, steps, limit) && (w.live.Some? ==> |w.live.value| <= limit)
    ensures Exec(w, steps).live.Some? ==> |Exec(w, steps).live.value| <= limit
  {
    hide Next, LimitedBy;
    if steps != [] {
      var n := |steps| - 1;
      assert forall k | 0 <= k < n :: steps[..n][..k] == steps[..k];
      LimitIsKept(w, steps[..n], limit);
      RecordStaysTrue(w, steps[..n]);
      LimitStep(Exec(w, steps[..n]), steps[n], limit);
    }
  }

  /** The stream stays as it is, and every set read is `d`. */
  predicate Settled(w: World, steps: seq<Step>, d: set<string>) {
    && (w.pending.Some? ==> w.pending.value == d)
    && forall k | 0 <= k < |steps| ::
         !steps[k].NewStream? && !steps[k].StreamEnds? && (steps[k].ReadDesired? ==> steps[k].desired == d)
  }

  lemma StuckStep(w: World, step: Step, d: set<string>, limit: nat)
    requires RecordTrue(w) && LimitedBy(w, step, limit) && w.live.Some? && |w.live.value| <= limit
    requires |w.live.value + d| > limit && (w.pending.Some? ==> w.pending.value == d)
    requires !step.NewStream? && !step.StreamEnds? && (step.ReadDesired? ==> step.desired == d)
    ensures var w' := Next(w, step);
            && w'.live == w.live && w'.subscribed == w.subscribed && (w'.pending.Some? ==> w'.pending.value == d)
  {
    if step.Apply? && w.pending.Some? { LimitDecides(w, step, limit); }
    hide LimitedBy, Registered, Unregistered, DropNow;
  }

  /** Above the limit the writer is stuck: while the desired set is `d`, no pass changes anything until a new stream. */
  lemma {:induction false} StuckAboveTheLimit(w: World, steps: seq<Step>, d: set<string>, limit: nat)
    requires RecordTrue(w) && LimitedRun(w, steps, limit) && Settled(w, steps, d)
    requires w.live.Some? && |w.live.value| <= limit && |w.live.value + d| > limit
    ensures var w' := Exec(w, steps);
            w'.live == w.live && w'.subscribed == w.subscribed && (w'.pending.Some? ==> w'.pending.value == d)
  {
    hide Next, LimitedBy, RecordTrue;
    if steps != [] {
      var n := |steps| - 1;
      assert forall k | 0 <= k < n :: steps[..n][..k] == steps[..k];
      StuckAboveTheLimit(w, steps[..n], d, limit);
      RecordStaysTrue(w, steps[..n]);
      StuckStep(Exec(w, steps[..n]), steps[n], d, limit);
    }
  }

  /** In particular a stream that is full takes nothing new, however much the desired set would drop. */
  lemma FullStreamIsStuck(live: set<string>, d: set<string>, limit: nat)
    requires |live| == limit
    ensures |live + d| > limit <==> !(d <= live)
  {
    SubsetSize(live, live + d);
    if d <= live { assert live + d == live; }
  }

  // ---- the bound P + 30 < 300 is exact ----

  const EMPTY := World(map[], map[], 0.0, None, {}, None)

  /** An arm registers at 31 s of clock time, and the writer subscribes. */
  const FIRST := [Tick(31.0), RegisterTx("A", {"SPY"}), NewStream, ReadDesired({"SPY"}), Apply(true, true)]

  /** It registers again 30 s later, which the debounce holds back; `p` seconds on the writer reconciles. */
  function Lapse(p: real): seq<Step> {
    [Tick(30.0), RegisterTx("A", {"SPY"}), Tick(p), ReadDesired({}), Apply(true, true)]
  }

  const SPY := Sub("A", "SPY")

  /** The world with one row of one arm, written and stamped at 31 s. */
  function Held(now: real, live: Option<set<string>>, subscribed: set<string>, pending: Option<set<string>>): World {
    World(map[SPY := 31.0], map["A" := View(map["SPY" := 31.0], map[])], now, live, subscribed, pending)
  }

  lemma SpyIsUpper()
    ensures UpperAll({"SPY"}) == {"SPY"}
  {
    assert Upper("SPY") == "SPY";
    hide Upper;
    assert UpperAll({"SPY"}) == {"SPY"};
  }

  lemma FirstWrite()
    ensures Registered(St(map[], map[], map[]), "A", {"SPY"}, 31.0, 31.0)
            == St(map[SPY := 31.0], map["SPY" := 31.0], map[])
  {
    SpyIsUpper();
    hide UpperAll;
    assert Due(map[], {"SPY"}, 31.0) == {"SPY"};
    var none: map<string, real> := map[];
    assert none - {"SPY"} == none;
    hide Due;
    assert Upsert(map[], "A", {"SPY"}, 31.0) == map[SPY := 31.0];
    assert Stamp(map[], {"SPY"}, 31.0) == map["SPY" := 31.0];
  }

  lemma SecondWriteIsHeldBack()
    ensures var st := St(map[SPY := 31.0], map["SPY" := 31.0], map[]);
            Registered(st, "A", {"SPY"}, 61.0, 61.0) == st
  {
    SpyIsUpper();
    hide UpperAll;
    assert Due(map["SPY" := 31.0], {"SPY"}, 61.0) == {};
    hide Due;
    NothingWritten(St(map[SPY := 31.0], map["SPY" := 31.0], map[]), "A", 61.0, 61.0);
    hide Upsert, Stamp;
    var none: map<string, real> := map[];
    assert none - {} == none;
  }

  lemma OneFreshRow(now: real)
    ensures Fresh(map[SPY := 31.0], now) == if now < 31.0 + TTL_SEC then {"SPY"} else {}
  {
    assert FreshRow(map[SPY := 31.0], SPY, now) <==> now < 31.0 + TTL_SEC;
  }

  lemma OnlySelection(now: real, cap: int, d: set<string>)
    requires cap >= 1 && d == if now < 31.0 + TTL_SEC then {"SPY"} else {}
    ensures Selection(map[SPY := 31.0], now, cap, d)
  {
    OneFreshRow(now);
    assert |d| <= 1;
  }

  /** The worlds of the run, one per step. */
  function Stage(k: nat, p: real): World
    requires k <= 10
  {
    if k == 0 then EMPTY
    else if k == 1 then EMPTY.(now := 31.0)
    else if k == 2 then Held(31.0, None, {}, None)
    else if k == 3 then Held(31.0, Some({}), {}, None)
    else if k == 4 then Held(31.0, Some({}), {}, Some({"SPY"}))
    else if k == 5 then Held(31.0, Some({"SPY"}), {"SPY"}, None)
    else if k <= 7 then Held(61.0, Some({"SPY"}), {"SPY"}, None)
    else if k == 8 then Held(61.0 + p, Some({"SPY"}), {"SPY"}, None)
    else if k == 9 then Held(61.0 + p, Some({"SPY"}), {"SPY"}, Some({}))
    else Held(61.0 + p, Some({}), {}, None)
  }

  lemma EarlyStages(p: real, k: nat, cap: int)
    requires k < 5 && cap >= 1
    ensures Enabled(Stage(k, p), FIRST[k], cap) && Next(Stage(k, p), FIRST[k]) == Stage(k + 1, p)
  {
    hide Registered, Selection;
    if k == 1 {
      FirstWrite();
      assert Local(Stage(1, p), "A") == St(map[], map[], map[]);
    } else if k == 3 {
      OnlySelection(31.0, cap, {"SPY"});
    } else if k == 4 {
      assert ToAdd(Stage(4, p)) == {"SPY"} && ToRemove(Stage(4, p)) == {};
      assert {} + {"SPY"} == {"SPY"} && {"SPY"} - {} == {"SPY"};
    }
  }

  lemma LateStages(p: real, k: nat, cap: int)
    requires k < 5 && cap >= 1 && p >= 270.0
    ensures Enabled(Stage(k + 5, p), Lapse(p)[k], cap) && Next(Stage(k + 5, p), Lapse(p)[k]) == Stage(k + 6, p)
  {
    hide Registered, Selection;
    if k == 1 {
      SecondWriteIsHeldBack();
      var w := Stage(6, p);
      assert Local(w, "A") == St(map[SPY := 31.0], map["SPY" := 31.0], map[]);
      assert w.views["A" := View(map["SPY" := 31.0], map[])] == w.views;
    } else if k == 3 {
      OnlySelection(61.0 + p, cap, {});
    } else if k == 4 {
      assert ToAdd(Stage(9, p)) == {} && ToRemove(Stage(9, p)) == {"SPY"};
      assert {"SPY"} + {} == {"SPY"} && {"SPY"} - {"SPY"} == {};
    }
  }

  lemma {:induction false} ExecStages(from: nat, steps: seq<Step>, p: real, n: nat)
    requires n <= |steps| && from + |steps| <= 10
    requires forall k | 0 <= k < |steps| :: Next(Stage(from + k, p), steps[k]) == Stage(from + k + 1, p)
    ensures Exec(Stage(from, p), steps[..n]) == Stage(from + n, p)
  {
    hide Stage, Next;
    if n > 0 {
      ExecStages(from, steps, p, n - 1);
      assert steps[..n][..n - 1] == steps[..n - 1];
    }
  }

  /** Both halves of the run are possible and pass through the stages. */
  lemma FirstRuns(p: real, cap: int)
    requires cap >= 1
    ensures ValidRun(EMPTY, FIRST, cap) && Exec(EMPTY, FIRST) == Stage(5, p)
  {
    forall k | 0 <= k < 5
      ensures Enabled(Stage(k, p), FIRST[k], cap) && Next(Stage(k, p), FIRST[k]) == Stage(k + 1, p)
    {
      EarlyStages(p, k, cap);
    }
    hide Next, Enabled, Exec;
    forall k | 0 <= k <= 5 ensures Exec(EMPTY, FIRST[..k]) == Stage(k, p) { ExecStages(0, FIRST, p, k); }
    hide Stage;
    assert FIRST[..5] == FIRST;
  }

  lemma LapseRuns(p: real, cap: int)
    requires cap >= 1 && p >= 270.0
    ensures ValidRun(Stage(5, p), Lapse(p), cap)
    ensures forall k | 0 <= k <= 5 :: Exec(Stage(5, p), Lapse(p)[..k]) == Stage(5 + k, p)
  {
    forall k | 0 <= k < 5
      ensures Enabled(Stage(5 + k, p), Lapse(p)[k], cap) && Next(Stage(5 + k, p), Lapse(p)[k]) == Stage(5 + k + 1, p)
    {
      LateStages(p, k, cap);
    }
    hide Next, Enabled, Exec;
    forall k | 0 <= k <= 5 ensures Exec(Stage(5, p), Lapse(p)[..k]) == Stage(5 + k, p) {
      ExecStages(5, Lapse(p), p, k);
    }
    hide Stage;
  }

  lemma LapseShape(p: real)
    ensures |Lapse(p)| == 5
    ensures forall k | 0 <= k < 5 :: !GivesUp(Lapse(p)[k], "A", "SPY") && (Lapse(p)[k].ReadDesired? <==> k == 3)
    ensures forall k | 0 <= k < 5 :: Renews(Lapse(p)[k], "A", "SPY") <==> k == 1
  {
    SpyIsUpper();
    hide UpperAll;
  }

  /** The last call of the run is the registration that the debounce held back. */
  lemma LastCalls(p: real, cap: int, k: nat)
    requires cap >= 1 && p >= 270.0 && k <= |Lapse(p)|
    ensures LastCall(Stage(5, p), Lapse(p)[..k], "A", "SPY", 31.0) == if k <= 1 then 31.0 else 61.0
    decreases k
  {
    LapseRuns(p, cap);
    LapseShape(p);
    if k > 0 {
      LastCalls(p, cap, k - 1);
      assert Stage(6, p).now == 61.0;
      hide Lapse, Exec, Renews, Stage;
      assert Lapse(p)[..k][..k - 1] == Lapse(p)[..k - 1];
    }
  }

  lemma LapseKeepsRegistering(p: real, cap: int)
    requires cap >= 1 && p >= 270.0
    ensures KeepsRegistering(Stage(5, p), Lapse(p), "A", "SPY", 31.0, p, cap)
  {
    LapseRuns(p, cap);
    LapseShape(p);
    StageFacts(p, cap);
    var w := Stage(5, p);
    hide Lapse, Exec, LastCall, Fresh, Safe, GivesUp, Unsubscribes, Good;
    forall k | 0 <= k <= 5 ensures Exec(w, Lapse(p)[..k]).now - LastCall(w, Lapse(p)[..k], "A", "SPY", 31.0) <= p {
      LastCalls(p, cap, k);
      assert Stage(5 + k, p).now <= if k == 0 then 31.0 else if k <= 2 then 61.0 else 61.0 + p;
    }
    hide Stage;
  }

  /**
   * For every P >= 270, that is P + 30 >= 300, the guarantee fails: in a run from the empty world that meets every
   * other condition of `NeverUnsubscribed`, a reconcile unsubscribes a ticker whose row the arm still has in the table.
   */
  lemma DroppedAtTheBound(p: real, cap: int)
    requires p >= 270.0 && cap >= 1
    ensures var w := Exec(EMPTY, FIRST);
            var v := Exec(w, Lapse(p)[..4]);
            && ValidRun(EMPTY, FIRST, cap) && ValidRun(w, Lapse(p), cap)
            && RecordTrue(w) && Good(w, "A", "SPY", 31.0) && w.live == Some({"SPY"})
            && KeepsRegistering(w, Lapse(p), "A", "SPY", 31.0, p, cap)
            && SPY in v.rows && "SPY" in Unsubscribes(v, Lapse(p)[4])
            && Exec(w, Lapse(p)).live == Some({}) && SPY in Exec(w, Lapse(p)).rows
  {
    hide Exec, Stage, Good, RecordTrue, Unsubscribes, KeepsRegistering, ValidRun;
    FirstRuns(p, cap);
    LapseRuns(p, cap);
    LapseKeepsRegistering(p, cap);
    StageFacts(p, cap);
    assert Lapse(p)[..5] == Lapse(p);
  }

  lemma StageFacts(p: real, cap: int)
    requires p >= 270.0 && cap >= 1
    ensures Good(Stage(5, p), "A", "SPY", 31.0) && RecordTrue(Stage(5, p))
    ensures "SPY" !in Fresh(Stage(8, p).rows, Stage(8, p).now)
    ensures "SPY" in Unsubscribes(Stage(9, p), Lapse(p)[4])
    ensures Stage(5, p).live == Some({"SPY"}) && Stage(10, p).live == Some({})
    ensures SPY in Stage(9, p).rows && SPY in Stage(10, p).rows
  {
    OneFreshRow(31.0);
    OneFreshRow(61.0 + p);
    UnsubscribesIs(Stage(9, p), Lapse(p)[4]);
    hide Unsubscribes;
    assert ToAdd(Stage(9, p)) == {};
  }
}
