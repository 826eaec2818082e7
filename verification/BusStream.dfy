/**
 * The reconnect supervisor shared by both bus writers, and its status row
 * (src/agentic_investor/experiments/_bus_stream.py).
 */
module BusStream {
  import opened Basics

  /** The singleton status row; opening it keeps the counters of an earlier process. */
  class BusStatus {
    var totalEvents: int
    var reconnectCount: nat
    var isConnected: bool
    var lastEventAt: Option<string>

    constructor (totalEvents: int, reconnectCount: nat, isConnected: bool, lastEventAt: Option<string>)
      ensures this.totalEvents == totalEvents && this.reconnectCount == reconnectCount
      ensures this.isConnected == isConnected && this.lastEventAt == lastEventAt
    {
      this.totalEvents, this.reconnectCount := totalEvents, reconnectCount;
      this.isConnected, this.lastEventAt := isConnected, lastEventAt;
    }

    method Mark(connected: bool)
      modifies this`isConnected
      ensures isConnected == connected
    {
      isConnected := connected;
    }

    method BumpReconnect() returns (n: nat)
      modifies this`reconnectCount
      ensures n == reconnectCount == old(reconnectCount) + 1
    {
      reconnectCount := reconnectCount + 1;
      n := reconnectCount;
    }

    method RecordEvent(ts: Option<string>, count: int)
      modifies this`totalEvents, this`lastEventAt
      ensures totalEvents == old(totalEvents) + count
      ensures lastEventAt == if ts.Some? then ts else old(lastEventAt)
    {
      totalEvents := totalEvents + count;
      if ts.Some? {
        lastEventAt := ts;
      }
    }
  }

  // ---- the supervisor loop ----

  /** One pass of the loop, by what the world does in it. */
  datatype Pass =
    | StopSeen
    | FactoryFails(stopInWait: bool)
    | Connects(stopInWait: bool)

  datatype Limits = Limits(initial: real, max: real, maxReconnects: int)

  /** Loop variables, status row, and a record of what was called: streams run, backfills fired, waits taken. */
  datatype Sup = Sup(backoff: real, first: bool, connected: bool, count: nat,
                     runs: nat, backfills: nat, waits: seq<real>, result: Option<int>)

  function Doubled(backoff: real, lim: Limits): real {
    Min(backoff * 2.0, lim.max)
  }

  function Turn(s: Sup, p: Pass, lim: Limits): Sup {
    match p
    case StopSeen => s.(result := Some(0))
    case FactoryFails(stop) =>
      var s1 := s.(waits := s.waits + [s.backoff]);
      if stop then s1.(result := Some(0)) else s1.(backoff := Doubled(s.backoff, lim))
    case Connects(stop) =>
      var n := if s.first then s.count else s.count + 1;
      if !s.first && n >= lim.maxReconnects then
        s.(count := n, backfills := s.backfills + 1, connected := false, result := Some(1))
      else
        var s1 := s.(count := n, backfills := s.backfills + if s.first then 0 else 1, runs := s.runs + 1,
                     first := false, connected := false, waits := s.waits + [lim.initial]);
        if stop then s1.(backoff := lim.initial, result := Some(0)) else s1.(backoff := Doubled(lim.initial, lim))
  }

  function Start(count0: nat, connected0: bool, lim: Limits): Sup {
    Sup(lim.initial, true, connected0, count0, 0, 0, [], None)
  }

  /** The loop after the given passes; passes after a return change nothing. */
  function Supervise(passes: seq<Pass>, count0: nat, connected0: bool, lim: Limits): Sup {
    if passes == [] then Start(count0, connected0, lim)
    else
      var s := Supervise(passes[..|passes| - 1], count0, connected0, lim);
      if s.result.Some? then s else Turn(s, passes[|passes| - 1], lim)
  }

  method RunWithReconnect(passes: seq<Pass>, status: BusStatus, lim: Limits)
    returns (result: Option<int>, runs: nat, backfills: nat, waits: seq<real>)
    modifies status`isConnected, status`reconnectCount
    ensures var s := Supervise(passes, old(status.reconnectCount), old(status.isConnected), lim);
            && result == s.result && runs == s.runs && backfills == s.backfills && waits == s.waits
            && status.isConnected == s.connected && status.reconnectCount == s.count
  {
    var backoff, first := lim.initial, true;
    runs, backfills, waits, result := 0, 0, [], None;
    for i := 0 to |passes|
      invariant Supervise(passes[..i], old(status.reconnectCount), old(status.isConnected), lim)
             == Sup(backoff, first, status.isConnected, status.reconnectCount, runs, backfills, waits, result)
    {
      assert passes[..i + 1][..i] == passes[..i];
      if result.Some? {
        continue;
      }
      match passes[i] {
        case StopSeen =>
          result := Some(0);
        case FactoryFails(stop) =>
          waits := waits + [backoff];
          if stop {
            result := Some(0);
          } else {
            backoff := Min(backoff * 2.0, lim.max);
          }
        case Connects(stop) =>
          status.Mark(true);
          if !first {
            var n := status.BumpReconnect();
            backfills := backfills + 1;
            if n >= lim.maxReconnects {
              status.Mark(false);
              result := Some(1);
              continue;
            }
          }
          runs := runs + 1;
          status.Mark(false);
          first := false;
          backoff := lim.initial;
          waits := waits + [backoff];
          if stop {
            result := Some(0);
          } else {
            backoff := Min(backoff * 2.0, lim.max);
          }
      }
    }
    assert passes[..|passes|] == passes;
  }

  // ---- how often it connects ----

  function Connections(passes: seq<Pass>): nat {
    if passes == [] then 0
    else Connections(passes[..|passes| - 1]) + if passes[|passes| - 1].Connects? then 1 else 0
  }

  predicate NoStop(passes: seq<Pass>) {
    forall k | 0 <= k < |passes| :: !passes[k].StopSeen? && !passes[k].stopInWait
  }

  /** The number of stream runs a process may make, given the counter it starts from. */
  function Budget(count0: nat, lim: Limits): nat {
    if lim.maxReconnects - count0 >= 1 then lim.maxReconnects - count0 else 1
  }

  /** With or without stops: never more runs than the budget, one backfill per reconnect, down whenever it has run. */
  lemma {:induction false} RunsBounded(passes: seq<Pass>, count0: nat, connected0: bool, lim: Limits)
    ensures var s := Supervise(passes, count0, connected0, lim);
            && s.runs <= Budget(count0, lim)
            && s.backfills == s.count - count0
            && (s.first <==> s.runs == 0)
            && (s.first ==> s.backfills == 0)
            && (s.result.None? && !s.first ==> s.backfills == s.runs - 1)
            && (s.result == Some(1) ==> s.backfills == s.runs == Budget(count0, lim))
            && (s.connected <==> connected0 && s.first)
  {
    if passes != [] { RunsBounded(passes[..|passes| - 1], count0, connected0, lim); }
  }

  /**
   * Without a stop: exactly one run per connection until the budget max(1, max_reconnects - count0) is used up; the
   * next connection only fires its backfill and returns 1, disconnected.
   */
  lemma {:induction false} RunsExact(passes: seq<Pass>, count0: nat, connected0: bool, lim: Limits)
    requires NoStop(passes)
    ensures var s, c, m := Supervise(passes, count0, connected0, lim), Connections(passes), Budget(count0, lim);
            && s.runs == MinNat(c, m)
            && s.backfills == (if c == 0 then 0 else MinNat(c - 1, m))
            && s.result == (if c > m then Some(1) else None)
            && (s.result.Some? ==> !s.connected)
  {
    RunsBounded(passes, count0, connected0, lim);
    if passes != [] {
      RunsExact(passes[..|passes| - 1], count0, connected0, lim);
      RunsBounded(passes[..|passes| - 1], count0, connected0, lim);
    }
  }

  /** Once it has returned, nothing more happens. */
  lemma {:induction false} ReturnsOnce(passes: seq<Pass>, n: nat, count0: nat, connected0: bool, lim: Limits)
    requires n <= |passes| && Supervise(passes[..n], count0, connected0, lim).result.Some?
    ensures Supervise(passes, count0, connected0, lim) == Supervise(passes[..n], count0, connected0, lim)
  {
    if n == |passes| {
      assert passes[..n] == passes;
    } else {
      var init := passes[..|passes| - 1];
      assert init[..n] == passes[..n];
      ReturnsOnce(init, n, count0, connected0, lim);
    }
  }

  /** The stop event is seen at the top of the loop, or during a wait. */
  predicate Stops(p: Pass) {
    p.StopSeen? || p.stopInWait
  }

  /**
   * The first stop ends the loop at once: with result 0, unless the connection of that very pass, or an earlier one,
   * has already exhausted the budget.
   */
  lemma StopReturnsZero(passes: seq<Pass>, k: nat, count0: nat, connected0: bool, lim: Limits)
    requires k < |passes| && NoStop(passes[..k]) && Stops(passes[k])
    ensures var s := Supervise(passes, count0, connected0, lim);
            && s == Supervise(passes[..k + 1], count0, connected0, lim)
            && s.result == Some(if Connections(passes[..k + 1]) <= Budget(count0, lim) then 0 else 1)
  {
    var init, upTo := passes[..k], passes[..k + 1];
    assert upTo[..k] == init && upTo[k] == passes[k];
    RunsExact(init, count0, connected0, lim);
    RunsBounded(init, count0, connected0, lim);
    hide NoStop;
    assert Connections(upTo) == Connections(init) + if passes[k].Connects? then 1 else 0;
    assert Supervise(upTo, count0, connected0, lim).result.Some?;
    ReturnsOnce(passes, k + 1, count0, connected0, lim);
  }

  // ---- how long it waits ----

  function Pow2(n: nat): nat {
    if n == 0 then 1 else 2 * Pow2(n - 1)
  }

  /** The wait after `n` doublings, capped. */
  function Wait(n: nat, lim: Limits): real {
    Min(Pow2(n) as real * lim.initial, lim.max)
  }

  /** Doublings pending after the passes: one more per factory failure, back to one after a run. */
  function Level(passes: seq<Pass>): nat {
    if passes == [] then 0
    else
      match passes[|passes| - 1]
      case Connects(_) => 1
      case _ => Level(passes[..|passes| - 1]) + 1
  }

  function ExpectedWaits(passes: seq<Pass>, lim: Limits): seq<real> {
    if passes == [] then []
    else
      var init := passes[..|passes| - 1];
      ExpectedWaits(init, lim) + [if passes[|passes| - 1].Connects? then lim.initial else Wait(Level(init), lim)]
  }

  lemma WaitDoubles(n: nat, lim: Limits)
    requires 0.0 < lim.initial <= lim.max
    ensures Doubled(Wait(n, lim), lim) == Wait(n + 1, lim)
    ensures lim.initial <= Wait(n, lim) <= lim.max
    ensures Wait(0, lim) == lim.initial
  {
    var a := Pow2(n) as real * lim.initial;
    assert Pow2(n + 1) as real * lim.initial == 2.0 * a;
    Pow2Positive(n);
    assert a >= lim.initial by { Scaled(Pow2(n) as real, lim.initial); }
  }

  lemma Scaled(k: real, x: real)
    requires k >= 1.0 && x > 0.0
    ensures k * x >= x
  {
    assert (k - 1.0) * x >= 0.0;
  }

  lemma {:induction false} Pow2Positive(n: nat)
    ensures Pow2(n) >= 1
  {
    if n > 0 { Pow2Positive(n - 1); }
  }

  /**
   * While the supervisor runs, every wait is `initial` after a stream run and otherwise min(initial * 2^n, max) with n
   * the doublings since; so all of them lie in [initial, max].
   */
  lemma {:induction false} WaitsExact(passes: seq<Pass>, count0: nat, connected0: bool, lim: Limits)
    requires NoStop(passes) && 0.0 < lim.initial <= lim.max && Supervise(passes, count0, connected0, lim).result.None?
    ensures var s := Supervise(passes, count0, connected0, lim);
            && s.backoff == Wait(Level(passes), lim)
            && s.waits == ExpectedWaits(passes, lim)
            && forall w | w in s.waits :: lim.initial <= w <= lim.max
  {
    WaitDoubles(0, lim);
    if passes != [] {
      var init := passes[..|passes| - 1];
      WaitsExact(init, count0, connected0, lim);
      WaitDoubles(Level(init), lim);
      hide Wait, Doubled;
    }
  }
}
