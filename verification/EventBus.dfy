/** In-process fanout with a ring buffer (src/agentic_investor/dashboard/events.py). */
module EventBus {
  import opened Basics

  /** An event and the thread that published it. */
  datatype Event = Event(publisher: string, payload: string)

  // ---- the ring buffer and `recent` ----

  /** `deque(maxlen=cap).append` */
  function Push(buffer: seq<Event>, e: Event, cap: nat): seq<Event> {
    var all := buffer + [e];
    if |all| <= cap then all else all[|all| - cap..]
  }

  /** The last `n` of a list. */
  function Last(s: seq<Event>, n: nat): seq<Event> {
    if n >= |s| then s else s[|s| - n..]
  }

  /** Python's `data[-limit:]`: a zero limit keeps everything, a negative one drops from the front. */
  function Tail(data: seq<Event>, limit: int): seq<Event> {
    if limit > 0 then Last(data, limit)
    else if -limit <= |data| then data[-limit..]
    else []
  }

  lemma PushIsLast(history: seq<Event>, e: Event, cap: nat)
    ensures Push(Last(history, cap), e, cap) == Last(history + [e], cap)
  {
  }

  predicate Suffix(s: seq<Event>, of: seq<Event>) {
    |s| <= |of| && s == of[|of| - |s|..]
  }

  /** `recent` always returns a suffix of the history. */
  lemma RecentIsSuffix(history: seq<Event>, cap: nat, limit: int)
    ensures Suffix(Tail(Last(history, cap), limit), history)
  {
    var data := Last(history, cap);
    assert Suffix(data, history);
    var r := Tail(data, limit);
    assert Suffix(r, data);
    assert |r| <= |data| ==> data[|data| - |r|..] == history[|history| - |data|..][|data| - |r|..];
  }

  /** It is the last min(limit, available) events exactly when the limit is positive or the buffer empty. */
  lemma RecentCount(data: seq<Event>, limit: int)
    requires limit >= 0
    ensures Tail(data, limit) == Last(data, limit) <==> limit > 0 || data == []
  {
    if limit == 0 && data != [] {
      assert Tail(data, 0) == data && |Last(data, 0)| == 0;
    }
  }

  /** Concretely: `recent(limit=0)` on a bus with one event returns it, not nothing. */
  lemma LimitZeroReturnsAll(e: Event)
    ensures Tail(Push([], e, 500), 0) == [e] && Last(Push([], e, 500), 0) == []
  {
    assert [] + [e] == [e];
    RecentCount([e], 0);
  }

  // ---- concurrent publishers, one loop ----

  /**
   * `history` is every event in the order the lock was taken; `queues` everything ever put on a client's queue; `ready`
   * the loop's callback queue; `inFlight` what a publisher has still to schedule after leaving the lock. For the
   * statement: `owed` is what each client should get in all, `subAt` and `bindAt` the length of the history when the
   * client subscribed and when the loop was bound.
   */
  datatype State = State(history: seq<Event>, buffer: seq<Event>, subscribers: set<nat>, bindAt: Option<nat>,
                         queues: map<nat, seq<Event>>, ready: seq<(nat, Event)>,
                         inFlight: map<string, (Event, seq<nat>)>,
                         owed: map<nat, seq<Event>>, subAt: map<nat, nat>)

  datatype Step =
    | BindLoop
    | Subscribe(id: nat)
    | Unsubscribe(id: nat)
    /** The critical section of `publish`: append, and copy the subscriber set in some order. */
    | PublishLocked(e: Event, order: seq<nat>)
    /** One `call_soon_threadsafe`, outside the lock. */
    | Schedule(publisher: string)
    /** The loop runs the oldest scheduled callback. */
    | RunCallback

  predicate Enumerates(order: seq<nat>, ids: set<nat>) {
    && (forall i, j | 0 <= i < j < |order| :: order[i] != order[j])
    && (set id | id in order) == ids
  }

  predicate Enabled(s: State, step: Step) {
    match step
    case Subscribe(id) => id !in s.queues
    case PublishLocked(e, order) => e.publisher !in s.inFlight && Enumerates(order, s.subscribers)
    case Schedule(p) => p in s.inFlight
    case RunCallback => s.ready != []
    case _ => true
  }

  function Next(s: State, step: Step, cap: nat): State {
    match step
    case BindLoop => s.(bindAt := if s.bindAt.Some? then s.bindAt else Some(|s.history|))
    case Subscribe(id) =>
      s.(subscribers := s.subscribers + {id}, queues := s.queues[id := s.buffer], owed := s.owed[id := s.buffer],
         subAt := s.subAt[id := |s.history|])
    case Unsubscribe(id) => s.(subscribers := s.subscribers - {id})
    case PublishLocked(e, order) =>
      var s1 := s.(history := s.history + [e], buffer := Push(s.buffer, e, cap));
      if s.bindAt.None? || order == [] then s1
      else
        s1.(inFlight := s.inFlight[e.publisher := (e, order)],
            owed := map id | id in s.owed :: if id in s.subscribers then s.owed[id] + [e] else s.owed[id])
    case Schedule(p) =>
      if p !in s.inFlight || s.inFlight[p].1 == [] then s
      else
        var (e, rest) := s.inFlight[p];
        s.(ready := s.ready + [(rest[0], e)],
           inFlight := if |rest| == 1 then s.inFlight - {p} else s.inFlight[p := (e, rest[1..])])
    case RunCallback =>
      if s.ready == [] || s.ready[0].0 !in s.queues then s
      else
        var (id, e) := s.ready[0];
        s.(queues := s.queues[id := s.queues[id] + [e]], ready := s.ready[1..])
  }

  /** `n` of a publisher's scheduling calls. */
  function ScheduleN(s: State, p: string, n: nat, cap: nat): State {
    if n == 0 then s else Next(ScheduleN(s, p, n - 1, cap), Schedule(p), cap)
  }

  /** The bus object; client queues are named by number, and the loop's callback queue is kept beside it. */
  class Bus {
    const cap: nat
    var buffer: seq<Event>
    var subscribers: set<nat>
    var bound: bool
    var queues: map<nat, seq<Event>>
    var ready: seq<(nat, Event)>
    ghost var history: seq<Event>
    ghost var bindAt: Option<nat>
    ghost var inFlight: map<string, (Event, seq<nat>)>
    ghost var owed: map<nat, seq<Event>>
    ghost var subAt: map<nat, nat>

    ghost function View(): State
      reads this
    {
      State(history, buffer, subscribers, bindAt, queues, ready, inFlight, owed, subAt)
    }

    ghost predicate Valid()
      reads this
    {
      bound == bindAt.Some? && buffer == Last(history, cap)
    }

    constructor (cap: nat)
      ensures Valid() && View() == EMPTY && this.cap == cap
    {
      this.cap := cap;
      buffer, subscribers, bound, queues, ready := [], {}, false, map[], [];
      history, bindAt, inFlight, owed, subAt := [], None, map[], map[], map[];
    }

    method Bind()
      requires Valid()
      modifies this
      ensures Valid() && View() == Next(old(View()), BindLoop, cap)
    {
      bound := true;
      if bindAt.None? { bindAt := Some(|history|); }
    }

    /** Register a new queue and preload it from the buffer, all under the lock. */
    method AddSubscriber(id: nat)
      requires Valid() && id !in queues
      modifies this
      ensures Valid() && View() == Next(old(View()), Subscribe(id), cap)
    {
      subscribers := subscribers + {id};
      var q: seq<Event> := [];
      for i := 0 to |buffer|
        invariant q == buffer[..i]
      {
        q := q + [buffer[i]];
      }
      assert buffer[..|buffer|] == buffer;
      queues := queues[id := q];
      owed := owed[id := q];
      subAt := subAt[id := |history|];
    }

    method Remove(id: nat)
      requires Valid()
      modifies this
      ensures Valid() && View() == Next(old(View()), Unsubscribe(id), cap)
      ensures id !in subscribers && subscribers == old(subscribers) - {id}
      ensures buffer == old(buffer) && queues == old(queues) && ready == old(ready) && bound == old(bound)
    {
      subscribers := subscribers - {id};
    }

    /** `list(self._subscribers)` */
    method Snapshot() returns (order: seq<nat>)
      ensures Enumerates(order, subscribers)
    {
      order := [];
      var todo := subscribers;
      while todo != {}
        invariant todo <= subscribers && Enumerates(order, subscribers - todo)
        decreases todo
      {
        var id :| id in todo;
        assert (set x | x in order + [id]) == (set x | x in order) + {id};
        assert subscribers - (todo - {id}) == subscribers - todo + {id};
        todo := todo - {id};
        order := order + [id];
      }
      assert subscribers - todo == subscribers;
    }

    /** The critical section of `publish`. */
    method EnterLock(e: Event) returns (order: seq<nat>)
      requires Valid() && e.publisher !in inFlight
      modifies this
      ensures Valid() && bound == old(bound) && Enumerates(order, old(subscribers))
      ensures View() == Next(old(View()), PublishLocked(e, order), cap)
      ensures bound && order != [] ==> e.publisher in inFlight && inFlight[e.publisher] == (e, order)
    {
      order := Snapshot();
      PushIsLast(history, e, cap);
      hide Push, Last, Enumerates;
      buffer := Push(buffer, e, cap);
      history := history + [e];
      if bound && order != [] {
        owed := map id | id in owed :: if id in subscribers then owed[id] + [e] else owed[id];
        inFlight := inFlight[e.publisher := (e, order)];
      }
    }

    /** `publish` with no other thread in between: the critical section, then one scheduling call per subscriber. */
    method Publish(e: Event) returns (order: seq<nat>)
      requires Valid() && e.publisher !in inFlight
      modifies this
      ensures Valid() && Enumerates(order, old(subscribers))
      ensures var s := Next(old(View()), PublishLocked(e, order), cap);
              View() == if old(bound) then ScheduleN(s, e.publisher, |order|, cap) else s
    {
      hide Next, Enumerates;
      order := EnterLock(e);
      if !bound || order == [] {
        return;
      }
      ghost var s := View();
      for k := 0 to |order|
        invariant View() == ScheduleN(s, e.publisher, k, cap) && Valid()
        invariant k < |order| ==> e.publisher in inFlight && inFlight[e.publisher] == (e, order[k..])
      {
        assert order[k..][1..] == order[k + 1..];
        CallSoon(order[k], e, order[k..]);
      }
    }

    /** `loop.call_soon_threadsafe(q.put_nowait, event)` */
    method CallSoon(id: nat, e: Event, ghost rest: seq<nat>)
      requires Valid() && e.publisher in inFlight && inFlight[e.publisher] == (e, rest)
      requires rest != [] && rest[0] == id
      modifies this`ready, this`inFlight
      ensures Valid() && View() == Next(old(View()), Schedule(e.publisher), cap)
      ensures |rest| > 1 ==> e.publisher in inFlight && inFlight[e.publisher] == (e, rest[1..])
    {
      ready := ready + [(id, e)];
      inFlight := if |rest| == 1 then inFlight - {e.publisher} else inFlight[e.publisher := (e, rest[1..])];
    }

    /** One turn of the loop. */
    method RunOne()
      requires Valid() && ready != [] && ready[0].0 in queues
      modifies this
      ensures Valid() && View() == Next(old(View()), RunCallback, cap)
    {
      var (id, e) := ready[0];
      queues := queues[id := queues[id] + [e]];
      ready := ready[1..];
    }

    /** A suffix of the history, as long as the buffer and Python's slice rule allow. */
    method Recent(limit: int) returns (data: seq<Event>)
      requires Valid()
      ensures Suffix(data, history)
      ensures var available := MinNat(|history|, cap);
              |data| == if limit == 0 then available
                        else if limit > 0 then MinNat(limit, available)
                        else if available + limit >= 0 then available + limit else 0
    {
      RecentIsSuffix(history, cap, limit);
      data := Tail(buffer, limit);
    }
  }

  const EMPTY := State([], [], {}, None, map[], [], map[], map[], map[])

  function Exec(steps: seq<Step>, cap: nat): State {
    if steps == [] then EMPTY else Next(Exec(steps[..|steps| - 1], cap), steps[|steps| - 1], cap)
  }

  predicate ValidRun(steps: seq<Step>, cap: nat) {
    forall k | 0 <= k < |steps| :: Enabled(Exec(steps[..k], cap), steps[k])
  }

  /** The events of one publisher, in order. */
  function By(s: seq<Event>, p: string): seq<Event> {
    if s == [] then []
    else if s[|s| - 1].publisher == p then By(s[..|s| - 1], p) + [s[|s| - 1]]
    else By(s[..|s| - 1], p)
  }

  /** The scheduled events addressed to one client, in order. */
  function For(ready: seq<(nat, Event)>, id: nat): seq<Event> {
    if ready == [] then []
    else if ready[0].0 == id then [ready[0].1] + For(ready[1..], id)
    else For(ready[1..], id)
  }

  function Flying(s: State, p: string, id: nat): seq<Event> {
    if p in s.inFlight && id in s.inFlight[p].1 then [s.inFlight[p].0] else []
  }

  /** Everything on its way to a client from one publisher: on the queue, scheduled, and not yet scheduled. */
  function Coming(s: State, p: string, id: nat): seq<Event>
    requires id in s.queues
  {
    By(s.queues[id], p) + By(For(s.ready, id), p) + Flying(s, p, id)
  }

  predicate Shape(s: State) {
    && s.queues.Keys == s.owed.Keys == s.subAt.Keys && s.subscribers <= s.queues.Keys
    && (forall i | 0 <= i < |s.ready| :: s.ready[i].0 in s.queues)
    && (forall p | p in s.inFlight ::
          && s.inFlight[p].0.publisher == p && s.inFlight[p].1 != []
          && (forall i | 0 <= i < |s.inFlight[p].1| :: s.inFlight[p].1[i] in s.queues)
          && (forall i, j | 0 <= i < j < |s.inFlight[p].1| :: s.inFlight[p].1[i] != s.inFlight[p].1[j]))
  }

  /** What a present subscriber is owed: the buffer it found, and every event published since with the loop bound. */
  predicate OwedOk(s: State, cap: nat) {
    && s.buffer == Last(s.history, cap)
    && (s.bindAt.Some? ==> s.bindAt.value <= |s.history|)
    && forall id | id in s.subscribers ::
         && id in s.subAt && id in s.owed && s.subAt[id] <= |s.history|
         && s.owed[id] == Last(s.history[..s.subAt[id]], cap) + Since(s, s.subAt[id])
  }

  function Since(s: State, k: nat): seq<Event> {
    if s.bindAt.None? then []
    else
      var from := if s.bindAt.value > k then s.bindAt.value else k;
      if from <= |s.history| then s.history[from..] else []
  }

  ghost predicate AllComing(s: State) {
    && s.queues.Keys == s.owed.Keys
    && forall id, p | id in s.queues :: Coming(s, p, id) == By(s.owed[id], p)
  }

  lemma ByAppend(s: seq<Event>, e: Event, p: string)
    ensures By(s + [e], p) == if e.publisher == p then By(s, p) + [e] else By(s, p)
  {
    assert (s + [e])[..|s|] == s;
  }

  lemma {:induction false} ByJoin(a: seq<Event>, b: seq<Event>, p: string)
    ensures By(a + b, p) == By(a, p) + By(b, p)
  {
    if b == [] {
      assert a + b == a;
    } else {
      var init := b[..|b| - 1];
      assert a + b == (a + init) + [b[|b| - 1]];
      ByJoin(a, init, p);
      ByAppend(a + init, b[|b| - 1], p);
      ByAppend(init, b[|b| - 1], p);
      assert init + [b[|b| - 1]] == b;
    }
  }

  lemma {:induction false} ForAppend(ready: seq<(nat, Event)>, r: (nat, Event), id: nat)
    ensures For(ready + [r], id) == if r.0 == id then For(ready, id) + [r.1] else For(ready, id)
  {
    if ready == [] {
      assert [r][1..] == [];
    } else {
      assert (ready + [r])[1..] == ready[1..] + [r];
      ForAppend(ready[1..], r, id);
    }
  }

  lemma ShapeStep(s: State, step: Step, cap: nat)
    requires Shape(s) && Enabled(s, step)
    ensures Shape(Next(s, step, cap))
  {
    if step.PublishLocked? {
      PublishShape(s, step.e, step.order, cap);
      hide Shape;
    } else {
      hide Push, Last;
    }
  }

  lemma PublishShape(s: State, e: Event, order: seq<nat>, cap: nat)
    requires Shape(s) && Enabled(s, PublishLocked(e, order))
    ensures Shape(Next(s, PublishLocked(e, order), cap))
  {
    assert forall i | 0 <= i < |order| :: order[i] in s.subscribers;
    hide Push, Last;
  }

  lemma PublishOwed(s: State, e: Event, order: seq<nat>, cap: nat)
    requires Shape(s) && OwedOk(s, cap) && Enabled(s, PublishLocked(e, order))
    ensures OwedOk(Next(s, PublishLocked(e, order), cap), cap)
  {
    var s' := Next(s, PublishLocked(e, order), cap);
    PushIsLast(s.history, e, cap);
    hide Push, Last, Since;
    assert s'.buffer == Last(s'.history, cap) && s'.bindAt == s.bindAt;
    forall id | id in s.subscribers
      ensures id in s'.owed && s'.owed[id] == Last(s'.history[..s.subAt[id]], cap) + Since(s', s.subAt[id])
    {
      assert s'.history[..s.subAt[id]] == s.history[..s.subAt[id]];
      SinceGrows(s, s', e, s.subAt[id]);
      assert id in order;
      OwedGrows(s, s', e, cap, id);
    }
    hide Next, Shape;
  }

  lemma OwedGrows(s: State, s': State, e: Event, cap: nat, id: nat)
    requires id in s.owed && id in s.subAt && s.subAt[id] <= |s.history| && id in s'.owed
    requires s.owed[id] == Last(s.history[..s.subAt[id]], cap) + Since(s, s.subAt[id])
    requires s'.owed[id] == if s.bindAt.Some? then s.owed[id] + [e] else s.owed[id]
    requires Since(s', s.subAt[id]) == if s.bindAt.Some? then Since(s, s.subAt[id]) + [e] else []
    ensures s'.owed[id] == Last(s.history[..s.subAt[id]], cap) + Since(s', s.subAt[id])
  {
    hide Last;
  }

  lemma OwedStep(s: State, step: Step, cap: nat)
    requires Shape(s) && OwedOk(s, cap) && Enabled(s, step)
    ensures OwedOk(Next(s, step, cap), cap)
  {
    if step.PublishLocked? {
      PublishOwed(s, step.e, step.order, cap);
      hide OwedOk;
    } else {
      assert s.history[..|s.history|] == s.history;
      hide Push, Last;
    }
  }

  lemma SinceGrows(s: State, s': State, e: Event, k: nat)
    requires s'.bindAt == s.bindAt && s'.history == s.history + [e] && k <= |s.history|
    requires s.bindAt.Some? ==> s.bindAt.value <= |s.history|
    ensures Since(s', k) == if s.bindAt.Some? then Since(s, k) + [e] else []
  {
  }

  lemma PublishComing(s: State, e: Event, order: seq<nat>, cap: nat, id: nat, p: string)
    requires Shape(s) && AllComing(s) && Enabled(s, PublishLocked(e, order)) && id in s.queues
    ensures var s' := Next(s, PublishLocked(e, order), cap);
            Coming(s', p, id) == By(s'.owed[id], p)
  {
    assert Coming(s, p, id) == By(s.owed[id], p);
    ByAppend(s.owed[id], e, p);
    PublishFlies(s, e, order, cap, id, p);
    hide Next, Enabled, Shape, AllComing, By, For, Flying;
  }

  lemma PublishFlies(s: State, e: Event, order: seq<nat>, cap: nat, id: nat, p: string)
    requires Shape(s) && Enabled(s, PublishLocked(e, order)) && id in s.queues
    ensures var s' := Next(s, PublishLocked(e, order), cap);
            && s'.queues == s.queues && s'.ready == s.ready && id in s'.owed
            && s'.owed[id] == if s.bindAt.Some? && id in s.subscribers then s.owed[id] + [e] else s.owed[id]
    ensures Flying(s, e.publisher, id) == []
    ensures Flying(Next(s, PublishLocked(e, order), cap), p, id)
            == if p == e.publisher && s.bindAt.Some? && id in s.subscribers then [e] else Flying(s, p, id)
  {
    assert id in order <==> id in s.subscribers;
    hide Push;
  }

  /** Moving the middle event between the three parts of what is coming. */
  lemma Regroup(a: seq<Event>, b: seq<Event>, e: seq<Event>, c: seq<Event>)
    ensures a + (b + e) + [] == a + b + e
    ensures (a + e) + b + c == a + (e + b) + c
  {
  }

  /** What scheduling does to one client's share: the head of the to-do list moves to the loop. */
  lemma ScheduleMoves(s: State, q: string, cap: nat, id: nat, p: string)
    requires Shape(s) && Enabled(s, Schedule(q)) && id in s.queues
    ensures var s' := Next(s, Schedule(q), cap);
            var (e, rest) := s.inFlight[q];
            if id == rest[0] then
              && For(s'.ready, id) == For(s.ready, id) + [e]
              && Flying(s', p, id) == (if p == q then [] else Flying(s, p, id))
              && Flying(s, q, id) == [e]
            else
              For(s'.ready, id) == For(s.ready, id) && Flying(s', p, id) == Flying(s, p, id)
  {
    var (e, rest) := s.inFlight[q];
    ForAppend(s.ready, (rest[0], e), id);
    assert forall i | 1 <= i < |rest| :: rest[1..][i - 1] == rest[i];
    assert id in rest <==> id == rest[0] || id in rest[1..];
    hide For;
  }

  lemma ScheduleComing(s: State, q: string, cap: nat, id: nat, p: string)
    requires Shape(s) && AllComing(s) && Enabled(s, Schedule(q)) && id in s.queues
    ensures var s' := Next(s, Schedule(q), cap);
            Coming(s', p, id) == By(s'.owed[id], p)
  {
    ScheduleMoves(s, q, cap, id, p);
    ScheduleKeeps(s, q, cap);
    var s' := Next(s, Schedule(q), cap);
    assert Coming(s, p, id) == By(s.owed[id], p);
    var e := s.inFlight[q].0;
    ByAppend(For(s.ready, id), e, p);
    Regroup(By(s.queues[id], p), By(For(s.ready, id), p), [e], []);
    assert s.inFlight[q].0.publisher == q;
    hide By, For, Flying, Next, Shape;
  }

  lemma ScheduleKeeps(s: State, q: string, cap: nat)
    ensures var s' := Next(s, Schedule(q), cap);
            s'.queues == s.queues && s'.owed == s.owed
  {
  }

  lemma CallbackComing(s: State, cap: nat, id: nat, p: string)
    requires Shape(s) && AllComing(s) && Enabled(s, RunCallback) && id in s.queues
    ensures var s' := Next(s, RunCallback, cap);
            Coming(s', p, id) == By(s'.owed[id], p)
  {
    assert Coming(s, p, id) == By(s.owed[id], p);
    var (to, e) := s.ready[0];
    var rest := For(s.ready[1..], id);
    if to == id {
      ByAppend(s.queues[id], e, p);
      ByJoin([e], rest, p);
      ByAppend([], e, p);
      assert [] + [e] == [e];
      Regroup(By(s.queues[id], p), By(rest, p), By([e], p), Flying(s, p, id));
      assert By(s.queues[id] + [e], p) == By(s.queues[id], p) + By([e], p);
    }
    assert Flying(Next(s, RunCallback, cap), p, id) == Flying(s, p, id);
    hide By, For, Flying;
  }

  lemma SubscribeComing(s: State, q: nat, cap: nat, id: nat, p: string)
    requires Shape(s) && AllComing(s) && Enabled(s, Subscribe(q)) && (id in s.queues || id == q)
    ensures var s' := Next(s, Subscribe(q), cap);
            Coming(s', p, id) == By(s'.owed[id], p)
  {
    if id == q {
      NothingFor(s.ready, q, s.queues.Keys);
      assert Flying(s, p, q) == [];
      hide For;
    } else {
      assert Coming(s, p, id) == By(s.owed[id], p);
      hide By, For;
    }
  }

  lemma {:induction false} NothingFor(ready: seq<(nat, Event)>, id: nat, known: set<nat>)
    requires id !in known && forall i | 0 <= i < |ready| :: ready[i].0 in known
    ensures For(ready, id) == []
  {
    if ready != [] { NothingFor(ready[1..], id, known); }
  }

  lemma ComingStep(s: State, step: Step, cap: nat)
    requires Shape(s) && AllComing(s) && Enabled(s, step)
    ensures AllComing(Next(s, step, cap))
  {
    var s' := Next(s, step, cap);
    forall id, p | id in s'.queues ensures Coming(s', p, id) == By(s'.owed[id], p) {
      match step
      case PublishLocked(e, order) => PublishComing(s, e, order, cap, id, p);
      case Schedule(q) => ScheduleComing(s, q, cap, id, p);
      case RunCallback => CallbackComing(s, cap, id, p);
      case Subscribe(q) => SubscribeComing(s, q, cap, id, p);
      case _ => assert Coming(s, p, id) == By(s.owed[id], p);
    }
    hide By, For, Flying, Coming, Push;
  }

  lemma {:induction false} RunInvariant(steps: seq<Step>, cap: nat)
    requires ValidRun(steps, cap)
    ensures var s := Exec(steps, cap);
            Shape(s) && OwedOk(s, cap) && AllComing(s)
  {
    hide Next, Enabled, Shape, OwedOk, AllComing;
    if steps == [] {
      EmptyState(cap);
    } else {
      var n := |steps| - 1;
      assert forall k | 0 <= k < n :: steps[..n][..k] == steps[..k];
      RunInvariant(steps[..n], cap);
      ShapeStep(Exec(steps[..n], cap), steps[n], cap);
      OwedStep(Exec(steps[..n], cap), steps[n], cap);
      ComingStep(Exec(steps[..n], cap), steps[n], cap);
    }
  }

  lemma EmptyState(cap: nat)
    ensures Shape(EMPTY) && OwedOk(EMPTY, cap) && AllComing(EMPTY)
  {
  }

  /**
   * Any interleaving: for a present subscriber, the events of each publisher that are on its queue, scheduled or still
   * to be scheduled are - in publishing order, each once - the publisher's share of the buffer found at subscription
   * followed by every event published since then with the loop bound.
   */
  lemma {:induction false} PerPublisherOrder(steps: seq<Step>, cap: nat, id: nat, p: string)
    requires ValidRun(steps, cap) && id in Exec(steps, cap).subscribers
    ensures var s := Exec(steps, cap);
            && id in s.queues && id in s.subAt && s.subAt[id] <= |s.history|
            && Coming(s, p, id) == By(Last(s.history[..s.subAt[id]], cap) + Since(s, s.subAt[id]), p)
  {
    hide Exec, ValidRun, By, For, Flying, Coming, Since;
    RunInvariant(steps, cap);
  }

  /** One step after `id` has left: it stays out, and nothing is added to what it is owed. */
  lemma GoneStep(s: State, step: Step, cap: nat, id: nat)
    requires Shape(s) && Enabled(s, step) && id !in s.subscribers && id in s.queues
    ensures var s' := Next(s, step, cap);
            id !in s'.subscribers && id in s'.queues && id in s'.owed && s'.owed[id] == s.owed[id]
  {
    assert id in s.owed;
    hide Push;
  }

  lemma {:induction false} GoneRun(steps: seq<Step>, cap: nat, id: nat, more: seq<Step>)
    requires ValidRun(steps + more, cap) && id !in Exec(steps, cap).subscribers && id in Exec(steps, cap).queues
    ensures var s, s' := Exec(steps, cap), Exec(steps + more, cap);
            && id !in s'.subscribers && id in s'.queues && id in s.owed && id in s'.owed && s'.owed[id] == s.owed[id]
  {
    hide Exec, ValidRun, Next, Enabled, OwedOk, AllComing;
    var all := steps + more;
    if more == [] {
      assert all == steps;
      RunInvariant(steps, cap);
    } else {
      var n := |more| - 1;
      assert all[..|all| - 1] == steps + more[..n];
      LastStep(all, cap);
      GoneRun(steps, cap, id, more[..n]);
      RunInvariant(steps + more[..n], cap);
      hide Shape;
      GoneStep(Exec(steps + more[..n], cap), all[|all| - 1], cap, id);
    }
  }

  lemma LastStep(all: seq<Step>, cap: nat)
    requires ValidRun(all, cap) && all != []
    ensures var n := |all| - 1;
            && ValidRun(all[..n], cap) && Enabled(Exec(all[..n], cap), all[n])
            && Exec(all, cap) == Next(Exec(all[..n], cap), all[n], cap)
  {
    hide Next, Enabled;
    assert forall k | 0 <= k < |all| - 1 :: all[..|all| - 1][..k] == all[..k];
  }

  /**
   * A client that unsubscribes is never a subscriber again, whatever follows: what was on its way to it then still
   * arrives, publisher by publisher in order, and nothing published later does.
   */
  lemma {:induction false} NothingAfterUnsubscribe(steps: seq<Step>, cap: nat, id: nat, more: seq<Step>)
    requires ValidRun(steps + [Unsubscribe(id)] + more, cap) && id in Exec(steps, cap).queues
    ensures var s, s' := Exec(steps, cap), Exec(steps + [Unsubscribe(id)] + more, cap);
            && id !in s'.subscribers && id in s'.queues
            && forall p :: Coming(s', p, id) == Coming(s, p, id)
  {
    var left := steps + [Unsubscribe(id)];
    var all := left + more;
    assert all[..|left|] == left && all[..|steps|] == steps && left[..|steps|] == steps;
    assert forall k | 0 <= k < |steps| :: steps[..k] == all[..k];
    assert forall k | 0 <= k < |left| :: left[..k] == all[..k];
    var s := Exec(steps, cap);
    assert Exec(left, cap) == s.(subscribers := s.subscribers - {id});
    RunInvariant(steps, cap);
    RunInvariant(all, cap);
    hide Exec, Shape, OwedOk, Coming, By;
    GoneRun(left, cap, id, more);
    forall p ensures Coming(Exec(all, cap), p, id) == Coming(s, p, id) {
      assert Coming(s, p, id) == By(s.owed[id], p);
      assert Coming(Exec(all, cap), p, id) == By(Exec(all, cap).owed[id], p);
    }
  }

  lemma {:induction false} CountBy(s: seq<Event>, e: Event)
    ensures multiset(By(s, e.publisher))[e] == multiset(s)[e]
  {
    if s != [] {
      CountBy(s[..|s| - 1], e);
      assert s == s[..|s| - 1] + [s[|s| - 1]];
    }
  }

  /** Hence exactly-once as a multiset, whatever the number of publishers. */
  lemma {:induction false} ExactlyOnce(steps: seq<Step>, cap: nat, id: nat, e: Event)
    requires ValidRun(steps, cap) && id in Exec(steps, cap).subscribers
    ensures var s := Exec(steps, cap);
            && id in s.queues && id in s.subAt && s.subAt[id] <= |s.history|
            && multiset(s.queues[id])[e] + multiset(For(s.ready, id))[e] + multiset(Flying(s, e.publisher, id))[e]
               == multiset(Last(s.history[..s.subAt[id]], cap) + Since(s, s.subAt[id]))[e]
  {
    hide Exec, ValidRun, For, Flying, Since, Last, By;
    var s := Exec(steps, cap);
    PerPublisherOrder(steps, cap, id, e.publisher);
    CountBy(s.queues[id], e);
    CountBy(For(s.ready, id), e);
    CountBy(Last(s.history[..s.subAt[id]], cap) + Since(s, s.subAt[id]), e);
    JoinCounts(By(s.queues[id], e.publisher), By(For(s.ready, id), e.publisher), Flying(s, e.publisher, id), e);
  }

  lemma JoinCounts(a: seq<Event>, b: seq<Event>, c: seq<Event>, e: Event)
    ensures multiset(a + b + c)[e] == multiset(a)[e] + multiset(b)[e] + multiset(c)[e]
  {
  }

  // ---- order across publishers ----

  /** What has reached the loop for a client: its queue, then what is scheduled for it. */
  function Arrived(s: State, id: nat): seq<Event>
    requires id in s.queues
  {
    s.queues[id] + For(s.ready, id)
  }

  /** Publisher `p` has left the lock and has still to schedule its event for `id`. */
  predicate Holds(s: State, p: string, id: nat) {
    p in s.inFlight && id in s.inFlight[p].1
  }

  /** At most one publisher holds `id`, and what has arrived, with what it holds, is the expected list in order. */
  ghost predicate InLine(s: State, id: nat, expected: seq<Event>)
    requires id in s.queues
  {
    && (forall p, q | Holds(s, p, id) && Holds(s, q, id) :: p == q)
    && (forall p | Holds(s, p, id) :: Arrived(s, id) + [s.inFlight[p].0] == expected)
    && ((forall p :: !Holds(s, p, id)) ==> Arrived(s, id) == expected)
  }

  /** No publisher enters the lock while another still holds `id`. */
  ghost predicate NoOverlap(steps: seq<Step>, id: nat, cap: nat) {
    forall k | 0 <= k < |steps| && steps[k].PublishLocked? :: forall p :: !Holds(Exec(steps[..k], cap), p, id)
  }

  lemma PublishInLine(s: State, e: Event, order: seq<nat>, cap: nat, id: nat)
    requires Shape(s) && Enabled(s, PublishLocked(e, order)) && id in s.queues && id in s.owed
    requires InLine(s, id, s.owed[id]) && forall p :: !Holds(s, p, id)
    ensures var s' := Next(s, PublishLocked(e, order), cap); InLine(s', id, s'.owed[id])
  {
    var s' := Next(s, PublishLocked(e, order), cap);
    assert id in order <==> id in s.subscribers;
    assert forall p :: Holds(s', p, id) ==> p == e.publisher by {
      assert forall p | p != e.publisher :: Holds(s', p, id) ==> Holds(s, p, id);
    }
    if s.bindAt.Some? && id in s.subscribers { assert Holds(s', e.publisher, id); }
    hide Push, For, Enumerates;
  }

  lemma ScheduleInLine(s: State, q: string, cap: nat, id: nat)
    requires Shape(s) && Enabled(s, Schedule(q)) && id in s.queues && id in s.owed && InLine(s, id, s.owed[id])
    ensures var s' := Next(s, Schedule(q), cap); InLine(s', id, s'.owed[id])
  {
    var s' := Next(s, Schedule(q), cap);
    var (e, rest) := s.inFlight[q];
    ScheduleMoves(s, q, cap, id, q);
    assert forall i | 1 <= i < |rest| :: rest[1..][i - 1] == rest[i];
    forall p ensures Holds(s', p, id) <==> Holds(s, p, id) && !(p == q && rest[0] == id) {
    }
    hide For;
    if rest[0] == id {
      assert Holds(s, q, id);
      assert s.queues[id] + (For(s.ready, id) + [e]) == Arrived(s, id) + [e];
    }
  }

  lemma InLineStep(s: State, step: Step, cap: nat, id: nat)
    requires Shape(s) && Enabled(s, step) && (id in s.queues ==> InLine(s, id, s.owed[id]))
    requires step.PublishLocked? ==> forall p :: !Holds(s, p, id)
    ensures var s' := Next(s, step, cap);
            id in s'.queues ==> id in s'.owed && InLine(s', id, s'.owed[id])
  {
    var s' := Next(s, step, cap);
    assert s'.queues.Keys == s'.owed.Keys;
    if id in s'.queues {
      match step
      case PublishLocked(e, order) => PublishInLine(s, e, order, cap, id);
      case Schedule(q) => ScheduleInLine(s, q, cap, id);
      case Subscribe(q) => if q == id { SubscribeInLine(s, cap, id); } else { SameInLine(s, s', id); }
      case RunCallback => CallbackInLine(s, cap, id);
      case _ => SameInLine(s, s', id);
    }
    hide For, Push, InLine;
  }

  lemma SameInLine(s: State, s': State, id: nat)
    requires id in s.queues && id in s.owed && InLine(s, id, s.owed[id]) && id in s'.queues && id in s'.owed
    requires s'.queues[id] == s.queues[id] && s'.owed[id] == s.owed[id]
    requires s'.ready == s.ready && s'.inFlight == s.inFlight
    ensures InLine(s', id, s'.owed[id])
  {
    assert forall p :: Holds(s', p, id) <==> Holds(s, p, id);
    hide For;
  }

  lemma SubscribeInLine(s: State, cap: nat, id: nat)
    requires Shape(s) && Enabled(s, Subscribe(id))
    ensures var s' := Next(s, Subscribe(id), cap); InLine(s', id, s'.owed[id])
  {
    NothingFor(s.ready, id, s.queues.Keys);
    assert forall p :: !Holds(Next(s, Subscribe(id), cap), p, id);
    hide For;
  }

  lemma CallbackInLine(s: State, cap: nat, id: nat)
    requires Shape(s) && Enabled(s, RunCallback) && id in s.queues && id in s.owed && InLine(s, id, s.owed[id])
    ensures var s' := Next(s, RunCallback, cap); InLine(s', id, s'.owed[id])
  {
    var s' := Next(s, RunCallback, cap);
    assert forall p :: Holds(s', p, id) <==> Holds(s, p, id);
    var (to, e) := s.ready[0];
    assert Arrived(s', id) == Arrived(s, id) by {
      if to == id { assert s.queues[id] + [e] + For(s.ready[1..], id) == s.queues[id] + ([e] + For(s.ready[1..], id)); }
    }
    hide For, Arrived;
  }

  lemma {:induction false} InLineRun(steps: seq<Step>, cap: nat, id: nat)
    requires ValidRun(steps, cap) && NoOverlap(steps, id, cap)
    ensures var s := Exec(steps, cap);
            id in s.queues ==> id in s.owed && InLine(s, id, s.owed[id])
  {
    hide Next, Enabled, InLine, Shape, OwedOk, AllComing, Holds;
    if steps != [] {
      var n := |steps| - 1;
      assert forall k | 0 <= k < n :: steps[..n][..k] == steps[..k];
      assert NoOverlap(steps[..n], id, cap);
      InLineRun(steps[..n], cap, id);
      RunInvariant(steps[..n], cap);
      InLineStep(Exec(steps[..n], cap), steps[n], cap, id);
    }
  }

  /**
   * Any number of publishers, any point of the run, drained or not: as long as no publisher enters the lock while
   * another still holds `id`, what has arrived and is held for `id` is the buffer found at subscription followed by
   * every event published since with the loop bound, in the order of the lock.
   */
  lemma {:induction false} OrderWithoutOverlap(steps: seq<Step>, cap: nat, id: nat)
    requires ValidRun(steps, cap) && NoOverlap(steps, id, cap) && id in Exec(steps, cap).subscribers
    ensures var s := Exec(steps, cap);
            && id in s.queues && id in s.subAt && s.subAt[id] <= |s.history|
            && InLine(s, id, Last(s.history[..s.subAt[id]], cap) + Since(s, s.subAt[id]))
  {
    hide Exec, ValidRun, NoOverlap, InLine, AllComing, Since, Last;
    RunInvariant(steps, cap);
    InLineRun(steps, cap, id);
  }

  /** A single publisher never overlaps with itself, so its order is kept at every point. */
  lemma {:induction false} SinglePublisherOrder(steps: seq<Step>, cap: nat, id: nat, p: string)
    requires ValidRun(steps, cap) && id in Exec(steps, cap).subscribers
    requires forall k | 0 <= k < |steps| && steps[k].PublishLocked? :: steps[k].e.publisher == p
    ensures var s := Exec(steps, cap);
            && id in s.queues && id in s.subAt && s.subAt[id] <= |s.history|
            && Arrived(s, id) + Flying(s, p, id) == Last(s.history[..s.subAt[id]], cap) + Since(s, s.subAt[id])
  {
    OnlyItself(steps, cap, p);
    hide Exec, Since, Last;
    assert NoOverlap(steps, id, cap);
    OrderWithoutOverlap(steps, cap, id);
    assert steps[..|steps|] == steps;
    assert Holds(Exec(steps, cap), p, id) || forall q :: !Holds(Exec(steps, cap), q, id);
    hide Arrived;
  }

  lemma {:induction false} OnlyItself(steps: seq<Step>, cap: nat, p: string)
    requires forall k | 0 <= k < |steps| && steps[k].PublishLocked? :: steps[k].e.publisher == p
    ensures forall k | 0 <= k <= |steps| :: Exec(steps[..k], cap).inFlight.Keys <= {p}
  {
    hide Next;
    if steps == [] {
      assert steps[..0] == [];
    } else {
      var n := |steps| - 1;
      OnlyItself(steps[..n], cap, p);
      assert forall k | 0 <= k <= n :: steps[..n][..k] == steps[..k];
      assert steps[..n + 1] == steps;
      OnlyItselfStep(Exec(steps[..n], cap), steps[n], cap, p);
    }
  }

  lemma OnlyItselfStep(s: State, step: Step, cap: nat, p: string)
    requires s.inFlight.Keys <= {p} && (step.PublishLocked? ==> step.e.publisher == p)
    ensures Next(s, step, cap).inFlight.Keys <= {p}
  {
    hide Push;
  }

  /** The event a publisher has in flight is the last one it published. */
  ghost predicate LatestAt(s: State, p: string, i: nat) {
    && p in s.inFlight && i < |s.history| && s.history[i] == s.inFlight[p].0
    && forall k | i < k < |s.history| :: s.history[k].publisher != p
  }

  lemma {:induction false} InFlightIsLatest(steps: seq<Step>, cap: nat, p: string) returns (i: nat)
    requires ValidRun(steps, cap) && p in Exec(steps, cap).inFlight
    ensures LatestAt(Exec(steps, cap), p, i)
  {
    var n := |steps| - 1;
    assert forall k | 0 <= k < n :: steps[..n][..k] == steps[..k];
    assert ValidRun(steps[..n], cap);
    var s := Exec(steps[..n], cap);
    hide Next, Enabled;
    LatestStep(s, steps[n], cap, p);
    if steps[n].PublishLocked? && steps[n].e.publisher == p {
      i := |s.history|;
    } else {
      i := InFlightIsLatest(steps[..n], cap, p);
    }
  }

  lemma LatestStep(s: State, step: Step, cap: nat, p: string)
    requires Enabled(s, step) && p in Next(s, step, cap).inFlight
    ensures if step.PublishLocked? && step.e.publisher == p then LatestAt(Next(s, step, cap), p, |s.history|)
            else p in s.inFlight
    ensures forall i | LatestAt(s, p, i) && !(step.PublishLocked? && step.e.publisher == p) ::
              LatestAt(Next(s, step, cap), p, i)
  {
    hide Push, Enumerates;
  }

  lemma Extend(steps: seq<Step>, step: Step, cap: nat)
    requires ValidRun(steps, cap) && Enabled(Exec(steps, cap), step)
    ensures ValidRun(steps + [step], cap) && Exec(steps + [step], cap) == Next(Exec(steps, cap), step, cap)
  {
    hide Next, Enabled;
    assert (steps + [step])[..|steps|] == steps;
    assert forall k | 0 <= k < |steps| :: (steps + [step])[..k] == steps[..k];
  }

  /** Let `p` schedule until its event for `id` is with the loop. */
  lemma {:induction false} SendTo(steps: seq<Step>, cap: nat, id: nat, p: string) returns (all: seq<Step>)
    requires ValidRun(steps, cap) && Holds(Exec(steps, cap), p, id) && id in Exec(steps, cap).queues
    ensures ValidRun(all, cap) && steps <= all
    ensures var s, s' := Exec(steps, cap), Exec(all, cap);
            && s'.history == s.history && s'.queues == s.queues
            && For(s'.ready, id) == For(s.ready, id) + [s.inFlight[p].0]
            && forall q | q != p && q in s.inFlight :: q in s'.inFlight && s'.inFlight[q] == s.inFlight[q]
    decreases |Exec(steps, cap).inFlight[p].1|
  {
    RunInvariant(steps, cap);
    hide OwedOk, AllComing;
    var s, next := Exec(steps, cap), steps + [Schedule(p)];
    Extend(steps, Schedule(p), cap);
    ScheduleMoves(s, p, cap, id, p);
    var rest := s.inFlight[p].1;
    assert forall i | 1 <= i < |rest| :: rest[1..][i - 1] == rest[i];
    hide Exec, ValidRun, For;
    if id == rest[0] {
      all := next;
    } else {
      all := SendTo(next, cap, id, p);
    }
  }

  /** Let the loop run until nothing is scheduled. */
  lemma {:induction false} RunLoop(steps: seq<Step>, cap: nat, id: nat) returns (all: seq<Step>)
    requires ValidRun(steps, cap) && id in Exec(steps, cap).queues
    ensures ValidRun(all, cap) && steps <= all
    ensures var s, s' := Exec(steps, cap), Exec(all, cap);
            && s'.history == s.history && s'.ready == []
            && id in s'.queues && s'.queues[id] == Arrived(s, id)
    decreases |Exec(steps, cap).ready|
  {
    var s := Exec(steps, cap);
    if s.ready == [] {
      all := steps;
    } else {
      RunInvariant(steps, cap);
      hide OwedOk, AllComing;
      Extend(steps, RunCallback, cap);
      var next := steps + [RunCallback];
      assert Arrived(Exec(next, cap), id) == Arrived(s, id) by { ArrivedKept(s, cap, id); }
      hide Exec, ValidRun, Arrived;
      all := RunLoop(next, cap, id);
    }
  }

  lemma ArrivedKept(s: State, cap: nat, id: nat)
    requires Shape(s) && s.ready != [] && id in s.queues
    ensures Arrived(Next(s, RunCallback, cap), id) == Arrived(s, id)
  {
    var (to, e) := s.ready[0];
    var rest := For(s.ready[1..], id);
    if to == id { assert s.queues[id] + [e] + rest == s.queues[id] + ([e] + rest); }
  }

  /** Two publishers that hold `id` may deliver in either order: here `q` first. */
  lemma {:induction false} EitherOrder(steps: seq<Step>, cap: nat, id: nat, p: string, q: string)
    returns (all: seq<Step>)
    requires ValidRun(steps, cap) && id in Exec(steps, cap).queues && p != q
    requires Holds(Exec(steps, cap), p, id) && Holds(Exec(steps, cap), q, id)
    ensures ValidRun(all, cap) && steps <= all
    ensures var s, s' := Exec(steps, cap), Exec(all, cap);
            && s'.history == s.history && s'.ready == [] && id in s'.queues
            && s'.queues[id] == Arrived(s, id) + [s.inFlight[q].0, s.inFlight[p].0]
  {
    hide Exec, ValidRun, For;
    var s := Exec(steps, cap);
    var one := SendTo(steps, cap, id, q);
    var two := SendTo(one, cap, id, p);
    all := RunLoop(two, cap, id);
    var a, b := s.inFlight[q].0, s.inFlight[p].0;
    assert s.queues[id] + (For(s.ready, id) + [a] + [b]) == Arrived(s, id) + [a, b];
  }

  /**
   * The boundary is exact: from every reached state in which two publishers hold `id`, some continuation delivers their
   * events - the `i`-th and the `j`-th of the history, each its publisher's last - in the reverse of the lock's order.
   */
  lemma {:induction false} OverlapMayCross(steps: seq<Step>, cap: nat, id: nat, p: string, q: string)
    returns (all: seq<Step>, i: nat, j: nat)
    requires ValidRun(steps, cap) && id in Exec(steps, cap).queues && p != q
    requires Holds(Exec(steps, cap), p, id) && Holds(Exec(steps, cap), q, id)
    ensures ValidRun(all, cap) && steps <= all
    ensures var s, s' := Exec(steps, cap), Exec(all, cap);
            && i < j < |s.history|
            && ((LatestAt(s, p, i) && LatestAt(s, q, j)) || (LatestAt(s, q, i) && LatestAt(s, p, j)))
            && s'.history == s.history && s'.ready == [] && id in s'.queues
            && s'.queues[id] == Arrived(s, id) + [s.history[j], s.history[i]]
  {
    var a := InFlightIsLatest(steps, cap, p);
    var b := InFlightIsLatest(steps, cap, q);
    RunInvariant(steps, cap);
    assert a != b by { hide OwedOk, AllComing, Exec; }
    hide Exec, ValidRun, Arrived, Shape, OwedOk, AllComing;
    if a < b {
      i, j := a, b;
      all := EitherOrder(steps, cap, id, p, q);
    } else {
      i, j := b, a;
      all := EitherOrder(steps, cap, id, q, p);
    }
  }

  /** With two publishers the order across them may differ from the order of the lock. */
  lemma TwoPublishersMayCross() returns (steps: seq<Step>)
    ensures ValidRun(steps, 10)
    ensures var s, a, b := Exec(steps, 10), Event("A", "first"), Event("B", "second");
            s.history == [a, b] && 0 in s.queues && s.queues[0] == [b, a] && s.ready == [] && s.inFlight == map[]
  {
    hide Next, Enabled, Exec;
    var a, b := Event("A", "first"), Event("B", "second");
    steps := [BindLoop, Subscribe(0), PublishLocked(a, [0]), PublishLocked(b, [0]), Schedule("B"), Schedule("A"),
              RunCallback, RunCallback];
    var s0 := EMPTY;
    var s1 := s0.(bindAt := Some(0));
    var s2 := s1.(subscribers := {0}, queues := map[0 := []], owed := map[0 := []], subAt := map[0 := 0]);
    var s3 := s2.(history := [a], buffer := [a], inFlight := map["A" := (a, [0])], owed := map[0 := [a]]);
    var s4 := s3.(history := [a, b], buffer := [a, b], inFlight := map["A" := (a, [0]), "B" := (b, [0])],
                  owed := map[0 := [a, b]]);
    var s5 := s4.(ready := [(0, b)], inFlight := map["A" := (a, [0])]);
    var s6 := s5.(ready := [(0, b), (0, a)], inFlight := map[]);
    var s7 := s6.(ready := [(0, a)], queues := map[0 := [b]]);
    var s8 := s7.(ready := [], queues := map[0 := [b, a]]);
    FirstCrossing(s2, s3, s4, a, b);
    MiddleCrossing(s1, s2, s4, s5, s6, a, b);
    LastCrossing(s6, s7, s8, a, b);
    var states := [s0, s1, s2, s3, s4, s5, s6, s7, s8];
    assert forall k | 0 <= k < 8 :: k > 0 ==> Enabled(states[k], steps[k]);
    assert forall k | 0 <= k < 8 :: Next(states[k], steps[k], 10) == states[k + 1];
    FollowsAll(steps, states, 10);
    assert steps[..8] == steps;
  }

  lemma FollowsAll(steps: seq<Step>, states: seq<State>, cap: nat)
    requires |states| == |steps| + 1 && states[0] == EMPTY && steps != [] && steps[0] == BindLoop
    requires forall k | 0 <= k < |steps| :: k > 0 ==> Enabled(states[k], steps[k])
    requires forall k | 0 <= k < |steps| :: Next(states[k], steps[k], cap) == states[k + 1]
    ensures ValidRun(steps, cap) && Exec(steps[..|steps|], cap) == states[|steps|]
  {
    assert Enabled(EMPTY, BindLoop);
    hide Next, Enabled, Exec;
    forall k | 0 <= k <= |steps| ensures Exec(steps[..k], cap) == states[k] {
      ExecFollows(steps, states, cap, k);
    }
  }

  lemma MiddleCrossing(s1: State, s2: State, s4: State, s5: State, s6: State, a: Event, b: Event)
    requires s1 == EMPTY.(bindAt := Some(0))
    requires s2 == s1.(subscribers := {0}, queues := map[0 := []], owed := map[0 := []], subAt := map[0 := 0])
    requires s4.inFlight == map["A" := (a, [0]), "B" := (b, [0])] && s4.ready == []
    requires s5 == s4.(ready := [(0, b)], inFlight := map["A" := (a, [0])])
    requires s6 == s5.(ready := [(0, b), (0, a)], inFlight := map[])
    ensures Next(EMPTY, BindLoop, 10) == s1
    ensures Enabled(s1, Subscribe(0)) && Next(s1, Subscribe(0), 10) == s2
    ensures Enabled(s4, Schedule("B")) && Next(s4, Schedule("B"), 10) == s5
    ensures Enabled(s5, Schedule("A")) && Next(s5, Schedule("A"), 10) == s6
  {
    assert s4.ready + [(0, b)] == [(0, b)] && s5.ready + [(0, a)] == [(0, b), (0, a)];
    assert s4.inFlight - {"B"} == map["A" := (a, [0])] && s5.inFlight - {"A"} == map[];
  }

  lemma LastCrossing(s6: State, s7: State, s8: State, a: Event, b: Event)
    requires s6.ready == [(0, b), (0, a)] && s6.queues == map[0 := []]
    requires s7 == s6.(ready := [(0, a)], queues := map[0 := [b]])
    requires s8 == s7.(ready := [], queues := map[0 := [b, a]])
    ensures Enabled(s6, RunCallback) && Next(s6, RunCallback, 10) == s7
    ensures Enabled(s7, RunCallback) && Next(s7, RunCallback, 10) == s8
  {
    assert s6.ready[1..] == [(0, a)] && s7.ready[1..] == [];
    assert s6.queues[0] + [b] == [b] && s7.queues[0] + [a] == [b, a];
  }

  lemma FirstCrossing(s2: State, s3: State, s4: State, a: Event, b: Event)
    requires a.publisher == "A" && b.publisher == "B"
    requires s2 == EMPTY.(bindAt := Some(0), subscribers := {0}, queues := map[0 := []], owed := map[0 := []],
                          subAt := map[0 := 0])
    requires s3 == s2.(history := [a], buffer := [a], inFlight := map["A" := (a, [0])], owed := map[0 := [a]])
    requires s4 == s3.(history := [a, b], buffer := [a, b], inFlight := map["A" := (a, [0]), "B" := (b, [0])],
                       owed := map[0 := [a, b]])
    ensures Enabled(s2, PublishLocked(a, [0])) && Next(s2, PublishLocked(a, [0]), 10) == s3
    ensures Enabled(s3, PublishLocked(b, [0])) && Next(s3, PublishLocked(b, [0]), 10) == s4
  {
    assert [0][0] == 0;
    assert (set id | id in [0]) == {0};
    var e := [] + [a];
    assert e == [a] && [a] + [b] == [a, b];
    assert Next(s2, PublishLocked(a, [0]), 10).owed == map[0 := [a]];
    assert Next(s3, PublishLocked(b, [0]), 10).owed == map[0 := [a, b]];
  }

  lemma {:induction false} ExecFollows(steps: seq<Step>, states: seq<State>, cap: nat, n: nat)
    requires |states| == |steps| + 1 && states[0] == EMPTY && n <= |steps|
    requires forall k | 0 <= k < |steps| :: Next(states[k], steps[k], cap) == states[k + 1]
    ensures Exec(steps[..n], cap) == states[n]
  {
    hide Next;
    if n > 0 {
      ExecFollows(steps, states, cap, n - 1);
      assert steps[..n][..n - 1] == steps[..n - 1];
    }
  }
}
