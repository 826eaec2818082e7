/**
 * The event total of the news bus's status row against the rows of its table: the websocket handler, the REST backfill
 * (src/agentic_investor/experiments/news_bus.py) and `record_event` (src/agentic_investor/experiments/_bus_stream.py).
 */
module BusCounts {
  import opened Basics
  import NewsBus
  import BusStream

  /**
   * Table, readers and log; the status row's total; for every handler call or backfill under way, the ids it has
   * inserted and not yet counted; and the ids whose call ended without counting them.
   */
  datatype World = World(news: NewsBus.World, total: nat, open: map<string, set<nat>>, lost: set<nat>)

  datatype Step =
    /** Whatever else happens to the table and its readers, the purge included. */
    | Table(step: NewsBus.Step)
    | HandlerInserts(task: string, recv: int, pub: string, headline: string)
    | BackfillStarts(task: string)
    | BackfillInserts(task: string, a: NewsBus.Article, nowIso: string, recv: int)
    /** `record_event`: a handler counts its one row, a backfill all of its rows at once, after the last. */
    | Records(task: string)
    /** An insert or the count raises: the call ends. */
    | Fails(task: string)
    /** The writer process dies and is started again; table and status row stay. */
    | Restarts

  predicate Enabled(w: World, step: Step) {
    match step
    case Table(s) => !s.InsertRow?
    case HandlerInserts(t, _, _, _) => t !in w.open
    case BackfillStarts(t) => t !in w.open
    case BackfillInserts(t, _, _, _) => t in w.open
    case Records(t) => t in w.open
    case Fails(t) => t in w.open
    case Restarts => true
  }

  function OpenIds(w: World, task: string): set<nat> {
    if task in w.open then w.open[task] else {}
  }

  /** Ids inserted and not yet counted, by any call under way. */
  function Uncounted(w: World): set<nat> {
    set t, id | t in w.open && id in w.open[t] :: id
  }

  function Inserted(w: World, task: string, recv: int, pub: string, headline: string): World {
    w.(news := NewsBus.Next(w.news, NewsBus.InsertRow(recv, pub, headline)),
       open := w.open[task := OpenIds(w, task) + {w.news.bus.nextId}])
  }

  function Next(w: World, step: Step): World {
    match step
    case Table(s) => w.(news := NewsBus.Next(w.news, s))
    case HandlerInserts(t, recv, pub, headline) => Inserted(w, t, recv, pub, headline)
    case BackfillStarts(t) => w.(open := w.open[t := {}])
    case BackfillInserts(t, a, nowIso, recv) =>
      if NewsBus.Fetched(w.news.bus, a, nowIso) then w
      else Inserted(w, t, recv, NewsBus.Published(a, nowIso), a.headline)
    case Records(t) => w.(total := w.total + |OpenIds(w, t)|, open := w.open - {t})
    case Fails(t) => w.(open := w.open - {t}, lost := w.lost + OpenIds(w, t))
    case Restarts => w.(open := map[], lost := w.lost + Uncounted(w))
  }

  const EMPTY := World(NewsBus.EMPTY, 0, map[], {})

  function Exec(steps: seq<Step>): World {
    if steps == [] then EMPTY else Next(Exec(steps[..|steps| - 1]), steps[|steps| - 1])
  }

  predicate ValidRun(steps: seq<Step>) {
    forall k | 0 <= k < |steps| :: Enabled(Exec(steps[..k]), steps[k])
  }

  // ---- the methods make these steps ----

  /** The websocket handler: insert the row, then count it. */
  method OnNews(table: NewsBus.BusTable, status: BusStream.BusStatus, recv: int, pub: string, headline: string,
                recordOk: bool, ghost w: World, ghost task: string)
    requires table.Valid() && w.news.bus == table.Contents() && w.total == status.totalEvents && task !in w.open
    modifies table, status`totalEvents, status`lastEventAt
    ensures var w' := Next(Next(w, HandlerInserts(task, recv, pub, headline)),
                           if recordOk then Records(task) else Fails(task));
            table.Valid() && w'.news.bus == table.Contents() && w'.total == status.totalEvents
    ensures status.lastEventAt == if recordOk then Some(pub) else old(status.lastEventAt)
  {
    var id := table.InsertEvent(recv, pub, headline);
    assert |{id}| == 1;
    assert OpenIds(Next(w, HandlerInserts(task, recv, pub, headline)), task) == {id};
    if recordOk {
      status.RecordEvent(Some(pub), 1);
    }
  }

  /** The insert steps of one backfill. */
  function BackfillRun(w: World, task: string, arts: seq<NewsBus.Article>, nowIso: string, recv: int): World {
    if arts == [] then w
    else
      Next(BackfillRun(w, task, arts[..|arts| - 1], nowIso, recv),
           BackfillInserts(task, arts[|arts| - 1], nowIso, recv))
  }

  /** The returned count of a backfill is the number of ids it holds open. */
  lemma {:induction false} BackfillOpens(w: World, task: string, arts: seq<NewsBus.Article>, nowIso: string, recv: int)
    requires task in w.open && forall id | id in w.open[task] :: id < w.news.bus.nextId
    ensures var w' := BackfillRun(w, task, arts, nowIso, recv);
            && w'.news.bus == NewsBus.Backfilled(w.news.bus, arts, nowIso, recv)
            && w'.total == w.total && task in w'.open
            && (forall id | id in w'.open[task] :: id < w'.news.bus.nextId)
            && |w'.open[task]| == |w.open[task]| + (w'.news.bus.nextId - w.news.bus.nextId)
  {
    hide NewsBus.Fetched;
    if arts != [] { BackfillOpens(w, task, arts[..|arts| - 1], nowIso, recv); }
  }

  /** The backfill hook: insert what is missing, then count all of it at once. */
  method Backfill(table: NewsBus.BusTable, status: BusStream.BusStatus, arts: seq<NewsBus.Article>, nowIso: string,
                  recv: int, ghost w: World, ghost task: string)
    returns (n: nat)
    requires table.Valid() && w.news.bus == table.Contents() && w.total == status.totalEvents && task !in w.open
    modifies table, status`totalEvents, status`lastEventAt
    ensures var w' := Next(BackfillRun(Next(w, BackfillStarts(task)), task, arts, nowIso, recv), Records(task));
            table.Valid() && w'.news.bus == table.Contents() && w'.total == status.totalEvents
    ensures n == table.nextId - old(table.nextId) == status.totalEvents - old(status.totalEvents)
    ensures status.lastEventAt == if n > 0 then Some(nowIso) else old(status.lastEventAt)
  {
    BackfillOpens(Next(w, BackfillStarts(task)), task, arts, nowIso, recv);
    hide BackfillRun;
    n := NewsBus.BackfillNews(table, arts, nowIso, recv);
    if n > 0 {
      status.RecordEvent(Some(nowIso), n);
    }
  }

  // ---- the total over every run ----

  ghost predicate Disjoint(open: map<string, set<nat>>) {
    forall s, t | s in open && t in open && s != t :: open[s] !! open[t]
  }

  /** No id is open in two calls, none is both open and lost, and the total is the number of ids that are neither. */
  ghost predicate CountsOk(w: World) {
    && w.news.bus.nextId == |w.news.all| + 1
    && (forall id | id in Uncounted(w) :: 1 <= id <= |w.news.all| && id !in w.lost)
    && Disjoint(w.open)
    && (forall id | id in w.lost :: 1 <= id <= |w.news.all|)
    && w.total + |Uncounted(w)| + |w.lost| == |w.news.all|
  }

  lemma SizeOfDisjoint(a: set<nat>, b: set<nat>)
    requires a !! b
    ensures |a + b| == |a| + |b|
  {
  }

  lemma UncountedGrows(w: World, task: string, ids: set<nat>)
    ensures Uncounted(w.(open := w.open[task := OpenIds(w, task) + ids])) == Uncounted(w) + ids
  {
    var w' := w.(open := w.open[task := OpenIds(w, task) + ids]);
    forall x | x in Uncounted(w) ensures x in Uncounted(w') {
      var t :| t in w.open && x in w.open[t];
      assert t in w'.open && x in w'.open[t];
    }
    forall x | x in ids ensures x in Uncounted(w') { assert x in w'.open[task]; }
    forall x | x in Uncounted(w') && x !in ids ensures x in Uncounted(w) {
      var t :| t in w'.open && x in w'.open[t];
      assert t in w.open && x in w.open[t];
    }
  }

  lemma InsertCounts(w: World, task: string, recv: int, pub: string, headline: string)
    requires CountsOk(w)
    ensures CountsOk(Inserted(w, task, recv, pub, headline))
  {
    var w', id := Inserted(w, task, recv, pub, headline), w.news.bus.nextId;
    UncountedGrows(w, task, {id});
    assert Uncounted(w') == Uncounted(w.(open := w.open[task := OpenIds(w, task) + {id}]));
    SizeOfDisjoint(Uncounted(w), {id});
    assert w'.news.bus.nextId == |w'.news.all| + 1 && |w'.news.all| == |w.news.all| + 1;
    StillDisjoint(w, task, id);
    assert w'.open == w.open[task := OpenIds(w, task) + {id}] && w'.lost == w.lost && w'.total == w.total;
    hide Inserted, Uncounted, OpenIds, Disjoint;
  }

  lemma StillDisjoint(w: World, task: string, id: nat)
    requires id !in Uncounted(w) && Disjoint(w.open)
    ensures Disjoint(w.open[task := OpenIds(w, task) + {id}])
  {
    OpenIsUncounted(w);
    hide Uncounted;
  }

  lemma OpenIsUncounted(w: World)
    ensures forall t | t in w.open :: w.open[t] <= Uncounted(w)
  {
    forall t | t in w.open ensures w.open[t] <= Uncounted(w) {
      forall x | x in w.open[t] ensures x in Uncounted(w) {
      }
    }
  }

  /** Closing a call takes its ids, and no others, out of the uncounted ones. */
  lemma CloseCounts(w: World, task: string)
    requires CountsOk(w) && task in w.open
    ensures var w', ids := w.(open := w.open - {task}), w.open[task];
            && Disjoint(w'.open)
            && Uncounted(w') <= Uncounted(w) && ids <= Uncounted(w) && Uncounted(w') !! ids
            && |Uncounted(w)| == |Uncounted(w')| + |ids|
            && |w.lost + ids| == |w.lost| + |ids|
  {
    UncountedShrinks(w, task);
    OpenIsUncounted(w);
    SizeOfDisjoint(Uncounted(w.(open := w.open - {task})), w.open[task]);
    SizeOfDisjoint(w.lost, w.open[task]);
    hide Uncounted;
  }

  lemma UncountedShrinks(w: World, task: string)
    requires task in w.open && Disjoint(w.open)
    ensures var w', ids := w.(open := w.open - {task}), w.open[task];
            Disjoint(w'.open) && Uncounted(w) == Uncounted(w') + ids && Uncounted(w') !! ids
  {
    var w', ids := w.(open := w.open - {task}), w.open[task];
    forall x | x in Uncounted(w) && x !in ids ensures x in Uncounted(w') {
      var t :| t in w.open && x in w.open[t];
      assert t in w'.open && x in w'.open[t];
    }
    assert Uncounted(w) == Uncounted(w') + ids;
  }

  lemma CountsStep(w: World, step: Step)
    requires CountsOk(w) && Enabled(w, step)
    ensures CountsOk(Next(w, step))
  {
    match step
    case Table(s) => TableCounts(w, s);
    case HandlerInserts(t, recv, pub, headline) => InsertCounts(w, t, recv, pub, headline);
    case BackfillStarts(t) => StartCounts(w, t);
    case BackfillInserts(t, a, nowIso, recv) => InsertCounts(w, t, recv, NewsBus.Published(a, nowIso), a.headline);
    case Records(t) => RecordCounts(w, t);
    case Fails(t) => FailCounts(w, t);
    case Restarts => RestartCounts(w);
  }

  lemma RecordCounts(w: World, task: string)
    requires CountsOk(w) && task in w.open
    ensures CountsOk(Next(w, Records(task)))
  {
    CloseCounts(w, task);
    var w' := Next(w, Records(task));
    assert Uncounted(w') == Uncounted(w.(open := w.open - {task}));
    hide Uncounted, Disjoint;
  }

  lemma FailCounts(w: World, task: string)
    requires CountsOk(w) && task in w.open
    ensures CountsOk(Next(w, Fails(task)))
  {
    CloseCounts(w, task);
    var w' := Next(w, Fails(task));
    assert Uncounted(w') == Uncounted(w.(open := w.open - {task}));
    hide Uncounted, Disjoint;
  }

  lemma StartCounts(w: World, task: string)
    requires CountsOk(w) && task !in w.open
    ensures CountsOk(Next(w, BackfillStarts(task)))
  {
    var w' := Next(w, BackfillStarts(task));
    UncountedGrows(w, task, {});
    assert OpenIds(w, task) + {} == {} && Uncounted(w) + {} == Uncounted(w);
    assert w' == w.(open := w.open[task := {}]);
    hide Next, Uncounted;
  }

  lemma TableCounts(w: World, s: NewsBus.Step)
    requires CountsOk(w) && !s.InsertRow?
    ensures CountsOk(Next(w, Table(s)))
  {
    NothingInserted(w.news, s);
    var w' := Next(w, Table(s));
    assert Uncounted(w') == Uncounted(w);
    hide NewsBus.Next, Uncounted;
  }

  lemma NothingInserted(news: NewsBus.World, s: NewsBus.Step)
    requires !s.InsertRow?
    ensures NewsBus.Next(news, s).all == news.all && NewsBus.Next(news, s).bus.nextId == news.bus.nextId
  {
  }

  lemma RestartCounts(w: World)
    requires CountsOk(w)
    ensures CountsOk(Next(w, Restarts))
  {
    SizeOfDisjoint(w.lost, Uncounted(w));
    assert Uncounted(Next(w, Restarts)) == {};
  }

  lemma {:induction false} CountsRun(steps: seq<Step>)
    requires ValidRun(steps)
    ensures CountsOk(Exec(steps))
  {
    hide Next, Enabled, CountsOk;
    if steps != [] {
      var n := |steps| - 1;
      assert forall k | 0 <= k < n :: steps[..n][..k] == steps[..k];
      CountsRun(steps[..n]);
      CountsStep(Exec(steps[..n]), steps[n]);
    } else {
      NothingCounted();
    }
  }

  lemma NothingCounted()
    ensures CountsOk(EMPTY)
  {
    assert Uncounted(EMPTY) == {};
  }

  /**
   * In every interleaving of handlers, backfills, failures, purges and restarts: rows ever inserted = total + ids not
   * yet counted + ids lost. So the total never exceeds the rows inserted, and equals them exactly when no insert is in
   * flight and no count was lost.
   */
  lemma TotalIsInserted(steps: seq<Step>)
    requires ValidRun(steps)
    ensures var w := Exec(steps);
            && w.total + |Uncounted(w)| + |w.lost| == |w.news.all|
            && w.total <= |w.news.all|
            && (w.total == |w.news.all| <==> (forall t | t in w.open :: w.open[t] == {}) && w.lost == {})
  {
    CountsRun(steps);
    var w := Exec(steps);
    hide Exec;
    if t :| t in w.open && w.open[t] != {} {
      var id :| id in w.open[t];
      assert id in Uncounted(w);
    }
    if w.total == |w.news.all| {
      assert |Uncounted(w)| == 0 && |w.lost| == 0;
    } else if w.lost == {} {
      assert Uncounted(w) != {};
      var id :| id in Uncounted(w);
    }
  }

  /** A count that fails, or a restart between insert and count, leaves the total short for good. */
  lemma {:induction false} LostStaysLost(steps: seq<Step>, more: seq<Step>, id: nat)
    requires ValidRun(steps + more) && id in Exec(steps).lost
    ensures id in Exec(steps + more).lost && Exec(steps + more).total < |Exec(steps + more).news.all|
  {
    hide ValidRun, Exec, Next;
    CountsRun(steps + more);
    if more == [] {
      assert steps + more == steps;
    } else {
      var all, n := steps + more, |more| - 1;
      assert all[..|all| - 1] == steps + more[..n];
      LastStep(all);
      LostStaysLost(steps, more[..n], id);
      LostGrows(Exec(all[..|all| - 1]), all[|all| - 1]);
    }
    hide Uncounted, Disjoint;
  }

  lemma LastStep(all: seq<Step>)
    requires ValidRun(all) && all != []
    ensures ValidRun(all[..|all| - 1]) && Exec(all) == Next(Exec(all[..|all| - 1]), all[|all| - 1])
  {
    hide Next, Enabled;
    assert forall k | 0 <= k < |all| - 1 :: all[..|all| - 1][..k] == all[..k];
  }

  lemma LostGrows(w: World, step: Step)
    ensures w.lost <= Next(w, step).lost
  {
    hide NewsBus.Next, NewsBus.Fetched, Uncounted;
  }
}
