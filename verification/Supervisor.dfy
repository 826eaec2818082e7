/** The child-process supervision loop of the experiment runner (src/agentic_investor/experiments/runner.py). */
module Supervisor {
  import opened Basics

  /** One supervised child; `never` marks children that are not respawned. */
  datatype Child = Child(name: string, never: bool, restarts: nat)

  /** What a child's poll returns (None while it runs), and whether a respawn attempt would succeed. */
  datatype Poll = Poll(rc: Option<int>, spawnOk: bool)

  /** One pass: the polls it would see, and whether the shutdown flag is set by the end of it. */
  datatype Scan = Scan(polls: map<string, Poll>, shutdown: bool)

  /** A child exit seen by a poll. */
  datatype Exit = Exit(name: string, rc: int)

  /** Children in supervision order, the aggregate return code, names respawned, exits seen, passes made. */
  datatype Sup = Sup(children: seq<Child>, rc: int, respawns: seq<string>, exits: seq<Exit>, passes: nat)

  function PollOf(scan: Scan, name: string): Poll {
    if name in scan.polls then scan.polls[name] else Poll(None, true)
  }

  datatype Fate = Kept(child: Child) | Respawned(child: Child) | Removed

  /** What one poll does to a child. */
  function FateOf(c: Child, p: Poll, maxRestarts: nat): Fate {
    if p.rc.None? then Kept(c)
    else if p.rc.value == 0 || c.never || c.restarts >= maxRestarts then Removed
    else if p.spawnOk then Respawned(c.(restarts := c.restarts + 1))
    else Removed
  }

  function Visit(s: Sup, c: Child, p: Poll, maxRestarts: nat): Sup {
    var fate := FateOf(c, p, maxRestarts);
    Sup(if fate.Removed? then s.children else s.children + [fate.child],
        if p.rc.Some? && p.rc.value != 0 then p.rc.value else s.rc,
        if fate.Respawned? then s.respawns + [c.name] else s.respawns,
        if p.rc.Some? then s.exits + [Exit(c.name, p.rc.value)] else s.exits,
        s.passes)
  }

  /** A pass over `todo`, the children decided so far being collected in `s`. */
  function Pass(s: Sup, todo: seq<Child>, scan: Scan, maxRestarts: nat): Sup {
    if todo == [] then s
    else
      var init, c := todo[..|todo| - 1], todo[|todo| - 1];
      Visit(Pass(s, init, scan, maxRestarts), c, PollOf(scan, c.name), maxRestarts)
  }

  function Scanned(s: Sup, scan: Scan, maxRestarts: nat): Sup {
    Pass(s.(children := [], passes := s.passes + 1), s.children, scan, maxRestarts)
  }

  /** The loop over a schedule of passes; it stops when nothing is left or the flag is found set. */
  function Supervised(s: Sup, stopped: bool, scans: seq<Scan>, maxRestarts: nat): Sup
    decreases |scans|
  {
    if stopped || scans == [] || s.children == [] then s
    else Supervised(Scanned(s, scans[0], maxRestarts), scans[0].shutdown, scans[1..], maxRestarts)
  }

  function Launch(children: seq<Child>): Sup {
    Sup(children, 0, [], [], 0)
  }

  const SHUTDOWN_DRAIN_SEC := 10.0

  /** How the wait for a child ended, and when, in seconds since the drain began. */
  datatype Drained =
    | Exited(name: string, at: real)
    | Terminated(name: string, at: real)

  /** One pass of the loop over the children. */
  method ScanOnce(s: Sup, scan: Scan, maxRestarts: nat) returns (s': Sup)
    ensures s' == Scanned(s, scan, maxRestarts)
  {
    var left: seq<Child>, rc, respawns, exits := [], s.rc, s.respawns, s.exits;
    ghost var start := s.(children := [], passes := s.passes + 1);
    for i := 0 to |s.children|
      invariant Pass(start, s.children[..i], scan, maxRestarts) == Sup(left, rc, respawns, exits, s.passes + 1)
    {
      assert s.children[..i + 1][..i] == s.children[..i];
      var c := s.children[i];
      var p := PollOf(scan, c.name);
      if p.rc.None? {
        left := left + [c];
        continue;
      }
      exits := exits + [Exit(c.name, p.rc.value)];
      if p.rc.value == 0 {
        continue;
      }
      rc := p.rc.value;
      if c.never || c.restarts >= maxRestarts {
        continue;
      }
      if p.spawnOk {
        left := left + [c.(restarts := c.restarts + 1)];
        respawns := respawns + [c.name];
      }
    }
    assert s.children[..|s.children|] == s.children;
    s' := Sup(left, rc, respawns, exits, s.passes + 1);
  }

  /** The supervision loop over a schedule, then the drain of whatever is left. */
  method Supervise(children: seq<Child>, stopped: bool, scans: seq<Scan>, maxRestarts: nat, exitAt: map<string, real>)
    returns (s: Sup, drained: seq<Drained>)
    ensures s == Supervised(Launch(children), stopped, scans, maxRestarts)
    ensures DrainOk(s.children, exitAt, drained)
  {
    hide Scanned, DrainOk;
    s := Launch(children);
    var i, shutdown := 0, stopped;
    while s.children != [] && !shutdown && i < |scans|
      invariant i <= |scans|
      invariant Supervised(Launch(children), stopped, scans, maxRestarts)
             == Supervised(s, shutdown, scans[i..], maxRestarts)
      decreases |scans| - i
    {
      assert scans[i..][0] == scans[i] && scans[i..][1..] == scans[i + 1..];
      s := ScanOnce(s, scans[i], maxRestarts);
      shutdown := scans[i].shutdown;
      i := i + 1;
    }
    drained := DrainAll(s.children, exitAt);
  }

  function StartOf(drained: seq<Drained>, i: nat): real
    requires i <= |drained|
  {
    if i == 0 then 0.0 else drained[i - 1].at
  }

  /** How the wait for `name`, begun at `start`, may end; `exitAt` is when each child exits by itself, if ever. */
  predicate WaitOk(name: string, exitAt: map<string, real>, start: real, d: Drained) {
    && d.name == name
    && start <= d.at <= start + SHUTDOWN_DRAIN_SEC
    && (d.Exited? <==> name in exitAt && exitAt[name] <= d.at)
    && (d.Terminated? ==> d.at == start + SHUTDOWN_DRAIN_SEC)
    && (d.Exited? ==> d.at == start || d.at == exitAt[name])
  }

  /**
   * Children are waited for one after the other, each for at most the drain time; one that has not exited by then, and
   * only such a one, is sent terminate.
   */
  predicate DrainOk(children: seq<Child>, exitAt: map<string, real>, drained: seq<Drained>) {
    && |drained| == |children|
    && forall i | 0 <= i < |drained| :: WaitOk(children[i].name, exitAt, StartOf(drained, i), drained[i])
  }

  /** Wait for one child for at most the drain time, and terminate it if that runs out. */
  method WaitFor(name: string, exitAt: map<string, real>, clock: real) returns (d: Drained)
    ensures WaitOk(name, exitAt, clock, d)
  {
    var deadline := clock + SHUTDOWN_DRAIN_SEC;
    if name in exitAt && exitAt[name] <= deadline {
      d := Exited(name, Max(clock, exitAt[name]));
    } else {
      d := Terminated(name, deadline);
    }
  }

  method DrainAll(children: seq<Child>, exitAt: map<string, real>) returns (drained: seq<Drained>)
    ensures DrainOk(children, exitAt, drained)
  {
    hide WaitOk;
    drained := [];
    var clock := 0.0;
    for i := 0 to |children|
      invariant |drained| == i && DrainOk(children[..i], exitAt, drained) && clock == StartOf(drained, i)
    {
      hide DrainOk;
      var d := WaitFor(children[i].name, exitAt, clock);
      DrainMore(children[..i], exitAt, drained, children[i], d);
      assert children[..i + 1] == children[..i] + [children[i]];
      clock, drained := d.at, drained + [d];
    }
    assert children[..|children|] == children;
  }

  lemma DrainMore(children: seq<Child>, exitAt: map<string, real>, drained: seq<Drained>, c: Child, d: Drained)
    requires DrainOk(children, exitAt, drained) && WaitOk(c.name, exitAt, StartOf(drained, |drained|), d)
    ensures DrainOk(children + [c], exitAt, drained + [d])
  {
    hide WaitOk;
    var cs, ds := children + [c], drained + [d];
    forall i | 0 <= i < |ds| ensures WaitOk(cs[i].name, exitAt, StartOf(ds, i), ds[i]) {
      assert StartOf(ds, i) == StartOf(drained, i);
    }
  }

  lemma {:induction false} ClockIsBounded(children: seq<Child>, exitAt: map<string, real>, drained: seq<Drained>,
                                          n: nat)
    requires DrainOk(children, exitAt, drained) && n <= |drained|
    ensures 0.0 <= StartOf(drained, n) <= n as real * 10.0
  {
    if n > 0 {
      ClockIsBounded(children, exitAt, drained, n - 1);
      assert WaitOk(children[n - 1].name, exitAt, StartOf(drained, n - 1), drained[n - 1]);
      hide DrainOk;
    }
  }

  /** The drain is bounded, and a child that exits within the drain time of its start is never sent terminate. */
  lemma DrainIsBounded(children: seq<Child>, exitAt: map<string, real>, drained: seq<Drained>)
    requires DrainOk(children, exitAt, drained)
    ensures forall n | 0 <= n <= |drained| :: 0.0 <= StartOf(drained, n) <= n as real * 10.0
    ensures forall i | 0 <= i < |drained| && drained[i].Terminated? ::
              && drained[i].at == StartOf(drained, i) + 10.0
              && (drained[i].name in exitAt ==> exitAt[drained[i].name] > 10.0)
  {
    forall n | 0 <= n <= |drained| ensures 0.0 <= StartOf(drained, n) <= n as real * 10.0 {
      ClockIsBounded(children, exitAt, drained, n);
    }
    forall i | 0 <= i < |drained| && drained[i].Terminated?
      ensures drained[i].at == StartOf(drained, i) + 10.0
      ensures drained[i].name in exitAt ==> exitAt[drained[i].name] > 10.0
    {
      assert WaitOk(children[i].name, exitAt, StartOf(drained, i), drained[i]);
      assert 0.0 <= StartOf(drained, i);
    }
  }

  // ---- budgets ----

  function Remaining(c: Child, maxRestarts: nat): nat {
    if c.restarts <= maxRestarts then maxRestarts - c.restarts else 0
  }

  /** Sum over supervised children of the remaining restart budget plus one. */
  function Fuel(cs: seq<Child>, maxRestarts: nat): nat {
    if cs == [] then 0 else Fuel(cs[..|cs| - 1], maxRestarts) + Remaining(cs[|cs| - 1], maxRestarts) + 1
  }

  /** Sum of the remaining restart budgets. */
  function Budget(cs: seq<Child>, maxRestarts: nat): nat {
    if cs == [] then 0 else Budget(cs[..|cs| - 1], maxRestarts) + Remaining(cs[|cs| - 1], maxRestarts)
  }

  lemma FuelAppend(cs: seq<Child>, c: Child, maxRestarts: nat)
    ensures Fuel(cs + [c], maxRestarts) == Fuel(cs, maxRestarts) + Remaining(c, maxRestarts) + 1
    ensures Budget(cs + [c], maxRestarts) == Budget(cs, maxRestarts) + Remaining(c, maxRestarts)
  {
    assert (cs + [c])[..|cs|] == cs;
  }

  /** In a pass every exit seen costs at least one unit of fuel, and every respawn one unit of restart budget. */
  lemma {:induction false} PassFuel(s: Sup, todo: seq<Child>, scan: Scan, maxRestarts: nat)
    ensures var t := Pass(s, todo, scan, maxRestarts);
            && Fuel(t.children, maxRestarts) + |t.exits|
               <= Fuel(s.children, maxRestarts) + Fuel(todo, maxRestarts) + |s.exits|
            && Budget(t.children, maxRestarts) + |t.respawns|
               <= Budget(s.children, maxRestarts) + Budget(todo, maxRestarts) + |s.respawns|
            && |s.exits| <= |t.exits|
  {
    if todo != [] {
      var init, c := todo[..|todo| - 1], todo[|todo| - 1];
      PassFuel(s, init, scan, maxRestarts);
      var fate := FateOf(c, PollOf(scan, c.name), maxRestarts);
      if !fate.Removed? { FuelAppend(Pass(s, init, scan, maxRestarts).children, fate.child, maxRestarts); }
    }
  }

  /** Over any schedule: exits seen never exceed the initial fuel, nor respawns the initial restart budget. */
  lemma {:induction false} ExitsBounded(s: Sup, stopped: bool, scans: seq<Scan>, maxRestarts: nat)
    ensures var t := Supervised(s, stopped, scans, maxRestarts);
            && Fuel(t.children, maxRestarts) + |t.exits| <= Fuel(s.children, maxRestarts) + |s.exits|
            && Budget(t.children, maxRestarts) + |t.respawns| <= Budget(s.children, maxRestarts) + |s.respawns|
    decreases |scans|
  {
    hide Pass, Fuel, Budget;
    if !stopped && scans != [] && s.children != [] {
      PassFuel(s.(children := [], passes := s.passes + 1), s.children, scans[0], maxRestarts);
      NoFuel(maxRestarts);
      ExitsBounded(Scanned(s, scans[0], maxRestarts), scans[0].shutdown, scans[1..], maxRestarts);
    }
  }

  lemma NoFuel(maxRestarts: nat)
    ensures Fuel([], maxRestarts) == 0 && Budget([], maxRestarts) == 0
  {
  }

  lemma {:induction false} FreshFuel(cs: seq<Child>, maxRestarts: nat)
    requires forall i | 0 <= i < |cs| :: cs[i].restarts == 0
    ensures Fuel(cs, maxRestarts) == |cs| * (maxRestarts + 1) && Budget(cs, maxRestarts) == |cs| * maxRestarts
  {
    if cs != [] {
      FreshFuel(cs[..|cs| - 1], maxRestarts);
      assert |cs| * (maxRestarts + 1) == (|cs| - 1) * (maxRestarts + 1) + (maxRestarts + 1);
    }
  }

  function CountOf(names: seq<string>, name: string): nat {
    if names == [] then 0 else CountOf(names[..|names| - 1], name) + if names[|names| - 1] == name then 1 else 0
  }

  predicate DistinctNames(cs: seq<Child>) {
    forall i, j | 0 <= i < j < |cs| :: cs[i].name != cs[j].name
  }

  /** A name's respawns so far are the restarts its record shows, while it is supervised, and never above the limit. */
  ghost predicate Accounted(s: Sup, maxRestarts: nat) {
    && (forall i | 0 <= i < |s.children| :: CountOf(s.respawns, s.children[i].name) == s.children[i].restarts)
    && (forall n :: CountOf(s.respawns, n) <= maxRestarts)
    && DistinctNames(s.children)
  }

  lemma CountAppend(names: seq<string>, x: string, name: string)
    ensures CountOf(names + [x], name) == CountOf(names, name) + if x == name then 1 else 0
  {
    assert (names + [x])[..|names|] == names;
  }

  /** The children decided (`s`) and those still to visit (`todo`) are all accounted for. */
  ghost predicate Split(s: Sup, todo: seq<Child>, maxRestarts: nat) {
    && (forall i | 0 <= i < |s.children| :: CountOf(s.respawns, s.children[i].name) == s.children[i].restarts)
    && (forall i | 0 <= i < |todo| :: CountOf(s.respawns, todo[i].name) == todo[i].restarts)
    && (forall n :: CountOf(s.respawns, n) <= maxRestarts)
    && DistinctNames(s.children) && DistinctNames(todo)
    && (forall i, j | 0 <= i < |s.children| && 0 <= j < |todo| :: s.children[i].name != todo[j].name)
  }

  /** The first child to visit is decided as `c`, with `more` of its name respawned. */
  lemma SplitMove(s: Sup, todo: seq<Child>, c: Child, respawns: seq<string>, more: nat, maxRestarts: nat)
    requires todo != [] && Split(s, todo, maxRestarts) && c.name == todo[0].name
    requires forall n :: CountOf(respawns, n) == CountOf(s.respawns, n) + if c.name == n then more else 0
    requires c.restarts == todo[0].restarts + more <= maxRestarts
    ensures Split(s.(children := s.children + [c], respawns := respawns), todo[1..], maxRestarts)
  {
    hide CountOf;
    var cs, rest := s.children + [c], todo[1..];
    assert forall i | 0 <= i < |rest| :: rest[i] == todo[i + 1];
    assert forall i | 0 <= i < |cs| :: cs[i] == if i < |s.children| then s.children[i] else c;
  }

  lemma SplitDrop(s: Sup, todo: seq<Child>, maxRestarts: nat)
    requires todo != [] && Split(s, todo, maxRestarts)
    ensures Split(s, todo[1..], maxRestarts)
  {
    hide CountOf;
    assert forall i | 0 <= i < |todo| - 1 :: todo[1..][i] == todo[i + 1];
  }

  lemma VisitSplit(s: Sup, todo: seq<Child>, p: Poll, maxRestarts: nat)
    requires todo != [] && Split(s, todo, maxRestarts)
    ensures Split(Visit(s, todo[0], p, maxRestarts), todo[1..], maxRestarts)
  {
    var c := todo[0];
    var fate := FateOf(c, p, maxRestarts);
    var s' := Visit(s, c, p, maxRestarts);
    match fate {
      case Removed =>
        SplitDrop(s, todo, maxRestarts);
      case Kept(_) =>
        assert c.restarts == CountOf(s.respawns, c.name);
        SplitMove(s, todo, c, s.respawns, 0, maxRestarts);
      case Respawned(c') =>
        forall n ensures CountOf(s'.respawns, n) == CountOf(s.respawns, n) + if c.name == n then 1 else 0 {
          CountAppend(s.respawns, c.name, n);
        }
        SplitMove(s, todo, c', s'.respawns, 1, maxRestarts);
    }
    hide CountOf;
  }

  /** A pass decided head first: the same result, in the order the children are visited. */
  lemma {:induction false} PassHead(s: Sup, todo: seq<Child>, scan: Scan, maxRestarts: nat)
    requires todo != []
    ensures Pass(s, todo, scan, maxRestarts)
            == Pass(Visit(s, todo[0], PollOf(scan, todo[0].name), maxRestarts), todo[1..], scan, maxRestarts)
  {
    if |todo| > 1 {
      var init := todo[..|todo| - 1];
      PassHead(s, init, scan, maxRestarts);
      assert todo[1..][..|todo| - 2] == init[1..] && init[0] == todo[0];
    }
  }

  lemma {:induction false} PassSplit(s: Sup, todo: seq<Child>, scan: Scan, maxRestarts: nat)
    requires Split(s, todo, maxRestarts)
    ensures Accounted(Pass(s, todo, scan, maxRestarts), maxRestarts)
    decreases |todo|
  {
    hide Visit, CountOf;
    if todo != [] {
      VisitSplit(s, todo, PollOf(scan, todo[0].name), maxRestarts);
      PassHead(s, todo, scan, maxRestarts);
      PassSplit(Visit(s, todo[0], PollOf(scan, todo[0].name), maxRestarts), todo[1..], scan, maxRestarts);
    }
  }

  lemma {:induction false} StaysAccounted(s: Sup, stopped: bool, scans: seq<Scan>, maxRestarts: nat)
    requires Accounted(s, maxRestarts)
    ensures Accounted(Supervised(s, stopped, scans, maxRestarts), maxRestarts)
    decreases |scans|
  {
    hide CountOf, Pass;
    if !stopped && scans != [] && s.children != [] {
      PassSplit(s.(children := [], passes := s.passes + 1), s.children, scans[0], maxRestarts);
      StaysAccounted(Scanned(s, scans[0], maxRestarts), scans[0].shutdown, scans[1..], maxRestarts);
    }
  }

  /**
   * For every schedule: no child is respawned more than `maxRestarts` times, and launches plus respawns never exceed
   * the number of children times (1 + maxRestarts).
   */
  lemma RespawnBudget(children: seq<Child>, stopped: bool, scans: seq<Scan>, maxRestarts: nat)
    requires DistinctNames(children) && forall i | 0 <= i < |children| :: children[i].restarts == 0
    ensures var s := Supervised(Launch(children), stopped, scans, maxRestarts);
            && (forall n :: CountOf(s.respawns, n) <= maxRestarts)
            && |children| + |s.respawns| <= |children| * (maxRestarts + 1)
            && |s.exits| <= |children| * (maxRestarts + 1)
  {
    StaysAccounted(Launch(children), stopped, scans, maxRestarts);
    ExitsBounded(Launch(children), stopped, scans, maxRestarts);
    FreshFuel(children, maxRestarts);
    hide CountOf, Supervised;
  }

  // ---- the return code ----

  function LastNonZero(exits: seq<Exit>): int {
    if exits == [] then 0
    else if exits[|exits| - 1].rc != 0 then exits[|exits| - 1].rc
    else LastNonZero(exits[..|exits| - 1])
  }

  lemma {:induction false} PassCode(s: Sup, todo: seq<Child>, scan: Scan, maxRestarts: nat)
    requires s.rc == LastNonZero(s.exits)
    ensures var t := Pass(s, todo, scan, maxRestarts); t.rc == LastNonZero(t.exits)
  {
    if todo != [] {
      var init, c := todo[..|todo| - 1], todo[|todo| - 1];
      PassCode(s, init, scan, maxRestarts);
      var t, p := Pass(s, init, scan, maxRestarts), PollOf(scan, c.name);
      if p.rc.Some? { assert (t.exits + [Exit(c.name, p.rc.value)])[..|t.exits|] == t.exits; }
    }
  }

  lemma {:induction false} CodeIsLast(s: Sup, stopped: bool, scans: seq<Scan>, maxRestarts: nat)
    requires s.rc == LastNonZero(s.exits)
    ensures var t := Supervised(s, stopped, scans, maxRestarts); t.rc == LastNonZero(t.exits)
    decreases |scans|
  {
    if !stopped && scans != [] && s.children != [] {
      PassCode(s.(children := [], passes := s.passes + 1), s.children, scans[0], maxRestarts);
      CodeIsLast(Scanned(s, scans[0], maxRestarts), scans[0].shutdown, scans[1..], maxRestarts);
    }
  }

  lemma {:induction false} ZeroMeansClean(exits: seq<Exit>)
    ensures LastNonZero(exits) == 0 <==> forall i | 0 <= i < |exits| :: exits[i].rc == 0
  {
    if exits != [] { ZeroMeansClean(exits[..|exits| - 1]); }
  }

  /** The result is the last non-zero code seen, so it is zero exactly when no child was ever seen to fail. */
  lemma ReturnCode(children: seq<Child>, stopped: bool, scans: seq<Scan>, maxRestarts: nat)
    ensures var s := Supervised(Launch(children), stopped, scans, maxRestarts);
            && s.rc == LastNonZero(s.exits)
            && (s.rc == 0 <==> forall i | 0 <= i < |s.exits| :: s.exits[i].rc == 0)
  {
    CodeIsLast(Launch(children), stopped, scans, maxRestarts);
    ZeroMeansClean(Supervised(Launch(children), stopped, scans, maxRestarts).exits);
  }

  // ---- one pass, child by child ----

  /** The poll saw a failure, and the child is respawned: its kind allows it, its budget does, and the spawn works. */
  predicate ComesBack(c: Child, scan: Scan, maxRestarts: nat) {
    && c.name in scan.polls && scan.polls[c.name].rc.Some? && scan.polls[c.name].rc.value != 0
    && !c.never && c.restarts < maxRestarts && scan.polls[c.name].spawnOk
  }

  predicate StillRuns(c: Child, scan: Scan) {
    c.name in scan.polls ==> scan.polls[c.name].rc.None?
  }

  lemma {:induction false} PassRespawns(s: Sup, todo: seq<Child>, scan: Scan, maxRestarts: nat, c: Child)
    requires DistinctNames(todo)
    ensures var t := Pass(s, todo, scan, maxRestarts);
            && (c in todo ==> CountOf(t.respawns, c.name)
                              == CountOf(s.respawns, c.name) + if ComesBack(c, scan, maxRestarts) then 1 else 0)
            && ((forall x | x in todo :: x.name != c.name) ==>
                  CountOf(t.respawns, c.name) == CountOf(s.respawns, c.name))
  {
    if todo != [] {
      var init, last := todo[..|todo| - 1], todo[|todo| - 1];
      PassRespawns(s, init, scan, maxRestarts, c);
      CountAppend(Pass(s, init, scan, maxRestarts).respawns, last.name, c.name);
      assert forall x | x in init :: x in todo && x.name != last.name;
      assert forall x | x in todo :: x in init || x == last;
      hide CountOf, Pass;
    }
  }

  /**
   * After a pass a child is supervised exactly when it still runs or has been respawned; a respawn adds one to its
   * count and to its name in the record, and nothing else about it changes.
   */
  lemma ScanMeaning(s: Sup, scan: Scan, maxRestarts: nat, c: Child)
    requires DistinctNames(s.children) && c in s.children
    ensures var t := Scanned(s, scan, maxRestarts);
            var respawned := ComesBack(c, scan, maxRestarts);
            && ((exists x :: x in t.children && x.name == c.name) <==> StillRuns(c, scan) || respawned)
            && (forall x | x in t.children && x.name == c.name ::
                  x == if respawned then Child(c.name, c.never, c.restarts + 1) else c)
            && CountOf(t.respawns, c.name) == CountOf(s.respawns, c.name) + if respawned then 1 else 0
  {
    var start := s.(children := [], passes := s.passes + 1);
    PassRespawns(start, s.children, scan, maxRestarts, c);
    PassIsSurvivors(start, s.children, scan, maxRestarts);
    assert Scanned(s, scan, maxRestarts).children == Survivors(s.children, scan, maxRestarts);
    assert Scanned(s, scan, maxRestarts).respawns == Pass(start, s.children, scan, maxRestarts).respawns;
    hide Scanned, Pass, CountOf, Survivors, ComesBack, StillRuns;
    OneSurvivor(s.children, scan, maxRestarts, c);
  }

  /** What a poll decides, in its own terms. */
  lemma FateMeaning(c: Child, scan: Scan, maxRestarts: nat)
    ensures var fate := FateOf(c, PollOf(scan, c.name), maxRestarts);
            && (!fate.Removed? <==> StillRuns(c, scan) || ComesBack(c, scan, maxRestarts))
            && (!fate.Removed? ==>
                  fate.child == if ComesBack(c, scan, maxRestarts) then Child(c.name, c.never, c.restarts + 1) else c)
  {
  }

  lemma OneSurvivor(cs: seq<Child>, scan: Scan, maxRestarts: nat, c: Child)
    requires DistinctNames(cs) && c in cs
    ensures var left := Survivors(cs, scan, maxRestarts);
            && ((exists x :: x in left && x.name == c.name) <==> StillRuns(c, scan) || ComesBack(c, scan, maxRestarts))
            && (forall x | x in left && x.name == c.name ::
                  x == if ComesBack(c, scan, maxRestarts) then Child(c.name, c.never, c.restarts + 1) else c)
  {
    var left := Survivors(cs, scan, maxRestarts);
    SurvivorsMeaning(cs, scan, maxRestarts);
    FateMeaning(c, scan, maxRestarts);
    hide Survivors, FateOf, PollOf, ComesBack, StillRuns;
    forall x | x in left && x.name == c.name
      ensures var fate := FateOf(c, PollOf(scan, c.name), maxRestarts); !fate.Removed? && fate.child == x
    {
      var d :| d in cs && !FateOf(d, PollOf(scan, d.name), maxRestarts).Removed?
               && FateOf(d, PollOf(scan, d.name), maxRestarts).child == x;
      FateMeaning(d, scan, maxRestarts);
      assert d.name == c.name;
    }
  }

  // ---- the documented return code ----

  /** What becomes of one child over a schedule, whatever the others do. */
  datatype End = Live(child: Child) | Clean | GivenUp

  function EndOf(c: Child, stopped: bool, scans: seq<Scan>, maxRestarts: nat): End
    decreases |scans|
  {
    if stopped || scans == [] then Live(c)
    else
      var p := PollOf(scans[0], c.name);
      var fate := FateOf(c, p, maxRestarts);
      if fate.Removed? then (if p.rc == Some(0) then Clean else GivenUp)
      else EndOf(fate.child, scans[0].shutdown, scans[1..], maxRestarts)
  }

  predicate Fails(p: Poll) {
    p.rc.Some? && p.rc.value != 0
  }

  /** Some poll of this child returns a non-zero code. */
  predicate EverFails(c: Child, stopped: bool, scans: seq<Scan>, maxRestarts: nat)
    decreases |scans|
  {
    if stopped || scans == [] then false
    else
      var p := PollOf(scans[0], c.name);
      var fate := FateOf(c, p, maxRestarts);
      Fails(p) || (!fate.Removed? && EverFails(fate.child, scans[0].shutdown, scans[1..], maxRestarts))
  }

  function Survivors(cs: seq<Child>, scan: Scan, maxRestarts: nat): seq<Child> {
    if cs == [] then []
    else
      var init, c := Survivors(cs[..|cs| - 1], scan, maxRestarts), cs[|cs| - 1];
      var fate := FateOf(c, PollOf(scan, c.name), maxRestarts);
      if fate.Removed? then init else init + [fate.child]
  }

  /** The last non-zero code polled in a pass, and over a schedule. */
  function PassLast(cs: seq<Child>, scan: Scan): Option<int> {
    if cs == [] then None
    else
      var p := PollOf(scan, cs[|cs| - 1].name);
      if Fails(p) then p.rc else PassLast(cs[..|cs| - 1], scan)
  }

  function LastSeen(cs: seq<Child>, stopped: bool, scans: seq<Scan>, maxRestarts: nat): Option<int>
    decreases |scans|
  {
    if stopped || scans == [] || cs == [] then None
    else
      var later := LastSeen(Survivors(cs, scans[0], maxRestarts), scans[0].shutdown, scans[1..], maxRestarts);
      if later.Some? then later else PassLast(cs, scans[0])
  }

  /** As documented: 0 iff every child exited cleanly or is live at loop exit, otherwise the last non-zero code seen. */
  function Documented(cs: seq<Child>, stopped: bool, scans: seq<Scan>, maxRestarts: nat): int {
    var last := LastSeen(cs, stopped, scans, maxRestarts);
    if (forall c | c in cs :: !EndOf(c, stopped, scans, maxRestarts).GivenUp?) || last.None? then 0 else last.value
  }

  lemma {:induction false} PassIsSurvivors(s: Sup, todo: seq<Child>, scan: Scan, maxRestarts: nat)
    ensures var t, last := Pass(s, todo, scan, maxRestarts), PassLast(todo, scan);
            && t.children == s.children + Survivors(todo, scan, maxRestarts)
            && t.rc == (if last.Some? then last.value else s.rc)
            && (last.Some? ==> last.value != 0)
  {
    if todo != [] { PassIsSurvivors(s, todo[..|todo| - 1], scan, maxRestarts); }
  }

  /** The code and the children left, computed from the schedule alone. */
  lemma {:induction false} CodeIsLastSeen(s: Sup, stopped: bool, scans: seq<Scan>, maxRestarts: nat)
    ensures var t := Supervised(s, stopped, scans, maxRestarts);
            var last := LastSeen(s.children, stopped, scans, maxRestarts);
            && t.rc == (if last.Some? then last.value else s.rc)
            && (last.Some? ==> last.value != 0)
    decreases |scans|
  {
    hide Pass, Survivors, PassLast;
    if !stopped && scans != [] && s.children != [] {
      PassIsSurvivors(s.(children := [], passes := s.passes + 1), s.children, scans[0], maxRestarts);
      assert Scanned(s, scans[0], maxRestarts).children == Survivors(s.children, scans[0], maxRestarts);
      CodeIsLastSeen(Scanned(s, scans[0], maxRestarts), scans[0].shutdown, scans[1..], maxRestarts);
    }
  }

  lemma {:induction false} SurvivorsMeaning(cs: seq<Child>, scan: Scan, maxRestarts: nat)
    ensures forall c | c in cs ::
              var fate := FateOf(c, PollOf(scan, c.name), maxRestarts);
              !fate.Removed? ==> fate.child in Survivors(cs, scan, maxRestarts)
    ensures forall x | x in Survivors(cs, scan, maxRestarts) ::
              exists c :: c in cs && var fate := FateOf(c, PollOf(scan, c.name), maxRestarts);
                                     !fate.Removed? && fate.child == x
    ensures PassLast(cs, scan).None? <==> forall c | c in cs :: !Fails(PollOf(scan, c.name))
  {
    hide FateOf, PollOf;
    if cs != [] {
      SurvivorsMeaning(cs[..|cs| - 1], scan, maxRestarts);
      assert forall c | c in cs :: c in cs[..|cs| - 1] || c == cs[|cs| - 1];
    }
  }

  /** A code is seen exactly when some child fails at some poll. */
  lemma {:induction false} SeenIsEverFails(cs: seq<Child>, stopped: bool, scans: seq<Scan>, maxRestarts: nat)
    ensures LastSeen(cs, stopped, scans, maxRestarts).None?
            <==> forall c | c in cs :: !EverFails(c, stopped, scans, maxRestarts)
    decreases |scans|
  {
    hide FateOf, PollOf, Fails, Survivors, PassLast;
    if !stopped && scans != [] && cs != [] {
      SurvivorsMeaning(cs, scans[0], maxRestarts);
      SeenIsEverFails(Survivors(cs, scans[0], maxRestarts), scans[0].shutdown, scans[1..], maxRestarts);
    }
  }

  /** The children left at loop exit are those the schedule leaves live, with their restart counts. */
  lemma {:induction false} LeftAreLive(s: Sup, stopped: bool, scans: seq<Scan>, maxRestarts: nat)
    ensures forall x :: x in Supervised(s, stopped, scans, maxRestarts).children
              <==> exists c :: c in s.children && EndOf(c, stopped, scans, maxRestarts) == Live(x)
    decreases |scans|
  {
    hide FateOf, PollOf, Survivors, Pass;
    if !stopped && scans != [] && s.children != [] {
      PassIsSurvivors(s.(children := [], passes := s.passes + 1), s.children, scans[0], maxRestarts);
      SurvivorsMeaning(s.children, scans[0], maxRestarts);
      LeftAreLive(Scanned(s, scans[0], maxRestarts), scans[0].shutdown, scans[1..], maxRestarts);
    }
  }

  lemma {:induction false} GivenUpFailed(c: Child, stopped: bool, scans: seq<Scan>, maxRestarts: nat)
    requires EndOf(c, stopped, scans, maxRestarts).GivenUp?
    ensures EverFails(c, stopped, scans, maxRestarts)
    decreases |scans|
  {
    var fate := FateOf(c, PollOf(scans[0], c.name), maxRestarts);
    if !fate.Removed? { GivenUpFailed(fate.child, scans[0].shutdown, scans[1..], maxRestarts); }
  }

  /**
   * The code is the documented one exactly when no child was ever seen to fail, or some failing child was given up: its
   * kind is never respawned, its budget was spent, or its respawn failed.
   */
  lemma DocumentedIff(children: seq<Child>, stopped: bool, scans: seq<Scan>, maxRestarts: nat)
    ensures Supervised(Launch(children), stopped, scans, maxRestarts).rc
            == Documented(children, stopped, scans, maxRestarts)
            <==> || (forall c | c in children :: !EverFails(c, stopped, scans, maxRestarts))
                 || (exists c :: c in children && EndOf(c, stopped, scans, maxRestarts).GivenUp?)
  {
    CodeIsLastSeen(Launch(children), stopped, scans, maxRestarts);
    SeenIsEverFails(children, stopped, scans, maxRestarts);
    forall c | c in children && EndOf(c, stopped, scans, maxRestarts).GivenUp?
      ensures EverFails(c, stopped, scans, maxRestarts)
    {
      GivenUpFailed(c, stopped, scans, maxRestarts);
    }
    hide Supervised, EndOf, EverFails, LastSeen;
  }

  const CRASH := Scan(map["A" := Poll(Some(3), true)], false)
  const QUIET := Scan(map[], true)

  /** A child that failed once and was respawned back to life still makes the result non-zero. */
  lemma RespawnedStillFails()
    ensures var s := Supervised(Launch([Child("A", false, 0)]), false, [CRASH, QUIET], 5);
            s.children == [Child("A", false, 1)] && s.rc == 3
    ensures Documented([Child("A", false, 0)], false, [CRASH, QUIET], 5) == 0
  {
    var s0, s1 := Launch([Child("A", false, 0)]), Sup([Child("A", false, 1)], 3, ["A"], [Exit("A", 3)], 1);
    assert Scanned(s0, CRASH, 5) == s1 by {
      PassOne(s0.(children := [], passes := 1), Child("A", false, 0), CRASH, 5);
      hide Pass;
    }
    assert Scanned(s1, QUIET, 5) == s1.(passes := 2) by {
      PassOne(s1.(children := [], passes := 2), Child("A", false, 1), QUIET, 5);
      hide Pass;
    }
    hide Scanned;
    assert [CRASH, QUIET][1..] == [QUIET];
    assert Supervised(s1, false, [QUIET], 5) == s1.(passes := 2) by {
      assert Supervised(s1.(passes := 2), true, [], 5) == s1.(passes := 2);
    }
    hide Supervised;
    assert EndOf(Child("A", false, 1), false, [QUIET], 5) == Live(Child("A", false, 1));
  }

  lemma PassOne(s: Sup, c: Child, scan: Scan, maxRestarts: nat)
    ensures Pass(s, [c], scan, maxRestarts) == Visit(s, c, PollOf(scan, c.name), maxRestarts)
  {
    assert [c][..0] == [];
  }

  /** No pass runs when the flag is set before the loop, and at most one once it is set: the pass it is set in. */
  lemma {:induction false} PassesStop(s: Sup, stopped: bool, scans: seq<Scan>, maxRestarts: nat, k: nat)
    requires k < |scans| && scans[k].shutdown
    ensures stopped ==> Supervised(s, stopped, scans, maxRestarts) == s
    ensures Supervised(s, stopped, scans, maxRestarts).passes <= s.passes + k + 1
    ensures Supervised(s, stopped, scans, maxRestarts) == Supervised(s, stopped, scans[..k + 1], maxRestarts)
    decreases |scans|
  {
    hide Pass;
    if !stopped && s.children != [] {
      PassPasses(s.(children := [], passes := s.passes + 1), s.children, scans[0], maxRestarts);
      assert scans[..k + 1][0] == scans[0] && scans[1..][..k] == scans[..k + 1][1..];
      var s1 := Scanned(s, scans[0], maxRestarts);
      if k > 0 {
        PassesStop(s1, scans[0].shutdown, scans[1..], maxRestarts, k - 1);
      } else {
        assert Supervised(s1, true, scans[1..], maxRestarts) == s1;
        assert Supervised(s1, true, scans[..1][1..], maxRestarts) == s1;
      }
    }
  }

  lemma {:induction false} PassPasses(s: Sup, todo: seq<Child>, scan: Scan, maxRestarts: nat)
    ensures Pass(s, todo, scan, maxRestarts).passes == s.passes
  {
    if todo != [] { PassPasses(s, todo[..|todo| - 1], scan, maxRestarts); }
  }
}
