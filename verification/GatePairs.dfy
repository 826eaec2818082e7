/** Pairing the two arms' gate decisions, nearest in time first (scripts/gate_divergences.py). */
module GatePairs {
  import opened Basics

  datatype Event = Event(arm: string, ts: int, material: bool, confidence: real, nHeadlines: nat)

  const PAIR_WINDOW_SEC := 15

  /** A paired decision, by the positions of the B and the C event in the log. */
  datatype Match = Match(b: nat, c: nat)

  datatype Divergence = Divergence(ts: int, nHeadlines: nat, layaMaterial: bool, layaConf: real, jevMaterial: bool,
                                   jevConf: real, actingArm: string, gapSec: int)

  function Gap(a: Event, b: Event): nat {
    if a.ts >= b.ts then a.ts - b.ts else b.ts - a.ts
  }

  predicate InLog(events: seq<Event>, group: seq<nat>) {
    forall i | 0 <= i < |group| :: group[i] < |events|
  }

  // ---- stable sort by an integer key ----

  function Insert<T>(s: seq<T>, x: T, key: T -> int): seq<T> {
    if s == [] || key(s[|s| - 1]) <= key(x) then s + [x] else Insert(s[..|s| - 1], x, key) + [s[|s| - 1]]
  }

  function Sort<T>(s: seq<T>, key: T -> int): seq<T> {
    if s == [] then [] else Insert(Sort(s[..|s| - 1], key), s[|s| - 1], key)
  }

  ghost predicate Sorted<T>(s: seq<T>, key: T -> int) {
    forall i, j | 0 <= i < j < |s| :: key(s[i]) <= key(s[j])
  }

  lemma {:induction false} InsertHolds<T>(s: seq<T>, x: T, key: T -> int)
    ensures multiset(Insert(s, x, key)) == multiset(s) + multiset{x}
  {
    if s != [] {
      InsertHolds(s[..|s| - 1], x, key);
      assert s == s[..|s| - 1] + [s[|s| - 1]];
    }
  }

  lemma {:induction false} InsertSorts<T>(s: seq<T>, x: T, key: T -> int)
    requires Sorted(s, key)
    ensures Sorted(Insert(s, x, key), key)
  {
    if s != [] && key(s[|s| - 1]) > key(x) {
      var init, last := s[..|s| - 1], s[|s| - 1];
      var t := Insert(init, x, key);
      InsertSorts(init, x, key);
      InsertHolds(init, x, key);
      forall i | 0 <= i < |t| ensures key(t[i]) <= key(last) {
        assert t[i] in multiset(t);
        assert t[i] in init || t[i] == x;
      }
      hide Insert;
    }
  }

  lemma {:induction false} SortSorts<T>(s: seq<T>, key: T -> int)
    ensures Sorted(Sort(s, key), key) && multiset(Sort(s, key)) == multiset(s)
  {
    if s != [] {
      var init, last := s[..|s| - 1], s[|s| - 1];
      SortSorts(init, key);
      InsertSorts(Sort(init, key), last, key);
      InsertHolds(Sort(init, key), last, key);
      assert s == init + [last];
      hide Insert, Sorted;
    }
  }

  // ---- one group: greedy nearest-in-time matching ----

  function UsedC(pairs: seq<Match>): set<nat> {
    set p | p in pairs :: p.c
  }

  function UsedB(pairs: seq<Match>): set<nat> {
    set p | p in pairs :: p.b
  }

  /** The first unused C event of `group[..upto]` nearest to event `b`, if one is inside the window. */
  function Nearest(events: seq<Event>, group: seq<nat>, b: nat, used: set<nat>, upto: nat): Option<nat>
    requires InLog(events, group) && b < |events| && upto <= |group|
  {
    if upto == 0 then None
    else
      var best, c := Nearest(events, group, b, used, upto - 1), group[upto - 1];
      if events[c].arm != "C" || c in used then best
      else
        var dt := Gap(events[c], events[b]);
        if dt <= PAIR_WINDOW_SEC && (best.None? || dt < BestGap(events, b, best)) then Some(c) else best
  }

  function BestGap(events: seq<Event>, b: nat, best: Option<nat>): nat
    requires b < |events|
  {
    if best.Some? && best.value < |events| then Gap(events[best.value], events[b]) else PAIR_WINDOW_SEC + 1
  }

  /** The matches made once the first `n` events of the group have had their turn. */
  function Greedy(events: seq<Event>, group: seq<nat>, n: nat): seq<Match>
    requires InLog(events, group) && n <= |group|
  {
    if n == 0 then []
    else
      var pairs, b := Greedy(events, group, n - 1), group[n - 1];
      if events[b].arm != "B" then pairs
      else
        var best := Nearest(events, group, b, UsedC(pairs), |group|);
        if best.None? then pairs else pairs + [Match(b, best.value)]
  }

  /** B and C events of the log, with equal headline counts, at most 15 seconds apart. */
  predicate Legal(events: seq<Event>, p: Match) {
    && p.b < |events| && p.c < |events|
    && events[p.b].arm == "B" && events[p.c].arm == "C"
    && events[p.b].nHeadlines == events[p.c].nHeadlines
    && Gap(events[p.c], events[p.b]) <= PAIR_WINDOW_SEC
  }

  predicate Matches(events: seq<Event>, pairs: seq<Match>) {
    forall k | 0 <= k < |pairs| :: Legal(events, pairs[k])
  }

  predicate Agree(events: seq<Event>, p: Match)
    requires Legal(events, p)
  {
    events[p.b].material == events[p.c].material
  }

  function Agreeing(events: seq<Event>, pairs: seq<Match>): nat
    requires Matches(events, pairs)
  {
    if pairs == [] then 0
    else Agreeing(events, pairs[..|pairs| - 1]) + if Agree(events, pairs[|pairs| - 1]) then 1 else 0
  }

  function DivergenceOf(events: seq<Event>, p: Match): Divergence
    requires Legal(events, p)
  {
    var b, c := events[p.b], events[p.c];
    Divergence(if b.ts <= c.ts then b.ts else c.ts, b.nHeadlines, b.material, b.confidence, c.material, c.confidence,
               if b.material then "B" else "C", Gap(c, b))
  }

  function Divergent(events: seq<Event>, pairs: seq<Match>): seq<Divergence>
    requires Matches(events, pairs)
  {
    if pairs == [] then []
    else
      var init, p := Divergent(events, pairs[..|pairs| - 1]), pairs[|pairs| - 1];
      if Agree(events, p) then init else init + [DivergenceOf(events, p)]
  }

  ghost predicate OneToOne(pairs: seq<Match>) {
    forall k, l | 0 <= k < l < |pairs| :: pairs[k].b != pairs[l].b && pairs[k].c != pairs[l].c
  }

  /** Each match takes a nearest C event among those no earlier match took. */
  ghost predicate NearestFirst(events: seq<Event>, pairs: seq<Match>)
    requires Matches(events, pairs)
  {
    forall k: nat, c: nat | k < |pairs| && Legal(events, Match(pairs[k].b, c)) && c !in UsedC(pairs[..k]) ::
      Gap(events[pairs[k].c], events[pairs[k].b]) <= Gap(events[c], events[pairs[k].b])
  }

  /** No legal pair is left with both ends free. */
  ghost predicate Maximal(events: seq<Event>, pairs: seq<Match>) {
    forall p: Match | Legal(events, p) :: p.b in UsedB(pairs) || p.c in UsedC(pairs)
  }

  /** All events of the group have `n` headlines, and none is listed twice. */
  ghost predicate IsGroup(events: seq<Event>, group: seq<nat>, n: nat) {
    && InLog(events, group)
    && (forall i | 0 <= i < |group| :: events[group[i]].nHeadlines == n)
    && (forall i, j | 0 <= i < j < |group| :: group[i] != group[j])
  }

  lemma {:induction false} NearestMeaning(events: seq<Event>, group: seq<nat>, b: nat, used: set<nat>, upto: nat)
    requires InLog(events, group) && b < |events| && upto <= |group|
    ensures var best := Nearest(events, group, b, used, upto);
            && (best.Some? ==> best.value in group[..upto] && events[best.value].arm == "C" && best.value !in used
                               && Gap(events[best.value], events[b]) <= PAIR_WINDOW_SEC)
            && forall c | c in group[..upto] && events[c].arm == "C" && c !in used
                          && Gap(events[c], events[b]) <= PAIR_WINDOW_SEC ::
                 best.Some? && Gap(events[best.value], events[b]) <= Gap(events[c], events[b])
  {
    if upto > 0 {
      NearestMeaning(events, group, b, used, upto - 1);
      assert group[..upto] == group[..upto - 1] + [group[upto - 1]];
    }
  }

  /** Among equally near C events it is the first of the group. */
  lemma {:induction false} NearestIsFirst(events: seq<Event>, group: seq<nat>, b: nat, used: set<nat>, upto: nat)
    returns (i: nat)
    requires InLog(events, group) && b < |events| && upto <= |group|
    requires Nearest(events, group, b, used, upto).Some?
    ensures i < upto && Nearest(events, group, b, used, upto) == Some(group[i])
    ensures forall j | 0 <= j < i && events[group[j]].arm == "C" && group[j] !in used ::
              Gap(events[group[j]], events[b]) > Gap(events[group[i]], events[b])
  {
    var c := group[upto - 1];
    var before := Nearest(events, group, b, used, upto - 1);
    NearestMeaning(events, group, b, used, upto - 1);
    if Nearest(events, group, b, used, upto) == before {
      i := NearestIsFirst(events, group, b, used, upto - 1);
    } else {
      i := upto - 1;
      assert forall j | 0 <= j < i :: group[j] in group[..i];
    }
  }

  /** C events of the group that event `b` may still take. */
  ghost predicate Candidate(events: seq<Event>, group: seq<nat>, b: nat, used: set<nat>, c: nat)
    requires InLog(events, group) && b < |events|
  {
    && c in group && c < |events| && events[c].arm == "C" && c !in used
    && Gap(events[c], events[b]) <= PAIR_WINDOW_SEC
  }

  /** A turn adds nothing, or matches a B event with a nearest candidate; a B event with a candidate is matched. */
  lemma GreedyStep(events: seq<Event>, group: seq<nat>, n: nat)
    requires InLog(events, group) && 0 < n <= |group|
    ensures var pairs, all, b := Greedy(events, group, n - 1), Greedy(events, group, n), group[n - 1];
            if |all| == |pairs| then
              && all == pairs
              && (events[b].arm == "B" ==> forall c | c in group :: !Candidate(events, group, b, UsedC(pairs), c))
            else
              && |all| == |pairs| + 1 && all[..|pairs|] == pairs && events[b].arm == "B" && all[|pairs|].b == b
              && Candidate(events, group, b, UsedC(pairs), all[|pairs|].c)
              && forall c: nat | Candidate(events, group, b, UsedC(pairs), c) ::
                   Gap(events[all[|pairs|].c], events[b]) <= Gap(events[c], events[b])
  {
    NearestMeaning(events, group, group[n - 1], UsedC(Greedy(events, group, n - 1)), |group|);
    assert group[..|group|] == group;
    hide Nearest, UsedC;
  }

  lemma {:induction false} GreedyMatches(events: seq<Event>, group: seq<nat>, n: nat, h: nat)
    requires IsGroup(events, group, h) && n <= |group|
    ensures var pairs := Greedy(events, group, n);
            && Matches(events, pairs)
            && OneToOne(pairs)
            && (forall k | 0 <= k < |pairs| :: pairs[k].b in group[..n] && pairs[k].c in group)
  {
    if n > 0 {
      GreedyMatches(events, group, n - 1, h);
      GreedyStep(events, group, n);
      var pairs, all := Greedy(events, group, n - 1), Greedy(events, group, n);
      hide Greedy;
      assert group[..n] == group[..n - 1] + [group[n - 1]];
      assert group[n - 1] !in group[..n - 1];
      if |all| > |pairs| { MatchesAppend(events, pairs, all); }
    }
  }

  lemma MatchesAppend(events: seq<Event>, pairs: seq<Match>, all: seq<Match>)
    requires Matches(events, pairs) && OneToOne(pairs) && |all| == |pairs| + 1 && all[..|pairs|] == pairs
    requires Legal(events, all[|pairs|]) && all[|pairs|].b !in UsedB(pairs) && all[|pairs|].c !in UsedC(pairs)
    ensures Matches(events, all) && OneToOne(all)
  {
    assert forall k | 0 <= k < |pairs| :: all[k] == pairs[k];
    hide Legal;
  }

  lemma NearestAppend(events: seq<Event>, pairs: seq<Match>, p: Match)
    requires Matches(events, pairs) && NearestFirst(events, pairs) && Legal(events, p)
    requires forall c: nat | Legal(events, Match(p.b, c)) && c !in UsedC(pairs) ::
               Gap(events[p.c], events[p.b]) <= Gap(events[c], events[p.b])
    ensures Matches(events, pairs + [p]) && NearestFirst(events, pairs + [p])
  {
    var all := pairs + [p];
    assert Matches(events, all) by { hide Legal; }
    forall k: nat, c: nat | k < |all| && Legal(events, Match(all[k].b, c)) && c !in UsedC(all[..k])
      ensures Gap(events[all[k].c], events[all[k].b]) <= Gap(events[c], events[all[k].b])
    {
      assert all[..k] == pairs[..k];
      assert pairs[..|pairs|] == pairs;
      if k < |pairs| { assert all[k] == pairs[k]; }
      hide Legal, UsedC;
    }
  }

  lemma {:induction false} GreedyNearest(events: seq<Event>, group: seq<nat>, n: nat, h: nat)
    requires IsGroup(events, group, h) && n <= |group|
    requires forall i: nat | i < |events| && events[i].nHeadlines == h :: i in group
    ensures Matches(events, Greedy(events, group, n)) && NearestFirst(events, Greedy(events, group, n))
  {
    if n > 0 {
      GreedyNearest(events, group, n - 1, h);
      GreedyStep(events, group, n);
      var pairs, all, b := Greedy(events, group, n - 1), Greedy(events, group, n), group[n - 1];
      hide Greedy, Matches, UsedC, NearestFirst;
      if |all| > |pairs| {
        forall c: nat | Legal(events, Match(b, c)) && c !in UsedC(pairs)
          ensures Candidate(events, group, b, UsedC(pairs), c)
        {
        }
        assert all == pairs + [all[|pairs|]];
        NearestAppend(events, pairs, all[|pairs|]);
      }
    } else {
      hide Legal;
    }
  }

  lemma {:induction false} GreedyMaximal(events: seq<Event>, group: seq<nat>, n: nat)
    requires InLog(events, group) && n <= |group|
    ensures var pairs := Greedy(events, group, n);
            forall b, c | b in group[..n] && c in group && Legal(events, Match(b, c)) ::
              b in UsedB(pairs) || c in UsedC(pairs)
  {
    if n > 0 {
      GreedyMaximal(events, group, n - 1);
      GreedyStep(events, group, n);
      var pairs, all, b := Greedy(events, group, n - 1), Greedy(events, group, n), group[n - 1];
      hide Greedy;
      assert group[..n] == group[..n - 1] + [b];
      assert forall k | 0 <= k < |pairs| :: all[k] == pairs[k];
      if |all| > |pairs| { assert all[|pairs|] in all; }
      assert UsedB(pairs) <= UsedB(all) && UsedC(pairs) <= UsedC(all);
      forall c | c in group && Legal(events, Match(b, c)) ensures b in UsedB(all) || c in UsedC(all) {
        if |all| == |pairs| { assert !Candidate(events, group, b, UsedC(pairs), c); }
      }
    }
  }

  // ---- all groups ----

  /** Positions of the first `n` events that carry `h` headlines, in log order. */
  function GroupUpTo(events: seq<Event>, h: nat, n: nat): (g: seq<nat>)
    requires n <= |events|
    ensures forall i | 0 <= i < |g| :: g[i] < n
  {
    if n == 0 then []
    else if events[n - 1].nHeadlines == h then GroupUpTo(events, h, n - 1) + [n - 1]
    else GroupUpTo(events, h, n - 1)
  }

  /** Headline counts in order of first appearance among the first `n` events. */
  function KeysUpTo(events: seq<Event>, n: nat): seq<nat>
    requires n <= |events|
  {
    if n == 0 then []
    else
      var keys, h := KeysUpTo(events, n - 1), events[n - 1].nHeadlines;
      if h in keys then keys else keys + [h]
  }

  function TsOf(events: seq<Event>): nat -> int {
    (i: nat) => if i < |events| then events[i].ts else 0
  }

  function Ordered(events: seq<Event>, h: nat): seq<nat> {
    Sort(GroupUpTo(events, h, |events|), TsOf(events))
  }

  function PairKeys(events: seq<Event>, keys: seq<nat>): seq<Match> {
    if keys == [] then []
    else
      var h := keys[|keys| - 1];
      OrderedIsGroup(events, h);
      PairKeys(events, keys[..|keys| - 1]) + Greedy(events, Ordered(events, h), |Ordered(events, h)|)
  }

  lemma {:induction false} GroupMembers(events: seq<Event>, h: nat, n: nat)
    requires n <= |events|
    ensures IsGroup(events, GroupUpTo(events, h, n), h)
    ensures forall i: nat | i < n && events[i].nHeadlines == h :: i in GroupUpTo(events, h, n)
  {
    if n > 0 { GroupMembers(events, h, n - 1); }
  }

  lemma {:induction false} KeysMeaning(events: seq<Event>, n: nat)
    requires n <= |events|
    ensures forall i, j | 0 <= i < j < |KeysUpTo(events, n)| :: KeysUpTo(events, n)[i] != KeysUpTo(events, n)[j]
    ensures forall i: nat | i < n :: events[i].nHeadlines in KeysUpTo(events, n)
  {
    if n > 0 { KeysMeaning(events, n - 1); }
  }

  lemma {:induction false} DistinctCounts(s: seq<nat>)
    requires forall i, j | 0 <= i < j < |s| :: s[i] != s[j]
    ensures forall x :: multiset(s)[x] <= 1
  {
    if s != [] {
      var init, last := s[..|s| - 1], s[|s| - 1];
      DistinctCounts(init);
      assert s == init + [last];
      assert last !in init;
      assert multiset(init)[last] == 0;
    }
  }

  lemma CountedOnce(s: seq<nat>, i: nat, j: nat)
    requires forall x :: multiset(s)[x] <= 1
    requires i < j < |s|
    ensures s[i] != s[j]
  {
    assert s == s[..j] + [s[j]] + s[j + 1..];
    assert multiset(s)[s[j]] >= multiset(s[..j])[s[j]] + 1;
    assert s[..j][i] == s[i];
    assert s[i] in multiset(s[..j]);
  }

  lemma PermutedGroup(events: seq<Event>, g: seq<nat>, s: seq<nat>, h: nat)
    requires IsGroup(events, g, h) && multiset(s) == multiset(g)
    ensures IsGroup(events, s, h) && forall i | i in g :: i in s
  {
    DistinctCounts(g);
    forall i, j | 0 <= i < j < |s| ensures s[i] != s[j] { CountedOnce(s, i, j); }
    forall i | 0 <= i < |s| ensures s[i] in g {
      assert s[i] in multiset(s);
    }
    forall i | i in g ensures i in s {
      assert i in multiset(g);
    }
  }

  /** By time, and by log position among equal times. */
  ghost predicate InOrder(s: seq<nat>, key: nat -> int) {
    forall i, j | 0 <= i < j < |s| :: key(s[i]) < key(s[j]) || (key(s[i]) == key(s[j]) && s[i] < s[j])
  }

  lemma {:induction false} InsertInOrder(s: seq<nat>, x: nat, key: nat -> int)
    requires InOrder(s, key) && forall y | y in s :: y < x
    ensures InOrder(Insert(s, x, key), key)
  {
    if s != [] && key(s[|s| - 1]) > key(x) {
      var init, last := s[..|s| - 1], s[|s| - 1];
      var t := Insert(init, x, key);
      assert forall y | y in init :: y in s;
      InsertInOrder(init, x, key);
      InsertHolds(init, x, key);
      forall i | 0 <= i < |t| ensures key(t[i]) < key(last) || (key(t[i]) == key(last) && t[i] < last) {
        assert t[i] in multiset(t);
        assert t[i] in init || t[i] == x;
      }
      hide Insert;
    } else {
      assert Insert(s, x, key) == s + [x];
      hide Insert, InOrder;
      AppendInOrder(s, x, key);
    }
  }

  lemma AppendInOrder(s: seq<nat>, x: nat, key: nat -> int)
    requires InOrder(s, key) && forall y | y in s :: y < x
    requires s != [] ==> key(s[|s| - 1]) <= key(x)
    ensures InOrder(s + [x], key)
  {
    forall i | 0 <= i < |s| ensures key(s[i]) <= key(x) && s[i] < x {
      assert s[i] in s;
      if i < |s| - 1 { assert key(s[i]) <= key(s[|s| - 1]); }
    }
  }

  predicate Increasing(s: seq<nat>) {
    forall i, j | 0 <= i < j < |s| :: s[i] < s[j]
  }

  /** The sort is stable: among equal keys, what came first stays first. */
  lemma {:induction false} SortInOrder(s: seq<nat>, key: nat -> int)
    requires Increasing(s)
    ensures InOrder(Sort(s, key), key)
  {
    if s != [] {
      var init, last := s[..|s| - 1], s[|s| - 1];
      SortInOrder(init, key);
      SortSorts(init, key);
      hide Insert;
      forall y | y in Sort(init, key) ensures y < last {
        assert y in multiset(Sort(init, key));
        assert y in init;
      }
      hide Sorted, InOrder;
      InsertInOrder(Sort(init, key), last, key);
    }
  }

  lemma {:induction false} GroupIncreases(events: seq<Event>, h: nat, n: nat)
    requires n <= |events|
    ensures Increasing(GroupUpTo(events, h, n))
  {
    if n > 0 { GroupIncreases(events, h, n - 1); }
  }

  /** A group is taken by time, and among equal times in the order of the log. */
  lemma OrderedIsStable(events: seq<Event>, h: nat)
    ensures InOrder(Ordered(events, h), TsOf(events))
  {
    GroupIncreases(events, h, |events|);
    hide GroupUpTo, Sort, InOrder;
    SortInOrder(GroupUpTo(events, h, |events|), TsOf(events));
  }

  lemma OrderedIsGroup(events: seq<Event>, h: nat)
    ensures IsGroup(events, Ordered(events, h), h)
    ensures forall i: nat | i < |events| && events[i].nHeadlines == h :: i in Ordered(events, h)
    ensures Sorted(Ordered(events, h), TsOf(events))
  {
    GroupMembers(events, h, |events|);
    SortSorts(GroupUpTo(events, h, |events|), TsOf(events));
    PermutedGroup(events, GroupUpTo(events, h, |events|), Ordered(events, h), h);
    hide Sort, Sorted, GroupUpTo, IsGroup;
  }

  /** Everything the matching guarantees, for the legal pairs whose headline count satisfies `keys`. */
  ghost predicate Guarantee(events: seq<Event>, keys: seq<nat>, pairs: seq<Match>) {
    && Matches(events, pairs)
    && OneToOne(pairs)
    && NearestFirst(events, pairs)
    && (forall k | 0 <= k < |pairs| :: events[pairs[k].b].nHeadlines in keys)
    && forall b: nat, c: nat | Legal(events, Match(b, c)) && events[b].nHeadlines in keys ::
         b in UsedB(pairs) || c in UsedC(pairs)
  }

  lemma GroupGuarantee(events: seq<Event>, h: nat)
    ensures InLog(events, Ordered(events, h))
    ensures Guarantee(events, [h], Greedy(events, Ordered(events, h), |Ordered(events, h)|))
  {
    var group := Ordered(events, h);
    OrderedIsGroup(events, h);
    GreedyMatches(events, group, |group|, h);
    GreedyNearest(events, group, |group|, h);
    GreedyMaximal(events, group, |group|);
    hide Ordered, Greedy, OneToOne, NearestFirst, UsedB, UsedC;
    assert group[..|group|] == group;
  }

  lemma OneToOneJoin(events: seq<Event>, keys: seq<nat>, pairs: seq<Match>, h: nat, more: seq<Match>)
    requires Guarantee(events, keys, pairs) && Guarantee(events, [h], more) && h !in keys
    ensures OneToOne(pairs + more)
  {
    forall k, l | 0 <= k < |pairs| && 0 <= l < |more| ensures pairs[k].b != more[l].b && pairs[k].c != more[l].c {
      assert Legal(events, pairs[k]) && Legal(events, more[l]);
      assert events[pairs[k].b].nHeadlines in keys && events[more[l].b].nHeadlines in [h];
    }
    hide Legal, NearestFirst, UsedB, UsedC;
  }

  lemma NearestJoin(events: seq<Event>, pairs: seq<Match>, more: seq<Match>)
    requires Matches(events, pairs) && Matches(events, more)
    requires NearestFirst(events, pairs) && NearestFirst(events, more)
    ensures Matches(events, pairs + more) && NearestFirst(events, pairs + more)
  {
    var all := pairs + more;
    assert Matches(events, all) by { hide Legal; }
    forall k: nat, c: nat | k < |all| && Legal(events, Match(all[k].b, c)) && c !in UsedC(all[..k])
      ensures Gap(events[all[k].c], events[all[k].b]) <= Gap(events[c], events[all[k].b])
    {
      if k < |pairs| {
        assert all[k] == pairs[k] && all[..k] == pairs[..k];
        hide Legal, UsedC;
      } else {
        var l := k - |pairs|;
        assert all[k] == more[l] && all[..k] == pairs + more[..l];
        UsedJoin(pairs, more[..l]);
        hide Legal, UsedC, UsedB;
      }
    }
  }

  lemma GuaranteeJoin(events: seq<Event>, keys: seq<nat>, pairs: seq<Match>, h: nat, more: seq<Match>)
    requires Guarantee(events, keys, pairs) && Guarantee(events, [h], more) && h !in keys
    ensures Guarantee(events, keys + [h], pairs + more)
  {
    UsedJoin(pairs, more);
    OneToOneJoin(events, keys, pairs, h, more);
    NearestJoin(events, pairs, more);
    hide Legal, OneToOne, NearestFirst, UsedB, UsedC, Matches;
  }

  lemma UsedJoin(pairs: seq<Match>, more: seq<Match>)
    ensures UsedB(pairs + more) == UsedB(pairs) + UsedB(more)
    ensures UsedC(pairs + more) == UsedC(pairs) + UsedC(more)
  {
    assert forall p | p in more :: p in pairs + more;
    assert forall p | p in pairs :: p in pairs + more;
  }

  lemma {:induction false} PairKeysGuarantee(events: seq<Event>, keys: seq<nat>)
    requires forall i, j | 0 <= i < j < |keys| :: keys[i] != keys[j]
    ensures Guarantee(events, keys, PairKeys(events, keys))
  {
    if keys != [] {
      var n := |keys| - 1;
      PairKeysGuarantee(events, keys[..n]);
      GroupGuarantee(events, keys[n]);
      GuaranteeJoin(events, keys[..n], PairKeys(events, keys[..n]), keys[n],
                    Greedy(events, Ordered(events, keys[n]), |Ordered(events, keys[n])|));
      assert keys[..n] + [keys[n]] == keys;
      hide Guarantee, Ordered, Greedy;
    }
  }

  lemma LegalInSeconds(events: seq<Event>)
    ensures forall b: nat, c: nat :: Legal(events, Match(b, c)) <==>
              && b < |events| && c < |events| && events[b].arm == "B" && events[c].arm == "C"
              && events[b].nHeadlines == events[c].nHeadlines && -15 <= events[c].ts - events[b].ts <= 15
  {
  }

  function AllPairs(events: seq<Event>): seq<Match> {
    PairKeys(events, KeysUpTo(events, |events|))
  }

  /** Main result on the matches: legal, one-to-one, nearest first, and maximal over the whole log. */
  lemma PairingGuarantee(events: seq<Event>)
    ensures var pairs := AllPairs(events);
            Matches(events, pairs) && OneToOne(pairs) && NearestFirst(events, pairs) && Maximal(events, pairs)
  {
    KeysMeaning(events, |events|);
    PairKeysGuarantee(events, KeysUpTo(events, |events|));
    hide OneToOne, NearestFirst, PairKeys, UsedB, UsedC;
    forall p: Match | Legal(events, p) ensures p.b in UsedB(AllPairs(events)) || p.c in UsedC(AllPairs(events)) {
      assert Legal(events, Match(p.b, p.c));
    }
  }

  /** The same in seconds: what a match is, and that no possible one is left with both ends unused. */
  lemma PairingInSeconds(events: seq<Event>)
    ensures forall p | p in AllPairs(events) ::
              && p.b < |events| && p.c < |events| && events[p.b].arm == "B" && events[p.c].arm == "C"
              && events[p.b].nHeadlines == events[p.c].nHeadlines && -15 <= events[p.c].ts - events[p.b].ts <= 15
    ensures forall b: nat, c: nat | b < |events| && c < |events| && events[b].arm == "B" && events[c].arm == "C"
                                    && events[b].nHeadlines == events[c].nHeadlines
                                    && -15 <= events[c].ts - events[b].ts <= 15 ::
              b in UsedB(AllPairs(events)) || c in UsedC(AllPairs(events))
  {
    LegalInSeconds(events);
    PairingGuarantee(events);
    hide Legal, AllPairs, UsedB, UsedC, NearestFirst, OneToOne;
    forall p | p in AllPairs(events) ensures Legal(events, Match(p.b, p.c)) {
    }
    assert forall b: nat, c: nat | Legal(events, Match(b, c)) ::
        b in UsedB(AllPairs(events)) || c in UsedC(AllPairs(events));
  }

  /** Within one headline count the B events are matched by time, and among equal times in the order of the log. */
  ghost predicate ByTurns(events: seq<Event>, pairs: seq<Match>)
    requires Matches(events, pairs)
  {
    forall k, l | 0 <= k < l < |pairs| && events[pairs[k].b].nHeadlines == events[pairs[l].b].nHeadlines ::
      events[pairs[k].b].ts < events[pairs[l].b].ts
      || (events[pairs[k].b].ts == events[pairs[l].b].ts && pairs[k].b < pairs[l].b)
  }

  lemma {:induction false} GreedyByTurns(events: seq<Event>, group: seq<nat>, n: nat, h: nat)
    requires IsGroup(events, group, h) && InOrder(group, TsOf(events)) && n <= |group|
    ensures Matches(events, Greedy(events, group, n)) && ByTurns(events, Greedy(events, group, n))
  {
    hide Greedy, Matches, OneToOne, InOrder, ByTurns;
    GreedyMatches(events, group, n, h);
    if n > 0 {
      GreedyByTurns(events, group, n - 1, h);
      GreedyMatches(events, group, n - 1, h);
      GreedyGrows(events, group, n);
      var pairs, all := Greedy(events, group, n - 1), Greedy(events, group, n);
      if all != pairs { TurnAfter(events, group, pairs, all[|pairs|], n); }
    } else {
      assert Greedy(events, group, 0) == [] by { NoneMatched(events, group); }
      assert ByTurns(events, []) by { NoTurns(events); }
    }
  }

  lemma NoneMatched(events: seq<Event>, group: seq<nat>)
    requires InLog(events, group)
    ensures Greedy(events, group, 0) == []
  {
  }

  lemma NoTurns(events: seq<Event>)
    ensures Matches(events, []) && ByTurns(events, [])
  {
  }

  lemma GreedyGrows(events: seq<Event>, group: seq<nat>, n: nat)
    requires InLog(events, group) && 0 < n <= |group|
    ensures var pairs, all := Greedy(events, group, n - 1), Greedy(events, group, n);
            all == pairs || (|all| > |pairs| && all == pairs + [all[|pairs|]] && all[|pairs|].b == group[n - 1])
  {
    hide Nearest, UsedC;
  }

  lemma TurnAfter(events: seq<Event>, group: seq<nat>, pairs: seq<Match>, p: Match, n: nat)
    requires InLog(events, group) && InOrder(group, TsOf(events)) && 0 < n <= |group| && p.b == group[n - 1]
    requires Matches(events, pairs) && Matches(events, pairs + [p]) && ByTurns(events, pairs)
    requires forall k | 0 <= k < |pairs| :: pairs[k].b in group[..n - 1]
    ensures ByTurns(events, pairs + [p])
  {
    hide Matches;
    forall k | 0 <= k < |pairs|
      ensures var b := pairs[k].b;
              b < |events| && (events[b].ts < events[p.b].ts || (events[b].ts == events[p.b].ts && b < p.b))
    {
      var i :| 0 <= i < n - 1 && group[i] == pairs[k].b;
    }
    hide InOrder;
  }

  lemma {:induction false} PairKeysByTurns(events: seq<Event>, keys: seq<nat>)
    requires forall i, j | 0 <= i < j < |keys| :: keys[i] != keys[j]
    ensures Matches(events, PairKeys(events, keys)) && ByTurns(events, PairKeys(events, keys))
    ensures forall p | p in PairKeys(events, keys) :: p.b < |events| && events[p.b].nHeadlines in keys
  {
    if keys != [] {
      var init, h := keys[..|keys| - 1], keys[|keys| - 1];
      var group := Ordered(events, h);
      PairKeysByTurns(events, init);
      OrderedIsGroup(events, h);
      OrderedIsStable(events, h);
      GreedyByTurns(events, group, |group|, h);
      GreedyMatches(events, group, |group|, h);
      var pairs, more := PairKeys(events, init), Greedy(events, group, |group|);
      hide PairKeys, Greedy, Ordered, OneToOne, InOrder, Sorted;
      MatchesJoin(events, pairs, more);
      assert h !in init;
      assert forall p | p in more :: p.b < |events| && events[p.b].nHeadlines == h;
      ByTurnsJoin(events, pairs, more, h);
      hide ByTurns, Matches;
    }
  }

  lemma ByTurnsJoin(events: seq<Event>, pairs: seq<Match>, more: seq<Match>, h: nat)
    requires Matches(events, pairs) && Matches(events, more) && Matches(events, pairs + more)
    requires ByTurns(events, pairs) && ByTurns(events, more)
    requires forall p | p in pairs :: p.b < |events| && events[p.b].nHeadlines != h
    requires forall p | p in more :: p.b < |events| && events[p.b].nHeadlines == h
    ensures ByTurns(events, pairs + more)
  {
    hide Matches;
    var all := pairs + more;
    forall k, l | 0 <= k < l < |all| && all[k].b < |events| && all[l].b < |events|
                  && events[all[k].b].nHeadlines == events[all[l].b].nHeadlines
      ensures l < |pairs| || |pairs| <= k
    {
      assert k < |pairs| ==> all[k] in pairs;
      assert l >= |pairs| ==> all[l] in more;
    }
  }

  /** So the whole pairing goes by turns: with "nearest first" and ties to the earlier event, it is determined. */
  lemma PairingGoesByTurns(events: seq<Event>)
    ensures Matches(events, AllPairs(events)) && ByTurns(events, AllPairs(events))
  {
    KeysMeaning(events, |events|);
    PairKeysByTurns(events, KeysUpTo(events, |events|));
    hide PairKeys, ByTurns, Matches;
  }

  // ---- at least half of any legal pairing ----

  ghost predicate Pairing(events: seq<Event>, l: set<Match>) {
    && (forall p | p in l :: Legal(events, p))
    && (forall p, q | p in l && q in l && (p.b == q.b || p.c == q.c) :: p == q)
  }

  lemma {:induction false} CountByB(l: set<Match>, used: set<nat>)
    requires forall p | p in l :: p.b in used
    requires forall p, q | p in l && q in l && p.b == q.b :: p == q
    ensures |l| <= |used|
    decreases l
  {
    if p :| p in l { CountByB(l - {p}, used - {p.b}); }
  }

  lemma {:induction false} CountByC(l: set<Match>, used: set<nat>)
    requires forall p | p in l :: p.c in used
    requires forall p, q | p in l && q in l && p.c == q.c :: p == q
    ensures |l| <= |used|
    decreases l
  {
    if p :| p in l { CountByC(l - {p}, used - {p.c}); }
  }

  lemma {:induction false} UsedCount(pairs: seq<Match>)
    ensures |UsedB(pairs)| <= |pairs| && |UsedC(pairs)| <= |pairs|
  {
    if pairs != [] {
      var init, last := pairs[..|pairs| - 1], pairs[|pairs| - 1];
      UsedCount(init);
      UsedJoin(init, [last]);
      assert UsedB([last]) == {last.b} && UsedC([last]) == {last.c};
      hide UsedB, UsedC;
      assert init + [last] == pairs;
      AddOne(UsedB(init), last.b);
      AddOne(UsedC(init), last.c);
    }
  }

  lemma AddOne(s: set<nat>, x: nat)
    ensures |s + {x}| <= |s| + 1
  {
    if x in s { assert s + {x} == s; }
  }

  /** A maximal matching meets every legal pairing at an end of each of its pairs. */
  lemma CoveredPairing(l: set<Match>, ub: set<nat>, uc: set<nat>)
    requires forall p | p in l :: p.b in ub || p.c in uc
    requires forall p, q | p in l && q in l && (p.b == q.b || p.c == q.c) :: p == q
    ensures |l| <= |ub| + |uc|
  {
    var viaB := set p | p in l && p.b in ub;
    var viaC := l - viaB;
    CountByB(viaB, ub);
    CountByC(viaC, uc);
    assert l == viaB + viaC;
  }

  /** Twice the number of matches is at least the size of any legal one-to-one pairing of the log. */
  lemma HalfOptimal(events: seq<Event>, l: set<Match>)
    requires Pairing(events, l)
    ensures 2 * |AllPairs(events)| >= |l|
  {
    hide AllPairs, Legal, OneToOne, NearestFirst, UsedB, UsedC, Matches;
    PairingGuarantee(events);
    UsedCount(AllPairs(events));
    CoveredPairing(l, UsedB(AllPairs(events)), UsedC(AllPairs(events)));
  }

  // ---- the factor 2 is tight ----

  /** Decisions at -12, 0, 10 and 24 seconds, with equal headline counts. */
  const TIGHT := [Event("C", -12, true, 1.0, 3), Event("B", 0, true, 1.0, 3), Event("C", 10, true, 1.0, 3),
                  Event("B", 24, true, 1.0, 3)]

  /** Sorting a sorted list changes nothing. */
  lemma {:induction false} SortSorted<T>(s: seq<T>, key: T -> int)
    requires Sorted(s, key)
    ensures Sort(s, key) == s
  {
    if s != [] {
      var init := s[..|s| - 1];
      SortSorted(init, key);
      assert s == init + [s[|s| - 1]];
    }
  }

  lemma {:induction false} AllInOneGroup(events: seq<Event>, h: nat, n: nat)
    requires 0 < n <= |events| && forall i | 0 <= i < |events| :: events[i].nHeadlines == h
    ensures KeysUpTo(events, n) == [h] && GroupUpTo(events, h, n) == seq(n, i requires 0 <= i < n => i)
  {
    if n == 1 {
      assert KeysUpTo(events, 0) == [] && GroupUpTo(events, h, 0) == [];
    } else {
      AllInOneGroup(events, h, n - 1);
    }
  }

  /** The B event at 0 takes the C event at 10. */
  lemma TightFirst()
    ensures Greedy(TIGHT, [0, 1, 2, 3], 3) == [Match(1, 2)]
  {
    var g: seq<nat> := [0, 1, 2, 3];
    assert Greedy(TIGHT, g, 0) == [];
    GreedyStep(TIGHT, g, 1);
    GreedyStep(TIGHT, g, 2);
    GreedyStep(TIGHT, g, 3);
    hide Greedy;
    assert UsedC([]) == {} && Candidate(TIGHT, g, 1, {}, 2);
    hide UsedC;
  }

  /** So the B event at 24 finds nothing. */
  lemma TightGreedy()
    ensures |Greedy(TIGHT, [0, 1, 2, 3], 4)| == 1
  {
    var g: seq<nat> := [0, 1, 2, 3];
    TightFirst();
    GreedyStep(TIGHT, g, 4);
    hide Greedy;
    assert UsedC([Match(1, 2)]) == {2};
    hide UsedC;
  }

  lemma TightOrder()
    ensures KeysUpTo(TIGHT, 4) == [3] && Ordered(TIGHT, 3) == [0, 1, 2, 3]
  {
    var g: seq<nat> := [0, 1, 2, 3];
    assert GroupUpTo(TIGHT, 3, 4) == g by { AllInOneGroup(TIGHT, 3, 4); }
    assert KeysUpTo(TIGHT, 4) == [3] by { AllInOneGroup(TIGHT, 3, 4); }
    hide GroupUpTo, KeysUpTo, Sort;
    SortSorted(g, TsOf(TIGHT));
  }

  lemma OneKey(events: seq<Event>, h: nat)
    requires InLog(events, Ordered(events, h))
    ensures PairKeys(events, [h]) == Greedy(events, Ordered(events, h), |Ordered(events, h)|)
  {
    assert [h][..0] == [] && PairKeys(events, []) == [];
    hide Greedy, Ordered;
  }

  lemma TwoLegal()
    ensures Pairing(TIGHT, {Match(1, 0), Match(3, 2)})
  {
  }

  /** On that log the greedy pairing makes one match where two legal ones are possible. */
  lemma HalfIsTight()
    ensures |AllPairs(TIGHT)| == 1
    ensures Pairing(TIGHT, {Match(1, 0), Match(3, 2)})
  {
    TwoLegal();
    TightOrder();
    TightGreedy();
    OneKey(TIGHT, 3);
    hide Greedy, Ordered, KeysUpTo, PairKeys, Pairing;
  }

  // ---- the loops ----

  lemma MatchesJoin(events: seq<Event>, pairs: seq<Match>, more: seq<Match>)
    requires Matches(events, pairs) && Matches(events, more)
    ensures Matches(events, pairs + more)
    ensures forall k | 0 <= k <= |more| :: Matches(events, more[..k])
  {
    hide Legal;
  }

  lemma {:induction false} CountsJoin(events: seq<Event>, pairs: seq<Match>, more: seq<Match>)
    requires Matches(events, pairs) && Matches(events, more)
    ensures Matches(events, pairs + more)
    ensures Agreeing(events, pairs + more) == Agreeing(events, pairs) + Agreeing(events, more)
    ensures Divergent(events, pairs + more) == Divergent(events, pairs) + Divergent(events, more)
  {
    hide Legal, DivergenceOf, Agree, Matches;
    if more == [] {
      assert pairs + more == pairs;
    } else {
      MatchesJoin(events, pairs, more);
      var n := |more| - 1;
      MatchesJoin(events, pairs, more[..n]);
      CountsJoin(events, pairs, more[..n]);
      var all := pairs + more;
      assert all[..|all| - 1] == pairs + more[..n] && all[|all| - 1] == more[n];
    }
  }

  /** The matches whose two events differ on materiality, in order. */
  function Disagreeing(events: seq<Event>, pairs: seq<Match>): seq<Match>
    requires Matches(events, pairs)
  {
    if pairs == [] then []
    else
      var init, p := Disagreeing(events, pairs[..|pairs| - 1]), pairs[|pairs| - 1];
      if events[p.b].material != events[p.c].material then init + [p] else init
  }

  /** The B event's figures are Laya's, the C event's Jev's; the acting arm is the one that called it material. */
  predicate Records(b: Event, c: Event, d: Divergence) {
    && (d.ts == b.ts || d.ts == c.ts) && d.ts <= b.ts && d.ts <= c.ts && d.nHeadlines == b.nHeadlines
    && d.layaMaterial == b.material && d.layaConf == b.confidence
    && d.jevMaterial == c.material && d.jevConf == c.confidence
    && b.material != c.material && d.actingArm == (if b.material then "B" else "C")
    && d.gapSec >= 0 && (d.gapSec == b.ts - c.ts || d.gapSec == c.ts - b.ts)
  }

  /** One record for each disagreeing match, in order and with its figures; every other match counts as agreeing. */
  lemma {:induction false} DivergenceMeaning(events: seq<Event>, pairs: seq<Match>)
    requires Matches(events, pairs)
    ensures Matches(events, Disagreeing(events, pairs))
    ensures var ps, ds := Disagreeing(events, pairs), Divergent(events, pairs);
            && |ds| == |ps|
            && forall i | 0 <= i < |ds| :: Records(events[ps[i].b], events[ps[i].c], ds[i])
    ensures Agreeing(events, pairs) == |pairs| - |Disagreeing(events, pairs)|
  {
    if pairs != [] {
      var init, p := pairs[..|pairs| - 1], pairs[|pairs| - 1];
      DivergenceMeaning(events, init);
      if events[p.b].material != events[p.c].material {
        assert Records(events[p.b], events[p.c], DivergenceOf(events, p));
      }
      hide Records, DivergenceOf;
    }
  }

  /** Every match either agrees or diverges. */
  lemma {:induction false} CountsAddUp(events: seq<Event>, pairs: seq<Match>)
    requires Matches(events, pairs)
    ensures Agreeing(events, pairs) + |Divergent(events, pairs)| == |pairs|
  {
    if pairs != [] { CountsAddUp(events, pairs[..|pairs| - 1]); }
  }

  /** The inner loop: position of the nearest unused C event. */
  method FindNearest(events: seq<Event>, group: seq<nat>, b: nat, used: array<bool>, ghost taken: set<nat>)
    returns (bestJ: Option<nat>)
    requires InLog(events, group) && b < |events| && used.Length == |group|
    requires forall j | 0 <= j < |group| && events[group[j]].arm == "C" :: used[j] <==> group[j] in taken
    ensures bestJ.Some? ==> bestJ.value < |group| && !used[bestJ.value] && events[group[bestJ.value]].arm == "C"
    ensures (if bestJ.Some? then Some(group[bestJ.value]) else None) == Nearest(events, group, b, taken, |group|)
  {
    bestJ := None;
    var bestDt := PAIR_WINDOW_SEC + 1;
    for j := 0 to |group|
      invariant bestJ.Some? ==> bestJ.value < j && !used[bestJ.value] && events[group[bestJ.value]].arm == "C"
      invariant (if bestJ.Some? then Some(group[bestJ.value]) else None) == Nearest(events, group, b, taken, j)
      invariant bestDt == BestGap(events, b, Nearest(events, group, b, taken, j))
    {
      var o := events[group[j]];
      if o.arm != "C" || used[j] {
        continue;
      }
      var dt := Gap(o, events[b]);
      if dt <= PAIR_WINDOW_SEC && dt < bestDt {
        bestJ, bestDt := Some(j), dt;
      }
    }
  }

  /** The flags say which events of the group are taken. */
  ghost predicate Flags(events: seq<Event>, group: seq<nat>, used: seq<bool>, pairs: seq<Match>, i: nat)
    requires InLog(events, group) && |used| == |group|
  {
    && (forall j | 0 <= j < |group| && events[group[j]].arm == "C" :: used[j] <==> group[j] in UsedC(pairs))
    && (forall j | i <= j < |group| && events[group[j]].arm == "B" :: !used[j])
  }

  lemma FlagsAfterMatch(events: seq<Event>, group: seq<nat>, used: seq<bool>, pairs: seq<Match>, i: nat, j: nat, h: nat)
    requires IsGroup(events, group, h) && |used| == |group| && Flags(events, group, used, pairs, i)
    requires i < |group| && j < |group| && events[group[i]].arm == "B" && events[group[j]].arm == "C"
    ensures Flags(events, group, used[i := true][j := true], pairs + [Match(group[i], group[j])], i + 1)
  {
    UsedJoin(pairs, [Match(group[i], group[j])]);
    assert UsedC([Match(group[i], group[j])]) == {group[j]};
    hide UsedC;
  }

  /** One turn of the outer loop: the position event `group[i]` is matched with, if any. */
  method Turn(events: seq<Event>, group: seq<nat>, i: nat, used: array<bool>, ghost pairs: seq<Match>)
    returns (bestJ: Option<nat>)
    requires InLog(events, group) && used.Length == |group| && i < |group|
    requires pairs == Greedy(events, group, i) && Flags(events, group, used[..], pairs, i)
    ensures bestJ.Some? ==>
              events[group[i]].arm == "B" && bestJ.value < |group| && events[group[bestJ.value]].arm == "C"
    ensures Greedy(events, group, i + 1)
            == if bestJ.None? then pairs else pairs + [Match(group[i], group[bestJ.value])]
  {
    if events[group[i]].arm != "B" || used[i] {
      return None;
    }
    assert forall j | 0 <= j < |group| :: used[..][j] == used[j];
    bestJ := FindNearest(events, group, group[i], used, UsedC(pairs));
    hide UsedC, Nearest;
  }

  datatype Tally = Tally(divergent: seq<Divergence>, total: nat, agree: nat)

  function TallyOf(events: seq<Event>, pairs: seq<Match>): Tally
    requires Matches(events, pairs)
  {
    Tally(Divergent(events, pairs), |pairs|, Agreeing(events, pairs))
  }

  function CountMatch(events: seq<Event>, t: Tally, p: Match): Tally
    requires Legal(events, p)
  {
    if events[p.b].material == events[p.c].material then Tally(t.divergent, t.total + 1, t.agree + 1)
    else Tally(t.divergent + [DivergenceOf(events, p)], t.total + 1, t.agree)
  }

  method MarkUsed(events: seq<Event>, group: seq<nat>, i: nat, j: nat, used: array<bool>, ghost pairs: seq<Match>,
                  ghost h: nat)
    requires IsGroup(events, group, h) && used.Length == |group| && i < |group| && j < |group|
    requires events[group[i]].arm == "B" && events[group[j]].arm == "C"
    requires Flags(events, group, used[..], pairs, i)
    modifies used
    ensures Flags(events, group, used[..], pairs + [Match(group[i], group[j])], i + 1)
  {
    FlagsAfterMatch(events, group, used[..], pairs, i, j, h);
    hide Flags;
    used[i] := true;
    used[j] := true;
    assert used[..] == old(used[..])[i := true][j := true];
  }

  lemma NothingMatched(events: seq<Event>, group: seq<nat>, used: seq<bool>)
    requires InLog(events, group) && |used| == |group| && forall j | 0 <= j < |used| :: !used[j]
    ensures Greedy(events, group, 0) == [] && Flags(events, group, used, [], 0)
    ensures Matches(events, []) && TallyOf(events, []) == Tally([], 0, 0)
  {
    assert UsedC([]) == {};
    hide UsedC;
  }

  /** The outer loop's body: match event `i` if it can be matched, and count the match. */
  method PairTurn(events: seq<Event>, group: seq<nat>, i: nat, used: array<bool>, t: Tally, ghost h: nat)
    returns (t': Tally)
    requires IsGroup(events, group, h) && i < |group| && used.Length == |group|
    requires Matches(events, Greedy(events, group, i)) && t == TallyOf(events, Greedy(events, group, i))
    requires Flags(events, group, used[..], Greedy(events, group, i), i)
    modifies used
    ensures Matches(events, Greedy(events, group, i + 1)) && t' == TallyOf(events, Greedy(events, group, i + 1))
    ensures Flags(events, group, used[..], Greedy(events, group, i + 1), i + 1)
  {
    hide Greedy, Matches, TallyOf, OneToOne, Flags, UsedC;
    ghost var pairs := Greedy(events, group, i);
    GreedyMatches(events, group, i + 1, h);
    var bestJ := Turn(events, group, i, used, pairs);
    if bestJ.None? {
      FlagsKept(events, group, used[..], pairs, i);
      t' := t;
    } else {
      var p := Match(group[i], group[bestJ.value]);
      TallyAppend(events, pairs, p);
      t' := CountMatch(events, t, p);
      MarkUsed(events, group, i, bestJ.value, used, pairs, h);
    }
  }

  /** The pairing of one group, time-sorted, with its `used` flags. */
  method PairGroup(events: seq<Event>, group: seq<nat>, ghost h: nat) returns (tally: Tally)
    requires IsGroup(events, group, h)
    ensures Matches(events, Greedy(events, group, |group|))
    ensures tally == TallyOf(events, Greedy(events, group, |group|))
  {
    tally := Tally([], 0, 0);
    var used := new bool[|group|](_ => false);
    NothingMatched(events, group, used[..]);
    hide Greedy, Matches, TallyOf, Flags;
    for i := 0 to |group|
      invariant Matches(events, Greedy(events, group, i))
      invariant tally == TallyOf(events, Greedy(events, group, i))
      invariant Flags(events, group, used[..], Greedy(events, group, i), i)
    {
      tally := PairTurn(events, group, i, used, tally, h);
    }
  }

  lemma TallyAppend(events: seq<Event>, pairs: seq<Match>, p: Match)
    requires Matches(events, pairs + [p])
    ensures Matches(events, pairs) && Legal(events, p)
    ensures TallyOf(events, pairs + [p]) == CountMatch(events, TallyOf(events, pairs), p)
  {
    CountsJoinOne(events, pairs, p);
    hide Legal, DivergenceOf, Agreeing, Divergent;
  }

  lemma FlagsKept(events: seq<Event>, group: seq<nat>, used: seq<bool>, pairs: seq<Match>, i: nat)
    requires InLog(events, group) && |used| == |group| && Flags(events, group, used, pairs, i)
    ensures Flags(events, group, used, pairs, i + 1)
  {
    hide UsedC;
  }

  lemma CountsJoinOne(events: seq<Event>, pairs: seq<Match>, p: Match)
    requires Matches(events, pairs + [p])
    ensures Legal(events, p) && Matches(events, pairs)
    ensures Agreeing(events, pairs + [p]) == Agreeing(events, pairs) + if Agree(events, p) then 1 else 0
    ensures Divergent(events, pairs + [p])
            == Divergent(events, pairs) + if Agree(events, p) then [] else [DivergenceOf(events, p)]
  {
    assert (pairs + [p])[..|pairs|] == pairs && (pairs + [p])[|pairs|] == p;
    assert forall k | 0 <= k < |pairs| :: (pairs + [p])[k] == pairs[k];
    hide Legal, DivergenceOf, Agree;
  }

  function At(byN: map<nat, seq<nat>>, h: nat): seq<nat> {
    if h in byN then byN[h] else []
  }

  method GroupByCount(events: seq<Event>) returns (keys: seq<nat>, byN: map<nat, seq<nat>>)
    ensures keys == KeysUpTo(events, |events|)
    ensures forall h: nat :: h in byN <==> h in keys
    ensures forall h: nat | h in byN :: byN[h] == GroupUpTo(events, h, |events|)
  {
    keys, byN := [], map[];
    for n := 0 to |events|
      invariant keys == KeysUpTo(events, n)
      invariant forall h: nat :: h in byN <==> h in keys
      invariant forall h: nat :: At(byN, h) == GroupUpTo(events, h, n)
    {
      var h := events[n].nHeadlines;
      if h !in byN {
        keys := keys + [h];
      }
      byN := byN[h := At(byN, h) + [n]];
      GroupStep(events, n);
      hide GroupUpTo;
    }
    assert forall h: nat | h in byN :: byN[h] == At(byN, h);
  }

  lemma GroupStep(events: seq<Event>, n: nat)
    requires n < |events|
    ensures forall h: nat :: GroupUpTo(events, h, n + 1)
              == if events[n].nHeadlines == h then GroupUpTo(events, h, n) + [n] else GroupUpTo(events, h, n)
  {
  }

  lemma TallyJoin(events: seq<Event>, pairs: seq<Match>, more: seq<Match>)
    requires Matches(events, pairs) && Matches(events, more)
    ensures Matches(events, pairs + more)
    ensures var t, u := TallyOf(events, pairs), TallyOf(events, more);
            TallyOf(events, pairs + more) == Tally(t.divergent + u.divergent, t.total + u.total, t.agree + u.agree)
  {
    CountsJoin(events, pairs, more);
    hide Agreeing, Divergent, Matches;
  }

  method PairGroups(events: seq<Event>, keys: seq<nat>, byN: map<nat, seq<nat>>) returns (tally: Tally)
    requires forall h | h in keys :: h in byN && byN[h] == GroupUpTo(events, h, |events|)
    ensures Matches(events, PairKeys(events, keys)) && tally == TallyOf(events, PairKeys(events, keys))
  {
    tally := Tally([], 0, 0);
    for k := 0 to |keys|
      invariant Matches(events, PairKeys(events, keys[..k]))
      invariant tally == TallyOf(events, PairKeys(events, keys[..k]))
    {
      assert keys[..k + 1][..k] == keys[..k];
      var group := Sort(byN[keys[k]], TsOf(events));
      assert group == Ordered(events, keys[k]);
      OrderedIsGroup(events, keys[k]);
      ghost var pairs, more := PairKeys(events, keys[..k]), Greedy(events, group, |group|);
      assert PairKeys(events, keys[..k + 1]) == pairs + more;
      hide Sort, Sorted, Ordered, IsGroup, GroupUpTo, PairKeys, Matches, TallyOf, Greedy;
      var t := PairGroup(events, group, keys[k]);
      TallyJoin(events, pairs, more);
      tally := Tally(tally.divergent + t.divergent, tally.total + t.total, tally.agree + t.agree);
    }
    assert keys[..|keys|] == keys;
  }

  /** Group by headline count, pair each group, and sort the divergences by time. */
  method Pair(events: seq<Event>) returns (divergent: seq<Divergence>, total: nat, agree: nat)
    ensures Matches(events, AllPairs(events))
    ensures total == |AllPairs(events)| && agree == Agreeing(events, AllPairs(events))
    ensures total == agree + |divergent|
    ensures Sorted(divergent, (d: Divergence) => d.ts)
    ensures multiset(divergent) == multiset(Divergent(events, AllPairs(events)))
  {
    hide PairKeys, Matches, Agreeing, Divergent, Sort, Sorted, KeysUpTo, GroupUpTo;
    var keys, byN := GroupByCount(events);
    var tally := PairGroups(events, keys, byN);
    CountsAddUp(events, AllPairs(events));
    SortSorts(tally.divergent, (d: Divergence) => d.ts);
    divergent := Sort(tally.divergent, (d: Divergence) => d.ts);
    total, agree := tally.total, tally.agree;
    assert |multiset(divergent)| == |multiset(tally.divergent)|;
  }
}
