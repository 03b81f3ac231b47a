/** The standings of a championship: points aggregated over its finished
    matches (3 for a win, 1 each for a draw), one row per roster player, then
    ranked by a nested-loop swap sort, descending by points. */
module Standings {
  import opened Models
  import Matches

  /** A player's points so far; a name never credited reads as 0. */
  function Get(points: map<string, int>, name: string): int {
    if name in points then points[name] else 0
  }

  /** Sum of all points in the table, for stating how much each match hands out. */
  ghost function Total(points: map<string, int>): int
    decreases |points|
  {
    if points == map[] then 0
    else
      var k :| k in points;
      points[k] + Total(points - {k})
  }

  lemma {:induction false} TotalRemove(points: map<string, int>, k: string)
    requires k in points
    ensures Total(points) == points[k] + Total(points - {k})
    decreases |points|
  {
    var j :| j in points && Total(points) == points[j] + Total(points - {j});
    if j != k {
      var rest := points - {j} - {k};
      TotalRemove(points - {j}, k);
      TotalRemove(points - {k}, j);
      assert points - {k} - {j} == rest;
    }
  }

  /** Adding to one player raises the total by exactly that amount. */
  lemma TotalCredit(points: map<string, int>, name: string, amount: int)
    ensures Total(points[name := Get(points, name) + amount]) == Total(points) + amount
  {
    var updated := points[name := Get(points, name) + amount];
    TotalRemove(updated, name);
    if name in points {
      TotalRemove(points, name);
      assert updated - {name} == points - {name};
    } else {
      assert updated - {name} == points;
    }
  }

  /** `points[name] += amount` on a Go map. */
  function Credit(points: map<string, int>, name: string, amount: int): (r: map<string, int>)
    ensures Get(r, name) == Get(points, name) + amount
    ensures forall x :: x != name ==> Get(r, x) == Get(points, x)
  {
    points[name := Get(points, name) + amount]
  }

  /** What a finished match hands to (player1, player2): both 1 for a draw, 3 to
      a recorded winner, nothing when the winner matches neither participant. */
  function Shares(m: Match): (int, int) {
    if m.winner == None then (1, 1)
    else if m.winner.value == m.player1 then (3, 0)
    else if m.winner.value == m.player2 then (0, 3)
    else (0, 0)
  }

  /** The points match m is worth to the player called x. */
  function Award(m: Match, x: string): int {
    (if x == m.player1 then Shares(m).0 else 0) + (if x == m.player2 then Shares(m).1 else 0)
  }

  /** The body of the aggregation loop, for one match. */
  function Tally(points: map<string, int>, m: Match): (r: map<string, int>)
    ensures forall x {:trigger Get(r, x)} :: Get(r, x) == Get(points, x) + Award(m, x)
    ensures m.player1 != m.player2 && m.winner == None ==>
      Get(r, m.player1) == Get(points, m.player1) + 1 && Get(r, m.player2) == Get(points, m.player2) + 1
    ensures m.player1 != m.player2 && m.winner == Some(m.player1) ==>
      Get(r, m.player1) == Get(points, m.player1) + 3 && Get(r, m.player2) == Get(points, m.player2)
    ensures m.player1 != m.player2 && m.winner == Some(m.player2) ==>
      Get(r, m.player1) == Get(points, m.player1) && Get(r, m.player2) == Get(points, m.player2) + 3
    ensures m.winner.Some? && m.winner.value != m.player1 && m.winner.value != m.player2 ==> r == points
  {
    if m.winner == None then
      Credit(Credit(points, m.player1, 1), m.player2, 1)
    else if m.winner.value == m.player1 then
      Credit(Credit(points, m.player1, 3), m.player2, 0)
    else if m.winner.value == m.player2 then
      Credit(Credit(points, m.player1, 0), m.player2, 3)
    else
      points
  }

  /** One match raises the total by what it hands out to its two participants. */
  lemma TallyTotal(points: map<string, int>, m: Match)
    ensures Total(Tally(points, m)) == Total(points) + Shares(m).0 + Shares(m).1
  {
    var (to1, to2) := Shares(m);
    if m.winner == None || m.winner.value == m.player1 || m.winner.value == m.player2 {
      TotalCredit(points, m.player1, to1);
      TotalCredit(Credit(points, m.player1, to1), m.player2, to2);
    }
  }

  /** The points table after the aggregation loop has seen the matches in order. */
  function TallyAll(ms: seq<Match>): map<string, int>
    decreases |ms|
  {
    if ms == [] then map[] else Tally(TallyAll(ms[..|ms| - 1]), ms[|ms| - 1])
  }

  /** Reference definition: a player's points are the sum of their awards. */
  function Earned(ms: seq<Match>, x: string): int
    decreases |ms|
  {
    if ms == [] then 0 else Earned(ms[..|ms| - 1], x) + Award(ms[|ms| - 1], x)
  }

  function Draws(ms: seq<Match>): nat
    decreases |ms|
  {
    if ms == [] then 0 else Draws(ms[..|ms| - 1]) + (if ms[|ms| - 1].winner == None then 1 else 0)
  }

  /** Matches whose recorded winner is one of the two participants. */
  function RecognisedWins(ms: seq<Match>): nat
    decreases |ms|
  {
    if ms == [] then 0
    else
      var m := ms[|ms| - 1];
      RecognisedWins(ms[..|ms| - 1])
        + (if m.winner.Some? && (m.winner.value == m.player1 || m.winner.value == m.player2) then 1 else 0)
  }

  /** The loop builds, for every player, the sum of the awards of the matches. */
  lemma {:induction false} TallyAllEarned(ms: seq<Match>)
    ensures forall x :: Get(TallyAll(ms), x) == Earned(ms, x)
    decreases |ms|
  {
    if ms != [] {
      TallyAllEarned(ms[..|ms| - 1]);
    }
  }

  /** The total handed out is 2 per draw plus 3 per recognised win. */
  lemma {:induction false} TallyAllTotal(ms: seq<Match>)
    ensures Total(TallyAll(ms)) == 2 * Draws(ms) + 3 * RecognisedWins(ms)
    decreases |ms|
  {
    if ms != [] {
      TallyAllTotal(ms[..|ms| - 1]);
      TallyTotal(TallyAll(ms[..|ms| - 1]), ms[|ms| - 1]);
    }
  }

  /** The body of the aggregation loop: credit one finished match. */
  method AddMatch(points: map<string, int>, m: Match) returns (r: map<string, int>)
    ensures r == Tally(points, m)
  {
    r := points;
    if m.winner == None {
      r := r[m.player1 := Get(r, m.player1) + 1];
      r := r[m.player2 := Get(r, m.player2) + 1];
    } else if m.winner.value == m.player1 {
      r := r[m.player1 := Get(r, m.player1) + 3];
      r := r[m.player2 := Get(r, m.player2) + 0];
    } else if m.winner.value == m.player2 {
      r := r[m.player1 := Get(r, m.player1) + 0];
      r := r[m.player2 := Get(r, m.player2) + 3];
    }
  }

  /** The aggregation loop over the finished matches. */
  method AggregatePoints(matches: seq<Match>) returns (points: map<string, int>)
    ensures points == TallyAll(matches)
    ensures forall x :: Get(points, x) == Earned(matches, x)
  {
    points := map[];
    var k := 0;
    while k < |matches|
      invariant 0 <= k <= |matches|
      invariant points == TallyAll(matches[..k])
    {
      points := AddMatch(points, matches[k]);
      assert matches[..k + 1][..k] == matches[..k];
      k := k + 1;
    }
    assert matches[..k] == matches;
    TallyAllEarned(matches);
  }

  /** Matches that went through the lifecycle never have an unrecognised
      winner, so every finished match among them hands out its points. */
  lemma {:induction false} LifecycleResultsAllCount(ms: seq<Match>)
    requires forall m :: m in ms ==> Matches.Lifecycle(m) && m.status == Finished
    ensures Draws(ms) + RecognisedWins(ms) == |ms|
    decreases |ms|
  {
    if ms != [] {
      var m := ms[|ms| - 1];
      assert m in ms;
      forall m' | m' in ms[..|ms| - 1] ensures Matches.Lifecycle(m') && m'.status == Finished {
        assert m' in ms;
      }
      LifecycleResultsAllCount(ms[..|ms| - 1]);
    }
  }

  /** Through finishing, the scores decide the points: the higher score earns 3,
      a level score 1, the lower score 0. */
  lemma FinishedAward(m: Match)
    requires Matches.Lifecycle(m) && m.status == Finished && m.player1 != m.player2
    ensures Award(m, m.player1) ==
      (if m.player1Score > m.player2Score then 3 else if m.player1Score == m.player2Score then 1 else 0)
    ensures Award(m, m.player2) ==
      (if m.player2Score > m.player1Score then 3 else if m.player1Score == m.player2Score then 1 else 0)
  {
  }

  /** The store's query for the championship's finished matches. */
  function FinishedOnly(ms: seq<Match>): (r: seq<Match>)
    ensures forall m :: m in r <==> m in ms && m.status == Finished
    ensures forall m :: multiset(r)[m] == (if m.status == Finished then multiset(ms)[m] else 0)
    decreases |ms|
  {
    if ms == [] then []
    else
      var last := ms[|ms| - 1];
      assert ms == ms[..|ms| - 1] + [last];
      FinishedOnly(ms[..|ms| - 1]) + (if last.status == Finished then [last] else [])
  }

  /** The standings loop: one row per roster player, in roster order. */
  method BuildStandings(roster: seq<string>, points: map<string, int>) returns (standings: seq<Standing>)
    ensures |standings| == |roster|
    ensures forall i :: 0 <= i < |roster| ==>
      standings[i].playerName == roster[i]
      && standings[i].points == (if roster[i] in points then points[roster[i]] else 0)
  {
    standings := [];
    var k := 0;
    while k < |roster|
      invariant 0 <= k <= |roster|
      invariant |standings| == k
      invariant forall i :: 0 <= i < k ==>
        standings[i] == Standing(roster[i], Get(points, roster[i]))
    {
      standings := standings + [Standing(roster[k], Get(points, roster[k]))];
      k := k + 1;
    }
  }

  predicate Descending(s: seq<Standing>) {
    forall p, q :: 0 <= p < q < |s| ==> s[p].points >= s[q].points
  }

  function Swap(s: seq<Standing>, i: nat, j: nat): (r: seq<Standing>)
    requires i < |s| && j < |s|
    ensures |r| == |s|
  {
    s[i := s[j]][j := s[i]]
  }

  /** The inner loop of the sort from position j on: swap a later entry with
      strictly more points into position i. */
  function SweepFrom(s: seq<Standing>, i: nat, j: nat): (r: seq<Standing>)
    requires i < |s|
    ensures |r| == |s|
    decreases |s| - j
  {
    if j >= |s| then s
    else SweepFrom(if s[j].points > s[i].points then Swap(s, i, j) else s, i, j + 1)
  }

  /** The outer loop of the sort from position i on. */
  function PassesFrom(s: seq<Standing>, i: nat): (r: seq<Standing>)
    ensures |r| == |s|
    decreases |s| - i
  {
    if i + 1 >= |s| then s else PassesFrom(SweepFrom(s, i, i + 1), i + 1)
  }

  /** The result of the in-place sort on a standings table. */
  function SwapSort(s: seq<Standing>): seq<Standing> {
    PassesFrom(s, 0)
  }

  /** Every entry before position i has at least the points of every later entry:
      the prefix is sorted and dominates the suffix. */
  predicate Settled(s: seq<Standing>, i: nat) {
    forall p, q :: 0 <= p < i && p < q < |s| ==> s[p].points >= s[q].points
  }

  /** Position i has at least the points of positions i+1 to j-1. */
  predicate Leads(s: seq<Standing>, i: nat, j: nat) {
    forall q :: i < q < j && q < |s| ==> s[i].points >= s[q].points
  }

  /** One step of the inner loop keeps the settled prefix, extends the lead of
      position i by one, and only permutes the entries. */
  lemma SweepStep(s: seq<Standing>, i: nat, j: nat)
    requires i < j < |s| && Settled(s, i) && Leads(s, i, j)
    ensures var t := if s[j].points > s[i].points then Swap(s, i, j) else s;
      && Settled(t, i) && Leads(t, i, j + 1)
      && multiset(t) == multiset(s)
      && SweepFrom(s, i, j) == SweepFrom(t, i, j + 1)
  {
  }

  /** `standings[i], standings[j] = standings[j], standings[i]` */
  method SwapEntries(a: array<Standing>, i: nat, j: nat)
    requires i < a.Length && j < a.Length
    modifies a
    ensures a[..] == Swap(old(a[..]), i, j)
  {
    a[i], a[j] := a[j], a[i];
  }

  /** The inner loop of the sort for position i, in place. */
  method Sweep(a: array<Standing>, i: nat)
    requires i < a.Length && Settled(a[..], i)
    modifies a
    ensures a[..] == SweepFrom(old(a[..]), i, i + 1)
    ensures multiset(a[..]) == multiset(old(a[..]))
    ensures Settled(a[..], i) && Leads(a[..], i, a.Length)
  {
    var j := i + 1;
    while j < a.Length
      invariant i + 1 <= j <= a.Length
      invariant SweepFrom(a[..], i, j) == SweepFrom(old(a[..]), i, i + 1)
      invariant multiset(a[..]) == multiset(old(a[..]))
      invariant Settled(a[..], i) && Leads(a[..], i, j)
    {
      SweepStep(a[..], i, j);
      if a[j].points > a[i].points {
        SwapEntries(a, i, j);
      }
      j := j + 1;
    }
  }

  /** After the inner loop for position i, the first i + 1 entries are settled. */
  lemma SettleNext(s: seq<Standing>, i: nat)
    requires i < |s| && Settled(s, i) && Leads(s, i, |s|)
    ensures Settled(s, i + 1)
  {
  }

  /** The in-place sort, descending by points. */
  method SortStandings(a: array<Standing>)
    modifies a
    ensures a[..] == SwapSort(old(a[..]))
    ensures Descending(a[..])
    ensures multiset(a[..]) == multiset(old(a[..]))
  {
    var i := 0;
    while i + 1 < a.Length
      invariant 0 <= i <= a.Length
      invariant PassesFrom(a[..], i) == SwapSort(old(a[..]))
      invariant multiset(a[..]) == multiset(old(a[..]))
      invariant Settled(a[..], i)
    {
      Sweep(a, i);
      SettleNext(a[..], i);
      i := i + 1;
    }
  }

  /** The rows the handler builds before sorting, with each player's points. */
  function Unranked(roster: seq<string>, ms: seq<Match>): (r: seq<Standing>)
    ensures |r| == |roster|
  {
    seq(|roster|, i requires 0 <= i < |roster| => Standing(roster[i], Earned(FinishedOnly(ms), roster[i])))
  }

  /** The whole standings computation over a championship's matches and roster. */
  method GetStandings(roster: seq<string>, matches: seq<Match>) returns (standings: seq<Standing>)
    ensures standings == SwapSort(Unranked(roster, matches))
    ensures |standings| == |roster|
    ensures Descending(standings)
    ensures multiset(standings) == multiset(Unranked(roster, matches))
    ensures forall i :: 0 <= i < |roster| ==>
      Standing(roster[i], Earned(FinishedOnly(matches), roster[i])) in standings
    ensures forall s :: s in standings ==>
      s.playerName in roster && s.points == Earned(FinishedOnly(matches), s.playerName)
  {
    var finished := FinishedOnly(matches);
    var points := AggregatePoints(finished);
    var rows := BuildStandings(roster, points);
    assert rows == Unranked(roster, matches);
    var a := new Standing[|rows|](i requires 0 <= i < |rows| => rows[i]);
    assert a[..] == rows;
    SortStandings(a);
    standings := a[..];
    forall i | 0 <= i < |roster|
      ensures Standing(roster[i], Earned(finished, roster[i])) in standings
    {
      assert rows[i] in multiset(rows);
    }
    forall s | s in standings
      ensures s.playerName in roster && s.points == Earned(finished, s.playerName)
    {
      assert s in multiset(rows);
      var i :| 0 <= i < |rows| && rows[i] == s;
    }
  }

  /** The sort is not stable: two players level on points can come out in the
      reverse of their roster order. */
  lemma SwapSortReordersTies()
    ensures SwapSort([Standing("A", 1), Standing("B", 1), Standing("C", 3)])
         == [Standing("C", 3), Standing("B", 1), Standing("A", 1)]
  {
    var s := [Standing("A", 1), Standing("B", 1), Standing("C", 3)];
    var t := [Standing("C", 3), Standing("B", 1), Standing("A", 1)];
    assert SweepFrom(s, 0, 1) == SweepFrom(s, 0, 2);
    assert Swap(s, 0, 2) == t;
    assert SweepFrom(s, 0, 2) == t;
    assert SweepFrom(t, 1, 2) == t;
  }

  /** A beats B, B and C draw: the table is A 3, B 1, C 1, with the level pair
      left in roster order because the sort never swaps equal entries. */
  lemma ThreePlayerExample(c: nat)
    ensures var ab := Match(c, "A", "B", "g", Some("A"), 2, 1, Finished, Some(0), Some(1));
            var bc := Match(c, "B", "C", "g", None, 1, 1, Finished, Some(0), Some(1));
            SwapSort(Unranked(["A", "B", "C"], [ab, bc]))
              == [Standing("A", 3), Standing("B", 1), Standing("C", 1)]
  {
    var ab := Match(c, "A", "B", "g", Some("A"), 2, 1, Finished, Some(0), Some(1));
    var bc := Match(c, "B", "C", "g", None, 1, 1, Finished, Some(0), Some(1));
    var ms := [ab, bc];
    assert ms[..1] == [ab] && [ab][..0] == [];
    assert FinishedOnly([ab]) == [ab];
    assert FinishedOnly(ms) == ms;
    assert Shares(ab) == (3, 0) && Shares(bc) == (1, 1);
    assert "A" != "B" && "A" != "C" && "B" != "C";
    assert Award(ab, "A") == 3 && Award(ab, "B") == 0 && Award(ab, "C") == 0;
    assert Award(bc, "A") == 0 && Award(bc, "B") == 1 && Award(bc, "C") == 1;
    assert Earned([ab], "A") == Earned([], "A") + Award(ab, "A");
    assert Earned([ab], "B") == Earned([], "B") + Award(ab, "B");
    assert Earned([ab], "C") == Earned([], "C") + Award(ab, "C");
    assert Earned(ms, "A") == 3;
    assert Earned(ms, "B") == 1;
    assert Earned(ms, "C") == 1;
    var t := [Standing("A", 3), Standing("B", 1), Standing("C", 1)];
    assert Unranked(["A", "B", "C"], ms) == t;
    assert SweepFrom(t, 0, 1) == t;
    assert SweepFrom(t, 1, 2) == t;
  }
}
