/** Round-robin generation: once a championship is finalized, one pending 0-0
    match for every unordered pair of roster positions, in the order of a nested
    i < j loop over the roster. */
module RoundRobin {
  import opened Models
  import Matches

  /** Row i of the pairing: (i, i+1), (i, i+2), ..., (i, n-1). */
  function Row(i: nat, n: nat): (ps: seq<(nat, nat)>)
    ensures i < n ==> |ps| == n - i - 1
    ensures forall k :: 0 <= k < |ps| ==> ps[k] == (i, i + 1 + k)
  {
    if i < n then seq(n - i - 1, k => (i, i + 1 + k)) else []
  }

  /** Rows 0 to i-1, one after the other. */
  function PairsBefore(i: nat, n: nat): seq<(nat, nat)>
    decreases i
  {
    if i == 0 then [] else PairsBefore(i - 1, n) + Row(i - 1, n)
  }

  /** Every index pair the generator visits, in visiting order. */
  function Pairs(n: nat): seq<(nat, nat)> {
    PairsBefore(n, n)
  }

  predicate LexLess(p: (nat, nat), q: (nat, nat)) {
    p.0 < q.0 || (p.0 == q.0 && p.1 < q.1)
  }

  predicate WithinRoster(ps: seq<(nat, nat)>, n: nat) {
    forall k :: 0 <= k < |ps| ==> ps[k].0 < n && ps[k].1 < n
  }

  /** Twice the number of pairs in the first i rows is i * (2n - i - 1). */
  lemma {:induction false} PairsBeforeLength(i: nat, n: nat)
    requires i <= n
    ensures 2 * |PairsBefore(i, n)| == i * (2 * n - i - 1)
  {
    if i > 0 {
      PairsBeforeLength(i - 1, n);
      assert |PairsBefore(i, n)| == |PairsBefore(i - 1, n)| + (n - i);
      calc {
        2 * |PairsBefore(i, n)|;
        (i - 1) * (2 * n - i) + 2 * (n - i);
        i * (2 * n - i - 1);
      }
    }
  }

  /** The generator emits n(n-1)/2 pairs. */
  lemma PairsCount(n: nat)
    ensures |Pairs(n)| == n * (n - 1) / 2
  {
    PairsBeforeLength(n, n);
  }

  /** A pair is visited in the first i rows exactly when its first index is below
      i and it is an ordered pair of roster positions. */
  lemma {:induction false} PairsBeforeMembers(i: nat, n: nat)
    requires i <= n
    ensures forall p :: p in PairsBefore(i, n) <==> p.0 < i && p.0 < p.1 < n
  {
    if i > 0 {
      PairsBeforeMembers(i - 1, n);
      forall p: (nat, nat) | p.0 == i - 1 && p.0 < p.1 < n
        ensures p in Row(i - 1, n)
      {
        assert Row(i - 1, n)[p.1 - i] == p;
      }
    }
  }

  /** Every unordered pair of distinct positions appears, as (i, j) with i < j. */
  lemma PairsMembers(n: nat)
    ensures forall p :: p in Pairs(n) <==> p.0 < p.1 < n
  {
    PairsBeforeMembers(n, n);
  }

  /** The pairs are visited in strictly increasing lexicographic order. */
  lemma {:induction false} PairsBeforeSorted(i: nat, n: nat)
    requires i <= n
    ensures forall a, b :: 0 <= a < b < |PairsBefore(i, n)| ==>
      LexLess(PairsBefore(i, n)[a], PairsBefore(i, n)[b])
  {
    if i > 0 {
      PairsBeforeSorted(i - 1, n);
      PairsBeforeMembers(i - 1, n);
      var front, row := PairsBefore(i - 1, n), Row(i - 1, n);
      assert PairsBefore(i, n) == front + row;
      forall a, b | 0 <= a < b < |front + row|
        ensures LexLess((front + row)[a], (front + row)[b])
      {
        if b >= |front| && a < |front| {
          assert front[a] in front;
        }
      }
    }
  }

  lemma PairsSorted(n: nat)
    ensures forall a, b :: 0 <= a < b < |Pairs(n)| ==> LexLess(Pairs(n)[a], Pairs(n)[b])
  {
    PairsBeforeSorted(n, n);
  }

  lemma PairsWithin(n: nat)
    ensures WithinRoster(Pairs(n), n)
  {
    PairsMembers(n);
    forall k | 0 <= k < |Pairs(n)| ensures Pairs(n)[k].0 < n && Pairs(n)[k].1 < n {
      assert Pairs(n)[k] in Pairs(n);
    }
  }

  /** For three players the visiting order is (A, B), (A, C), (B, C). */
  lemma PairsOfThree()
    ensures Pairs(3) == [(0, 1), (0, 2), (1, 2)]
  {
    assert Row(0, 3) == [(0, 1), (0, 2)];
    assert Row(1, 3) == [(1, 2)];
    assert Row(2, 3) == [];
  }

  /** The match generated for one pair of players. */
  function NewMatch(c: Championship, player1: string, player2: string): Match {
    Match(c.id, player1, player2, c.name, None, 0, 0, Pending, None, None)
  }

  function MatchesFor(c: Championship, ps: seq<(nat, nat)>): seq<Match>
    requires WithinRoster(ps, |c.players|)
  {
    seq(|ps|, k requires 0 <= k < |ps| => NewMatch(c, c.players[ps[k].0], c.players[ps[k].1]))
  }

  /** The complete round-robin schedule of a championship. */
  function Schedule(c: Championship): seq<Match> {
    PairsWithin(|c.players|);
    MatchesFor(c, Pairs(|c.players|))
  }

  predicate CanGenerate(c: Championship, existingMatches: nat) {
    c.status == Finalized && |c.players| >= 2 && existingMatches == 0
  }

  lemma MatchesForSnoc(c: Championship, ps: seq<(nat, nat)>, p: (nat, nat))
    requires WithinRoster(ps, |c.players|) && p.0 < |c.players| && p.1 < |c.players|
    ensures WithinRoster(ps + [p], |c.players|)
    ensures MatchesFor(c, ps + [p]) == MatchesFor(c, ps) + [NewMatch(c, c.players[p.0], c.players[p.1])]
  {
    assert forall k :: 0 <= k < |ps| ==> (ps + [p])[k] == ps[k];
  }

  /** The nested pairing loop over the roster, in roster order. */
  method PairUp(c: Championship) returns (matches: seq<Match>)
    ensures matches == Schedule(c)
  {
    var n := |c.players|;
    matches := [];
    ghost var done: seq<(nat, nat)> := [];
    var i := 0;
    while i < n
      invariant 0 <= i <= n
      invariant done == PairsBefore(i, n)
      invariant WithinRoster(done, n)
      invariant matches == MatchesFor(c, done)
    {
      var j := i + 1;
      while j < n
        invariant i + 1 <= j <= n
        invariant done == PairsBefore(i, n) + Row(i, n)[..j - i - 1]
        invariant WithinRoster(done, n)
        invariant matches == MatchesFor(c, done)
      {
        MatchesForSnoc(c, done, (i, j));
        assert Row(i, n)[..j - i] == Row(i, n)[..j - i - 1] + [(i, j)];
        matches := matches + [NewMatch(c, c.players[i], c.players[j])];
        done := done + [(i, j)];
        j := j + 1;
      }
      assert Row(i, n)[..n - i - 1] == Row(i, n);
      assert done == PairsBefore(i + 1, n);
      i := i + 1;
    }
  }

  /** The generator. `existingMatches` is the number of matches the store already
      holds for the championship. */
  method GenerateRoundRobinMatches(c: Championship, existingMatches: nat) returns (r: Result<seq<Match>>)
    ensures r.Success? <==> CanGenerate(c, existingMatches)
    ensures c.status != Finalized ==> r == Failure(NotFinalized)
    ensures c.status == Finalized && |c.players| < 2 ==> r == Failure(TooFewToGenerate)
    ensures c.status == Finalized && |c.players| >= 2 && existingMatches > 0 ==>
      r == Failure(MatchesAlreadyExist)
    ensures r.Success? ==> r.value == Schedule(c)
    ensures r.Success? ==> |r.value| == |c.players| * (|c.players| - 1) / 2
    ensures r.Success? ==> forall m :: m in r.value ==>
      && m.status == Pending && m.player1Score == 0 && m.player2Score == 0
      && m.game == c.name && m.championshipId == c.id && m.winner == None
  {
    if c.status != Finalized {
      return Failure(NotFinalized);
    }
    if |c.players| < 2 {
      return Failure(TooFewToGenerate);
    }
    if existingMatches > 0 {
      return Failure(MatchesAlreadyExist);
    }
    var matches := PairUp(c);
    ScheduleShape(c);
    r := Success(matches);
  }

  /** The schedule's size, and the fields every generated match starts with. */
  lemma ScheduleShape(c: Championship)
    ensures |Schedule(c)| == |c.players| * (|c.players| - 1) / 2
    ensures forall m :: m in Schedule(c) ==>
      && m.status == Pending && m.player1Score == 0 && m.player2Score == 0
      && m.game == c.name && m.championshipId == c.id && m.winner == None
  {
    PairsCount(|c.players|);
  }

  /** With distinct names no player meets themself and no pairing repeats, in
      either orientation. */
  lemma ScheduleIsRoundRobin(c: Championship)
    requires forall a, b :: 0 <= a < b < |c.players| ==> c.players[a] != c.players[b]
    ensures forall k :: 0 <= k < |Schedule(c)| ==> Schedule(c)[k].player1 != Schedule(c)[k].player2
    ensures forall k, l :: 0 <= k < l < |Schedule(c)| ==>
      {Schedule(c)[k].player1, Schedule(c)[k].player2} != {Schedule(c)[l].player1, Schedule(c)[l].player2}
  {
    var n := |c.players|;
    var ps := Pairs(n);
    PairsWithin(n);
    PairsSorted(n);
    PairsMembers(n);
    forall k | 0 <= k < |ps| ensures ps[k].0 < ps[k].1 < n {
      assert ps[k] in ps;
    }
    forall k, l | 0 <= k < l < |ps|
      ensures {Schedule(c)[k].player1, Schedule(c)[k].player2} != {Schedule(c)[l].player1, Schedule(c)[l].player2}
    {
      assert LexLess(ps[k], ps[l]);
      assert ps[k].0 < ps[k].1 < n && ps[l].0 < ps[l].1 < n;
      var other := {c.players[ps[l].0], c.players[ps[l].1]};
      if ps[k].0 == ps[l].0 {
        assert c.players[ps[k].1] !in other;
      } else {
        assert c.players[ps[k].0] !in other;
      }
    }
  }

  /** Every two roster positions i < j meet exactly in the generated match
      (names[i], names[j]). */
  lemma ScheduleCoversRoster(c: Championship, i: nat, j: nat)
    requires i < j < |c.players|
    ensures NewMatch(c, c.players[i], c.players[j]) in Schedule(c)
  {
    var n := |c.players|;
    PairsMembers(n);
    PairsWithin(n);
    var k :| 0 <= k < |Pairs(n)| && Pairs(n)[k] == (i, j);
    assert Schedule(c)[k] == NewMatch(c, c.players[i], c.players[j]);
  }

  /** The generator does not deduplicate the roster: a name enrolled twice meets
      itself, a match manual creation would refuse. */
  lemma RepeatedNameMeetsItself(c: Championship, i: nat, j: nat)
    requires i < j < |c.players| && c.players[i] == c.players[j]
    ensures exists m :: m in Schedule(c) && m.player1 == m.player2
  {
    ScheduleCoversRoster(c, i, j);
  }

  /** Generated matches start their lifecycle as fresh pending matches. */
  lemma ScheduleStartsPending(c: Championship)
    ensures forall m :: m in Schedule(c) ==> Matches.Lifecycle(m) && m.status == Pending
  {
  }
}
