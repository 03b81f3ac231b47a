/** Manual match creation and the match lifecycle, pending -> started -> finished.

    Each handler loads the stored match, checks its status, updates some fields
    and saves it; on a rejected request nothing is saved. Here a handler is a
    function from the loaded record to either the record it saves or the error
    it answers with, and `Apply` is the record as stored after the request. */
module Matches {
  import opened Models

  /** A match as bound from a creation request; an absent status is an empty one. */
  datatype MatchRequest = MatchRequest(
    championshipId: nat,
    player1: string,
    player2: string,
    game: string,
    winner: Option<string>,
    player1Score: int,
    player2Score: int,
    status: Option<MatchStatus>,
    startedAt: Option<Timestamp>,
    finishedAt: Option<Timestamp>)

  /** Validation of a manually created match. What the store answers is passed in:
      whether the championship exists, the names under which some player is
      registered, and the names whose player, as the store's first lookup by
      that name finds it, is enrolled in that championship. Names are not unique
      in the store, so a name can be in `registered` while the first player
      found under it is not enrolled. */
  function CreateMatch(req: MatchRequest, championshipFound: bool,
                       registered: set<string>, enrolled: set<string>): (r: Result<Match>)
    ensures r.Success? <==>
      && req.championshipId != 0 && championshipFound
      && req.player1 != req.player2
      && req.player1 in registered && req.player2 in registered
      && req.player1 in enrolled && req.player2 in enrolled
    ensures req.championshipId == 0 ==> r == Failure(ChampionshipIdRequired)
    ensures req.championshipId != 0 && !championshipFound ==> r == Failure(ChampionshipNotFound)
    ensures req.championshipId != 0 && championshipFound && req.player1 == req.player2 ==>
      r == Failure(PlayersMustDiffer)
    ensures req.championshipId != 0 && championshipFound && req.player1 != req.player2 ==>
      r == (if req.player1 !in registered then Failure(Player1NotFound)
            else if req.player2 !in registered then Failure(Player2NotFound)
            else if req.player1 !in enrolled then Failure(Player1NotInChampionship)
            else if req.player2 !in enrolled then Failure(Player2NotInChampionship)
            else r)
    ensures r.Success? ==> r.value.player1 != r.value.player2
    ensures r.Success? ==> r.value.status == (if req.status == None then Pending else req.status.value)
    ensures r.Success? ==>
      && r.value.championshipId == req.championshipId
      && r.value.player1 == req.player1 && r.value.player2 == req.player2
      && r.value.game == req.game && r.value.winner == req.winner
      && r.value.player1Score == req.player1Score && r.value.player2Score == req.player2Score
      && r.value.startedAt == req.startedAt && r.value.finishedAt == req.finishedAt
  {
    if req.championshipId == 0 then Failure(ChampionshipIdRequired)
    else if !championshipFound then Failure(ChampionshipNotFound)
    else if req.player1 == req.player2 then Failure(PlayersMustDiffer)
    else
      var status := req.status.GetOr(Pending);
      if req.player1 !in registered then Failure(Player1NotFound)
      else if req.player2 !in registered then Failure(Player2NotFound)
      else if req.player1 !in enrolled then Failure(Player1NotInChampionship)
      else if req.player2 !in enrolled then Failure(Player2NotInChampionship)
      else Success(Match(req.championshipId, req.player1, req.player2, req.game, req.winner,
                         req.player1Score, req.player2Score, status, req.startedAt, req.finishedAt))
  }

  /** The winner rule applied when a match finishes: the side with the higher
      score, or no winner on equal scores. */
  function WinnerOf(player1: string, player2: string, score1: int, score2: int): Option<string> {
    if score1 > score2 then Some(player1)
    else if score2 > score1 then Some(player2)
    else None
  }

  function Start(m: Match, now: Timestamp): (r: Result<Match>)
    ensures r.Success? <==> m.status == Pending
    ensures r.Failure? ==> r.error == NotPending
    ensures r.Success? ==> r.value == m.(status := Started, startedAt := Some(now))
  {
    if m.status != Pending then Failure(NotPending)
    else Success(m.(status := Started, startedAt := Some(now)))
  }

  function UpdateScore(m: Match, score1: int, score2: int): (r: Result<Match>)
    ensures r.Success? <==> m.status == Started
    ensures r.Failure? ==> r.error == NotStartedForScore
    ensures r.Success? ==> r.value == m.(player1Score := score1, player2Score := score2)
  {
    if m.status != Started then Failure(NotStartedForScore)
    else Success(m.(player1Score := score1, player2Score := score2))
  }

  function Finish(m: Match, now: Timestamp): (r: Result<Match>)
    ensures r.Success? <==> m.status == Started
    ensures r.Failure? ==> r.error == NotStartedForFinish
    ensures r.Success? ==> r.value.status == Finished && r.value.finishedAt == Some(now)
    ensures r.Success? && m.player1Score > m.player2Score ==> r.value.winner == Some(m.player1)
    ensures r.Success? && m.player2Score > m.player1Score ==> r.value.winner == Some(m.player2)
    ensures r.Success? && m.player1Score == m.player2Score ==> r.value.winner == None
    ensures r.Success? ==>
      r.value == m.(status := Finished, winner := r.value.winner, finishedAt := Some(now))
  {
    if m.status != Started then Failure(NotStartedForFinish)
    else
      var winner := WinnerOf(m.player1, m.player2, m.player1Score, m.player2Score);
      Success(m.(status := Finished, winner := winner, finishedAt := Some(now)))
  }

  /** The three lifecycle requests a client can send about one match. */
  datatype Request =
    | StartRequest(at: Timestamp)
    | ScoreRequest(score1: int, score2: int)
    | FinishRequest(at: Timestamp)

  function Handle(m: Match, q: Request): Result<Match> {
    match q
    case StartRequest(at) => Start(m, at)
    case ScoreRequest(s1, s2) => UpdateScore(m, s1, s2)
    case FinishRequest(at) => Finish(m, at)
  }

  /** The stored match after the request: a rejected request saves nothing. */
  function Apply(m: Match, q: Request): Match {
    match Handle(m, q)
    case Success(saved) => saved
    case Failure(_) => m
  }

  /** The stored match after a sequence of requests, handled in order. */
  function Replay(m: Match, qs: seq<Request>): Match
    decreases |qs|
  {
    if qs == [] then m else Replay(Apply(m, qs[0]), qs[1..])
  }

  function Rank(s: MatchStatus): nat {
    match s
    case Pending => 0
    case Started => 1
    case Finished => 2
  }

  /** What the lifecycle keeps true of a match that began as a fresh pending
      match: timestamps appear with their transitions, and the winner of a
      finished match is the one its scores give. */
  predicate Lifecycle(m: Match) {
    match m.status
    case Pending => m.startedAt == None && m.finishedAt == None && m.winner == None
    case Started => m.startedAt.Some? && m.finishedAt == None && m.winner == None
    case Finished =>
      && m.startedAt.Some? && m.finishedAt.Some?
      && m.winner == WinnerOf(m.player1, m.player2, m.player1Score, m.player2Score)
  }

  /** The fields no lifecycle request touches: championship, participants, game. */
  predicate SameFixture(m: Match, m': Match) {
    && m'.championshipId == m.championshipId
    && m'.player1 == m.player1 && m'.player2 == m.player2
    && m'.game == m.game
  }

  lemma ApplyStep(m: Match, q: Request)
    ensures SameFixture(m, Apply(m, q))
    ensures Rank(m.status) <= Rank(Apply(m, q).status)
    ensures Lifecycle(m) ==> Lifecycle(Apply(m, q))
    ensures m.status == Finished ==> Apply(m, q) == m
    ensures Handle(m, q).Failure? ==> Apply(m, q) == m
  {
  }

  /** No request sequence changes who plays, in which championship, at what game. */
  lemma {:induction false} ReplayKeepsFixture(m: Match, qs: seq<Request>)
    ensures SameFixture(m, Replay(m, qs))
    decreases |qs|
  {
    if qs != [] {
      ApplyStep(m, qs[0]);
      ReplayKeepsFixture(Apply(m, qs[0]), qs[1..]);
    }
  }

  /** The status never moves backwards. */
  lemma {:induction false} ReplayNeverRegresses(m: Match, qs: seq<Request>)
    ensures Rank(m.status) <= Rank(Replay(m, qs).status)
    decreases |qs|
  {
    if qs != [] {
      ApplyStep(m, qs[0]);
      ReplayNeverRegresses(Apply(m, qs[0]), qs[1..]);
    }
  }

  /** The lifecycle invariant holds after any sequence of requests. */
  lemma {:induction false} ReplayKeepsLifecycle(m: Match, qs: seq<Request>)
    requires Lifecycle(m)
    ensures Lifecycle(Replay(m, qs))
    decreases |qs|
  {
    if qs != [] {
      ApplyStep(m, qs[0]);
      ReplayKeepsLifecycle(Apply(m, qs[0]), qs[1..]);
    }
  }

  /** A finished match is final: every later request is rejected. */
  lemma {:induction false} FinishedIsFinal(m: Match, qs: seq<Request>)
    requires m.status == Finished
    ensures Replay(m, qs) == m
    decreases |qs|
  {
    if qs != [] {
      ApplyStep(m, qs[0]);
      FinishedIsFinal(Apply(m, qs[0]), qs[1..]);
    }
  }

  /** Under the lifecycle invariant a recorded winner is always one of the two
      participants, and there is none exactly when the scores are level. */
  lemma WinnerIsParticipant(m: Match)
    requires Lifecycle(m) && m.status == Finished
    ensures m.winner.Some? ==> m.winner.value == m.player1 || m.winner.value == m.player2
    ensures m.winner.None? <==> m.player1Score == m.player2Score
  {
  }
}
