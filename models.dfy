/** The records the score tracker's handlers work on, as plain values.

    A championship owns a roster of player names and a set of matches; a match
    names its two participants by display name (not by a player reference), carries
    both scores, a lifecycle status and, once finished, an optional winner. The
    fields are taken from what the handlers read and write, including the
    `Status`, `StartedAt`, `FinishedAt` fields and the nullable `Winner`. */
module Models {

  datatype Option<+T> = None | Some(value: T) {
    function GetOr(default: T): T {
      match this
      case Some(v) => v
      case None => default
    }
  }

  /** Every rejection the modelled handlers answer with, one per message text. */
  datatype Error =
    | ChampionshipIdRequired
    | ChampionshipNotFound
    | PlayersMustDiffer
    | Player1NotFound
    | Player2NotFound
    | Player1NotInChampionship
    | Player2NotInChampionship
    | AlreadyFinalized
    | NotFinalized
    | TooFewToFinalize
    | TooFewToGenerate
    | MatchesAlreadyExist
    | NotPending
    | NotStartedForScore
    | NotStartedForFinish

  datatype Result<+T> = Success(value: T) | Failure(error: Error)

  datatype ChampionshipStatus = Draft | Finalized

  datatype MatchStatus = Pending | Started | Finished

  /** A reading of the server clock. The model never inspects it. */
  type Timestamp = int

  /** A championship with its roster, in the order the store returns it. */
  datatype Championship = Championship(
    id: nat,
    name: string,
    status: ChampionshipStatus,
    players: seq<string>)

  datatype Match = Match(
    championshipId: nat,
    player1: string,
    player2: string,
    game: string,
    winner: Option<string>,
    player1Score: int,
    player2Score: int,
    status: MatchStatus,
    startedAt: Option<Timestamp>,
    finishedAt: Option<Timestamp>)

  /** One row of the standings table. */
  datatype Standing = Standing(playerName: string, points: int)
}
