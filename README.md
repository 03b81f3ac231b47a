# Score tracker core, modelled in Dafny

The score tracker is a web backend for championships. A championship has a
roster of players. Once the roster is finalized, the backend generates a
round-robin set of matches. Each match then goes through pending, started and
finished. From the finished matches the backend computes a points table.

This project models the three pieces of real logic inside the Go handlers. Each
one is taken out of its handler and stated over plain values:

- **Round-robin generation.** The generator first checks three things: the
  championship is finalized, it has at least two players, and it has no matches
  yet. A nested `i < j` loop then emits one pending 0-0 match per pair of roster
  positions.
- **The match lifecycle.** Manual creation, then start, score update and finish.
  Each step is gated on the current status. On finish, the winner is derived from
  the two scores.
- **Finalization and standings.** One-way finalization, which opens match
  generation; the roster stays editable. The
  standings points loop gives 3 for a win and 1 to each side of a draw. One row
  is built per roster player, and the rows are ranked by the handler's in-place
  swap sort.

Modules, one per component:

- `Models` (`models.dfy`): the records. The match and championship fields are
  taken from what the handlers read and write, including `Status`, `StartedAt`,
  `FinishedAt` and a nullable `Winner`. The declarations in `backend/internal/models`
  lack some of these fields, so they were not used.
- `Matches` (`matches.dfy`): creation checks and the lifecycle handlers. Each
  handler is a function from the loaded match to `Success(saved)` or
  `Failure(error)`. `Apply` and `Replay` give the stored match after one request
  or after a sequence of requests; a rejected request saves nothing.
- `RoundRobin` (`roundrobin.dfy`): the generator. `PairUp` is the nested loop. It
  is proved equal to `Schedule`, which is defined from `Pairs(n)`, the index pairs
  in visiting order.
- `Championships` (`championships.dfy`): finalization. It reads the number of
  membership rows, while the generator reads the live roster. A soft-deleted player
  keeps its membership row, so the two counts can differ: finalization may
  succeed where generation then refuses.
- `Standings` (`standings.dfy`): the points loop, the standings loop and the sort
  over an `array<Standing>`. The sort is proved to compute `SwapSort`, to leave
  points non-increasing, and to permute its entries.

Three behaviours of the code that the model keeps:

- A finished match whose winner is neither participant is skipped, not
  rejected: the points loop has no `else` branch at
  `backend/internal/handlers/championship.go:204-218`. `Standings.Tally` states
  that such a match leaves the table unchanged.
- The sort is not stable. It swaps position `i` with any later entry that has
  strictly more points, so two players level on points can end up in the reverse
  of their roster order. `Standings.SwapSortReordersTies` shows this for
  `[A:1, B:1, C:3]`, which sorts to `[C:3, B:1, A:1]`.
- Player names are not unique in the store. `backend/internal/models/player.go:11`
  has no unique index, `CreatePlayer` does not look for an existing name, and
  `UpdatePlayer` can rename a player to a taken name. The generator does not
  deduplicate the roster either. So the hypothesis of the no-repeat property
  (`RoundRobin.ScheduleIsRoundRobin`), that the roster names are distinct, is
  guaranteed by nothing in the program. `RoundRobin.RepeatedNameMeetsItself`
  shows that a name on the roster twice is paired with itself, a match that
  manual creation refuses at `backend/internal/handlers/match.go:87`.

What the store supplies is passed in as parameters:

- the roster;
- the number of existing matches;
- whether a championship exists;
- the number of membership rows counted at finalization;
- the sets of registered and enrolled player names;
- the list of matches for the standings.

The server clock is a `Timestamp` parameter.

## Model

| member | source | states |
|---|---|---|
| `Matches.CreateMatch` | backend/internal/handlers/match.go:70-124 | Creation succeeds exactly when the ID is non-zero, the championship exists, the players differ, and both are registered and enrolled. Each failure names the first check that fails, in the handler's order: ID, championship, distinct players, player1 registered, player2 registered, player1 enrolled, player2 enrolled. An empty status becomes pending; every other field is kept as bound. |
| `Matches.Start` | backend/internal/handlers/match.go:243-250 | Succeeds exactly from pending. The match becomes started with its start time set, and nothing else changes. Any other status gives the not-pending error. |
| `Matches.UpdateScore` | backend/internal/handlers/match.go:287-293 | Succeeds exactly while started. Only the two scores change; status and players stay. Otherwise the must-be-started error. |
| `Matches.Finish` | backend/internal/handlers/match.go:320-339 | Succeeds exactly while started and sets status finished and the finish time. The winner is player1 if score1 > score2, player2 if score2 > score1, and none on equal scores. All other fields are unchanged. |
| `Matches.ApplyStep` | backend/internal/handlers/match.go:243-339 | One request never changes championship, players or game, and never moves the status backwards. It preserves the lifecycle invariant, leaves a finished match alone, and saves nothing when rejected. |
| `Matches.ReplayKeepsFixture` | backend/internal/handlers/match.go:249-250 | After any sequence of lifecycle requests, the championship, both players and the game are unchanged. |
| `Matches.ReplayNeverRegresses` | backend/internal/handlers/match.go:243-250 | After any sequence of requests the status is at least as far along pending → started → finished as before. |
| `Matches.ReplayKeepsLifecycle` | backend/internal/handlers/match.go:326-339 | The following invariant holds after any request sequence: timestamps are present exactly as the status implies, and a finished match's winner is the one its scores give. |
| `Matches.FinishedIsFinal` | backend/internal/handlers/match.go:320-323 | Every request sent to a finished match is rejected, so the match stays as it is. |
| `Matches.WinnerIsParticipant` | backend/internal/handlers/match.go:326-334 | Under the lifecycle invariant, a finished match's winner is one of its two players. There is no winner exactly when the scores are level. |
| `RoundRobin.PairsBeforeLength` | backend/internal/handlers/match.go:202-203 | The first i rows of the nested loop visit i·(2n−i−1)/2 pairs. |
| `RoundRobin.PairsCount` | backend/internal/handlers/match.go:202-215 | The loop visits exactly n·(n−1)/2 pairs. |
| `RoundRobin.PairsBeforeMembers` | backend/internal/handlers/match.go:202-203 | A pair is visited in the first i rows exactly when its first index is below i and the pair is (a, b) with a < b < n. |
| `RoundRobin.PairsMembers` | backend/internal/handlers/match.go:202-203 | The visited pairs are exactly the index pairs (i, j) with i < j < n. |
| `RoundRobin.PairsBeforeSorted` | backend/internal/handlers/match.go:202-203 | The first i rows visit their pairs in strictly increasing lexicographic order. |
| `RoundRobin.PairsSorted` | backend/internal/handlers/match.go:202-203 | All pairs are visited in strictly increasing lexicographic (i, j) order, so none is visited twice. |
| `RoundRobin.PairsOfThree` | backend/internal/handlers/match.go:202-207 | For three players the order is (0,1), (0,2), (1,2). |
| `RoundRobin.PairUp` | backend/internal/handlers/match.go:201-215 | The nested loop produces exactly the schedule: match k is the pending 0-0 match between the roster names at positions Pairs(n)[k]. |
| `RoundRobin.GenerateRoundRobinMatches` | backend/internal/handlers/match.go:177-215 | Fails with not-finalized, then too-few-players, then matches-already-exist, in that order. It succeeds exactly when none applies. It then returns the schedule of n·(n−1)/2 matches, each pending, 0-0, with no winner, the championship's name as game and its ID. |
| `RoundRobin.ScheduleShape` | backend/internal/handlers/match.go:204-212 | The schedule has n·(n−1)/2 matches. Each is pending and 0-0, with no winner, game equal to the championship name and the championship's ID. |
| `RoundRobin.ScheduleIsRoundRobin` | backend/internal/handlers/match.go:202-207 | With distinct roster names no match pairs a player with themself. No two matches have the same two players, in either orientation. |
| `RoundRobin.RepeatedNameMeetsItself` | backend/internal/handlers/match.go:196-207 | If the same name stands at two roster positions, the schedule contains a match of that name against itself. |
| `RoundRobin.ScheduleCoversRoster` | backend/internal/handlers/match.go:202-207 | For every two roster positions i < j, the match (names[i], names[j]) is in the schedule. |
| `RoundRobin.ScheduleStartsPending` | backend/internal/handlers/match.go:204-212 | Every generated match satisfies the lifecycle invariant as a fresh pending match. |
| `Championships.Finalize` | backend/internal/handlers/championship.go:145-163 | Fails with already-finalized on a finalized championship. Otherwise it fails with the too-few-players-to-finalize error when fewer than 2 membership rows are counted. Otherwise it succeeds, and only the status changes, to finalized. |
| `Championships.FinalizeOpensGeneration` | backend/internal/handlers/championship.go:145-163 | A second finalization is rejected. If every membership row belongs to a player still on the roster, a just-finalized championship with no matches passes all three generation checks. |
| `Championships.DeletedPlayerBlocksGeneration` | backend/internal/handlers/championship.go:152-157 | Two membership rows behind a one-player roster, as after a player is soft-deleted: finalization succeeds, but the generator's at-least-2-players check refuses the championship. |
| `Championships.GenerationNeedsFinalization` | backend/internal/handlers/match.go:177-185 | Every championship the generator accepts is what finalizing its draft form produces, when the membership rows are at least as many as the roster. |
| `Standings.Credit` | backend/internal/handlers/championship.go:207-216 | `points[name] += amount` raises that player by the amount, counting a missing key as 0, and changes no one else. |
| `Standings.TotalCredit` | backend/internal/handlers/championship.go:207-216 | Crediting a player raises the table's total by exactly the amount credited. |
| `Standings.Tally` | backend/internal/handlers/championship.go:205-217 | For each player, new points are old points plus the match's award. When the players differ: a draw gives +1 each, and a win gives +3 to the winner and 0 to the loser. A winner matching neither player leaves the table unchanged. |
| `Standings.TallyTotal` | backend/internal/handlers/championship.go:204-218 | One match raises the total by exactly 2 for a draw, 3 for a recognised win, or 0 for an unrecognised winner. |
| `Standings.TallyAllEarned` | backend/internal/handlers/championship.go:202-218 | After the loop, every player's points equal the sum of their awards over the matches (the reference definition `Earned`). |
| `Standings.TallyAllTotal` | backend/internal/handlers/championship.go:202-218 | The total of the table is 2 per draw plus 3 per recognised win. |
| `Standings.AddMatch` | backend/internal/handlers/championship.go:205-217 | The loop body computes `Tally` for one match. |
| `Standings.AggregatePoints` | backend/internal/handlers/championship.go:202-218 | The loop computes the table `TallyAll`, where every player's points equal `Earned`. |
| `Standings.LifecycleResultsAllCount` | backend/internal/handlers/championship.go:204-218 | For matches finished through the lifecycle, every result is a draw or a recognised win, so none is skipped. |
| `Standings.FinishedAward` | backend/internal/handlers/match.go:326-334 | After finishing, the higher score earns 3 points, a level score 1 and the lower score 0. |
| `Standings.FinishedOnly` | backend/internal/handlers/championship.go:196 | The query keeps exactly the matches whose status is finished, each as many times as it occurs, so repeated equal matches count once per occurrence. |
| `Standings.BuildStandings` | backend/internal/handlers/championship.go:235-241 | One row per roster player, in roster order. Each row holds the player's map value, or 0 for a player with no entry. |
| `Standings.SweepStep` | backend/internal/handlers/championship.go:245-248 | One inner-loop step keeps the settled prefix and makes position i lead one more entry. It only permutes the entries. |
| `Standings.Sweep` | backend/internal/handlers/championship.go:245-249 | The inner loop computes `SweepFrom` and permutes the entries. Afterwards position i has at least the points of every later entry. |
| `Standings.SettleNext` | backend/internal/handlers/championship.go:244-249 | After the inner loop for i, the first i+1 entries are sorted and each is ≥ every later entry. |
| `Standings.SortStandings` | backend/internal/handlers/championship.go:244-250 | The in-place sort computes `SwapSort` and leaves points non-increasing along the array. The result has the same multiset of entries. |
| `Standings.GetStandings` | backend/internal/handlers/championship.go:196-250 | The result is `SwapSort` of the unranked rows and has one row per roster player. Points are non-increasing. Every row is a roster player with their earned points from the finished matches, and every roster player's row is present. |
| `Standings.SwapSortReordersTies` | backend/internal/handlers/championship.go:244-250 | The sort is not stable: `[A:1, B:1, C:3]` becomes `[C:3, B:1, A:1]`. |
| `Standings.ThreePlayerExample` | backend/internal/handlers/championship.go:202-250 | Roster A, B, C: A beats B and B draws C. The standings are exactly `[A:3, B:1, C:1]`. |

## Left out

- Store access (GORM queries, preloads, counts, `Create`, `Save`, `Update`, and the
  reload after finalizing) is not modelled. Its answers are parameters, and the
  internal-error replies for failed store calls are not modelled.
- HTTP handling (JSON binding, ID parsing with its invalid-ID replies, response
  bodies) is not modelled. So is the 404 for a missing match or championship: the
  model starts from the loaded record.
- `Matches.CreateMatch` takes the bound status as an enum or empty. A bound status
  string that is none of the three values is not representable.
- Timestamps are a `Timestamp` parameter standing for the clock reading. Their
  values are never inspected.
- Scores and points are unbounded integers. Go's 64-bit `int` wrap-around is not
  modelled; it cannot occur at realistic sizes.
- `Matches.CreateMatch` takes enrollment per name. With names that repeat, the
  handler checks only the first player the store finds under each name. The
  `enrolled` parameter stands for that lookup's answer; which player the store
  returns is left to it.
- `Championships.Finalize` takes the membership-row count as a parameter. The
  model does not derive it from the store. The only link it assumes is that the
  roster the generator loads is never longer than that count.
- The order in which the store returns finished matches is taken as given.
  Aggregation is not proved independent of that order.
- `DeleteMatch` is not modelled: it is no longer routed.
- Not modelled: the plain CRUD handlers (`GetAll*`, `Get*`, `CreateChampionship`,
  `UpdateChampionship`, `DeleteChampionship`, and all of `player.go` and
  `score.go`), the database connection and migration, and the server's routing.
  Their only logic is what the store does. `UpdateChampionship` binds a whole
  championship and so could also rewrite its status; that path is outside this
  model.
- Concurrent generation requests are not modelled (the store's concern).
