# Result bookkeeping of tournament-organizer, in Dafny

This project models the part of the tournament-organizer library that sits
between a match and its two players:

- the **player record** (`src/src/Player.ts`): counters, the `results` list,
  the tiebreaker slots, the initial state and the reclass copy;
- the **match record** (`src/Match.ts`): the fresh constructor, and the three
  operations that move points from a match into its players. `resultForPlayers`
  applies a finished match. `resetResults` takes that application back.
  `assignBye` credits one side only;
- **`seedSort`** (`src/Utilities.ts`): ordering players by seed, ascending or
  descending.

The model is functional. `Player` and `Match` are immutable datatypes. Each
operation returns the match with updated players in its slots and all of the
match's own fields as they were. Points (`matchPoints`, `gamePoints`, the win,
loss and draw values, seeds, tiebreakers) are `real`. Counters that move by
whole amounts (`matches`, `games`, `byes`, game wins, draws) are `int`.

Files: `nullable.dfy` (values the source allows to be `null`), `player.dfy` (module `Players`),
`match.dfy` (module `Matches`), `utilities.dfy` (module `Utilities`).

Points the code itself settles:

- `resetResults` is an exact inverse of `resultForPlayers` when the player
  had no earlier entry for the match (`Matches.ResetUndoesResult`). It removes
  the first entry whose match id matches. With an earlier entry, the reset
  removes that earlier entry instead of the new one. The list then comes back
  only if every entry from that one to the end is a copy of the new entry. A
  result applied twice is one such case (`Matches.ResetUndoesRepeatedResult`).
  When there is no entry for the match at all, `findIndex` returns -1 and
  `splice(-1, 1)` drops the player's last entry instead; on an empty list it
  removes nothing. `Matches.DropEntry` models this as written.
- Every match a player plays is either an entry of `results` or a bye, so the
  count `matches == |results| + byes` (`Players.Consistent`) holds for a new
  player and is kept by `resultForPlayers` and `assignBye`. `resetResults`
  keeps it only for a player with at least one entry. On a player with no
  entries it still decrements `matches` while `results` stays empty, which
  breaks the count (`Matches.ResetOnEmptyBreaksConsistent`).
- `assignBye` credits the match value of a win. It also adds the side's own
  recorded game wins to its games, and those wins times `wv` to its game
  points. `Matches.AssignBye` does the same.
- Player.ts declares result entries with `matchId`/`opponentId`. Match.ts
  writes and searches them under `match`/`opponent`. There is one `Result`
  type here, with fields `matchId` and `opponentId`, because `match` is a
  reserved word in Dafny.

## Model

| member | source | states |
|---|---|---|
| Players.NewPlayer | src/src/Player.ts:143-174 | a new player stores alias, id and seed as given; all six counters are 0; results and colours are empty; colour preference is 0; it is active; all thirteen tiebreakers are 0; the extras map is empty |
| Players.NewPlayerConsistent | src/src/Player.ts:147-153 | a new player's match count equals its entries plus its byes |
| Players.Reclass | src/src/Player.ts:122-142 | reclassing copies every field unchanged; a missing results or colours list becomes empty |
| Players.ReclassStore | src/src/Player.ts:122-142 | saving a player and reclassing the saved form gives back the same player |
| Players.ReclassIdempotent | src/src/Player.ts:122-142 | reclassing, saving and reclassing again changes nothing; the reclassed record keeps the count invariant exactly when the saved counters agree with the saved entries |
| Matches.NewMatch | src/Match.ts:95-121 | both slots are filled from the players array only when it has exactly two entries, otherwise both are null; the win and draw counters are 0, the match is inactive, and both paths are null |
| Matches.OutcomeOf | src/Match.ts:137-152 | a side wins exactly when it has more game wins, loses exactly when it has fewer, and draws exactly when the wins are equal, whatever the draw count |
| Matches.FindIndex | src/Match.ts:183 | returns -1 exactly when no entry has the match id; otherwise returns the index of the first such entry |
| Matches.SpliceOne | src/Match.ts:182-189 | removing one element at an index in range keeps everything around it; start -1 removes the last element; an empty list is unchanged |
| Matches.DropEntry | src/Match.ts:182-189 | removes the first entry of the match when there is one, otherwise the last entry; a non-empty list loses exactly one element |
| Matches.DropAppended | src/Match.ts:155-156 | appending an entry for a match the list never mentioned, then dropping that match's entry, gives back the list |
| Matches.ResultForPlayers | src/Match.ts:130-157 | each player gets exactly one new entry, at the end, naming this match and the other player, and keeps its old entries. The outcome is a win for more game wins, a loss for fewer and a draw for equal wins. The two outcomes are complementary. Match points grow by the value of the recorded outcome. Game points grow by own wins times wv plus draws times dv. Games grow by all games of the match and matches grow by 1. Byes, identity, seed, colours, status, tiebreakers, extras and the match's own fields are unchanged |
| Matches.ResetResults | src/Match.ts:165-190 | each player loses the match points of the outcome the counters decide, own wins times wv plus draws times dv in game points, all games of the match and one match; each player's results lose that match's first entry, or the last entry when there is none; identity, seed, colours, status, tiebreakers, extras, byes and the match's own fields are unchanged |
| Matches.AssignBye | src/Match.ts:197-211 | only the chosen side changes: its match points grow by wv, its matches and byes by 1, its game points by own wins times wv and its games by own wins; no entry is appended; the other slot and the match's own fields are unchanged |
| Matches.ResetUndoesResult | src/Match.ts:130-190 | applying a result and then resetting it with the same point values gives back the same match and both players exactly, when neither player had an entry for this match |
| Matches.ResetUndoesRepeatedResult | src/Match.ts:130-190 | when each player's only entry is this match's own entry, applying the result again and then resetting gives back the same match: the reset removes the earlier, equal copy |
| Matches.ResultUndoesReset | src/Match.ts:130-190 | resetting and then applying again gives back the same match, when each player's last entry is this match's entry and no earlier one is |
| Matches.ResultKeepsConsistent | src/Match.ts:153-156 | applying a result keeps each player's matches equal to its entries plus byes |
| Matches.ResetKeepsConsistent | src/Match.ts:180-189 | resetting keeps that invariant for players with at least one entry |
| Matches.ResetOnEmptyBreaksConsistent | src/Match.ts:180-189 | resetting a player with no entries leaves the results empty but takes a match off the count, so matches no longer equal entries plus byes |
| Matches.ByeKeepsConsistent | src/Match.ts:197-211 | a bye keeps that invariant for the credited player |
| Matches.ResultMatchPointsTotal | src/Match.ts:137-152 | a result hands out wv plus lv in total when one side won more games, and two times dv when the wins are equal |
| Matches.UnplayedResultIsDraw | src/Match.ts:105-152 | applying the result of a new match whose counters are still 0 records a draw for both players, gives each dv match points and adds no games |
| Utilities.SeedSort | src/Utilities.ts:36-38 | the result is a permutation of the input (same length, same multiset); seeds are non-decreasing for "asc" and non-increasing for "des" |
| Utilities.SeededSortOrdersSeeds | src/Utilities.ts:37 | when every player has a seed, every player of the result has one too, and the seeds are in the requested order |
| Utilities.SeedSortStable | src/Utilities.ts:36-38 | players with equal seeds keep their input order |

## Left out

- Floating point: numbers in the source are IEEE doubles. Here points are exact reals, so the reversibility lemmas hold only in that idealised arithmetic. A draw value such as 0.5 is exact in both.
- Aliasing: in the source the two slots could hold the same player object, and both sides' updates would then land on that one object. Here the slots hold separate values.
- In-place mutation: the source mutates the shared player objects and sorts the array in place. The model returns new values instead.
- Matches.ResultForPlayers: requires both slots to be filled. With a null slot the source throws a TypeError. If only `playerTwo` is null, `playerOne.gamePoints` has already been increased (src/Match.ts:131) when it throws, so the partial update is left behind. The model promises nothing for that case.
- Matches.ResetResults: requires both slots to be filled. With a null slot the source throws a TypeError. If only `playerTwo` is null, `playerOne.gamePoints` has already been decreased (src/Match.ts:166) when it throws, so the partial update is left behind. The model promises nothing for that case.
- Matches.AssignBye: requires the chosen slot to be filled. With that slot null the source throws a TypeError at its first statement (src/Match.ts:199 or 205) before changing anything. The model promises nothing for that case.
- Matches.AssignBye: an argument other than 1 or 2 is outside the declared type `1 | 2`, so `Side` has only two values.
- Utilities.SeedSort: a null seed takes part in the comparator's subtraction as 0, so it sorts as seed 0 and needs no precondition. The seeded case is stated by `Utilities.SeededSortOrdersSeeds`. A seed that is not a number at all (NaN, undefined) is not modelled.
- Players.NewPlayer: the source's `typeof seed === "number"` test is taken as a nullable seed parameter. A non-number value other than null cannot be passed to it.
- The reclass form of the match constructor (src/Match.ts:81-94) copies every field. In a value model that is the identity, so it has no member.
- Moving players along `winnerPath`/`loserPath`: nothing in the modelled code follows them. They are kept as inert nullable indices.
- Swiss, round-robin and elimination pairing, and the tiebreaker computation: none of that code is part of this model. The tiebreaker slots are only stored.
- `randomString` and `shuffle` (src/Utilities.ts:13-30): they depend on random numbers, so nothing deterministic can be stated about them.
- The tournament registry (src/EventManager.ts): it manages tournament classes that are not part of this model, and its id retry loop depends on random strings.
