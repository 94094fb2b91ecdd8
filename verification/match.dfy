/**
 The match record of src/Match.ts and the three operations that move a
 match's result into its two players: applying a result, undoing it, and
 crediting a bye. A match holds its players by value; each operation returns
 the match with the updated players in its slots and every other field as it
 was.
 */
module Matches {
  import opened NullableValues
  import opened Players

  /** Which slot of a match: player one or player two. */
  datatype Side = One | Two

  /**
   A match. `winnerPath` and `loserPath` are indices of downstream matches in
   the tournament's match list; nothing here follows them.
   */
  datatype Match = Match(
    id: string,
    round: int,
    matchNumber: int,
    playerOne: Nullable<Player>,
    playerTwo: Nullable<Player>,
    active: bool,
    playerOneWins: int,
    playerTwoWins: int,
    draws: int,
    winnerPath: Nullable<nat>,
    loserPath: Nullable<nat>)

  /** Both player slots are filled. */
  predicate Seated(m: Match) {
    m.playerOne.NonNull? && m.playerTwo.NonNull?
  }

  function P1(m: Match): Player
    requires m.playerOne.NonNull?
  {
    m.playerOne.value
  }

  function P2(m: Match): Player
    requires m.playerTwo.NonNull?
  {
    m.playerTwo.value
  }

  /** `m` and `n` agree on the match's own fields, that is, on all but the players. */
  predicate SameFixture(m: Match, n: Match) {
    && m.id == n.id && m.round == n.round && m.matchNumber == n.matchNumber
    && m.active == n.active
    && m.playerOneWins == n.playerOneWins && m.playerTwoWins == n.playerTwoWins
    && m.draws == n.draws
    && m.winnerPath == n.winnerPath && m.loserPath == n.loserPath
  }

  /**
   A new match. `players` is the player array, which may be null: the slots are filled
   from it only when it holds exactly two entries.
   */
  function NewMatch(id: string, round: int, matchNumber: int,
                    players: Nullable<seq<Nullable<Player>>>): (m: Match)
    ensures m.id == id && m.round == round && m.matchNumber == matchNumber
    ensures players.NonNull? && |players.value| == 2 ==>
      m.playerOne == players.value[0] && m.playerTwo == players.value[1]
    ensures !(players.NonNull? && |players.value| == 2) ==>
      m.playerOne.Null? && m.playerTwo.Null?
    ensures !m.active
    ensures m.playerOneWins == 0 && m.playerTwoWins == 0 && m.draws == 0
    ensures m.winnerPath.Null? && m.loserPath.Null?
  {
    var seats := if players.NonNull? && |players.value| == 2
                 then players.value
                 else [Null, Null];
    Match(id, round, matchNumber, seats[0], seats[1], false, 0, 0, 0, Null, Null)
  }

  /** The outcome for a side that won `own` games against `other`; draws do not matter. */
  function OutcomeOf(own: int, other: int): (o: Outcome)
    ensures o == Win <==> own > other
    ensures o == Loss <==> own < other
    ensures o == Draw <==> own == other
  {
    if own > other then Win else if own < other then Loss else Draw
  }

  /** The outcome the opponent records for the same match. */
  function Opposite(o: Outcome): Outcome {
    match o
    case Win => Loss
    case Loss => Win
    case Draw => Draw
  }

  /** Match points for an outcome under the format's win, loss and draw values. */
  function PointsFor(o: Outcome, wv: real, lv: real, dv: real): real {
    match o
    case Win => wv
    case Loss => lv
    case Draw => dv
  }

  /** Game points a side earns from its own game wins and the drawn games. */
  function GamePoints(ownWins: int, draws: int, wv: real, dv: real): real {
    ownWins as real * wv + draws as real * dv
  }

  /** No entry of `s` belongs to match `matchId`. */
  predicate NoEntryFor(s: seq<Result>, matchId: string) {
    forall k :: 0 <= k < |s| ==> s[k].matchId != matchId
  }

  /** The index of the first entry of match `matchId`, or -1 when there is none. */
  function FindIndex(s: seq<Result>, matchId: string): (i: int)
    ensures -1 <= i < |s|
    ensures i == -1 <==> NoEntryFor(s, matchId)
    ensures 0 <= i ==> s[i].matchId == matchId && NoEntryFor(s[..i], matchId)
    decreases |s|
  {
    if |s| == 0 then -1
    else if s[0].matchId == matchId then 0
    else
      var j := FindIndex(s[1..], matchId);
      if j == -1 then -1 else j + 1
  }

  /**
   Removes one element at `start` the way an array's `splice(start, 1)` does:
   a negative start counts back from the end (clamped at 0), and a start at
   or past the end removes nothing.
   */
  function SpliceOne<T>(s: seq<T>, start: int): (r: seq<T>)
    ensures 0 <= start < |s| ==> r == s[..start] + s[start + 1..]
    ensures start == -1 && |s| > 0 ==> r == s[..|s| - 1]
    ensures |s| == 0 || start >= |s| ==> r == s
    ensures |s| > 0 && start < |s| ==> |r| == |s| - 1
  {
    var k := if start >= 0 then start
             else if |s| + start >= 0 then |s| + start
             else 0;
    if k < |s| then s[..k] + s[k + 1..] else s
  }

  /**
   Removes the first entry of match `matchId`. When there is none, the
   index search yields -1 and the last entry goes instead.
   */
  function DropEntry(s: seq<Result>, matchId: string): (r: seq<Result>)
    ensures !NoEntryFor(s, matchId) ==>
      var i := FindIndex(s, matchId); r == s[..i] + s[i + 1..]
    ensures NoEntryFor(s, matchId) && |s| > 0 ==> r == s[..|s| - 1]
    ensures |s| == 0 ==> r == []
    ensures |s| > 0 ==> |r| == |s| - 1
  {
    SpliceOne(s, FindIndex(s, matchId))
  }

  /** Appending a match's entry and dropping it again gives back the list. */
  lemma DropAppended(s: seq<Result>, e: Result)
    requires NoEntryFor(s, e.matchId)
    ensures DropEntry(s + [e], e.matchId) == s
  {
    var t := s + [e];
    assert t[|s|].matchId == e.matchId;
    assert forall k :: 0 <= k < |s| ==> t[k] == s[k];
    var i := FindIndex(t, e.matchId);
    assert t[..i] == s;
  }

  /** Adds one match's deltas to a player and appends its result entry. */
  function Credit(p: Player, entry: Result, matchPts: real, gamePts: real, games: int): Player {
    p.(matchPoints := p.matchPoints + matchPts,
       gamePoints := p.gamePoints + gamePts,
       games := p.games + games,
       matches := p.matches + 1,
       results := p.results + [entry])
  }

  /** Takes one match's deltas off a player and drops that match's entry. */
  function Debit(p: Player, matchId: string, matchPts: real, gamePts: real, games: int): Player {
    p.(matchPoints := p.matchPoints - matchPts,
       gamePoints := p.gamePoints - gamePts,
       games := p.games - games,
       matches := p.matches - 1,
       results := DropEntry(p.results, matchId))
  }

  /**
   Applies the match's recorded wins and draws to both players, with `wv`,
   `lv` and `dv` the values of a win, a loss and a draw.
   */
  function ResultForPlayers(m: Match, wv: real, lv: real, dv: real): (r: Match)
    requires Seated(m)
    ensures Seated(r) && SameFixture(m, r)
    ensures SameUntouchedFields(P1(m), P1(r)) && SameUntouchedFields(P2(m), P2(r))
    ensures P1(r).byes == P1(m).byes && P2(r).byes == P2(m).byes
    // one entry is appended to each player's results, and nothing else changes there
    ensures |P1(r).results| == |P1(m).results| + 1
    ensures |P2(r).results| == |P2(m).results| + 1
    ensures P1(r).results[..|P1(m).results|] == P1(m).results
    ensures P2(r).results[..|P2(m).results|] == P2(m).results
    // the entries name this match and the other player
    ensures var e := P1(r).results[|P1(m).results|];
      e.matchId == m.id && e.opponentId == P2(m).id
    ensures var e := P2(r).results[|P2(m).results|];
      e.matchId == m.id && e.opponentId == P1(m).id
    // more game wins is a match win, fewer a loss, equal a draw; the opponent's is the opposite
    ensures var o := P1(r).results[|P1(m).results|].outcome;
      && (o == Win <==> m.playerOneWins > m.playerTwoWins)
      && (o == Loss <==> m.playerOneWins < m.playerTwoWins)
      && P2(r).results[|P2(m).results|].outcome == Opposite(o)
    // match points follow the recorded outcome
    ensures P1(r).matchPoints ==
      P1(m).matchPoints + PointsFor(P1(r).results[|P1(m).results|].outcome, wv, lv, dv)
    ensures P2(r).matchPoints ==
      P2(m).matchPoints + PointsFor(P2(r).results[|P2(m).results|].outcome, wv, lv, dv)
    // game points come from the player's own wins and the draws
    ensures P1(r).gamePoints ==
      P1(m).gamePoints + m.playerOneWins as real * wv + m.draws as real * dv
    ensures P2(r).gamePoints ==
      P2(m).gamePoints + m.playerTwoWins as real * wv + m.draws as real * dv
    // both count every game of the match and one more match
    ensures P1(r).games == P1(m).games + m.playerOneWins + m.playerTwoWins + m.draws
    ensures P2(r).games == P2(m).games + m.playerOneWins + m.playerTwoWins + m.draws
    ensures P1(r).matches == P1(m).matches + 1 && P2(r).matches == P2(m).matches + 1
  {
    var p1 := P1(m);
    var p2 := P2(m);
    var games := m.playerOneWins + m.playerTwoWins + m.draws;
    var o1 := OutcomeOf(m.playerOneWins, m.playerTwoWins);
    var o2 := OutcomeOf(m.playerTwoWins, m.playerOneWins);
    m.(playerOne := NonNull(Credit(p1, Result(m.id, p2.id, o1), PointsFor(o1, wv, lv, dv),
                                GamePoints(m.playerOneWins, m.draws, wv, dv), games)),
       playerTwo := NonNull(Credit(p2, Result(m.id, p1.id, o2), PointsFor(o2, wv, lv, dv),
                                GamePoints(m.playerTwoWins, m.draws, wv, dv), games)))
  }

  /**
   Takes the match's recorded wins and draws off both players again and
   drops each player's first entry for this match (the last entry when
   there is none).
   */
  function ResetResults(m: Match, wv: real, lv: real, dv: real): (r: Match)
    requires Seated(m)
    ensures Seated(r) && SameFixture(m, r)
    ensures SameUntouchedFields(P1(m), P1(r)) && SameUntouchedFields(P2(m), P2(r))
    ensures P1(r).byes == P1(m).byes && P2(r).byes == P2(m).byes
    ensures P1(r).results == DropEntry(P1(m).results, m.id)
    ensures P2(r).results == DropEntry(P2(m).results, m.id)
    ensures P1(r).matchPoints ==
      P1(m).matchPoints - PointsFor(OutcomeOf(m.playerOneWins, m.playerTwoWins), wv, lv, dv)
    ensures P2(r).matchPoints ==
      P2(m).matchPoints - PointsFor(OutcomeOf(m.playerTwoWins, m.playerOneWins), wv, lv, dv)
    ensures P1(r).gamePoints ==
      P1(m).gamePoints - m.playerOneWins as real * wv - m.draws as real * dv
    ensures P2(r).gamePoints ==
      P2(m).gamePoints - m.playerTwoWins as real * wv - m.draws as real * dv
    ensures P1(r).games == P1(m).games - (m.playerOneWins + m.playerTwoWins + m.draws)
    ensures P2(r).games == P2(m).games - (m.playerOneWins + m.playerTwoWins + m.draws)
    ensures P1(r).matches == P1(m).matches - 1 && P2(r).matches == P2(m).matches - 1
  {
    var games := m.playerOneWins + m.playerTwoWins + m.draws;
    var o1 := OutcomeOf(m.playerOneWins, m.playerTwoWins);
    var o2 := OutcomeOf(m.playerTwoWins, m.playerOneWins);
    m.(playerOne := NonNull(Debit(P1(m), m.id, PointsFor(o1, wv, lv, dv),
                               GamePoints(m.playerOneWins, m.draws, wv, dv), games)),
       playerTwo := NonNull(Debit(P2(m), m.id, PointsFor(o2, wv, lv, dv),
                               GamePoints(m.playerTwoWins, m.draws, wv, dv), games)))
  }

  /** The slot for `side`. */
  function Slot(m: Match, side: Side): Nullable<Player> {
    match side
    case One => m.playerOne
    case Two => m.playerTwo
  }

  /** The recorded game wins of `side`. */
  function WinsOf(m: Match, side: Side): int {
    match side
    case One => m.playerOneWins
    case Two => m.playerTwoWins
  }

  /**
   Credits a bye to the player on `side`: a match won at value `wv`, game
   points and games for that side's own recorded wins, and one more bye.
   The other slot is left alone, and no result entry is made.
   */
  function AssignBye(m: Match, side: Side, wv: real): (r: Match)
    requires Slot(m, side).NonNull?
    ensures SameFixture(m, r)
    ensures Slot(r, side).NonNull?
    ensures side == One ==> r.playerTwo == m.playerTwo
    ensures side == Two ==> r.playerOne == m.playerOne
    ensures var p, q := Slot(m, side).value, Slot(r, side).value;
      && SameUntouchedFields(p, q)
      && q.results == p.results
      && q.matchPoints == p.matchPoints + wv
      && q.matches == p.matches + 1
      && q.byes == p.byes + 1
      && q.gamePoints == p.gamePoints + WinsOf(m, side) as real * wv
      && q.games == p.games + WinsOf(m, side)
  {
    var p := Slot(m, side).value;
    var wins := WinsOf(m, side);
    var q := p.(gamePoints := p.gamePoints + wins as real * wv,
                games := p.games + wins,
                matchPoints := p.matchPoints + wv,
                matches := p.matches + 1,
                byes := p.byes + 1);
    match side
    case One => m.(playerOne := NonNull(q))
    case Two => m.(playerTwo := NonNull(q))
  }

  /**
   Reversibility: applying a match's result and then resetting it with the
   same point values restores both players exactly, provided neither player
   already had an entry for this match.
   */
  lemma ResetUndoesResult(m: Match, wv: real, lv: real, dv: real)
    requires Seated(m)
    requires NoEntryFor(P1(m).results, m.id) && NoEntryFor(P2(m).results, m.id)
    ensures ResetResults(ResultForPlayers(m, wv, lv, dv), wv, lv, dv) == m
  {
    var a := ResultForPlayers(m, wv, lv, dv);
    var r := ResetResults(a, wv, lv, dv);
    DropAppended(P1(m).results, P1(a).results[|P1(m).results|]);
    DropAppended(P2(m).results, P2(a).results[|P2(m).results|]);
    assert P1(a).results == P1(m).results + [P1(a).results[|P1(m).results|]];
    assert P2(a).results == P2(m).results + [P2(a).results[|P2(m).results|]];
    assert P1(r) == P1(m);
    assert P2(r) == P2(m);
  }

  /**
   Applying the same result a second time and then resetting also restores
   both players: the reset removes the earlier copy of the entry, which is
   equal to the new one, so the list comes back unchanged.
   */
  lemma ResetUndoesRepeatedResult(m: Match, wv: real, lv: real, dv: real)
    requires Seated(m)
    requires P1(m).results == [Result(m.id, P2(m).id, OutcomeOf(m.playerOneWins, m.playerTwoWins))]
    requires P2(m).results == [Result(m.id, P1(m).id, OutcomeOf(m.playerTwoWins, m.playerOneWins))]
    ensures ResetResults(ResultForPlayers(m, wv, lv, dv), wv, lv, dv) == m
  {
    var a := ResultForPlayers(m, wv, lv, dv);
    var r := ResetResults(a, wv, lv, dv);
    assert P1(a).results == P1(m).results + P1(m).results;
    assert P2(a).results == P2(m).results + P2(m).results;
    assert FindIndex(P1(a).results, m.id) == 0;
    assert FindIndex(P2(a).results, m.id) == 0;
    assert P1(r) == P1(m);
    assert P2(r) == P2(m);
  }

  /**
   The other direction: when each player's last entry is this match's own
   entry (and no earlier one is), resetting and then applying the result
   again gives back the same match.
   */
  lemma ResultUndoesReset(m: Match, wv: real, lv: real, dv: real)
    requires Seated(m)
    requires |P1(m).results| > 0 && |P2(m).results| > 0
    requires P1(m).results[|P1(m).results| - 1] ==
      Result(m.id, P2(m).id, OutcomeOf(m.playerOneWins, m.playerTwoWins))
    requires P2(m).results[|P2(m).results| - 1] ==
      Result(m.id, P1(m).id, OutcomeOf(m.playerTwoWins, m.playerOneWins))
    requires NoEntryFor(P1(m).results[..|P1(m).results| - 1], m.id)
    requires NoEntryFor(P2(m).results[..|P2(m).results| - 1], m.id)
    ensures ResultForPlayers(ResetResults(m, wv, lv, dv), wv, lv, dv) == m
  {
    var s1, s2 := P1(m).results, P2(m).results;
    var d := ResetResults(m, wv, lv, dv);
    var r := ResultForPlayers(d, wv, lv, dv);
    assert s1 == s1[..|s1| - 1] + [s1[|s1| - 1]];
    assert s2 == s2[..|s2| - 1] + [s2[|s2| - 1]];
    DropAppended(s1[..|s1| - 1], s1[|s1| - 1]);
    DropAppended(s2[..|s2| - 1], s2[|s2| - 1]);
    assert P1(d).results == s1[..|s1| - 1];
    assert P2(d).results == s2[..|s2| - 1];
    assert P1(r).results == s1;
    assert P2(r).results == s2;
    assert P1(r) == P1(m);
    assert P2(r) == P2(m);
  }

  /** Applying a result keeps each player's match count equal to entries plus byes. */
  lemma ResultKeepsConsistent(m: Match, wv: real, lv: real, dv: real)
    requires Seated(m) && Consistent(P1(m)) && Consistent(P2(m))
    ensures var r := ResultForPlayers(m, wv, lv, dv);
      Consistent(P1(r)) && Consistent(P2(r))
  {
  }

  /** Resetting a result keeps the match count in step with the entries. */
  lemma ResetKeepsConsistent(m: Match, wv: real, lv: real, dv: real)
    requires Seated(m) && Consistent(P1(m)) && Consistent(P2(m))
    requires |P1(m).results| > 0 && |P2(m).results| > 0
    ensures var r := ResetResults(m, wv, lv, dv);
      Consistent(P1(r)) && Consistent(P2(r))
  {
  }

  /**
   Without an entry to remove, a reset still takes a match off the count
   while the empty results list stays empty, so the count falls out of step.
   */
  lemma ResetOnEmptyBreaksConsistent(m: Match, wv: real, lv: real, dv: real)
    requires Seated(m) && Consistent(P1(m)) && P1(m).results == []
    ensures var r := ResetResults(m, wv, lv, dv);
      P1(r).results == [] && !Consistent(P1(r))
  {
  }

  /** A bye adds a match and a bye but no entry, which keeps the count in step. */
  lemma ByeKeepsConsistent(m: Match, side: Side, wv: real)
    requires Slot(m, side).NonNull? && Consistent(Slot(m, side).value)
    ensures Consistent(Slot(AssignBye(m, side, wv), side).value)
  {
  }

  /**
   The match points a result hands out in total: a win and a loss when one
   side won more games, two draws otherwise.
   */
  lemma ResultMatchPointsTotal(m: Match, wv: real, lv: real, dv: real)
    requires Seated(m)
    ensures var r := ResultForPlayers(m, wv, lv, dv);
      P1(r).matchPoints + P2(r).matchPoints ==
        P1(m).matchPoints + P2(m).matchPoints +
        (if m.playerOneWins == m.playerTwoWins then 2.0 * dv else wv + lv)
  {
  }

  /**
   Applying the result of a match whose counters are still at their initial
   zeros gives both players a draw: equal (zero) wins decide a draw.
   */
  lemma UnplayedResultIsDraw(id: string, round: int, matchNumber: int,
                             p1: Player, p2: Player, wv: real, lv: real, dv: real)
    ensures var m := NewMatch(id, round, matchNumber, NonNull([NonNull(p1), NonNull(p2)]));
      var r := ResultForPlayers(m, wv, lv, dv);
      && P1(r).results == p1.results + [Result(id, p2.id, Draw)]
      && P2(r).results == p2.results + [Result(id, p1.id, Draw)]
      && P1(r).matchPoints == p1.matchPoints + dv
      && P2(r).matchPoints == p2.matchPoints + dv
      && P1(r).games == p1.games && P2(r).games == p2.games
  {
  }
}
