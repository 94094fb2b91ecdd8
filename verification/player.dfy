/**
 The player record of src/src/Player.ts: identity, seed, the six point and count
 counters, the list of match results, colour history, the thirteen tiebreaker
 slots and a free string map. Numbers that may be fractional (points, seeds,
 tiebreakers) are `real`; counters that only move by whole amounts are `int`.
 */
module Players {
  import opened NullableValues

  /** A player's outcome in one match ("w", "l" or "d"). */
  datatype Outcome = Win | Loss | Draw

  /** One entry of a player's results: the match, the opponent and the outcome. */
  datatype Result = Result(matchId: string, opponentId: string, outcome: Outcome)

  /** The tiebreaker values; recomputed elsewhere, stored here. */
  datatype Tiebreakers = Tiebreakers(
    matchWinPctM: real,
    matchWinPctP: real,
    oppMatchWinPctM: real,
    oppMatchWinPctP: real,
    gameWinPct: real,
    oppGameWinPct: real,
    oppOppMatchWinPct: real,
    solkoff: real,
    cutOne: real,
    median: real,
    neustadtl: real,
    cumulative: real,
    oppCumulative: real)

  datatype Player = Player(
    alias: string,
    id: string,
    seed: Nullable<real>,
    matchPoints: real,
    matches: int,
    gamePoints: real,
    games: int,
    initialByes: int,
    byes: int,
    results: seq<Result>,
    colorPref: int,
    colors: seq<string>,
    active: bool,
    tiebreakers: Tiebreakers,
    etc: map<string, string>)

  /**
   A player record as found in saved state before it is reclassed: the
   results and colour lists may be missing.
   */
  datatype StoredPlayer = StoredPlayer(
    alias: string,
    id: string,
    seed: Nullable<real>,
    matchPoints: real,
    matches: int,
    gamePoints: real,
    games: int,
    initialByes: int,
    byes: int,
    results: Nullable<seq<Result>>,
    colorPref: int,
    colors: Nullable<seq<string>>,
    active: bool,
    tiebreakers: Tiebreakers,
    etc: map<string, string>)

  predicate AllZero(t: Tiebreakers) {
    && t.matchWinPctM == 0.0 && t.matchWinPctP == 0.0
    && t.oppMatchWinPctM == 0.0 && t.oppMatchWinPctP == 0.0
    && t.gameWinPct == 0.0 && t.oppGameWinPct == 0.0
    && t.oppOppMatchWinPct == 0.0
    && t.solkoff == 0.0 && t.cutOne == 0.0 && t.median == 0.0
    && t.neustadtl == 0.0
    && t.cumulative == 0.0 && t.oppCumulative == 0.0
  }

  /**
   Every match a player has played is either an entry of `results` or a bye:
   byes count as matches but leave no entry.
   */
  predicate Consistent(p: Player) {
    p.matches == |p.results| + p.byes
  }

  /**
   `p` and `q` agree on everything the result operations never touch:
   identity, seed, initial byes, colours, status, tiebreakers and extras.
   */
  predicate SameUntouchedFields(p: Player, q: Player) {
    && p.alias == q.alias && p.id == q.id && p.seed == q.seed
    && p.initialByes == q.initialByes
    && p.colorPref == q.colorPref && p.colors == q.colors
    && p.active == q.active && p.tiebreakers == q.tiebreakers && p.etc == q.etc
  }

  /** A new player, before any match. */
  function NewPlayer(alias: string, id: string, seed: Nullable<real>): (p: Player)
    ensures p.alias == alias && p.id == id && p.seed == seed
    ensures p.matchPoints == 0.0 && p.matches == 0
    ensures p.gamePoints == 0.0 && p.games == 0
    ensures p.initialByes == 0 && p.byes == 0
    ensures p.results == [] && p.colors == []
    ensures p.colorPref == 0 && p.active
    ensures AllZero(p.tiebreakers)
    ensures p.etc == map[]
  {
    Player(alias, id, seed, 0.0, 0, 0.0, 0, 0, 0, [], 0, [], true,
           Tiebreakers(0.0, 0.0, 0.0, 0.0, 0.0, 0.0, 0.0, 0.0, 0.0, 0.0, 0.0, 0.0, 0.0),
           map[])
  }

  /** A new player has played nothing, so its counters agree with its results. */
  lemma NewPlayerConsistent(alias: string, id: string, seed: Nullable<real>)
    ensures Consistent(NewPlayer(alias, id, seed))
  {
  }

  /** A saved list, or the empty list when it is missing. */
  function ListOrEmpty<T>(xs: Nullable<seq<T>>): seq<T> {
    match xs
    case NonNull(s) => s
    case Null => []
  }

  /** Rebuilds a player from saved state; missing lists become empty. */
  function Reclass(s: StoredPlayer): (p: Player)
    ensures s.results.NonNull? ==> p.results == s.results.value
    ensures s.results.Null? ==> p.results == []
    ensures s.colors.NonNull? ==> p.colors == s.colors.value
    ensures s.colors.Null? ==> p.colors == []
    ensures p.alias == s.alias && p.id == s.id && p.seed == s.seed
    ensures p.matchPoints == s.matchPoints && p.matches == s.matches
    ensures p.gamePoints == s.gamePoints && p.games == s.games
    ensures p.initialByes == s.initialByes && p.byes == s.byes
    ensures p.colorPref == s.colorPref && p.active == s.active
    ensures p.tiebreakers == s.tiebreakers && p.etc == s.etc
  {
    Player(s.alias, s.id, s.seed, s.matchPoints, s.matches, s.gamePoints, s.games,
           s.initialByes, s.byes, ListOrEmpty(s.results), s.colorPref, ListOrEmpty(s.colors),
           s.active, s.tiebreakers, s.etc)
  }

  /** The saved form of a player, with both lists present. */
  function Store(p: Player): (s: StoredPlayer)
    ensures s.results == NonNull(p.results) && s.colors == NonNull(p.colors)
  {
    StoredPlayer(p.alias, p.id, p.seed, p.matchPoints, p.matches, p.gamePoints, p.games,
                 p.initialByes, p.byes, NonNull(p.results), p.colorPref, NonNull(p.colors),
                 p.active, p.tiebreakers, p.etc)
  }

  /** Saving a player and reclassing the saved form gives back the same player. */
  lemma ReclassStore(p: Player)
    ensures Reclass(Store(p)) == p
  {
  }

  /**
   Reclassing is a plain copy once the lists are filled in: reclassing a
   record, saving it and reclassing again changes nothing.
   */
  lemma ReclassIdempotent(s: StoredPlayer)
    ensures Reclass(Store(Reclass(s))) == Reclass(s)
    ensures Consistent(Reclass(s)) <==>
      s.matches == s.byes + (if s.results.NonNull? then |s.results.value| else 0)
  {
    ReclassStore(Reclass(s));
  }
}
