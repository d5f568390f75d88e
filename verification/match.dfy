/**
 A whole match: placing the players on the first pair, rounds in a
 Fisher-Yates shuffled order of the live players, the end on the demotorzone's
 defeat or on everybody's death, and the record of the last three winners.
 */
module Match {
  import opened Types
  import opened ZoneMap
  import opened Turn
  import PlayerSetup

  // ---------------------------------------------------------------------------
  // Record of the last three winners
  // ---------------------------------------------------------------------------

  /** Names of the last (at most three) winners, oldest first, and the number of matches played. */
  datatype Record = Record(winners: seq<string>, games: nat)

  /** The last three entries of a history (all of it when shorter). */
  function LastThree(s: seq<string>): (r: seq<string>)
    ensures |r| == if |s| <= 3 then |s| else 3
    ensures r == s[|s| - |r|..]
  {
    if |s| <= 3 then s else s[|s| - 3..]
  }

  /**
   Recording one winner: appended while fewer than three are stored,
   otherwise the oldest is dropped. The result is the last three of the
   history extended with `name`.
   */
  function RecordWinner(rec: Record, name: string): (r: Record)
    requires |rec.winners| <= 3
    ensures r.games == rec.games + 1
    ensures r.winners == LastThree(rec.winners + [name])
    ensures 1 <= |r.winners| <= 3 && r.winners[|r.winners| - 1] == name
  {
    if |rec.winners| < 3 then Record(rec.winners + [name], rec.games + 1)
    else Record([rec.winners[1], rec.winners[2], name], rec.games + 1)
  }

  /** Recording a sequence of winners, one match after another. */
  function RecordAll(rec: Record, names: seq<string>): (r: Record)
    requires |rec.winners| <= 3
    decreases |names|
  {
    if |names| == 0 then rec else RecordAll(RecordWinner(rec, names[0]), names[1..])
  }

  lemma LastThreeAppend(h: seq<string>, name: string)
    ensures LastThree(LastThree(h) + [name]) == LastThree(h + [name])
  {
    if |h| > 3 {
      assert LastThree(h) + [name] == h[|h| - 3..] + [name];
      assert (h[|h| - 3..] + [name])[1..] == h[|h| - 2..] + [name];
      assert (h + [name])[|h| - 2..] == h[|h| - 2..] + [name];
    }
  }

  /**
   After any number of matches the record holds exactly the last three names
   of the whole history and counts every match.
   */
  lemma {:induction false} RecordKeepsLastThree(h: seq<string>, names: seq<string>, games: nat)
    ensures RecordAll(Record(LastThree(h), games), names) == Record(LastThree(h + names), games + |names|)
    decreases |names|
  {
    if |names| == 0 {
      assert h + names == h;
    } else {
      LastThreeAppend(h, names[0]);
      assert RecordWinner(Record(LastThree(h), games), names[0]) == Record(LastThree(h + [names[0]]), games + 1);
      RecordKeepsLastThree(h + [names[0]], names[1..], games + 1);
      assert h + [names[0]] + names[1..] == h + names;
    }
  }

  // ---------------------------------------------------------------------------
  // Turn order
  // ---------------------------------------------------------------------------

  /** No live player is left. */
  predicate AllDead(roster: seq<Option<Player>>) {
    forall i :: 0 <= i < |roster| ==> roster[i].None?
  }

  /** Ascending indices, from `k` on, of the live roster slots. */
  function LiveFrom(roster: seq<Option<Player>>, k: nat): (r: seq<nat>)
    requires k <= |roster|
    decreases |roster| - k
    ensures |r| <= |roster| - k
    ensures forall x :: x in r ==> k <= x < |roster| && roster[x].Some?
    ensures forall j :: k <= j < |roster| && roster[j].Some? ==> j in r
    ensures forall a, b :: 0 <= a < b < |r| ==> r[a] < r[b]
  {
    if k == |roster| then []
    else if roster[k].Some? then
      var rest := LiveFrom(roster, k + 1);
      var r := [k] + rest;
      assert forall a :: 1 <= a < |r| ==> r[a] == rest[a - 1] && rest[a - 1] in rest;
      r
    else LiveFrom(roster, k + 1)
  }

  function LiveIndices(roster: seq<Option<Player>>): (r: seq<nat>)
    ensures |r| <= |roster|
    ensures forall x :: x in r <==> 0 <= x < |roster| && roster[x].Some?
    ensures forall a, b :: 0 <= a < b < |r| ==> r[a] < r[b]
  {
    LiveFrom(roster, 0)
  }

  /** The match loop's test and the list of live indices agree. */
  lemma AllDeadIffNoneLive(roster: seq<Option<Player>>)
    ensures AllDead(roster) <==> |LiveIndices(roster)| == 0
  {
    if !AllDead(roster) {
      var i :| 0 <= i < |roster| && roster[i].Some?;
      assert i in LiveIndices(roster);
    }
    if |LiveIndices(roster)| > 0 {
      var x := LiveIndices(roster)[0];
      assert x in LiveIndices(roster);
    }
  }

  /** The draws of one shuffle: `d[k]` is the index drawn in [0, k] for position `k`. */
  predicate ValidDraws(d: seq<int>) {
    |d| == MaxPlayers && forall k :: 0 <= k < |d| ==> 0 <= d[k] <= k
  }

  function Swap(s: seq<nat>, i: nat, j: nat): (r: seq<nat>)
    requires i < |s| && j < |s|
    ensures |r| == |s| && r[i] == s[j] && r[j] == s[i]
    ensures forall k :: 0 <= k < |s| && k != i && k != j ==> r[k] == s[k]
    ensures multiset(r) == multiset(s)
  {
    s[i := s[j]][j := s[i]]
  }

  /** Fisher-Yates from position `i` down to 1; positions above `i` are final. */
  function ShuffleDown(s: seq<nat>, i: nat, d: seq<int>): (r: seq<nat>)
    requires i < |s| <= |d|
    requires forall k :: 0 <= k < |d| ==> 0 <= d[k] <= k
    decreases i
    ensures |r| == |s|
    ensures multiset(r) == multiset(s)
    ensures forall k :: i < k < |s| ==> r[k] == s[k]
    ensures 0 < i ==> r[i] == s[d[i]]
  {
    if i == 0 then s else ShuffleDown(Swap(s, i, d[i]), i - 1, d)
  }

  /** The shuffled turn order: a permutation of the given indices. */
  function Shuffle(s: seq<nat>, d: seq<int>): (r: seq<nat>)
    requires |s| <= |d|
    requires forall k :: 0 <= k < |d| ==> 0 <= d[k] <= k
    ensures |r| == |s|
    ensures multiset(r) == multiset(s)
    ensures forall x :: x in r <==> x in s
    ensures 1 < |s| ==> r[|s| - 1] == s[d[|s| - 1]]
  {
    if |s| == 0 then s
    else
      var r := ShuffleDown(s, |s| - 1, d);
      assert forall x :: x in r <==> x in multiset(r);
      assert forall x :: x in s <==> x in multiset(s);
      r
  }

  // ---------------------------------------------------------------------------
  // Rounds and the match
  // ---------------------------------------------------------------------------

  /** Nobody comes back to life and a live player keeps its name. */
  predicate Survivors(g: Game, g2: Game) {
    && |g2.roster| == |g.roster|
    && forall j :: 0 <= j < |g.roster| && g2.roster[j].Some? ==>
         g.roster[j].Some? && g2.roster[j].value.name == g.roster[j].value.name
  }

  /** The map after play: same length, and every zone can only have lost enemies and items. */
  predicate MapShrinks(a: Zones, b: Zones) {
    |b| == |a| && forall k :: 0 <= k < |a| ==> Shrinks(a[k], b[k])
  }

  /** Some live player of `g` is called `name`. */
  predicate LiveName(g: Game, name: string) {
    exists j :: 0 <= j < |g.roster| && g.roster[j].Some? && g.roster[j].value.name == name
  }

  /** Two stretches of play, each reviving nobody and only emptying zones, compose. */
  lemma PlayComposes(a: Game, b: Game, c: Game)
    requires MapShrinks(a.zones, b.zones) && Survivors(a, b)
    requires MapShrinks(b.zones, c.zones) && Survivors(b, c)
    ensures MapShrinks(a.zones, c.zones) && Survivors(a, c)
  {
    ShrinksTransitive(a.zones, b.zones, c.zones);
  }

  /**
   How a round ended: with the winner's name or none, after the first
   `played` slots of the order had their turn (or were skipped); or out of
   script.
   */
  datatype RoundResult = RoundOver(game: Game, winner: Option<string>, played: nat) | RoundStuck

  /** From state `h`, the turn of slot `i` with the answers `t` beat the demotorzone and led to `g2`. */
  predicate TurnWon(h: Game, i: nat, t: seq<Action>, g2: Game) {
    && Valid(h) && Live(h, i) && ValidActions(t)
    && var u := PlayTurn(h, i, false, t);
       u.TurnOver? && u.victory && u.game == g2
  }

  /**
   From state `h`, the turn of the slot at position `played - 1` of `order`,
   with the answers `turns[played - 1]`, beat the demotorzone and led to `g2`,
   where that slot holds the live player called `w`.
   */
  predicate LastTurnWon(h: Game, order: seq<nat>, turns: seq<seq<Action>>, played: nat, g2: Game, w: string) {
    && 1 <= played <= |order| && played <= |turns|
    && TurnWon(h, order[played - 1], turns[played - 1], g2)
    && Live(g2, order[played - 1]) && g2.roster[order[played - 1]].value.name == w
  }

  /**
   One round over the turn order `order`, `turns[k]` being the menu answers
   of the k-th turn. A slot emptied earlier in the round is skipped; the
   round stops as soon as the demotorzone is beaten, naming the player who
   beat it, or as soon as nobody is left alive.
   */
  function PlayRound(g: Game, order: seq<nat>, turns: seq<seq<Action>>): (r: RoundResult)
    requires Valid(g)
    requires forall k :: 0 <= k < |order| ==> order[k] < MaxPlayers
    requires |order| <= |turns|
    requires forall k :: 0 <= k < |turns| ==> ValidActions(turns[k])
    decreases |order|
    ensures |order| == 0 ==> r == RoundOver(g, None, 0)
    ensures r.RoundOver? ==> Valid(r.game) && MapShrinks(g.zones, r.game.zones) && Survivors(g, r.game)
    ensures r.RoundOver? ==> forall j :: 0 <= j < MaxPlayers && j !in order ==> r.game.roster[j] == g.roster[j]
    ensures r.RoundOver? && r.winner.Some? ==> LiveName(r.game, r.winner.value)
    ensures r.RoundOver? ==> r.played <= |order|
    ensures r.RoundOver? && r.played < |order| ==> r.winner.Some? || AllDead(r.game.roster)
  {
    if |order| == 0 then RoundOver(g, None, 0)
    else
      var i := order[0];
      if g.roster[i].None? then
        var r := PlayRound(g, order[1..], turns[1..]);
        if r.RoundOver? then
          RoundOver(r.game, r.winner, r.played + 1)
        else r
      else
        match PlayTurn(g, i, false, turns[0])
        case TurnStuck => RoundStuck
        case TurnOver(g1, victory, _) =>
          if victory then
            RoundOver(g1, Some(g1.roster[i].value.name), 1)
          else if AllDead(g1.roster) then RoundOver(g1, None, 1)
          else
            var r := PlayRound(g1, order[1..], turns[1..]);
            assert forall j :: j !in order ==> j !in order[1..] && j != i;
            if r.RoundOver? then
              PlayComposes(g, g1, r.game);
              RoundOver(r.game, r.winner, r.played + 1)
            else r
  }

  /** The winning-turn facts of the rest of the order carry over to the whole order. */
  lemma RoundShift(h: Game, order: seq<nat>, turns: seq<seq<Action>>, g2: Game, w: string, played: nat)
    requires 1 <= |order| <= |turns|
    requires LastTurnWon(h, order[1..], turns[1..], played, g2, w)
    ensures LastTurnWon(h, order, turns, played + 1, g2, w)
  {
    assert order[1..][played - 1] == order[played];
    assert turns[1..][played - 1] == turns[played];
  }

  /** `RoundShift` stated for a round result that extends `rest` by one slot. */
  lemma RoundWonLater(h: Game, order: seq<nat>, turns: seq<seq<Action>>, r: RoundResult, rest: RoundResult)
    requires 1 <= |order| <= |turns|
    requires rest.RoundOver? && rest.winner.Some?
    requires r == RoundOver(rest.game, rest.winner, rest.played + 1)
    requires LastTurnWon(h, order[1..], turns[1..], rest.played, rest.game, rest.winner.value)
    ensures r.RoundOver? && r.winner.Some? ==> LastTurnWon(h, order, turns, r.played, r.game, r.winner.value)
  {
    RoundShift(h, order, turns, rest.game, rest.winner.value, rest.played);
  }

  /**
   The winner of a round is the player whose turn, the last one played,
   beat the demotorzone, named as that slot is at the end of the round; `h`
   is a valid state, with that slot alive, from which that turn was played.
   */
  lemma {:induction false} RoundWinnerWonItsTurn(g: Game, order: seq<nat>, turns: seq<seq<Action>>) returns (h: Game)
    requires Valid(g)
    requires forall k :: 0 <= k < |order| ==> order[k] < MaxPlayers
    requires |order| <= |turns|
    requires forall k :: 0 <= k < |turns| ==> ValidActions(turns[k])
    decreases |order|
    ensures var r := PlayRound(g, order, turns);
            r.RoundOver? && r.winner.Some? ==> LastTurnWon(h, order, turns, r.played, r.game, r.winner.value)
  {
    h := g;
    var r := PlayRound(g, order, turns);
    if |order| > 0 && r.RoundOver? && r.winner.Some? {
      var i := order[0];
      if g.roster[i].None? {
        var rest := PlayRound(g, order[1..], turns[1..]);
        assert r == RoundOver(rest.game, rest.winner, rest.played + 1);
        h := RoundWinnerWonItsTurn(g, order[1..], turns[1..]);
        RoundWonLater(h, order, turns, PlayRound(g, order, turns), rest);
      } else {
        var t := PlayTurn(g, i, false, turns[0]);
        if !t.victory {
          var rest := PlayRound(t.game, order[1..], turns[1..]);
          assert r == RoundOver(rest.game, rest.winner, rest.played + 1);
          h := RoundWinnerWonItsTurn(t.game, order[1..], turns[1..]);
          RoundWonLater(h, order, turns, PlayRound(g, order, turns), rest);
        } else {
          assert r == RoundOver(t.game, Some(t.game.roster[i].value.name), 1);
        }
      }
    }
  }

  /**
   A round of one turn: a dead slot is skipped; otherwise the round ends as
   the turn does, won exactly when the turn beat the demotorzone.
   */
  lemma RoundOfOneTurn(g: Game, i: nat, t: seq<Action>)
    requires Valid(g) && i < MaxPlayers && ValidActions(t)
    ensures g.roster[i].None? ==> PlayRound(g, [i], [t]) == RoundOver(g, None, 1)
    ensures Live(g, i) ==>
      var r, u := PlayRound(g, [i], [t]), PlayTurn(g, i, false, t);
      && (r.RoundStuck? <==> u.TurnStuck?)
      && (u.TurnOver? ==> r.RoundOver? && r.game == u.game && r.played == 1)
      && (u.TurnOver? ==> (r.winner.Some? <==> u.victory))
  {
    assert [i][1..] == [] && [t][1..] == [];
  }

  /**
   A round is its first slot's turn followed by the round over the rest of
   the order, unless that turn already won or wiped everybody out; an empty
   first slot is skipped without any test.
   */
  lemma RoundContinues(g: Game, order: seq<nat>, turns: seq<seq<Action>>)
    requires Valid(g)
    requires forall k :: 0 <= k < |order| ==> order[k] < MaxPlayers
    requires 1 <= |order| <= |turns|
    requires forall k :: 0 <= k < |turns| ==> ValidActions(turns[k])
    ensures g.roster[order[0]].None? ==>
      var r, rest := PlayRound(g, order, turns), PlayRound(g, order[1..], turns[1..]);
      && (r.RoundStuck? <==> rest.RoundStuck?)
      && (rest.RoundOver? ==> r.RoundOver? && r.game == rest.game && r.winner == rest.winner
                              && r.played == rest.played + 1)
    ensures Live(g, order[0]) ==>
      var r, a := PlayRound(g, order, turns), PlayRound(g, order[..1], turns[..1]);
      && (a.RoundStuck? ==> r.RoundStuck?)
      && (a.RoundOver? && (a.winner.Some? || AllDead(a.game.roster)) ==> r == a)
      && (a.RoundOver? && a.winner.None? && !AllDead(a.game.roster) ==>
            var rest := PlayRound(a.game, order[1..], turns[1..]);
            && (r.RoundStuck? <==> rest.RoundStuck?)
            && (rest.RoundOver? ==> r.RoundOver? && r.game == rest.game && r.winner == rest.winner
                                    && r.played == rest.played + 1))
  {
    assert order[..1] == [order[0]] && turns[..1] == [turns[0]];
    RoundOfOneTurn(g, order[0], turns[0]);
  }

  /**
   The order of one round: the live slots, shuffled. Every live slot appears
   exactly once and nothing else does.
   */
  function TurnOrder(roster: seq<Option<Player>>, d: seq<int>): (order: seq<nat>)
    requires |roster| == MaxPlayers
    requires ValidDraws(d)
    ensures multiset(order) == multiset(LiveIndices(roster))
    ensures forall x :: x in order <==> 0 <= x < |roster| && roster[x].Some?
    ensures |order| <= MaxPlayers
    ensures forall k :: 0 <= k < |order| ==> order[k] < MaxPlayers
  {
    var order := Shuffle(LiveIndices(roster), d);
    assert forall k :: 0 <= k < |order| ==> order[k] in order;
    order
  }

  /** The draws and menu answers of one round. */
  datatype Round = Round(draws: seq<int>, turns: seq<seq<Action>>)

  predicate ValidRound(x: Round) {
    ValidDraws(x.draws) && |x.turns| == MaxPlayers && forall k :: 0 <= k < |x.turns| ==> ValidActions(x.turns[k])
  }

  /**
   How a match ended: the final state and the winner's name, if any, after
   `played` rounds; or out of script.
   */
  datatype MatchResult = Finished(game: Game, winner: Option<string>, played: nat) | MatchStuck

  /**
   Rounds until the demotorzone is beaten (the winner's name) or everybody is
   dead (no winner). `MatchStuck` means the scripted rounds ran out first.
   */
  function PlayMatch(g: Game, rounds: seq<Round>): (r: MatchResult)
    requires Valid(g)
    requires forall k :: 0 <= k < |rounds| ==> ValidRound(rounds[k])
    decreases |rounds|
    ensures AllDead(g.roster) ==> r == Finished(g, None, 0)
    ensures !AllDead(g.roster) && |rounds| == 0 ==> r == MatchStuck
    ensures r.Finished? ==> Valid(r.game) && MapShrinks(g.zones, r.game.zones) && Survivors(g, r.game)
    ensures r.Finished? && r.winner.None? ==> AllDead(r.game.roster)
    ensures r.Finished? && r.winner.Some? ==> LiveName(r.game, r.winner.value)
    ensures r.Finished? ==> r.played <= |rounds|
    ensures r.Finished? && r.winner.Some? ==> 1 <= r.played
  {
    if AllDead(g.roster) then Finished(g, None, 0)
    else if |rounds| == 0 then MatchStuck
    else
      var x := rounds[0];
      assert ValidRound(x);
      match PlayRound(g, TurnOrder(g.roster, x.draws), x.turns)
      case RoundStuck => MatchStuck
      case RoundOver(g1, w, _) =>
        if w.Some? then Finished(g1, w, 1)
        else
          var r := PlayMatch(g1, rounds[1..]);
          if r.Finished? then
            PlayComposes(g, g1, r.game);
            Finished(r.game, r.winner, r.played + 1)
          else r
  }

  /**
   A match that is not over is its first round followed by the match over the
   remaining rounds, unless that round was won.
   */
  lemma MatchContinues(g: Game, rounds: seq<Round>)
    requires Valid(g)
    requires forall k :: 0 <= k < |rounds| ==> ValidRound(rounds[k])
    requires !AllDead(g.roster) && |rounds| > 0
    ensures ValidRound(rounds[0])
    ensures var x := rounds[0];
      var r, rr := PlayMatch(g, rounds), PlayRound(g, TurnOrder(g.roster, x.draws), x.turns);
      && (rr.RoundStuck? ==> r.MatchStuck?)
      && (rr.RoundOver? && rr.winner.Some? ==> r == Finished(rr.game, rr.winner, 1))
      && (rr.RoundOver? && rr.winner.None? ==>
            var rest := PlayMatch(rr.game, rounds[1..]);
            && (r.Finished? <==> rest.Finished?)
            && (rest.Finished? ==> r == Finished(rest.game, rest.winner, rest.played + 1)))
  {
    assert ValidRound(rounds[0]);
  }

  // ---------------------------------------------------------------------------
  // Sessions
  // ---------------------------------------------------------------------------

  /**
   The program's global state between menu commands: the map under
   construction, whether it was closed, the roster, the player count read at
   setup, and the winners record.
   */
  datatype Session = Session(zones: Zones, closed: bool, roster: seq<Option<Player>>, playerCount: nat, record: Record)

  predicate SessionValid(s: Session) {
    && |s.roster| == MaxPlayers
    && (forall i :: 0 <= i < |s.roster| && s.roster[i].Some? ==> WellFormed(s.roster[i].value))
    && |s.record.winners| <= 3
  }

  /**
   Game setup: the old map is discarded and reopened, new players are
   created, and the winners record carries over.
   */
  function NewSession(xs: seq<PlayerSetup.SetupInput>, record: Record): (s: Session)
    requires 1 <= |xs| <= MaxPlayers
    requires forall i :: 0 <= i < |xs| ==> PlayerSetup.ValidInput(xs[i])
    requires |record.winners| <= 3
    ensures SessionValid(s)
    ensures s.zones == [] && !s.closed && s.record == record && s.playerCount == |xs|
    ensures forall i :: 0 <= i < MaxPlayers ==> (s.roster[i].Some? <==> i < |xs|)
    ensures forall i :: 0 <= i < |xs| ==> s.roster[i].value.name == xs[i].name
    ensures PositionsWithin(s.roster, 0)
    ensures forall i :: 0 <= i < |xs| ==> s.roster[i] == Some(PlayerSetup.InitPlayers(xs, false)[i].player)
  {
    Session([], false, PlayerSetup.SetupRoster(xs), |xs|, record)
  }

  /** The match can start: closed map with a first pair and a nonzero player count. */
  predicate CanStart(s: Session) {
    s.closed && |s.zones| > 0 && s.playerCount > 0
  }

  /** Every live player goes to the Real World, on the first pair of both worlds. */
  function PlaceAtStart(roster: seq<Option<Player>>, n: nat): (r: seq<Option<Player>>)
    requires 0 < n
    requires forall i :: 0 <= i < |roster| && roster[i].Some? ==> WellFormed(roster[i].value)
    ensures |r| == |roster|
    ensures forall i :: 0 <= i < |roster| ==> (r[i].Some? <==> roster[i].Some?)
    ensures forall i :: 0 <= i < |roster| && r[i].Some? ==>
      var p, q := roster[i].value, r[i].value;
      && WellFormed(q) && Placed(q, n) && Pos(q) == 0 && q.world == Real
      && q.name == p.name && q.attack == p.attack && q.defense == p.defense
      && q.luck == p.luck && q.backpack == p.backpack
  {
    var r := seq(|roster|, i requires 0 <= i < |roster| =>
      if roster[i].Some? then Some(AtStart(roster[i].value)) else None);
    assert forall i :: 0 <= i < |roster| && r[i].Some? ==> r[i].value == AtStart(roster[i].value);
    r
  }

  function AtStart(p: Player): (q: Player)
    ensures q.world == Real && q.realPos == Some(0) && q.upsidePos == Some(0)
    ensures q.name == p.name && q.attack == p.attack && q.defense == p.defense
    ensures q.luck == p.luck && q.backpack == p.backpack
    ensures WellFormed(p) ==> WellFormed(q)
  {
    p.(world := Real, realPos := Some(0), upsidePos := Some(0))
  }

  /** The name recorded when everybody died. */
  const Nobody: string := "Nessuno"

  datatype Played = NotReady | Played(session: Session, winner: string) | Unfinished

  /**
   Playing a match from a session. It refuses to start unless the map is
   closed and non-empty and the setup player count is nonzero; otherwise the
   winner (or "Nessuno") is recorded and the session keeps the played map and
   roster.
   */
  function Play(s: Session, rounds: seq<Round>): (r: Played)
    requires SessionValid(s)
    requires forall k :: 0 <= k < |rounds| ==> ValidRound(rounds[k])
    ensures r.NotReady? <==> !CanStart(s)
    ensures r.Played? ==> SessionValid(r.session)
    ensures r.Played? ==> r.session.closed == s.closed && r.session.playerCount == s.playerCount
    ensures r.Played? ==> MapShrinks(s.zones, r.session.zones)
    ensures r.Played? ==> r.session.record == RecordWinner(s.record, r.winner)
    ensures r.Played? ==> forall j :: 0 <= j < |s.roster| && r.session.roster[j].Some? ==>
      s.roster[j].Some? && r.session.roster[j].value.name == s.roster[j].value.name
    ensures r.Played? && r.winner != Nobody ==>
      exists j :: 0 <= j < |r.session.roster| && r.session.roster[j].Some? && r.session.roster[j].value.name == r.winner
    ensures r.Played? && r.winner == Nobody ==>
      AllDead(r.session.roster) || exists j :: 0 <= j < |r.session.roster| && r.session.roster[j].Some? && r.session.roster[j].value.name == Nobody
  {
    if !CanStart(s) then NotReady
    else
      var g := Game(s.zones, PlaceAtStart(s.roster, |s.zones|));
      match PlayMatch(g, rounds)
      case MatchStuck => Unfinished
      case Finished(g2, w, _) =>
        var name := if w.Some? then w.value else Nobody;
        Played(Session(g2.zones, s.closed, g2.roster, s.playerCount, RecordWinner(s.record, name)), name)
  }

  /**
   The start test counts the players created at setup, not the live ones: a
   new match after everybody died starts, finds nobody alive, and records
   "Nessuno" without any turn being played.
   */
  lemma WipedOutSessionRecordsNobody(s: Session, rounds: seq<Round>)
    requires SessionValid(s)
    requires forall k :: 0 <= k < |rounds| ==> ValidRound(rounds[k])
    requires CanStart(s) && AllDead(s.roster)
    ensures Play(s, rounds) == Played(s.(record := RecordWinner(s.record, Nobody)), Nobody)
  {
    var placed := PlaceAtStart(s.roster, |s.zones|);
    assert placed == s.roster;
  }

  /**
   A started session plays the match from the players placed on the first
   pair, and records exactly the match's winner, or "Nessuno" when it has none.
   */
  lemma PlayRecordsMatchWinner(s: Session, rounds: seq<Round>)
    requires SessionValid(s)
    requires forall k :: 0 <= k < |rounds| ==> ValidRound(rounds[k])
    requires CanStart(s)
    ensures Valid(Game(s.zones, PlaceAtStart(s.roster, |s.zones|)))
    ensures var m, r := PlayMatch(Game(s.zones, PlaceAtStart(s.roster, |s.zones|)), rounds), Play(s, rounds);
      && (r.Unfinished? <==> m.MatchStuck?)
      && (m.Finished? ==> r.Played? && r.session.zones == m.game.zones && r.session.roster == m.game.roster)
      && (m.Finished? ==> r.winner == (if m.winner.Some? then m.winner.value else Nobody))
  {
  }
}
