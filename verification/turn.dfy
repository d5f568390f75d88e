/**
 One player's turn: the actions of the turn menu over the game state (map
 and roster), the per-turn "has moved" flag, the forced fight before a move,
 and the luck-gated switch from the Real World to the Upside Down.
 */
module Turn {
  import opened Types
  import opened ZoneMap
  import opened Inventory
  import opened Combat

  /** The state a match plays on: the map and the roster slots (None = dead or absent). */
  datatype Game = Game(zones: Zones, roster: seq<Option<Player>>)

  /** A player stands on an existing ordinal, with its two positions mirrored. */
  predicate Placed(p: Player, n: nat) {
    p.realPos.Some? && p.upsidePos.Some? && p.realPos == p.upsidePos && p.realPos.value < n
  }

  /** The ordinal index a placed player stands on (the same in both worlds). */
  function Pos(p: Player): nat
    requires p.realPos.Some?
  {
    p.realPos.value
  }

  /** Every live player is well formed and placed on the map. */
  predicate Valid(g: Game) {
    && |g.roster| == MaxPlayers
    && forall i :: 0 <= i < |g.roster| && g.roster[i].Some? ==>
         WellFormed(g.roster[i].value) && Placed(g.roster[i].value, |g.zones|)
  }

  predicate Live(g: Game, i: int) {
    0 <= i < |g.roster| && g.roster[i].Some?
  }

  /** Zone `b` is zone `a` after play: same kinds, and enemies and items can only disappear. */
  predicate Shrinks(a: Pair, b: Pair) {
    && b.realZone.kind == a.realZone.kind
    && b.upsideZone.kind == a.upsideZone.kind
    && (b.realZone.enemy == a.realZone.enemy || b.realZone.enemy == NoEnemy)
    && (b.upsideZone.enemy == a.upsideZone.enemy || b.upsideZone.enemy == NoEnemy)
    && (b.realZone.item == a.realZone.item || b.realZone.item == NoItem)
  }

  /**
   What any action of player `i` standing at ordinal index `pos` leaves alone:
   validity, the map's length, every zone but its own (which can only lose
   its enemy or item), every other roster slot, and its own name.
   */
  predicate Keeps(g: Game, i: nat, pos: nat, g2: Game)
    requires i < |g.roster| && g.roster[i].Some?
  {
    && Valid(g2)
    && |g2.zones| == |g.zones|
    && (forall k :: 0 <= k < |g.zones| ==> Shrinks(g.zones[k], g2.zones[k]))
    && (forall k :: 0 <= k < |g.zones| && k != pos ==> g2.zones[k] == g.zones[k])
    && |g2.roster| == |g.roster|
    && (forall j :: 0 <= j < |g.roster| && j != i ==> g2.roster[j] == g.roster[j])
    && (g2.roster[i].Some? ==> g2.roster[i].value.name == g.roster[i].value.name)
  }

  /** The enemy of the zone the player stands on, in the player's current world. */
  function EnemyHere(zones: Zones, p: Player): Enemy
    requires Placed(p, |zones|)
  {
    if p.world == Real then zones[Pos(p)].realZone.enemy else zones[Pos(p)].upsideZone.enemy
  }

  /** The map with the enemy tag of ordinal index `pos` in world `w` replaced. */
  function SetEnemy(zones: Zones, w: World, pos: nat, e: Enemy): (r: Zones)
    requires pos < |zones|
    ensures |r| == |zones|
    ensures forall k :: 0 <= k < |zones| && k != pos ==> r[k] == zones[k]
  {
    if w == Real then zones[pos := zones[pos].(realZone := zones[pos].realZone.(enemy := e))]
    else zones[pos := zones[pos].(upsideZone := zones[pos].upsideZone.(enemy := e))]
  }

  function WithPlayer(g: Game, i: nat, p: Player): Game
    requires i < |g.roster|
  {
    g.(roster := g.roster[i := Some(p)])
  }

  /** Outcome of a fight in the player's zone. */
  datatype Fought = Survived(game: Game, victory: bool) | Killed(game: Game) | Hung

  /**
   The fight against the enemy of the player's current zone. The zone's tag
   is updated (despawn), the player record keeps what the fight did to it,
   and a dead player's roster slot is emptied.
   */
  function FightHere(g: Game, i: nat, xs: seq<Exchange>, despawn: int): (r: Fought)
    requires Valid(g) && Live(g, i)
    requires ValidScript(xs)
    requires 1 <= despawn <= 100
    ensures !r.Hung? ==> Keeps(g, i, Pos(g.roster[i].value), r.game)
    ensures r.Killed? ==> r.game == g.(roster := g.roster[i := None])
    ensures r.Survived? ==> Live(r.game, i)
    ensures r.Survived? ==> var p, q := g.roster[i].value, r.game.roster[i].value;
      q.world == p.world && Pos(q) == Pos(p)
    ensures r.Survived? && r.victory ==> EnemyHere(g.zones, g.roster[i].value) == Demotorzone
    ensures EnemyHere(g.zones, g.roster[i].value) == NoEnemy ==> r == Survived(g, false)
    ensures var p := g.roster[i].value;
            var o := Resolve(p, EnemyHere(g.zones, p), xs, despawn);
            && (r.Hung? <==> o.Unfinished?)
            && (r.Killed? <==> o.PlayerDied?)
            && (r.Survived? ==> (r.victory <==> o.EnemyBeaten? && o.boss))
            && (o.EnemyBeaten? ==> r.Survived? && r.game.roster[i] == Some(o.player)
                                   && EnemyHere(r.game.zones, o.player) == o.remaining)
    ensures var p := g.roster[i].value;
            var o := Resolve(p, EnemyHere(g.zones, p), xs, despawn);
            o.EnemyBeaten? ==> r.game.zones == SetEnemy(g.zones, p.world, Pos(p), o.remaining)
  {
    var p := g.roster[i].value;
    var e := EnemyHere(g.zones, p);
    match Resolve(p, e, xs, despawn)
    case Unopposed => Survived(g, false)
    case PlayerDied(_) => Killed(g.(roster := g.roster[i := None]))
    case EnemyBeaten(q, remaining, boss) =>
      Survived(Game(SetEnemy(g.zones, p.world, Pos(p), remaining), g.roster[i := Some(q)]), boss)
    case Unfinished => Hung
  }

  /**
   Result of one action: the new state, the flag, whether the demotorzone was
   beaten, and the action's own success value. `Stuck` means a fight ran out
   of scripted exchanges.
   */
  datatype Acted = Acted(game: Game, moved: bool, victory: bool, success: bool) | Stuck

  /** Common promises of the moving actions. */
  predicate MoveSound(g: Game, i: nat, moved: bool, r: Acted)
    requires Valid(g) && Live(g, i)
  {
    r.Acted? ==>
      && Keeps(g, i, Pos(g.roster[i].value), r.game)
      && (moved ==> r.moved)
      && (r.victory ==> Live(r.game, i))
      && (r.victory ==> EnemyHere(g.zones, g.roster[i].value) == Demotorzone)
  }

  /**
   After the fight, `g2` differs from the fight's state `f` at most in the
   world and positions of player `i`, who is alive in both.
   */
  predicate AfterFight(f: Game, i: nat, g2: Game) {
    && Live(f, i) && Live(g2, i)
    && g2.zones == f.zones
    && |g2.roster| == |f.roster|
    && (forall j :: 0 <= j < |f.roster| && j != i ==> g2.roster[j] == f.roster[j])
    && var q := g2.roster[i].value;
       q == f.roster[i].value.(world := q.world, realPos := q.realPos, upsidePos := q.upsidePos)
  }

  /**
   The action opened with the fight against the enemy of the player's zone:
   a fight that ran out of script leaves the action stuck, a death ends it in
   the fight's state with no success, and a survivor carries on from the
   fight's state with the fight's victory flag.
   */
  predicate FoughtFirst(g: Game, i: nat, moved: bool, xs: seq<Exchange>, despawn: int, r: Acted)
    requires Valid(g) && Live(g, i)
    requires ValidScript(xs)
    requires 1 <= despawn <= 100
  {
    var f := FightHere(g, i, xs, despawn);
    && (r.Stuck? <==> f.Hung?)
    && (f.Killed? ==> r == Acted(f.game, moved, false, false))
    && (f.Survived? ==> r.Acted? && r.victory == f.victory && AfterFight(f.game, i, r.game))
  }

  /**
   Moving one ordinal along the current world (`step` is +1 for advancing,
   -1 for retreating). Refused when the flag is set; otherwise the zone's
   enemy is fought first, and the move happens, setting the flag, only if
   the player survives and the neighbour exists.
   */
  function Move(g: Game, i: nat, moved: bool, step: int, xs: seq<Exchange>, despawn: int): (r: Acted)
    requires Valid(g) && Live(g, i)
    requires step == 1 || step == -1
    requires ValidScript(xs)
    requires 1 <= despawn <= 100
    ensures MoveSound(g, i, moved, r)
    ensures moved ==> r == Acted(g, true, false, false)
    ensures !moved ==> FoughtFirst(g, i, moved, xs, despawn, r)
    ensures r.Acted? && r.success ==> !moved && r.moved && Live(r.game, i)
    ensures r.Acted? && Live(r.game, i) ==>
      var p, q := g.roster[i].value, r.game.roster[i].value;
      && q.world == p.world
      && Pos(q) == (if r.success then Pos(p) + step else Pos(p))
      && (r.moved <==> moved || r.success)
      && (!moved ==> (r.success <==> 0 <= Pos(p) + step < |g.zones|))
  {
    if moved then Acted(g, moved, false, false)
    else
      match FightHere(g, i, xs, despawn)
      case Hung => Stuck
      case Killed(g1) => Acted(g1, moved, false, false)
      case Survived(g1, victory) =>
        var q := g1.roster[i].value;
        var next := Pos(q) + step;
        if 0 <= next < |g1.zones| then
          Acted(WithPlayer(g1, i, q.(realPos := Some(next), upsidePos := Some(next))), true, victory, true)
        else
          Acted(g1, moved, victory, false)
  }

  /** Advancing to the next ordinal of the current world. */
  function Advance(g: Game, i: nat, moved: bool, xs: seq<Exchange>, despawn: int): (r: Acted)
    requires Valid(g) && Live(g, i)
    requires ValidScript(xs)
    requires 1 <= despawn <= 100
    ensures MoveSound(g, i, moved, r)
    ensures moved ==> r == Acted(g, true, false, false)
    ensures !moved ==> FoughtFirst(g, i, moved, xs, despawn, r)
    ensures r.Acted? && r.success ==> !moved && r.moved && Live(r.game, i)
    ensures r.Acted? && Live(r.game, i) ==>
      var p, q := g.roster[i].value, r.game.roster[i].value;
      && q.world == p.world
      && Pos(q) == (if r.success then Pos(p) + 1 else Pos(p))
      && (r.moved <==> moved || r.success)
      && (!moved ==> (r.success <==> Pos(p) + 1 < |g.zones|))
  {
    Move(g, i, moved, 1, xs, despawn)
  }

  /** Retreating to the previous ordinal of the current world. */
  function Retreat(g: Game, i: nat, moved: bool, xs: seq<Exchange>, despawn: int): (r: Acted)
    requires Valid(g) && Live(g, i)
    requires ValidScript(xs)
    requires 1 <= despawn <= 100
    ensures MoveSound(g, i, moved, r)
    ensures moved ==> r == Acted(g, true, false, false)
    ensures !moved ==> FoughtFirst(g, i, moved, xs, despawn, r)
    ensures r.Acted? && r.success ==> !moved && r.moved && Live(r.game, i)
    ensures r.Acted? && Live(r.game, i) ==>
      var p, q := g.roster[i].value, r.game.roster[i].value;
      && q.world == p.world
      && Pos(q) == (if r.success then Pos(p) - 1 else Pos(p))
      && (r.moved <==> moved || r.success)
      && (!moved ==> (r.success <==> Pos(p) > 0))
  {
    Move(g, i, moved, -1, xs, despawn)
  }

  /**
   Switching world. From the Real World: refused when the flag is set;
   otherwise fight first, then the d20 `roll` must be strictly below the
   player's luck; success moves to the mirrored Upside Down zone and sets the
   flag. From the Upside Down: back to the mirrored Real World zone, always,
   without a fight and without touching the flag.
   */
  function SwitchWorld(g: Game, i: nat, moved: bool, xs: seq<Exchange>, despawn: int, roll: int): (r: Acted)
    requires Valid(g) && Live(g, i)
    requires ValidScript(xs)
    requires 1 <= despawn <= 100
    requires IsD20(roll)
    ensures MoveSound(g, i, moved, r)
    ensures g.roster[i].value.world == Upside ==>
      r == Acted(WithPlayer(g, i, g.roster[i].value.(world := Real)), moved, false, true)
    ensures g.roster[i].value.world == Real && moved ==> r == Acted(g, true, false, false)
    ensures g.roster[i].value.world == Real && !moved ==> FoughtFirst(g, i, moved, xs, despawn, r)
    ensures r.Acted? && Live(r.game, i) ==>
      var p, q := g.roster[i].value, r.game.roster[i].value;
      && Pos(q) == Pos(p)
      && (r.success <==> q.world != p.world)
      && (p.world == Real ==> (r.moved <==> moved || r.success))
      && (p.world == Real && !moved ==> (r.success <==> roll < q.luck))
  {
    var p := g.roster[i].value;
    if p.world == Real then
      if moved then Acted(g, moved, false, false)
      else
        match FightHere(g, i, xs, despawn)
        case Hung => Stuck
        case Killed(g1) => Acted(g1, moved, false, false)
        case Survived(g1, victory) =>
          var q := g1.roster[i].value;
          if roll >= q.luck then Acted(g1, moved, victory, false)
          else Acted(WithPlayer(g1, i, q.(world := Upside, upsidePos := q.realPos)), true, victory, true)
    else
      Acted(WithPlayer(g, i, p.(world := Real, realPos := p.upsidePos)), moved, false, true)
  }

  /** With luck 15, a d20 of 20 fails the switch to the Upside Down and a d20 of 1 succeeds. */
  lemma SwitchNeedsRollBelowLuck(g: Game, i: nat)
    requires Valid(g) && Live(g, i)
    requires g.roster[i].value.world == Real && g.roster[i].value.luck == 15
    requires EnemyHere(g.zones, g.roster[i].value) == NoEnemy
    ensures SwitchWorld(g, i, false, [], 1, 20) == Acted(g, false, false, false)
    ensures SwitchWorld(g, i, false, [], 1, 1).success
    ensures SwitchWorld(g, i, false, [], 1, 1).game.roster[i].value.world == Upside
  {
  }

  /** Fighting the zone's enemy on purpose (does not touch the flag). */
  function Challenge(g: Game, i: nat, moved: bool, xs: seq<Exchange>, despawn: int): (r: Acted)
    requires Valid(g) && Live(g, i)
    requires ValidScript(xs)
    requires 1 <= despawn <= 100
    ensures MoveSound(g, i, moved, r)
    ensures FoughtFirst(g, i, moved, xs, despawn, r)
    ensures r.Acted? ==> r.game == FightHere(g, i, xs, despawn).game
    ensures r.Acted? ==> (r.success <==> FightHere(g, i, xs, despawn).Survived?)
    ensures r.Acted? ==> r.moved == moved
    ensures r.Acted? && Live(r.game, i) ==>
      var p, q := g.roster[i].value, r.game.roster[i].value;
      Pos(q) == Pos(p) && q.world == p.world
  {
    match FightHere(g, i, xs, despawn)
    case Hung => Stuck
    case Killed(g1) => Acted(g1, moved, false, false)
    case Survived(g1, victory) => Acted(g1, moved, victory, true)
  }

  /** Collecting the item of the player's Real World zone. */
  function PickUp(g: Game, i: nat, moved: bool): (r: Acted)
    requires Valid(g) && Live(g, i)
    ensures MoveSound(g, i, moved, r)
    ensures r.Acted? && r.moved == moved && !r.victory && Live(r.game, i)
    ensures var p, q := g.roster[i].value, r.game.roster[i].value;
      && Pos(q) == Pos(p) && q.world == p.world
      && r.success == Collect(p, g.zones[Pos(p)].realZone).ok
      && (r.success ==> Held(q.backpack) == Held(p.backpack) + 1)
    ensures var p := g.roster[i].value;
            var c := Collect(p, g.zones[Pos(p)].realZone);
            r.Acted? && r.game.roster[i] == Some(c.player) && r.game.zones[Pos(p)].realZone == c.zone
    ensures var p := g.roster[i].value;
            r.game.zones == g.zones[Pos(p) := g.zones[Pos(p)].(realZone := r.game.zones[Pos(p)].realZone)]
  {
    var p := g.roster[i].value;
    var pos := Pos(p);
    var c := Collect(p, g.zones[pos].realZone);
    Acted(Game(g.zones[pos := g.zones[pos].(realZone := c.zone)], g.roster[i := Some(c.player)]), moved, false, c.ok)
  }

  /** Using a backpack item outside a fight (Schitarrata then boosts attack and defense). */
  function UseOutside(g: Game, i: nat, moved: bool, slot: int): (r: Acted)
    requires Valid(g) && Live(g, i)
    requires 1 <= slot <= BackpackSize
    ensures MoveSound(g, i, moved, r)
    ensures r.Acted? && r.moved == moved && !r.victory && Live(r.game, i)
    ensures r.game.zones == g.zones
    ensures var p, q := g.roster[i].value, r.game.roster[i].value;
      && Pos(q) == Pos(p) && q.world == p.world
      && (r.success <==> p.backpack[slot - 1] != NoItem)
    ensures r.Acted? && r.game.roster[i] == Some(UseItem(g.roster[i].value, slot, None).player)
  {
    var p := g.roster[i].value;
    var e := UseItem(p, slot, None);
    Acted(WithPlayer(g, i, e.player), moved, false, e.applied)
  }

  /** The entries of the turn menu, each with the draws and answers it consumes. */
  datatype Action =
    | GoForward(fight: seq<Exchange>, despawn: int)
    | GoBack(fight: seq<Exchange>, despawn: int)
    | ChangeWorld(fight: seq<Exchange>, despawn: int, roll: int)
    | Provoke(fight: seq<Exchange>, despawn: int)
    | ShowPlayer
    | ShowZone
    | PickItem
    | UseSlot(slot: int)
    | EndTurn

  predicate ValidAction(a: Action) {
    match a
    case GoForward(xs, d) => ValidScript(xs) && 1 <= d <= 100
    case GoBack(xs, d) => ValidScript(xs) && 1 <= d <= 100
    case ChangeWorld(xs, d, roll) => ValidScript(xs) && 1 <= d <= 100 && IsD20(roll)
    case Provoke(xs, d) => ValidScript(xs) && 1 <= d <= 100
    case ShowPlayer => true
    case ShowZone => true
    case PickItem => true
    case UseSlot(slot) => 1 <= slot <= BackpackSize
    case EndTurn => true
  }

  predicate ValidActions(acts: seq<Action>) {
    forall k :: 0 <= k < |acts| ==> ValidAction(acts[k])
  }

  /** The entries that open with a fight against the zone's enemy. */
  predicate Fights(a: Action) {
    a.GoForward? || a.GoBack? || a.ChangeWorld? || a.Provoke?
  }

  /** One menu entry; the two display entries and "end turn" change nothing. */
  function Perform(g: Game, i: nat, moved: bool, a: Action): (r: Acted)
    requires Valid(g) && Live(g, i)
    requires ValidAction(a)
    ensures MoveSound(g, i, moved, r)
    ensures r.Acted? && r.victory ==> Fights(a)
    ensures r.Stuck? ==> Fights(a)
    ensures r.Acted? && Live(r.game, i) ==>
      var p, q := g.roster[i].value, r.game.roster[i].value;
      && (moved ==> Pos(q) == Pos(p))
      && (r.moved ==> moved || Pos(q) - Pos(p) in {-1, 0, 1})
      && (!r.moved ==> Pos(q) == Pos(p))
      && (moved ==> r.moved)
  {
    match a
    case GoForward(xs, d) => Advance(g, i, moved, xs, d)
    case GoBack(xs, d) => Retreat(g, i, moved, xs, d)
    case ChangeWorld(xs, d, roll) => SwitchWorld(g, i, moved, xs, d, roll)
    case Provoke(xs, d) => Challenge(g, i, moved, xs, d)
    case ShowPlayer => Acted(g, moved, false, true)
    case ShowZone => Acted(g, moved, false, true)
    case PickItem => PickUp(g, i, moved)
    case UseSlot(slot) => UseOutside(g, i, moved, slot)
    case EndTurn => Acted(g, moved, false, true)
  }

  /** The menu dispatch: each entry runs its own action, and the three display entries change nothing. */
  lemma PerformDispatches(g: Game, i: nat, moved: bool, a: Action)
    requires Valid(g) && Live(g, i)
    requires ValidAction(a)
    ensures var r := Perform(g, i, moved, a);
      && (a.GoForward? ==> r == Advance(g, i, moved, a.fight, a.despawn))
      && (a.GoBack? ==> r == Retreat(g, i, moved, a.fight, a.despawn))
      && (a.ChangeWorld? ==> r == SwitchWorld(g, i, moved, a.fight, a.despawn, a.roll))
      && (a.Provoke? ==> r == Challenge(g, i, moved, a.fight, a.despawn))
      && (a.PickItem? ==> r == PickUp(g, i, moved))
      && (a.UseSlot? ==> r == UseOutside(g, i, moved, a.slot))
      && (a.ShowPlayer? || a.ShowZone? || a.EndTurn? ==> r == Acted(g, moved, false, true))
  {
  }

  /** Zones only ever lose enemies and items, so two rounds of play compose. */
  lemma ShrinksTransitive(a: Zones, b: Zones, c: Zones)
    requires |a| == |b| == |c|
    requires forall k :: 0 <= k < |a| ==> Shrinks(a[k], b[k])
    requires forall k :: 0 <= k < |a| ==> Shrinks(b[k], c[k])
    ensures forall k :: 0 <= k < |a| ==> Shrinks(a[k], c[k])
  {
  }

  /**
   How a turn ended: normally, with or without beating the demotorzone, after
   reading the first `used` menu answers; or out of script.
   */
  datatype TurnResult = TurnOver(game: Game, victory: bool, used: nat) | TurnStuck

  /**
   From state `h`, the last of the first `used` answers of `acts`, given by
   player `i`, beat the demotorzone and led to `g2`.
   */
  predicate LastActionWon(h: Game, i: nat, moved: bool, acts: seq<Action>, used: nat, g2: Game) {
    && Valid(h) && Live(h, i) && 1 <= used <= |acts| && ValidAction(acts[used - 1])
    && var s := Perform(h, i, moved, acts[used - 1]);
       s.Acted? && s.victory && s.game == g2
  }

  /**
   A whole turn over the scripted menu answers `acts`, starting with the flag
   `moved`. It ends on "end turn", on the player's death, or as soon as the
   demotorzone is beaten, and reads no answer after that.
   */
  function PlayTurn(g: Game, i: nat, moved: bool, acts: seq<Action>): (r: TurnResult)
    requires Valid(g) && Live(g, i)
    requires ValidActions(acts)
    decreases |acts|
    ensures r.TurnOver? ==> Valid(r.game) && |r.game.zones| == |g.zones| && |r.game.roster| == |g.roster|
    ensures r.TurnOver? ==> forall j :: 0 <= j < |g.roster| && j != i ==> r.game.roster[j] == g.roster[j]
    ensures r.TurnOver? ==> forall k :: 0 <= k < |g.zones| ==> Shrinks(g.zones[k], r.game.zones[k])
    ensures r.TurnOver? && r.victory ==> Live(r.game, i)
    ensures r.TurnOver? && Live(r.game, i) ==>
      var p, q := g.roster[i].value, r.game.roster[i].value;
      && q.name == p.name
      && (moved ==> Pos(q) == Pos(p))
      && (!moved ==> Pos(q) - Pos(p) in {-1, 0, 1})
    ensures r.TurnOver? ==> 1 <= r.used <= |acts|
  {
    if |acts| == 0 then TurnStuck
    else
      var s := Perform(g, i, moved, acts[0]);
      match s
      case Stuck => TurnStuck
      case Acted(g1, moved1, victory, _) =>
        if acts[0].EndTurn? || victory || !Live(g1, i) then
          TurnOver(g1, victory, 1)
        else
          match PlayTurn(g1, i, moved1, acts[1..])
          case TurnStuck => TurnStuck
          case TurnOver(g2, v, u) =>
            ShrinksTransitive(g.zones, g1.zones, g2.zones);
            TurnOver(g2, v, u + 1)
  }

  /**
   A turn is its first answer followed, unless that answer ended it, by the
   turn over the remaining answers from the state and flag it left behind.
   */
  lemma TurnContinues(g: Game, i: nat, moved: bool, acts: seq<Action>)
    requires Valid(g) && Live(g, i)
    requires ValidActions(acts)
    requires |acts| > 0
    ensures var r, s := PlayTurn(g, i, moved, acts), Perform(g, i, moved, acts[0]);
      && (s.Stuck? ==> r == TurnStuck)
      && (s.Acted? && (acts[0].EndTurn? || s.victory || !Live(s.game, i)) ==>
            r == TurnOver(s.game, s.victory, 1))
      && (s.Acted? && !(acts[0].EndTurn? || s.victory || !Live(s.game, i)) ==>
            var rest := PlayTurn(s.game, i, s.moved, acts[1..]);
            && (r.TurnStuck? <==> rest.TurnStuck?)
            && (rest.TurnOver? ==> r == TurnOver(rest.game, rest.victory, rest.used + 1)))
  {
  }

  /** The answer at `used` in the tail is the answer at `used + 1` in the whole script. */
  lemma ActionShift(h: Game, i: nat, m: bool, acts: seq<Action>, used: nat, g2: Game)
    requires |acts| > 0
    requires LastActionWon(h, i, m, acts[1..], used, g2)
    ensures LastActionWon(h, i, m, acts, used + 1, g2)
  {
    assert acts[1..][used - 1] == acts[used];
  }

  /** A turn whose first answer does not end it is stuck when the rest of the turn is. */
  lemma StuckAfterFirst(g: Game, i: nat, moved: bool, acts: seq<Action>)
    requires Valid(g) && Live(g, i)
    requires ValidActions(acts)
    requires |acts| > 0
    requires var s := Perform(g, i, moved, acts[0]);
      && s.Acted? && !(acts[0].EndTurn? || s.victory || !Live(s.game, i))
      && PlayTurn(s.game, i, s.moved, acts[1..]) == TurnStuck
    ensures PlayTurn(g, i, moved, acts) == TurnStuck
  {
    TurnContinues(g, i, moved, acts);
  }

  /**
   A turn won by the player ends on the answer that beat the demotorzone,
   given from a valid state `h`, with the player alive, and the flag `m`.
   */
  lemma {:induction false} TurnWonByLastAction(g: Game, i: nat, moved: bool, acts: seq<Action>) returns (h: Game, m: bool)
    requires Valid(g) && Live(g, i)
    requires ValidActions(acts)
    decreases |acts|
    ensures var r := PlayTurn(g, i, moved, acts);
            r.TurnOver? && r.victory ==> LastActionWon(h, i, m, acts, r.used, r.game)
  {
    h, m := g, moved;
    var r := PlayTurn(g, i, moved, acts);
    if |acts| > 0 && r.TurnOver? && r.victory {
      TurnContinues(g, i, moved, acts);
      var s := Perform(g, i, moved, acts[0]);
      if acts[0].EndTurn? || s.victory || !Live(s.game, i) {
        assert r == TurnOver(s.game, s.victory, 1);
      } else {
        var rest := PlayTurn(s.game, i, s.moved, acts[1..]);
        assert r == TurnOver(rest.game, rest.victory, rest.used + 1);
        h, m := TurnWonByLastAction(s.game, i, s.moved, acts[1..]);
        ActionShift(h, i, m, acts, rest.used, rest.game);
      }
    }
  }

  /**
   A turn stops at its first ending answer: the last answer it reads passed,
   beat the demotorzone or killed the player, and no answer before it passed.
   */
  lemma {:induction false} TurnEndsAtFirstEnd(g: Game, i: nat, moved: bool, acts: seq<Action>)
    requires Valid(g) && Live(g, i)
    requires ValidActions(acts)
    decreases |acts|
    ensures var r := PlayTurn(g, i, moved, acts);
            r.TurnOver? ==>
              && (acts[r.used - 1].EndTurn? || r.victory || !Live(r.game, i))
              && forall k :: 0 <= k < r.used - 1 ==> !acts[k].EndTurn?
  {
    var r := PlayTurn(g, i, moved, acts);
    if |acts| > 0 && r.TurnOver? {
      TurnContinues(g, i, moved, acts);
      var s := Perform(g, i, moved, acts[0]);
      if !(acts[0].EndTurn? || s.victory || !Live(s.game, i)) {
        var rest := PlayTurn(s.game, i, s.moved, acts[1..]);
        assert r == TurnOver(rest.game, rest.victory, rest.used + 1);
        TurnEndsAtFirstEnd(s.game, i, s.moved, acts[1..]);
        var u := r.used - 1;
        assert acts[1..][u - 1] == acts[u];
        forall k | 1 <= k < r.used - 1 ensures !acts[k].EndTurn? {
          assert acts[1..][k - 1] == acts[k];
        }
      }
    }
  }

  /**
   No prefix shorter than the answers a turn reads ends the turn: it did not
   stop at an earlier pass, victory or death.
   */
  lemma {:induction false} TurnUnfinishedBeforeItsEnd(g: Game, i: nat, moved: bool, acts: seq<Action>, k: nat)
    requires Valid(g) && Live(g, i)
    requires ValidActions(acts)
    requires PlayTurn(g, i, moved, acts).TurnOver? && k < PlayTurn(g, i, moved, acts).used
    decreases |acts|
    ensures ValidActions(acts[..k])
    ensures PlayTurn(g, i, moved, acts[..k]) == TurnStuck
  {
    if k > 0 {
      var s := Perform(g, i, moved, acts[0]);
      var pre := acts[..k];
      assert pre[0] == acts[0];
      assert pre[1..] == acts[1..][..k - 1];
      TurnContinues(g, i, moved, acts);
      TurnUnfinishedBeforeItsEnd(s.game, i, s.moved, acts[1..], k - 1);
      StuckAfterFirst(g, i, moved, pre);
    }
  }

  /** Answers after the one that ends a turn are never read: any script agreeing on the answers read plays the same turn. */
  lemma {:induction false} TurnIgnoresLaterAnswers(g: Game, i: nat, moved: bool, acts: seq<Action>, other: seq<Action>)
    requires Valid(g) && Live(g, i)
    requires ValidActions(acts) && ValidActions(other)
    requires PlayTurn(g, i, moved, acts).TurnOver?
    requires PlayTurn(g, i, moved, acts).used <= |other|
    requires forall k :: 0 <= k < PlayTurn(g, i, moved, acts).used ==> other[k] == acts[k]
    decreases |acts|
    ensures PlayTurn(g, i, moved, other) == PlayTurn(g, i, moved, acts)
  {
    var r := PlayTurn(g, i, moved, acts);
    assert other[0] == acts[0];
    var s := Perform(g, i, moved, acts[0]);
    if !(acts[0].EndTurn? || s.victory || !Live(s.game, i)) {
      forall k | 0 <= k < r.used - 1 ensures other[1..][k] == acts[1..][k] {
        assert other[k + 1] == acts[k + 1];
      }
      TurnIgnoresLaterAnswers(s.game, i, s.moved, acts[1..], other[1..]);
    }
  }
}
