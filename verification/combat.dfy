/**
 One fight between a player and the enemy of a zone: the fixed enemy stat
 table, the damage formulas, the player-first exchange loop, and the outcome
 (death, victory over the demotorzone, 50% despawn of a beaten enemy).
 */
module Combat {
  import opened Types
  import opened Inventory

  /** Base statistics of an enemy kind. */
  datatype EnemyStats = EnemyStats(hp: int, attack: int, defense: int)

  /** The fixed stat table; "no enemy" has all zeros. */
  function StatsOf(e: Enemy): (s: EnemyStats)
    ensures e == NoEnemy <==> s.hp == 0
    ensures s.hp >= 0 && s.attack >= 0 && s.defense >= 0
  {
    match e
    case Billi => EnemyStats(12, 8, 8)
    case Democane => EnemyStats(16, 10, 10)
    case Demotorzone => EnemyStats(24, 14, 12)
    case NoEnemy => EnemyStats(0, 0, 0)
  }

  /** The table is ordered: each enemy is strictly stronger than the previous one in every statistic. */
  lemma StatsOrdered()
    ensures StatsOf(Billi).hp < StatsOf(Democane).hp < StatsOf(Demotorzone).hp
    ensures StatsOf(Billi).attack < StatsOf(Democane).attack < StatsOf(Demotorzone).attack
    ensures StatsOf(Billi).defense < StatsOf(Democane).defense < StatsOf(Demotorzone).defense
  {
  }

  /**
   Damage of a player hit: 2 + attack / 4, plus 2 when the luck roll does not
   exceed the player's luck. Attack is positive, so the truncating division of
   the source and Dafny's division agree.
   */
  function PlayerDamage(attack: int, luckRoll: int, luck: int): (d: int)
    requires InStatRange(attack)
    ensures 2 <= d <= 9
    ensures luckRoll <= luck ==> d == 4 + attack / 4
    ensures luckRoll > luck ==> d == 2 + attack / 4
  {
    2 + attack / 4 + (if luckRoll <= luck then 2 else 0)
  }

  /**
   Damage of an enemy hit: 2 + attack / 5, reduced by 2 when the luck roll
   does not exceed the player's luck, but never below 1.
   */
  function EnemyDamage(attack: int, luckRoll: int, luck: int): (d: int)
    requires attack >= 0
    ensures d >= 1
    ensures d <= 2 + attack / 5
    ensures luckRoll > luck ==> d == 2 + attack / 5
    ensures luckRoll <= luck && attack >= 5 ==> d == attack / 5
    ensures luckRoll <= luck && attack < 5 ==> d == 1
  {
    var base := 2 + attack / 5;
    if luckRoll <= luck then (if base - 2 < 1 then 1 else base - 2) else base
  }

  /** Damage each enemy of the table can deal in one hit. */
  lemma EnemyDamageRange(e: Enemy, luckRoll: int, luck: int)
    requires e != NoEnemy
    ensures 1 <= EnemyDamage(StatsOf(e).attack, luckRoll, luck) <= 4
  {
  }

  /** The player's action of one exchange: a strike with its three d20 draws, or using a slot. */
  datatype Move = Strike(attackRoll: int, parryRoll: int, luckRoll: int) | Use(slot: int)

  /**
   One exchange: the player's move, then the draws of the enemy's reply
   (its d20, the player's d20, the luck d20). A luck draw is only consumed
   after a hit; here it is supplied either way and ignored after a miss.
   */
  datatype Exchange = Exchange(move: Move, enemyRoll: int, guardRoll: int, luckRoll: int)

  predicate IsD20(x: int) {
    1 <= x <= 20
  }

  predicate ValidExchange(x: Exchange) {
    && (match x.move
        case Strike(a, b, c) => IsD20(a) && IsD20(b) && IsD20(c)
        case Use(slot) => 1 <= slot <= BackpackSize)
    && IsD20(x.enemyRoll) && IsD20(x.guardRoll) && IsD20(x.luckRoll)
  }

  predicate ValidScript(xs: seq<Exchange>) {
    forall i :: 0 <= i < |xs| ==> ValidExchange(xs[i])
  }

  /** The state of a fight: the player record, the player's HP and the enemy's HP. */
  datatype Fight = Fight(player: Player, hp: int, enemyHp: int)

  /** One side is down: the loop condition of the fight fails. */
  predicate Over(f: Fight) {
    f.hp <= 0 || f.enemyHp <= 0
  }

  /** The part of a player a fight never touches: name, world and positions. */
  predicate SameIdentity(a: Player, b: Player) {
    a.name == b.name && a.world == b.world && a.realPos == b.realPos && a.upsidePos == b.upsidePos
  }

  /** The opening state: player HP 10 + defense, enemy HP from the table. */
  function Start(p: Player, e: Enemy): (f: Fight)
    requires WellFormed(p)
    requires e != NoEnemy
    ensures f.player == p
    ensures f.hp == 10 + p.defense && f.enemyHp == StatsOf(e).hp
    ensures 11 <= f.hp <= 30
    ensures f.enemyHp >= 12
    ensures !Over(f)
  {
    Fight(p, 10 + p.defense, StatsOf(e).hp)
  }

  /**
   The player's half of an exchange. A strike hits when d20 + attack is at
   least d20 + enemy defense; an item use goes through the backpack with the
   enemy's HP exposed to the Schitarrata.
   */
  function PlayerActs(f: Fight, s: EnemyStats, m: Move): (r: Fight)
    requires WellFormed(f.player)
    requires m.Use? ==> 1 <= m.slot <= BackpackSize
    ensures WellFormed(r.player) && SameIdentity(r.player, f.player)
    ensures r.hp == f.hp
    ensures r.enemyHp <= f.enemyHp
    ensures m.Strike? ==> r.player == f.player
    ensures m.Strike? ==> (r.enemyHp < f.enemyHp <==> m.attackRoll + f.player.attack >= m.parryRoll + s.defense)
    ensures m.Strike? && r.enemyHp < f.enemyHp ==>
      f.enemyHp - r.enemyHp == PlayerDamage(f.player.attack, m.luckRoll, f.player.luck)
    ensures m.Use? ==> r.player == UseItem(f.player, m.slot, Some(f.enemyHp)).player
    ensures m.Use? ==> r.enemyHp == UseItem(f.player, m.slot, Some(f.enemyHp)).enemyHp.value
  {
    match m
    case Strike(a, b, c) =>
      if a + f.player.attack >= b + s.defense then
        f.(enemyHp := f.enemyHp - PlayerDamage(f.player.attack, c, f.player.luck))
      else
        f
    case Use(slot) =>
      var e := UseItem(f.player, slot, Some(f.enemyHp));
      f.(player := e.player, enemyHp := e.enemyHp.value)
  }

  /** The enemy's half of an exchange: it hits when strictly above the player's roll. */
  function EnemyActs(f: Fight, s: EnemyStats, enemyRoll: int, guardRoll: int, luckRoll: int): (r: Fight)
    requires s.attack >= 0
    ensures r.player == f.player && r.enemyHp == f.enemyHp
    ensures r.hp < f.hp <==> enemyRoll + s.attack > guardRoll + f.player.defense
    ensures r.hp < f.hp ==> f.hp - r.hp == EnemyDamage(s.attack, luckRoll, f.player.luck)
    ensures r.hp <= f.hp
  {
    if enemyRoll + s.attack > guardRoll + f.player.defense then
      f.(hp := f.hp - EnemyDamage(s.attack, luckRoll, f.player.luck))
    else
      f
  }

  /** A full exchange: the enemy replies only if it still has HP after the player's move. */
  function Step(f: Fight, s: EnemyStats, x: Exchange): (r: Fight)
    requires WellFormed(f.player)
    requires s.attack >= 0
    requires ValidExchange(x)
    ensures WellFormed(r.player) && SameIdentity(r.player, f.player)
    ensures r.hp <= f.hp && r.enemyHp <= f.enemyHp
    ensures r.enemyHp <= 0 ==> r.hp == f.hp
    ensures f.hp > 0 ==> !(r.hp <= 0 && r.enemyHp <= 0)
  {
    var mid := PlayerActs(f, s, x.move);
    if mid.enemyHp <= 0 then mid
    else EnemyActs(mid, s, x.enemyRoll, x.guardRoll, x.luckRoll)
  }

  /** The exchange is the player's move, then the enemy's reply exactly when the enemy still has HP. */
  lemma StepReplies(f: Fight, s: EnemyStats, x: Exchange)
    requires WellFormed(f.player)
    requires s.attack >= 0
    requires ValidExchange(x)
    ensures var mid := PlayerActs(f, s, x.move);
      && (mid.enemyHp > 0 ==> Step(f, s, x) == EnemyActs(mid, s, x.enemyRoll, x.guardRoll, x.luckRoll))
      && (mid.enemyHp <= 0 ==> Step(f, s, x) == mid)
  {
  }

  /**
   The exchange loop over the scripted exchanges `xs`: it stops as soon as one
   side is down, or when the script is exhausted. Returns the final state and
   the number of exchanges played.
   */
  function Run(f: Fight, s: EnemyStats, xs: seq<Exchange>): (r: (Fight, nat))
    requires WellFormed(f.player)
    requires s.attack >= 0
    requires ValidScript(xs)
    decreases |xs|
    ensures r.1 <= |xs|
    ensures Over(r.0) || r.1 == |xs|
    ensures Over(f) ==> r == (f, 0)
    ensures WellFormed(r.0.player) && SameIdentity(r.0.player, f.player)
    ensures r.0.hp <= f.hp && r.0.enemyHp <= f.enemyHp
    ensures !Over(f) ==> !(r.0.hp <= 0 && r.0.enemyHp <= 0)
  {
    if Over(f) || |xs| == 0 then (f, 0)
    else
      var next := Run(Step(f, s, xs[0]), s, xs[1..]);
      (next.0, next.1 + 1)
  }

  lemma ValidScriptConcat(xs: seq<Exchange>, ys: seq<Exchange>)
    requires ValidScript(xs) && ValidScript(ys)
    ensures ValidScript(xs + ys)
  {
    assert forall i :: 0 <= i < |xs + ys| ==> (xs + ys)[i] == if i < |xs| then xs[i] else ys[i - |xs|];
  }

  /** Once one side is down, further scripted exchanges are never played. */
  lemma {:induction false} RunStopsWhenOver(f: Fight, s: EnemyStats, xs: seq<Exchange>, ys: seq<Exchange>)
    requires WellFormed(f.player)
    requires s.attack >= 0
    requires ValidScript(xs) && ValidScript(ys)
    requires Over(Run(f, s, xs).0)
    decreases |xs|
    ensures ValidScript(xs + ys)
    ensures Run(f, s, xs + ys) == Run(f, s, xs)
  {
    ValidScriptConcat(xs, ys);
    if !Over(f) && |xs| > 0 {
      assert (xs + ys)[0] == xs[0];
      assert (xs + ys)[1..] == xs[1..] + ys;
      RunStopsWhenOver(Step(f, s, xs[0]), s, xs[1..], ys);
    }
  }

  /** One turn of the loop while both sides stand: the first exchange, then the rest. */
  lemma RunCons(f: Fight, s: EnemyStats, x: Exchange, xs: seq<Exchange>)
    requires WellFormed(f.player)
    requires s.attack >= 0
    requires ValidExchange(x) && ValidScript(xs)
    requires !Over(f)
    ensures ValidScript([x] + xs)
    ensures var next := Run(Step(f, s, x), s, xs);
            Run(f, s, [x] + xs) == (next.0, next.1 + 1)
  {
    var zs := [x] + xs;
    assert zs[0] == x;
    assert zs[1..] == xs;
  }

  /** While both sides stand, the loop simply continues with the next exchanges. */
  lemma {:induction false} RunContinues(f: Fight, s: EnemyStats, xs: seq<Exchange>, ys: seq<Exchange>)
    requires WellFormed(f.player)
    requires s.attack >= 0
    requires ValidScript(xs) && ValidScript(ys)
    requires !Over(Run(f, s, xs).0)
    decreases |xs|
    ensures ValidScript(xs + ys)
    ensures var mid := Run(f, s, xs);
            var rest := Run(mid.0, s, ys);
            Run(f, s, xs + ys) == (rest.0, |xs| + rest.1)
  {
    ValidScriptConcat(xs, ys);
    if |xs| == 0 {
      assert xs + ys == ys;
    } else {
      assert (xs + ys)[0] == xs[0];
      assert (xs + ys)[1..] == xs[1..] + ys;
      ValidScriptConcat(xs[1..], ys);
      RunContinues(Step(f, s, xs[0]), s, xs[1..], ys);
    }
  }

  /** Result of a fight in a zone. */
  datatype Outcome =
    | Unopposed                                                  // no enemy in the zone
    | PlayerDied(player: Player)                                 // the player's HP reached 0
    | EnemyBeaten(player: Player, remaining: Enemy, boss: bool)  // the enemy's HP reached 0
    | Unfinished                                                 // the scripted exchanges ran out

  /**
   The fight against enemy `e` with the scripted exchanges `xs` and the d100
   `despawn` drawn after a victory. A beaten enemy leaves the zone when the
   d100 is at most 50 and stays otherwise; beating the demotorzone is the
   match-winning condition.
   */
  function Resolve(p: Player, e: Enemy, xs: seq<Exchange>, despawn: int): (r: Outcome)
    requires WellFormed(p)
    requires ValidScript(xs)
    requires 1 <= despawn <= 100
    ensures r.Unopposed? <==> e == NoEnemy
    ensures (r.PlayerDied? || r.EnemyBeaten?) ==> WellFormed(r.player) && SameIdentity(r.player, p)
    ensures r.EnemyBeaten? ==> (r.boss <==> e == Demotorzone)
    ensures r.EnemyBeaten? ==> (r.remaining == NoEnemy <==> despawn <= 50)
    ensures r.EnemyBeaten? && despawn > 50 ==> r.remaining == e
    ensures e != NoEnemy ==>
      var end := Run(Start(p, e), StatsOf(e), xs).0;
      && (r.PlayerDied? <==> end.hp <= 0)
      && (r.EnemyBeaten? <==> end.enemyHp <= 0)
      && (r.Unfinished? <==> !Over(end))
      && ((r.PlayerDied? || r.EnemyBeaten?) ==> r.player == end.player)
  {
    if e == NoEnemy then Unopposed
    else
      var end := Run(Start(p, e), StatsOf(e), xs).0;
      if end.hp <= 0 then PlayerDied(end.player)
      else if end.enemyHp <= 0 then
        EnemyBeaten(end.player, if despawn <= 50 then NoEnemy else e, e == Demotorzone)
      else Unfinished
  }

  /**
   A billi (12 HP) facing a player with attack 8 and no luck bonus: each hit
   deals 4, the enemy's replies miss, and it takes three hits; the third one
   ends the fight with no reply.
   */
  lemma BilliFallsToThreeHits(p: Player)
    requires WellFormed(p)
    requires p.attack == 8 && p.luck == 1
    ensures var hit := Exchange(Strike(20, 1, 20), 1, 20, 20);
            var f := Start(p, Billi);
            && Step(f, StatsOf(Billi), hit).enemyHp == 8
            && Step(Step(f, StatsOf(Billi), hit), StatsOf(Billi), hit).enemyHp == 4
            && Run(f, StatsOf(Billi), [hit, hit, hit, hit]) == (Fight(p, f.hp, 0), 3)
            && Resolve(p, Billi, [hit, hit, hit], 51) == EnemyBeaten(p, Billi, false)
  {
    var hit := Exchange(Strike(20, 1, 20), 1, 20, 20);
    var s := StatsOf(Billi);
    var f := Start(p, Billi);
    var f1 := Step(f, s, hit);
    var f2 := Step(f1, s, hit);
    var f3 := Step(f2, s, hit);
    assert f1 == Fight(p, f.hp, 8);
    assert f2 == Fight(p, f.hp, 4);
    assert f3 == Fight(p, f.hp, 0);
    assert [hit, hit, hit, hit][1..] == [hit, hit, hit];
    assert [hit, hit, hit][1..] == [hit, hit];
    assert [hit, hit][1..] == [hit];
    assert Run(f3, s, [hit]) == (f3, 0);
    assert Run(f2, s, [hit, hit]) == (f3, 1);
    assert Run(f1, s, [hit, hit, hit]) == (f3, 2);
    assert Run(f1, s, [hit, hit]) == (f3, 2);
  }
}
