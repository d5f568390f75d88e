/**
 The three-slot backpack: collecting the item of a Real World zone, the
 effects of the four items, and using (consuming) the item of a chosen slot.
 */
module Inventory {
  import opened Types

  /** Number of occupied backpack slots. */
  function Held(b: seq<Item>): nat
  {
    if |b| == 0 then 0 else (if b[0] != NoItem then 1 else 0) + Held(b[1..])
  }

  /** Overwriting one slot changes the occupied count by the difference of the two tags. */
  lemma {:induction false} HeldUpdate(b: seq<Item>, i: int, x: Item)
    requires 0 <= i < |b|
    ensures Held(b[i := x]) == Held(b) - (if b[i] != NoItem then 1 else 0) + (if x != NoItem then 1 else 0)
  {
    if i > 0 {
      assert b[i := x][1..] == b[1..][i - 1 := x];
      HeldUpdate(b[1..], i - 1, x);
    } else {
      assert b[i := x][1..] == b[1..];
    }
  }

  /** Index of the first empty slot, if any. */
  function FirstEmpty(b: seq<Item>): (r: Option<nat>)
    ensures r.None? <==> forall i :: 0 <= i < |b| ==> b[i] != NoItem
    ensures r.Some? ==> r.value < |b| && b[r.value] == NoItem
    ensures r.Some? ==> forall j :: 0 <= j < r.value ==> b[j] != NoItem
  {
    if |b| == 0 then None
    else if b[0] == NoItem then Some(0)
    else
      match FirstEmpty(b[1..])
      case None =>
        assert forall i :: 1 <= i < |b| ==> b[i] == b[1..][i - 1];
        None
      case Some(j) =>
        assert forall i :: 1 <= i < |b| ==> b[i] == b[1..][i - 1];
        Some(j + 1)
  }

  /** Outcome of a collection attempt: success flag, the player and the zone afterwards. */
  datatype Collected = Collected(ok: bool, player: Player, zone: RealZone)

  /**
   Collecting the item of the Real World zone `z` the player stands on. It
   succeeds only in the Real World, in a zone without enemy, holding an item,
   with a free slot: the item goes to the first free slot and leaves the zone.
   Any failure changes nothing.
   */
  function Collect(p: Player, z: RealZone): (r: Collected)
    ensures r.ok <==> p.world == Real && z.enemy == NoEnemy && z.item != NoItem && FirstEmpty(p.backpack).Some?
    ensures r.ok ==> r.zone == z.(item := NoItem)
    ensures r.ok ==> r.player == p.(backpack := p.backpack[FirstEmpty(p.backpack).value := z.item])
    ensures !r.ok ==> r.player == p && r.zone == z
    ensures Held(r.player.backpack) + (if r.zone.item != NoItem then 1 else 0)
         == Held(p.backpack) + (if z.item != NoItem then 1 else 0)
    ensures WellFormed(p) ==> WellFormed(r.player)
  {
    if p.world != Real then Collected(false, p, z)
    else if z.enemy != NoEnemy then Collected(false, p, z)
    else if z.item == NoItem then Collected(false, p, z)
    else
      match FirstEmpty(p.backpack)
      case None => Collected(false, p, z)
      case Some(i) =>
        HeldUpdate(p.backpack, i, z.item);
        Collected(true, p.(backpack := p.backpack[i := z.item]), z.(item := NoItem))
  }

  function Min(a: int, b: int): int {
    if a <= b then a else b
  }

  /** Outcome of an item use: whether it took effect, the player, and the enemy HP during a fight. */
  datatype Effect = Effect(applied: bool, player: Player, enemyHp: Option<int>)

  /**
   The effect of one item. `enemyHp` is the current enemy's HP inside a fight
   and None outside one. Bicicletta +2 luck, Maglietta +3 attack, Bussola +2
   defense, each capped at 20; Schitarrata deals 5 damage in a fight and gives
   +1 attack and +1 defense (capped) outside one. No item: no effect.
   */
  function ApplyEffect(p: Player, item: Item, enemyHp: Option<int>): (r: Effect)
    requires WellFormed(p)
    ensures r.applied <==> item != NoItem
    ensures WellFormed(r.player)
    ensures r.player == p.(attack := r.player.attack, defense := r.player.defense, luck := r.player.luck)
    ensures r.player.luck == (if item == Bicicletta then Min(p.luck + 2, StatMax) else p.luck)
    ensures r.player.attack == (if item == Maglietta then Min(p.attack + 3, StatMax)
                                else if item == Schitarrata && enemyHp.None? then Min(p.attack + 1, StatMax)
                                else p.attack)
    ensures r.player.defense == (if item == Bussola then Min(p.defense + 2, StatMax)
                                 else if item == Schitarrata && enemyHp.None? then Min(p.defense + 1, StatMax)
                                 else p.defense)
    ensures r.enemyHp == (if item == Schitarrata && enemyHp.Some? then Some(enemyHp.value - 5) else enemyHp)
  {
    match item
    case NoItem => Effect(false, p, enemyHp)
    case Bicicletta => Effect(true, p.(luck := Min(p.luck + 2, StatMax)), enemyHp)
    case Maglietta => Effect(true, p.(attack := Min(p.attack + 3, StatMax)), enemyHp)
    case Bussola => Effect(true, p.(defense := Min(p.defense + 2, StatMax)), enemyHp)
    case Schitarrata =>
      match enemyHp
      case Some(hp) => Effect(true, p, Some(hp - 5))
      case None => Effect(true, p.(attack := Min(p.attack + 1, StatMax), defense := Min(p.defense + 1, StatMax)), None)
  }

  /**
   Using the item of slot `slot` (the answer read in [1, BackpackSize]; not
   read at all when the backpack is empty). An empty slot or an empty
   backpack changes nothing; otherwise the effect is applied and exactly
   that slot is cleared.
   */
  function UseItem(p: Player, slot: int, enemyHp: Option<int>): (r: Effect)
    requires WellFormed(p)
    requires 1 <= slot <= BackpackSize
    ensures r.applied <==> p.backpack[slot - 1] != NoItem
    ensures WellFormed(r.player)
    ensures !r.applied ==> r.player == p && r.enemyHp == enemyHp
    ensures r.applied ==> r.player.backpack == p.backpack[slot - 1 := NoItem]
    ensures r.applied ==> Held(r.player.backpack) + 1 == Held(p.backpack)
    ensures r.applied ==>
      var e := ApplyEffect(p, p.backpack[slot - 1], enemyHp);
      r.player == e.player.(backpack := r.player.backpack) && r.enemyHp == e.enemyHp
  {
    if forall i | 0 <= i < |p.backpack| :: p.backpack[i] == NoItem then
      Effect(false, p, enemyHp)
    else
      var item := p.backpack[slot - 1];
      if item == NoItem then Effect(false, p, enemyHp)
      else
        // A held item always takes effect, so the slot is always cleared here.
        var e := ApplyEffect(p, item, enemyHp);
        HeldUpdate(p.backpack, slot - 1, NoItem);
        Effect(true, e.player.(backpack := p.backpack[slot - 1 := NoItem]), e.enemyHp)
  }
}
