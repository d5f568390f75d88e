/**
 Random draws and bounded menu reads. Every `randint(lo, hi)` of the game is a
 parameter `d` with `lo <= d <= hi`; every bounded integer read is a parameter
 within the range the reader enforces. The functions here turn such a value
 into a tag.
 */
module Chance {
  import opened Types

  /** Zone kind drawn uniformly from the ten kinds (draw in [0, 9]). */
  function RandomKind(d: int): (k: ZoneKind)
    requires 0 <= d <= 9
    ensures KindOrdinal(k) == d
  {
    KindOf(d)
  }

  /** Real World enemy from a d100: 1..40 none, 41..70 democane, 71..100 billi. */
  function RandomRealEnemy(r: int): (e: Enemy)
    requires 1 <= r <= 100
    ensures e != Demotorzone
    ensures e == NoEnemy <==> r <= 40
    ensures e == Democane <==> 40 < r <= 70
    ensures e == Billi <==> 70 < r
  {
    if r <= 40 then NoEnemy
    else if r <= 70 then Democane
    else Billi
  }

  /** Upside Down enemy from a d100: 1..45 none, 46..80 democane, 81..100 demotorzone. */
  function RandomUpsideEnemy(r: int): (e: Enemy)
    requires 1 <= r <= 100
    ensures e != Billi
    ensures e == NoEnemy <==> r <= 45
    ensures e == Democane <==> 45 < r <= 80
    ensures e == Demotorzone <==> 80 < r
  {
    if r <= 45 then NoEnemy
    else if r <= 80 then Democane
    else Demotorzone
  }

  /**
   Real World item from a d100 `r` and, when `r` > 40, a second draw `k` in
   [1, 4] naming the item kind (the second draw is ignored otherwise).
   */
  function RandomItem(r: int, k: int): (i: Item)
    requires 1 <= r <= 100
    requires 1 <= k <= 4
    ensures i == NoItem <==> r <= 40
    ensures i != NoItem ==> ItemOrdinal(i) == k
  {
    if r <= 40 then NoItem else ItemOf(k)
  }

  /** Menu read for a Real World enemy: 0 none, 1 billi, 2 democane. */
  function ChooseRealEnemy(c: int): (e: Enemy)
    requires 0 <= c <= 2
    ensures e != Demotorzone
    ensures EnemyOrdinal(e) == c
  {
    EnemyOf(c)
  }

  /**
   The answers the Upside Down enemy menu accepts: the read re-prompts on 1,
   and offers 3 (demotorzone) only while the Upside Down has no demotorzone.
   */
  predicate UpsideChoiceAllowed(bossAvailable: bool, c: int) {
    c == 0 || c == 2 || (bossAvailable && c == 3)
  }

  /** Menu read for an Upside Down enemy: 0 none, 2 democane, 3 demotorzone. */
  function ChooseUpsideEnemy(bossAvailable: bool, c: int): (e: Enemy)
    requires UpsideChoiceAllowed(bossAvailable, c)
    ensures e != Billi
    ensures e == Demotorzone ==> bossAvailable
    ensures EnemyOrdinal(e) == c
  {
    EnemyOf(c)
  }

  /** Menu read for a zone item: 0 none, 1..4 the four item kinds. */
  function ChooseItem(c: int): (i: Item)
    requires 0 <= c <= 4
    ensures ItemOrdinal(i) == c
  {
    ItemOf(c)
  }
}
