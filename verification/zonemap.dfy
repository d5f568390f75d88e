/**
 The dual-world map as one sequence of mirrored pairs: ordinal i + 1 of both
 worlds is element i. Construction (random generation with the boss repair
 step), insertion and removal of a pair at an ordinal, the repair of player
 positions after a removal, and the closing check of the map builder.
 */
module ZoneMap {
  import opened Types
  import opened Chance

  type Zones = seq<Pair>

  /** Minimum number of pairs of a closable map, and the number generated. */
  const MapSize: nat := 15

  /** The map builder's state: the pairs and whether the map has been closed. */
  datatype Builder = Builder(zones: Zones, closed: bool)

  predicate IsBoss(m: Zones, i: int)
    requires 0 <= i < |m|
  {
    m[i].upsideZone.enemy == Demotorzone
  }

  /** Both zones of every pair have the same kind. */
  predicate KindsMatch(m: Zones) {
    forall i :: 0 <= i < |m| ==> m[i].realZone.kind == m[i].upsideZone.kind
  }

  /** Only the Upside Down holds a demotorzone; only the Real World holds billi. */
  predicate EnemiesInTheirWorld(m: Zones) {
    forall i :: 0 <= i < |m| ==> m[i].realZone.enemy != Demotorzone && m[i].upsideZone.enemy != Billi
  }

  /** Number of Upside Down zones holding a demotorzone. */
  function BossCount(m: Zones): nat
  {
    if |m| == 0 then 0
    else (if m[0].upsideZone.enemy == Demotorzone then 1 else 0) + BossCount(m[1..])
  }

  /** The Upside Down enemy tags in map order. */
  function UpsideEnemies(m: Zones): (es: seq<Enemy>)
    ensures |es| == |m|
    ensures forall i :: 0 <= i < |m| ==> es[i] == m[i].upsideZone.enemy
  {
    seq(|m|, i requires 0 <= i < |m| => m[i].upsideZone.enemy)
  }

  /** The recursive count agrees with the multiplicity of demotorzone in the Upside Down. */
  lemma {:induction false} BossCountIsMultiplicity(m: Zones)
    ensures BossCount(m) == multiset(UpsideEnemies(m))[Demotorzone]
  {
    if |m| > 0 {
      BossCountIsMultiplicity(m[1..]);
      assert UpsideEnemies(m) == [m[0].upsideZone.enemy] + UpsideEnemies(m[1..]);
    }
  }

  lemma {:induction false} BossCountConcat(a: Zones, b: Zones)
    ensures BossCount(a + b) == BossCount(a) + BossCount(b)
  {
    if |a| > 0 {
      assert (a + b)[1..] == a[1..] + b;
      BossCountConcat(a[1..], b);
    } else {
      assert a + b == b;
    }
  }

  /** No demotorzone at all exactly when the count is zero. */
  lemma {:induction false} BossCountZero(m: Zones)
    ensures BossCount(m) == 0 <==> forall i :: 0 <= i < |m| ==> !IsBoss(m, i)
  {
    if |m| > 0 {
      BossCountZero(m[1..]);
      assert forall i :: 1 <= i < |m| ==> m[1..][i - 1] == m[i];
      if BossCount(m) == 0 {
        forall i | 0 <= i < |m|
          ensures !IsBoss(m, i)
        {
          if i > 0 {
            assert !IsBoss(m[1..], i - 1);
          }
        }
      } else if !IsBoss(m, 0) {
        var j :| 0 <= j < |m[1..]| && IsBoss(m[1..], j);
        assert IsBoss(m, j + 1);
      }
    }
  }

  /** Ordinal (0-based) of the first Upside Down demotorzone, if any. */
  function FirstBoss(m: Zones): (r: Option<nat>)
    ensures r.None? <==> BossCount(m) == 0
    ensures r.Some? ==> r.value < |m| && IsBoss(m, r.value)
    ensures r.Some? ==> forall j :: 0 <= j < r.value ==> !IsBoss(m, j)
  {
    if |m| == 0 then None
    else if m[0].upsideZone.enemy == Demotorzone then Some(0)
    else
      match FirstBoss(m[1..])
      case None => None
      case Some(j) =>
        var t := m[1..];
        assert forall k :: 0 <= k < |t| ==> t[k] == m[k + 1];
        assert forall k :: 0 <= k < j ==> !IsBoss(t, k);
        assert forall k :: 1 <= k <= j ==> !IsBoss(m, k) by {
          forall k | 1 <= k <= j
            ensures !IsBoss(m, k)
          {
            assert !IsBoss(t, k - 1);
          }
        }
        Some(j + 1)
  }

  function WithUpsideEnemy(p: Pair, e: Enemy): Pair {
    p.(upsideZone := p.upsideZone.(enemy := e))
  }

  // ---------------------------------------------------------------------------
  // Generation
  // ---------------------------------------------------------------------------

  /** The five draws made for one generated pair, in the order they are made. */
  datatype PairDraw = PairDraw(kind: int, realEnemy: int, item: int, itemKind: int, upsideEnemy: int)

  predicate ValidDraw(d: PairDraw) {
    && 0 <= d.kind <= 9
    && 1 <= d.realEnemy <= 100
    && 1 <= d.item <= 100
    && 1 <= d.itemKind <= 4
    && 1 <= d.upsideEnemy <= 100
  }

  /** The pair built from one set of draws: one kind draw serves both worlds. */
  function DrawnPair(d: PairDraw): (p: Pair)
    requires ValidDraw(d)
    ensures p.realZone.kind == p.upsideZone.kind
    ensures p.realZone.enemy != Demotorzone && p.upsideZone.enemy != Billi
  {
    var k := RandomKind(d.kind);
    Pair(RealZone(k, RandomRealEnemy(d.realEnemy), RandomItem(d.item, d.itemKind)),
         UpsideZone(k, RandomUpsideEnemy(d.upsideEnemy)))
  }

  /** The pairs appended one after another by the generation loop. */
  function BuildPairs(ds: seq<PairDraw>): (m: Zones)
    requires forall i :: 0 <= i < |ds| ==> ValidDraw(ds[i])
    ensures |m| == |ds|
    ensures KindsMatch(m) && EnemiesInTheirWorld(m)
    ensures forall i :: 0 <= i < |ds| ==> m[i] == DrawnPair(ds[i])
  {
    seq(|ds|, i requires 0 <= i < |ds| && ValidDraw(ds[i]) => DrawnPair(ds[i]))
  }

  /**
   First half of the repair: when no Upside Down zone holds a demotorzone,
   the zone at the drawn ordinal `pos` (in [1, |m|]) gets one.
   */
  function ForceBoss(m: Zones, pos: int): (r: Zones)
    requires 1 <= pos <= |m|
    ensures |r| == |m|
    ensures BossCount(r) >= 1
    ensures BossCount(m) > 0 ==> r == m
    ensures BossCount(m) == 0 ==> r == m[pos - 1 := WithUpsideEnemy(m[pos - 1], Demotorzone)]
    ensures BossCount(m) == 0 ==> BossCount(r) == 1
    ensures BossCount(m) == 0 ==> FirstBoss(r) == Some(pos - 1)
  {
    if BossCount(m) == 0 then
      var r := m[pos - 1 := WithUpsideEnemy(m[pos - 1], Demotorzone)];
      BossCountZero(m);
      assert forall j :: 0 <= j < pos - 1 ==> !IsBoss(r, j) by {
        forall j | 0 <= j < pos - 1
          ensures !IsBoss(r, j)
        {
          assert r[j] == m[j];
          assert !IsBoss(m, j);
        }
      }
      assert IsBoss(r, pos - 1);
      assert r == m[..pos - 1] + [r[pos - 1]] + m[pos..];
      BossCountConcat(m[..pos - 1] + [r[pos - 1]], m[pos..]);
      BossCountConcat(m[..pos - 1], [r[pos - 1]]);
      assert m == m[..pos - 1] + [m[pos - 1]] + m[pos..];
      BossCountConcat(m[..pos - 1] + [m[pos - 1]], m[pos..]);
      BossCountConcat(m[..pos - 1], [m[pos - 1]]);
      assert [r[pos - 1]][1..] == [];
      r
    else
      m
  }

  /**
   Second half of the repair: one pass over the Upside Down that keeps the
   first demotorzone (unless `found` says one was already kept) and turns
   every later one into a democane. Nothing else changes.
   */
  function DemoteExtras(m: Zones, found: bool): (r: Zones)
    ensures |r| == |m|
    ensures forall i :: 0 <= i < |m| ==> r[i].realZone == m[i].realZone && r[i].upsideZone.kind == m[i].upsideZone.kind
    ensures forall i :: 0 <= i < |m| && m[i].upsideZone.enemy != Demotorzone ==> r[i] == m[i]
    ensures forall i :: 0 <= i < |m| && m[i].upsideZone.enemy == Demotorzone ==>
      r[i].upsideZone.enemy == Demotorzone || r[i].upsideZone.enemy == Democane
    ensures found ==> BossCount(r) == 0
    ensures !found ==> BossCount(r) == (if BossCount(m) > 0 then 1 else 0)
    ensures !found ==> FirstBoss(r) == FirstBoss(m)
  {
    if |m| == 0 then []
    else
      var rest := DemoteExtras(m[1..], found || m[0].upsideZone.enemy == Demotorzone);
      var head := if found && m[0].upsideZone.enemy == Demotorzone then WithUpsideEnemy(m[0], Democane) else m[0];
      var r := [head] + rest;
      assert r[1..] == rest;
      r
  }

  /** A demoted tag: an extra demotorzone becomes a democane, anything else stays. */
  function Demoted(e: Enemy): Enemy {
    if e == Demotorzone then Democane else e
  }

  /** A prefix without a demotorzone position counts zero. */
  lemma NoBossBefore(m: Zones, f: nat)
    requires f <= |m|
    requires forall j :: 0 <= j < f ==> !IsBoss(m, j)
    ensures BossCount(m[..f]) == 0
  {
    BossCountZero(m[..f]);
    forall i | 0 <= i < f
      ensures !IsBoss(m[..f], i)
    {
      assert m[..f][i] == m[i];
      assert !IsBoss(m, i);
    }
  }

  /** The count splits around one position. */
  lemma BossCountSplit(m: Zones, f: nat)
    requires f < |m|
    ensures BossCount(m) == BossCount(m[..f]) + (if IsBoss(m, f) then 1 else 0) + BossCount(m[f + 1..])
  {
    assert m == m[..f] + ([m[f]] + m[f + 1..]);
    BossCountConcat(m[..f], [m[f]] + m[f + 1..]);
    BossCountConcat([m[f]], m[f + 1..]);
    assert [m[f]][1..] == [];
  }

  /** With a single demotorzone, no zone other than the first one holds it. */
  lemma OnlyFirstBoss(m: Zones)
    requires BossCount(m) == 1
    ensures FirstBoss(m).Some?
    ensures forall i :: 0 <= i < |m| && Some(i) != FirstBoss(m) ==> !IsBoss(m, i)
  {
    var f := FirstBoss(m).value;
    NoBossBefore(m, f);
    BossCountSplit(m, f);
    var rest := m[f + 1..];
    BossCountZero(rest);
    forall i | f < i < |m|
      ensures !IsBoss(m, i)
    {
      assert rest[i - f - 1] == m[i];
      assert !IsBoss(rest, i - f - 1);
    }
  }

  /**
   The whole repair step: afterwards exactly one Upside Down zone holds a
   demotorzone. It is the first one of `m` if `m` has any, else the one at
   ordinal `pos`; every other demotorzone became a democane and nothing else
   changed. The source loops while more than one is present; a single
   demotion pass already leaves one, so the loop body runs at most once.
   */
  function RepairBoss(m: Zones, pos: int): (r: Zones)
    requires 1 <= pos <= |m|
    ensures |r| == |m|
    ensures BossCount(r) == 1
    ensures forall i :: 0 <= i < |m| ==> r[i].realZone == m[i].realZone && r[i].upsideZone.kind == m[i].upsideZone.kind
    ensures FirstBoss(r) == (if BossCount(m) == 0 then Some(pos - 1) else FirstBoss(m))
    ensures forall i :: 0 <= i < |m| && Some(i) != FirstBoss(r) ==>
      r[i].upsideZone.enemy == Demoted(m[i].upsideZone.enemy)
  {
    var forced := ForceBoss(m, pos);
    var r := if BossCount(forced) > 1 then DemoteExtras(forced, false) else forced;
    OnlyFirstBoss(r);
    if BossCount(m) == 0 then
      BossCountZero(m);
      assert forall i :: 0 <= i < |m| && i != pos - 1 ==> r[i] == m[i];
      r
    else
      r
  }

  /**
   Map generation: fifteen pairs from fifteen sets of draws, then the repair
   with the ordinal draw `pos` in [1, 15] (used only when no demotorzone was drawn).
   */
  function Generate(ds: seq<PairDraw>, pos: int): (r: Zones)
    requires |ds| == MapSize
    requires forall i :: 0 <= i < |ds| ==> ValidDraw(ds[i])
    requires 1 <= pos <= MapSize
    ensures |r| == MapSize
    ensures KindsMatch(r) && EnemiesInTheirWorld(r)
    ensures BossCount(r) == 1
    ensures forall i :: 0 <= i < |r| ==> r[i].realZone == DrawnPair(ds[i]).realZone
    ensures forall i :: 0 <= i < |r| ==> r[i].upsideZone.kind == DrawnPair(ds[i]).upsideZone.kind
    ensures FirstBoss(r) == (if BossCount(BuildPairs(ds)) == 0 then Some(pos - 1) else FirstBoss(BuildPairs(ds)))
    ensures forall i :: 0 <= i < |r| && Some(i) != FirstBoss(r) ==>
      r[i].upsideZone.enemy == Demoted(DrawnPair(ds[i]).upsideZone.enemy)
  {
    RepairBoss(BuildPairs(ds), pos)
  }

  // ---------------------------------------------------------------------------
  // Editing
  // ---------------------------------------------------------------------------

  /** Structural insertion of pair `p` so that it becomes ordinal `pos`. */
  function Insert(m: Zones, pos: int, p: Pair): (r: Zones)
    requires 1 <= pos <= |m| + 1
    ensures |r| == |m| + 1
    ensures r[pos - 1] == p
    ensures forall j :: 0 <= j < pos - 1 ==> r[j] == m[j]
    ensures forall j :: pos - 1 <= j < |m| ==> r[j + 1] == m[j]
    ensures BossCount(r) == BossCount(m) + (if p.upsideZone.enemy == Demotorzone then 1 else 0)
  {
    var r := m[..pos - 1] + [p] + m[pos - 1..];
    BossCountConcat(m[..pos - 1] + [p], m[pos - 1..]);
    BossCountConcat(m[..pos - 1], [p]);
    BossCountConcat(m[..pos - 1], m[pos - 1..]);
    assert m[..pos - 1] + m[pos - 1..] == m;
    assert [p][1..] == [];
    r
  }

  /** Structural removal of the pair at ordinal `pos`. */
  function Delete(m: Zones, pos: int): (r: Zones)
    requires 1 <= pos <= |m|
    ensures |r| == |m| - 1
    ensures forall j :: 0 <= j < pos - 1 ==> r[j] == m[j]
    ensures forall j :: pos - 1 <= j < |r| ==> r[j] == m[j + 1]
    ensures BossCount(r) == BossCount(m) - (if IsBoss(m, pos - 1) then 1 else 0)
  {
    var r := m[..pos - 1] + m[pos..];
    assert m == m[..pos - 1] + [m[pos - 1]] + m[pos..];
    BossCountConcat(m[..pos - 1] + [m[pos - 1]], m[pos..]);
    BossCountConcat(m[..pos - 1], [m[pos - 1]]);
    BossCountConcat(m[..pos - 1], m[pos..]);
    assert [m[pos - 1]][1..] == [];
    r
  }

  /** Removing what was just inserted gives back the original map. */
  lemma DeleteUndoesInsert(m: Zones, pos: int, p: Pair)
    requires 1 <= pos <= |m| + 1
    ensures Delete(Insert(m, pos, p), pos) == m
  {
  }

  /** Re-inserting a removed pair at its ordinal gives back the original map. */
  lemma InsertUndoesDelete(m: Zones, pos: int)
    requires 1 <= pos <= |m|
    ensures Insert(Delete(m, pos), pos, m[pos - 1]) == m
  {
  }

  /**
   Interactive insertion: the ordinal read in [1, |m| + 1], a kind draw in
   [0, 9] shared by both zones, and the three menu answers. The Upside Down
   menu offers the demotorzone only while the map has none.
   */
  function InsertZone(m: Zones, pos: int, kindDraw: int, realChoice: int, upsideChoice: int, itemChoice: int): (r: Zones)
    requires 1 <= pos <= |m| + 1
    requires 0 <= kindDraw <= 9
    requires 0 <= realChoice <= 2
    requires UpsideChoiceAllowed(BossCount(m) == 0, upsideChoice)
    requires 0 <= itemChoice <= 4
    ensures |r| == |m| + 1
    ensures r[pos - 1].realZone.kind == r[pos - 1].upsideZone.kind
    ensures r[pos - 1].realZone.kind == RandomKind(kindDraw)
    ensures r[pos - 1].realZone.enemy == ChooseRealEnemy(realChoice)
    ensures r[pos - 1].realZone.item == ChooseItem(itemChoice)
    ensures r[pos - 1].upsideZone.enemy == ChooseUpsideEnemy(BossCount(m) == 0, upsideChoice)
    ensures forall j :: 0 <= j < |r| && j != pos - 1 ==> r[j] == m[if j < pos - 1 then j else j - 1]
    ensures KindsMatch(m) ==> KindsMatch(r)
    ensures EnemiesInTheirWorld(m) ==> EnemiesInTheirWorld(r)
    ensures BossCount(m) > 0 ==> BossCount(r) == BossCount(m)
    ensures BossCount(m) == 0 ==> BossCount(r) <= 1
    ensures Delete(r, pos) == m
  {
    var k := RandomKind(kindDraw);
    var p := Pair(RealZone(k, ChooseRealEnemy(realChoice), ChooseItem(itemChoice)),
                  UpsideZone(k, ChooseUpsideEnemy(BossCount(m) == 0, upsideChoice)));
    DeleteUndoesInsert(m, pos, p);
    Insert(m, pos, p)
  }

  // ---------------------------------------------------------------------------
  // Removal with player repair
  // ---------------------------------------------------------------------------

  /** Every non-null player position names an existing ordinal. */
  predicate PositionsWithin(roster: seq<Option<Player>>, n: nat) {
    forall i :: 0 <= i < |roster| && roster[i].Some? ==>
      (roster[i].value.realPos.Some? ==> roster[i].value.realPos.value < n) &&
      (roster[i].value.upsidePos.Some? ==> roster[i].value.upsidePos.value < n)
  }

  /**
   A position after removing ordinal index `k`: a position on the removed zone
   moves to the new head (null when the map became empty); any other position
   keeps pointing at the same zone, whose index shifts down past `k`.
   */
  function RepairPos(q: Option<nat>, k: nat, newLen: nat): Option<nat> {
    match q
    case None => None
    case Some(j) =>
      if j == k then (if newLen > 0 then Some(0) else None)
      else if j > k then Some(j - 1)
      else Some(j)
  }

  function RepairRoster(roster: seq<Option<Player>>, k: nat, newLen: nat): (r: seq<Option<Player>>)
    ensures |r| == |roster|
  {
    seq(|roster|, i requires 0 <= i < |roster| =>
      match roster[i]
      case None => None
      case Some(p) => Some(p.(realPos := RepairPos(p.realPos, k, newLen),
                              upsidePos := RepairPos(p.upsidePos, k, newLen))))
  }

  /** A position refers, in map `m2`, to the zone pair `z`, or is null. */
  predicate Names(m2: Zones, q: Option<nat>, z: Pair) {
    q.Some? && q.value < |m2| && m2[q.value] == z
  }

  /** What became of one position `q` of the old map `m` in the new map `m2`. */
  predicate Repaired(m: Zones, m2: Zones, k: nat, q: Option<nat>, q2: Option<nat>) {
    && (q.None? ==> q2.None?)
    && (q == Some(k) ==> q2 == (if |m2| > 0 then Some(0) else None))
    && (q.Some? && q.value != k && q.value < |m| ==> Names(m2, q2, m[q.value]))
    && (q.Some? && q.value < k ==> q2 == q)
    && (q.Some? && q.value > k ==> q2 == Some(q.value - 1))
  }

  /**
   Removal of the pair at ordinal `pos`, with the position repair of every
   player. On an empty map nothing happens and no ordinal is read.
   */
  function DeleteZone(m: Zones, roster: seq<Option<Player>>, pos: int): (r: (Zones, seq<Option<Player>>))
    requires |m| == 0 || 1 <= pos <= |m|
    requires PositionsWithin(roster, |m|)
    ensures |m| == 0 ==> r == (m, roster)
    ensures |m| > 0 ==> r.0 == Delete(m, pos)
    ensures |r.1| == |roster|
    ensures PositionsWithin(r.1, |r.0|)
    ensures forall i :: 0 <= i < |roster| ==> (r.1[i].Some? <==> roster[i].Some?)
    ensures |m| > 0 ==> forall i :: 0 <= i < |roster| && roster[i].Some? ==>
      && r.1[i].value == roster[i].value.(realPos := r.1[i].value.realPos, upsidePos := r.1[i].value.upsidePos)
      && Repaired(m, r.0, pos - 1, roster[i].value.realPos, r.1[i].value.realPos)
      && Repaired(m, r.0, pos - 1, roster[i].value.upsidePos, r.1[i].value.upsidePos)
  {
    if |m| == 0 then (m, roster)
    else
      var m2 := Delete(m, pos);
      (m2, RepairRoster(roster, pos - 1, |m2|))
  }

  // ---------------------------------------------------------------------------
  // Closing
  // ---------------------------------------------------------------------------

  /** The map can be closed: at least fifteen pairs and exactly one demotorzone. */
  predicate Closable(m: Zones) {
    |m| >= MapSize && BossCount(m) == 1
  }

  /** Closing the builder: succeeds exactly when the map is closable, else changes nothing. */
  function Close(b: Builder): (r: Builder)
    ensures r.zones == b.zones
    ensures r.closed <==> b.closed || (|b.zones| >= MapSize && BossCount(b.zones) == 1)
    ensures !Closable(b.zones) ==> r == b
  {
    if |b.zones| < MapSize then b
    else if BossCount(b.zones) != 1 then b
    else b.(closed := true)
  }

  /** A freshly generated map can always be closed. */
  lemma GeneratedMapCloses(ds: seq<PairDraw>, pos: int, closed: bool)
    requires |ds| == MapSize
    requires forall i :: 0 <= i < |ds| ==> ValidDraw(ds[i])
    requires 1 <= pos <= MapSize
    ensures Close(Builder(Generate(ds, pos), closed)).closed
  {
  }
}
