/**
 The closed domains and records of the two-world board game: zone kinds,
 enemy and item tags, the zones of the Real World and of the Upside Down,
 a mirrored pair of zones, and a player.
 */
module Types {

  /** Size of the player roster. */
  const MaxPlayers: nat := 4
  /** Number of backpack slots of every player. */
  const BackpackSize: nat := 3
  /** Every player statistic lives in [StatMin, StatMax]. */
  const StatMin: int := 1
  const StatMax: int := 20

  datatype Option<T> = None | Some(value: T)

  /** The ten zone kinds, in declaration order. */
  datatype ZoneKind =
    | Bosco | Scuola | Laboratorio | Caverna | Strada
    | Giardino | Supermercato | CentraleElettrica | DepositoAbbandonato | StazionePolizia

  /** Enemy tags; `Demotorzone` is the boss whose defeat wins the match. */
  datatype Enemy = NoEnemy | Billi | Democane | Demotorzone

  /** Item tags; `NoItem` marks an empty slot or a zone without an item. */
  datatype Item = NoItem | Bicicletta | Maglietta | Bussola | Schitarrata

  /** Which of the two worlds a player stands in. */
  datatype World = Real | Upside

  /** A Real World zone: the only kind of zone that can hold an item. */
  datatype RealZone = RealZone(kind: ZoneKind, enemy: Enemy, item: Item)

  /** An Upside Down zone: no item field. */
  datatype UpsideZone = UpsideZone(kind: ZoneKind, enemy: Enemy)

  /**
   The two zones sharing one ordinal. Keeping them in one value is what
   makes the mirror link reciprocal: the Real zone at ordinal i mirrors the
   Upside zone at ordinal i and vice versa.
   */
  datatype Pair = Pair(realZone: RealZone, upsideZone: UpsideZone)

  /**
   A player. `realPos` and `upsidePos` are ordinals into the map (None
   stands for a null position); `world` says which of the two is current.
   */
  datatype Player = Player(
    name: string,
    world: World,
    realPos: Option<nat>,
    upsidePos: Option<nat>,
    attack: int,
    defense: int,
    luck: int,
    backpack: seq<Item>)

  predicate InStatRange(x: int) {
    StatMin <= x <= StatMax
  }

  /** Statistics within bounds and a backpack of exactly BackpackSize slots. */
  predicate WellFormed(p: Player) {
    && InStatRange(p.attack)
    && InStatRange(p.defense)
    && InStatRange(p.luck)
    && |p.backpack| == BackpackSize
  }

  /** The enumeration value of a zone kind (its position in the declaration). */
  function KindOrdinal(k: ZoneKind): nat {
    match k
    case Bosco => 0
    case Scuola => 1
    case Laboratorio => 2
    case Caverna => 3
    case Strada => 4
    case Giardino => 5
    case Supermercato => 6
    case CentraleElettrica => 7
    case DepositoAbbandonato => 8
    case StazionePolizia => 9
  }

  /** The zone kind whose enumeration value is `n`: the cast from an int. */
  function KindOf(n: int): (k: ZoneKind)
    requires 0 <= n <= 9
    ensures KindOrdinal(k) == n
  {
    if n == 0 then Bosco
    else if n == 1 then Scuola
    else if n == 2 then Laboratorio
    else if n == 3 then Caverna
    else if n == 4 then Strada
    else if n == 5 then Giardino
    else if n == 6 then Supermercato
    else if n == 7 then CentraleElettrica
    else if n == 8 then DepositoAbbandonato
    else StazionePolizia
  }

  /** Exactly ten zone kinds: the cast is a bijection between [0,9] and ZoneKind. */
  lemma KindOrdinalRoundTrip(k: ZoneKind)
    ensures KindOrdinal(k) <= 9
    ensures KindOf(KindOrdinal(k)) == k
  {
    match k
    case Bosco =>
    case Scuola =>
    case Laboratorio =>
    case Caverna =>
    case Strada =>
    case Giardino =>
    case Supermercato =>
    case CentraleElettrica =>
    case DepositoAbbandonato =>
    case StazionePolizia =>
  }

  function EnemyOrdinal(e: Enemy): nat {
    match e
    case NoEnemy => 0
    case Billi => 1
    case Democane => 2
    case Demotorzone => 3
  }

  /** The enemy tag whose enumeration value is `n`. */
  function EnemyOf(n: int): (e: Enemy)
    requires 0 <= n <= 3
    ensures EnemyOrdinal(e) == n
  {
    if n == 0 then NoEnemy
    else if n == 1 then Billi
    else if n == 2 then Democane
    else Demotorzone
  }

  /** Exactly four enemy tags, "none" included. */
  lemma EnemyOrdinalRoundTrip(e: Enemy)
    ensures EnemyOrdinal(e) <= 3
    ensures EnemyOf(EnemyOrdinal(e)) == e
  {
    match e
    case NoEnemy =>
    case Billi =>
    case Democane =>
    case Demotorzone =>
  }

  function ItemOrdinal(i: Item): nat {
    match i
    case NoItem => 0
    case Bicicletta => 1
    case Maglietta => 2
    case Bussola => 3
    case Schitarrata => 4
  }

  /** The item tag whose enumeration value is `n`. */
  function ItemOf(n: int): (i: Item)
    requires 0 <= n <= 4
    ensures ItemOrdinal(i) == n
  {
    if n == 0 then NoItem
    else if n == 1 then Bicicletta
    else if n == 2 then Maglietta
    else if n == 3 then Bussola
    else Schitarrata
  }

  /** Exactly five item tags, "none" included. */
  lemma ItemOrdinalRoundTrip(i: Item)
    ensures ItemOrdinal(i) <= 4
    ensures ItemOf(ItemOrdinal(i)) == i
  {
    match i
    case NoItem =>
    case Bicicletta =>
    case Maglietta =>
    case Bussola =>
    case Schitarrata =>
  }
}
