/**
 Player creation: one d20 shared by the three statistics, the +3/-3 trade-off
 between attack and defense, the once-per-game "UndiciVirgolaCinque" variant
 (+4 attack, +4 defense, -7 luck), then clamping to [1, 20].
 */
module PlayerSetup {
  import opened Types

  /** Clamping of a statistic into [StatMin, StatMax]. */
  function Clamp(x: int): (r: int)
    ensures InStatRange(r)
    ensures InStatRange(x) ==> r == x
    ensures x < StatMin ==> r == StatMin
    ensures x > StatMax ==> r == StatMax
  {
    if x < StatMin then StatMin else if x > StatMax then StatMax else x
  }

  lemma ClampMonotone(x: int, y: int)
    requires x <= y
    ensures Clamp(x) <= Clamp(y)
  {
  }

  /** Attack change of the trade-off menu: 1) +3 attack, 2) -3 attack, 3) none; defense moves the other way. */
  function AttackShift(trade: int): (d: int)
    requires 1 <= trade <= 3
    ensures trade == 1 ==> d == 3
    ensures trade == 2 ==> d == -3
    ensures trade == 3 ==> d == 0
  {
    if trade == 1 then 3 else if trade == 2 then -3 else 0
  }

  /** A created player and whether it became the special variant. */
  datatype Setup = Setup(player: Player, variant: bool)

  /**
   Creation of one player from the d20 `d20`, the trade-off answer `trade`
   (1..3) and the special-variant answer `variantChoice` (1 yes, 2 no; only
   asked, and only honoured, while `variantUsed` is false). The zeroed record
   puts the player in the Real World with null positions and an empty backpack.
   */
  function InitPlayer(name: string, d20: int, trade: int, variantUsed: bool, variantChoice: int): (r: Setup)
    requires 1 <= d20 <= 20
    requires 1 <= trade <= 3
    requires 1 <= variantChoice <= 2
    ensures WellFormed(r.player)
    ensures r.player.name == name
    ensures r.player.world == Real && r.player.realPos.None? && r.player.upsidePos.None?
    ensures r.player.backpack == [NoItem, NoItem, NoItem]
    ensures r.variant <==> !variantUsed && variantChoice == 1
    ensures r.player.luck == (if r.variant then Clamp(d20 - 7) else d20)
    ensures r.player.attack == Clamp(d20 + AttackShift(trade) + (if r.variant then 4 else 0))
    ensures r.player.defense == Clamp(d20 - AttackShift(trade) + (if r.variant then 4 else 0))
    ensures !r.variant && trade == 3 ==> r.player.attack == d20 && r.player.defense == d20
    ensures !r.variant && 4 <= d20 <= 17 ==> r.player.attack + r.player.defense == 2 * d20
    ensures trade == 1 ==> r.player.attack >= r.player.defense
    ensures trade == 2 ==> r.player.defense >= r.player.attack
  {
    var variant := !variantUsed && variantChoice == 1;
    var bonus := if variant then 4 else 0;
    var attack := d20 + AttackShift(trade) + bonus;
    var defense := d20 - AttackShift(trade) + bonus;
    var luck := if variant then d20 - 7 else d20;
    Setup(Player(name, Real, None, None, Clamp(attack), Clamp(defense), Clamp(luck), [NoItem, NoItem, NoItem]),
          variant)
  }

  /** Taking the variant never lowers attack or defense and never raises luck. */
  lemma VariantTradesLuckForFight(name: string, d20: int, trade: int)
    requires 1 <= d20 <= 20
    requires 1 <= trade <= 3
    ensures var yes := InitPlayer(name, d20, trade, false, 1).player;
            var no := InitPlayer(name, d20, trade, false, 2).player;
            yes.attack >= no.attack && yes.defense >= no.defense && yes.luck <= no.luck
  {
    ClampMonotone(d20 + AttackShift(trade), d20 + AttackShift(trade) + 4);
    ClampMonotone(d20 - AttackShift(trade), d20 - AttackShift(trade) + 4);
    ClampMonotone(d20 - 7, d20);
  }

  /** The answers read while creating one player. */
  datatype SetupInput = SetupInput(name: string, d20: int, trade: int, variantChoice: int)

  predicate ValidInput(x: SetupInput) {
    1 <= x.d20 <= 20 && 1 <= x.trade <= 3 && 1 <= x.variantChoice <= 2
  }

  /** Whether the variant is already taken when the player at index `n` is created. */
  predicate VariantTaken(xs: seq<SetupInput>, variantUsed: bool, n: nat)
    requires n <= |xs|
  {
    variantUsed || exists j :: 0 <= j < n && xs[j].variantChoice == 1
  }

  /**
   Creation of the players one after another; `variantUsed` is the global
   flag threaded through the calls. At most one player becomes the variant.
   */
  function InitPlayers(xs: seq<SetupInput>, variantUsed: bool): (r: seq<Setup>)
    requires forall i :: 0 <= i < |xs| ==> ValidInput(xs[i])
    ensures |r| == |xs|
    ensures forall i :: 0 <= i < |r| ==> WellFormed(r[i].player) && r[i].player.name == xs[i].name
    ensures forall i :: 0 <= i < |r| ==> r[i].player.realPos.None? && r[i].player.upsidePos.None?
    ensures variantUsed ==> forall i :: 0 <= i < |r| ==> !r[i].variant
    ensures forall i, j :: 0 <= i < j < |r| && r[i].variant ==> !r[j].variant
    ensures forall i :: 0 <= i < |r| ==>
      (r[i].variant <==> !VariantTaken(xs, variantUsed, i) && xs[i].variantChoice == 1)
  {
    if |xs| == 0 then []
    else
      assert ValidInput(xs[0]);
      var first := InitPlayer(xs[0].name, xs[0].d20, xs[0].trade, variantUsed, xs[0].variantChoice);
      var rest := InitPlayers(xs[1..], variantUsed || first.variant);
      var r := [first] + rest;
      assert forall i :: 1 <= i < |r| ==> r[i] == rest[i - 1];
      TakenShift(xs, variantUsed);
      r
  }

  /** The flag seen at index `i` is the flag seen at `i - 1` in the tail, started from the first player's outcome. */
  lemma TakenShift(xs: seq<SetupInput>, variantUsed: bool)
    requires |xs| > 0
    ensures forall i :: 1 <= i <= |xs| ==>
      (VariantTaken(xs, variantUsed, i) <==>
       VariantTaken(xs[1..], variantUsed || xs[0].variantChoice == 1, i - 1))
  {
    forall i | 1 <= i <= |xs|
      ensures VariantTaken(xs, variantUsed, i) <==>
              VariantTaken(xs[1..], variantUsed || xs[0].variantChoice == 1, i - 1)
    {
      if exists j :: 0 <= j < i && xs[j].variantChoice == 1 {
        var j :| 0 <= j < i && xs[j].variantChoice == 1;
        if j > 0 { assert xs[1..][j - 1] == xs[j]; }
      }
      if exists j :: 0 <= j < i - 1 && xs[1..][j].variantChoice == 1 {
        var j :| 0 <= j < i - 1 && xs[1..][j].variantChoice == 1;
        assert xs[j + 1] == xs[1..][j];
      }
    }
  }

  /** Each player is `InitPlayer` of its own answers, with the flag as its predecessors left it. */
  lemma {:induction false} InitPlayersEach(xs: seq<SetupInput>, variantUsed: bool)
    requires forall i :: 0 <= i < |xs| ==> ValidInput(xs[i])
    ensures var r := InitPlayers(xs, variantUsed);
      forall i :: 0 <= i < |xs| ==>
        r[i] == InitPlayer(xs[i].name, xs[i].d20, xs[i].trade, VariantTaken(xs, variantUsed, i), xs[i].variantChoice)
    decreases |xs|
  {
    if |xs| > 0 {
      assert ValidInput(xs[0]);
      var first := InitPlayer(xs[0].name, xs[0].d20, xs[0].trade, variantUsed, xs[0].variantChoice);
      var used := variantUsed || first.variant;
      InitPlayersEach(xs[1..], used);
      TakenShift(xs, variantUsed);
      var r := InitPlayers(xs, variantUsed);
      assert r[0] == first;
      forall i | 1 <= i < |xs|
        ensures r[i] == InitPlayer(xs[i].name, xs[i].d20, xs[i].trade, VariantTaken(xs, variantUsed, i), xs[i].variantChoice)
      {
        assert r[i] == InitPlayers(xs[1..], used)[i - 1];
        assert xs[1..][i - 1] == xs[i];
        assert VariantTaken(xs, variantUsed, i) == VariantTaken(xs[1..], used, i - 1);
      }
    }
  }

  /**
   Game setup for `|xs|` players (the count read in [1, MaxPlayers]): the
   roster holds them in its first slots, the other slots are empty, and the
   variant flag starts cleared.
   */
  function SetupRoster(xs: seq<SetupInput>): (roster: seq<Option<Player>>)
    requires 1 <= |xs| <= MaxPlayers
    requires forall i :: 0 <= i < |xs| ==> ValidInput(xs[i])
    ensures |roster| == MaxPlayers
    ensures forall i :: 0 <= i < MaxPlayers ==> (roster[i].Some? <==> i < |xs|)
    ensures forall i :: 0 <= i < |xs| ==> WellFormed(roster[i].value) && roster[i].value.name == xs[i].name
    ensures forall i :: 0 <= i < |xs| ==> roster[i].value.realPos.None? && roster[i].value.upsidePos.None?
    ensures forall i :: 0 <= i < |xs| ==> roster[i] == Some(InitPlayers(xs, false)[i].player)
  {
    var made := InitPlayers(xs, false);
    seq(MaxPlayers, i requires 0 <= i < MaxPlayers => if i < |made| then Some(made[i].player) else None)
  }
}
