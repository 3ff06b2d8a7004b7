/**
 * The pure rule functions of App.tsx: seat distance, attack range, armour
 * immunity and the availability of a character's ultimate skill
 * (App.tsx:12-64).
 */
module Rules {
  import opened Types

  function Abs(x: int): nat { if x < 0 then -x else x }

  function Min(a: int, b: int): int { if a <= b then a else b }

  function Max(a: int, b: int): int { if a >= b then a else b }

  /** `allPlayers.filter(p => p.hp > 0)`. */
  function Alive(ps: seq<Player>): (r: seq<Player>)
    ensures |r| <= |ps|
    ensures forall k :: 0 <= k < |r| ==> r[k].hp > 0 && r[k] in ps
    ensures forall p :: p in ps && p.hp > 0 ==> p in r
  {
    if ps == [] then []
    else (if ps[0].hp > 0 then [ps[0]] else []) + Alive(ps[1..])
  }

  /** `ps.findIndex(p => p.id === id)`: the first index holding the id, or -1. */
  function FindIndex(ps: seq<Player>, id: nat): (r: int)
    ensures -1 <= r < |ps|
    ensures r == -1 <==> forall k :: 0 <= k < |ps| ==> ps[k].id != id
    ensures r >= 0 ==> ps[r].id == id && forall k :: 0 <= k < r ==> ps[k].id != id
  {
    if ps == [] then -1
    else if ps[0].id == id then 0
    else
      var r := FindIndex(ps[1..], id);
      assert forall k :: 1 <= k < |ps| ==> ps[k] == ps[1..][k - 1];
      if r == -1 then -1 else r + 1
  }

  /** The circular distance between two positions of a ring of `n` seats. */
  function RingDistance(i: int, j: int, n: int): int
  {
    Min(Abs(i - j), n - Abs(i - j))
  }

  /** The ring distance is symmetric and at most half the ring. */
  lemma RingDistanceFacts(i: int, j: int, n: int)
    requires 0 <= i < n && 0 <= j < n
    ensures RingDistance(i, j, n) == RingDistance(j, i, n)
    ensures 0 <= RingDistance(i, j, n) <= n / 2
  {}

  /** `getDistance` (App.tsx:12-29). */
  function GetDistance(source: Player, target: Player, all: seq<Player>): (r: int)
    ensures r >= 1
  {
    if source.character.id == Minato then 1 else AliveDistance(source, target, Alive(all))
  }

  /** `getDistance` after the alive players are filtered out (App.tsx:15-28). */
  function AliveDistance(source: Player, target: Player, alive: seq<Player>): (r: int)
    ensures r >= 1
  {
    if |alive| == 2 then 1
    else
      var sIdx := FindIndex(alive, source.id);
      var tIdx := FindIndex(alive, target.id);
      if sIdx == -1 || tIdx == -1 then 999
      else
        var d0 := RingDistance(sIdx, tIdx, |alive|);
        var d1 := if source.character.id == Kakashi then d0 - 1 else d0;
        var d2 := if source.equips.offHorse.Some? then d1 - 1 else d1;
        var d3 := if target.character.id == Pain && |alive| > 2 then d2 + 1 else d2;
        var d4 := if target.equips.defHorse.Some? then d3 + 1 else d3;
        Max(1, d4)
  }

  /** A player whose distances are the plain ring distance: no mount and no distance passive. */
  predicate PlainDistance(p: Player)
  {
    p.character.id != Minato && p.character.id != Kakashi && p.character.id != Pain && p.equips.offHorse.None? && p.equips.defHorse.None?
  }

  /** Seat ids are pairwise distinct, as `startGame` makes them. */
  predicate DistinctIds(ps: seq<Player>)
  {
    forall i, j :: 0 <= i < j < |ps| ==> ps[i].id != ps[j].id
  }

  /** With exactly two players alive every distance is 1, whoever asks (App.tsx:16). */
  lemma DistanceTwoAlive(source: Player, target: Player, all: seq<Player>)
    requires |Alive(all)| == 2
    ensures GetDistance(source, target, all) == 1
  {}

  /** Minato's distance to anyone is 1, even to a dead player (App.tsx:13). */
  lemma DistanceMinato(source: Player, target: Player, all: seq<Player>)
    requires source.character.id == Minato
    ensures GetDistance(source, target, all) == 1
  {}

  /**
   * A dead player is out of the ring: unless minato asks or two players are
   * left, any distance from or to a player without hit points is 999
   * (App.tsx:18-20).
   */
  lemma DistanceToDead(source: Player, target: Player, all: seq<Player>)
    requires DistinctIds(all) && source in all && target in all
    requires source.character.id != Minato && |Alive(all)| != 2
    requires source.hp <= 0 || target.hp <= 0
    ensures GetDistance(source, target, all) == 999
  {
    var dead := if source.hp <= 0 then source else target;
    var alive := Alive(all);
    forall k | 0 <= k < |alive| ensures alive[k].id != dead.id {
      var i :| 0 <= i < |all| && all[i] == dead;
      var j :| 0 <= j < |all| && all[j] == alive[k];
      assert i != j;
    }
  }

  /**
   * Between two alive players without modifiers the distance is the ring
   * distance over the alive players, clamped to 1: it is symmetric and at
   * most half the number of alive players (App.tsx:22-28).
   */
  lemma DistancePlain(source: Player, target: Player, all: seq<Player>)
    requires source in all && target in all && source.hp > 0 && target.hp > 0
    requires PlainDistance(source) && PlainDistance(target)
    ensures GetDistance(source, target, all) == GetDistance(target, source, all)
    ensures |Alive(all)| > 2 ==> GetDistance(source, target, all) <= Max(1, |Alive(all)| / 2)
  {
    var alive := Alive(all);
    FoundWhenAlive(source, all);
    FoundWhenAlive(target, all);
    assert GetDistance(source, target, all) == AliveDistance(source, target, alive);
    assert GetDistance(target, source, all) == AliveDistance(target, source, alive);
    PlainAliveValue(source, target, alive);
    PlainAliveValue(target, source, alive);
    RingDistanceFacts(FindIndex(alive, source.id), FindIndex(alive, target.id), |alive|);
  }

  /** An alive player is found in the alive list. */
  lemma FoundWhenAlive(p: Player, all: seq<Player>)
    requires p in all && p.hp > 0
    ensures FindIndex(Alive(all), p.id) >= 0
  {
    var alive := Alive(all);
    assert p in alive;
    var a :| 0 <= a < |alive| && alive[a] == p;
    assert alive[a].id == p.id;
  }

  /** Without modifiers the distance between two found players is the clamped ring distance. */
  lemma PlainValue(source: Player, target: Player, all: seq<Player>)
    requires PlainDistance(source) && PlainDistance(target)
    requires FindIndex(Alive(all), source.id) >= 0 && FindIndex(Alive(all), target.id) >= 0
    ensures GetDistance(source, target, all) == if |Alive(all)| == 2 then 1
      else Max(1, RingDistance(FindIndex(Alive(all), source.id), FindIndex(Alive(all), target.id), |Alive(all)|))
  {
    PlainAliveValue(source, target, Alive(all));
  }

  lemma PlainAliveValue(source: Player, target: Player, alive: seq<Player>)
    requires PlainDistance(source) && PlainDistance(target)
    requires FindIndex(alive, source.id) >= 0 && FindIndex(alive, target.id) >= 0
    ensures AliveDistance(source, target, alive) == if |alive| == 2 then 1
      else Max(1, RingDistance(FindIndex(alive, source.id), FindIndex(alive, target.id), |alive|))
  {}

  /** `getAttackRange` (App.tsx:31-35); `None` is the `NaN` of a weapon without `attackRange`. */
  function GetAttackRange(p: Player): (r: Option<int>)
    ensures p.equips.weapon.None? ==> r == Some(if p.character.id == Sasuke then 2 else 1)
    ensures p.equips.weapon.Some? ==> r.Some? == p.equips.weapon.value.def.attackRange.Some?
  {
    var base := match p.equips.weapon
      case None => Some(1)
      case Some(w) => w.def.attackRange;
    match base
    case None => None
    case Some(n) => if p.character.id == Sasuke then Some(n + 1) else Some(n)
  }

  /** `d <= range`, false against the `NaN` range. */
  predicate WithinRange(d: int, range: Option<int>)
  {
    range.Some? && d <= range.value
  }

  /** A weapon from the library gives a range of 2 to 4, one more for sasuke; no weapon gives 1 or 2. */
  lemma AttackRangeBounds(p: Player)
    requires p.equips.weapon.Some? ==>
      p.equips.weapon.value.def.attackRange.Some? && 2 <= p.equips.weapon.value.def.attackRange.value <= 4
    ensures GetAttackRange(p).Some?
    ensures 1 <= GetAttackRange(p).value <= 5
    ensures p.character.id == Sasuke ==> GetAttackRange(p).value >= 2
  {}

  /** `isImmuneToAttack` (App.tsx:37-43); `card` is the optional card argument. */
  function IsImmuneToAttack(source: Player, target: Player, card: Option<PlayingCard>): (r: bool)
    ensures r ==> card.Some? && card.value.Kind() == Attack && !IsRed(card.value.suit)
  {
    if source.character.id == Sasuke then false
    else if target.equips.armor.Some? && target.equips.armor.value.def.id == "vest"
      && card.Some? && card.value.Kind() == Attack
    then card.value.suit == Spade || card.value.suit == Club
    else false
  }

  /** Only a black attack against a vest is stopped, and never an attack by sasuke (App.tsx:38-41). */
  lemma ImmunityExactly(source: Player, target: Player, card: Option<PlayingCard>)
    ensures IsImmuneToAttack(source, target, card) <==>
      source.character.id != Sasuke
      && target.equips.armor.Some? && target.equips.armor.value.def.id == "vest"
      && card.Some? && card.value.Kind() == Attack && !IsRed(card.value.suit)
  {}

  /** The per-character condition of `checkUltimateAvailable` (App.tsx:49-62). */
  predicate UltimateCondition(p: Player)
  {
    match p.character.id
    case Naruto => p.hp <= 2
    case Sasuke => |p.hand| >= 3
    case Kakashi => p.equips.weapon.Some?
    case Sakura => p.hp < p.maxHp
    case Gaara => p.equips.armor.Some?
    case Itachi => p.hp <= 2
    case Tsunade => p.hp <= 3
    case Jiraiya => |p.hand| >= 3
    case Orochimaru => p.hp <= 1
    case Pain => p.hp <= 3
    case Madara => p.hp <= 2
    case Minato => |p.hand| >= 3
  }

  /** `checkUltimateAvailable` (App.tsx:45-64). */
  function CheckUltimateAvailable(p: Player): (r: bool)
    ensures r ==> !p.isAi && p.flags.ultCooldown <= 0
  {
    if p.isAi then false
    else if p.flags.ultCooldown > 0 then false
    else UltimateCondition(p)
  }

  /** An AI never has its ultimate available, and a human has it exactly when off cooldown and the condition holds. */
  lemma UltimateAvailableExactly(p: Player)
    ensures CheckUltimateAvailable(p) <==> !p.isAi && p.flags.ultCooldown <= 0 && UltimateCondition(p)
  {}
}
