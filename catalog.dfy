/**
 * The static data of the game: the card library, the character roster and
 * the deck's count table (constants.ts).
 */
module Catalog {
  import opened Types

  /** The card library, in the source's order (constants.ts:28-47). */
  const CARD_LIBRARY: seq<CardDef> := [
    CardDef("atk", Attack, None),
    CardDef("dodge", Dodge, None),
    CardDef("heal", Heal, None),
    CardDef("draw", Draw, None),
    CardDef("fireball", DamageScroll, None),
    CardDef("chidori", Aoe, None),
    CardDef("duel", Duel, None),
    CardDef("steal", StealScroll, None),
    CardDef("dismantle", DiscardScroll, None),
    CardDef("tsukuyomi", SkipTurn, None),
    CardDef("negate", Negate, None),
    CardDef("vest", EquipArmor, None),
    CardDef("susanoo", EquipArmor, None),
    CardDef("kunai", EquipWeapon, Some(2)),
    CardDef("kusanagi", EquipWeapon, Some(3)),
    CardDef("shuriken_large", EquipWeapon, Some(4)),
    CardDef("akamaru", EquipOffHorse, None),
    CardDef("gamabunta", EquipDefHorse, None)
  ]

  /** The character roster with maximum hit points and ultimate target kinds (constants.ts:13-26). */
  const CHARACTERS: seq<Character> := [
    Character(Naruto, 4, TargetUlt),
    Character(Sasuke, 3, AoeUlt),
    Character(Kakashi, 4, TargetUlt),
    Character(Sakura, 4, SelfUlt),
    Character(Gaara, 5, TargetUlt),
    Character(Itachi, 3, TargetUlt),
    Character(Tsunade, 5, SelfUlt),
    Character(Jiraiya, 4, AoeUlt),
    Character(Orochimaru, 3, SelfUlt),
    Character(Pain, 5, GlobalUlt),
    Character(Madara, 4, GlobalUlt),
    Character(Minato, 3, TargetUlt)
  ]

  /** The deck's count table, in insertion order (constants.ts:51-58). */
  const COUNTS: seq<(string, nat)> := [
    ("atk", 24), ("dodge", 24), ("heal", 16), ("draw", 12),
    ("fireball", 6), ("chidori", 3), ("duel", 4), ("steal", 6), ("dismantle", 6),
    ("tsukuyomi", 3), ("negate", 7),
    ("vest", 3), ("susanoo", 2),
    ("kunai", 2), ("kusanagi", 1), ("shuriken_large", 1),
    ("akamaru", 3), ("gamabunta", 3)
  ]

  const DECK_SIZE := 126

  /** `CARD_LIBRARY.find(c => c.id === id)`: the first definition with that id, if any. */
  function FindDef(lib: seq<CardDef>, id: string): (r: Option<CardDef>)
    ensures r.Some? ==> r.value in lib && r.value.id == id
    ensures r.None? ==> forall d :: d in lib ==> d.id != id
  {
    if lib == [] then None
    else if lib[0].id == id then Some(lib[0])
    else FindDef(lib[1..], id)
  }

  /** The total of the first `e` entries of a count table. */
  function Total(table: seq<(string, nat)>, e: nat): nat
    requires e <= |table|
  {
    if e == 0 then 0 else Total(table, e - 1) + table[e - 1].1
  }

  /** The sum of the counts the first `e` entries of a table give to one id. */
  function CountFor(table: seq<(string, nat)>, e: nat, id: string): nat
    requires e <= |table|
  {
    if e == 0 then 0
    else CountFor(table, e - 1, id) + (if table[e - 1].0 == id then table[e - 1].1 else 0)
  }

  /** Every id of a count table has a definition in the library. */
  predicate AllFound(table: seq<(string, nat)>, lib: seq<CardDef>)
  {
    forall k :: 0 <= k < |table| ==> FindDef(lib, table[k].0).Some?
  }

  /** The ids of a count table are pairwise distinct, like the keys of a record. */
  predicate DistinctKeys(table: seq<(string, nat)>)
  {
    forall i, j :: 0 <= i < j < |table| ==> table[i].0 != table[j].0
  }

  /** With distinct keys, the count a table gives to one of its ids is that entry's count. */
  lemma {:induction false} CountForEntry(table: seq<(string, nat)>, e: nat, k: nat)
    requires DistinctKeys(table) && k < e <= |table|
    ensures CountFor(table, e, table[k].0) == table[k].1
  {
    if k == e - 1 {
      CountForAbsent(table, e - 1, table[k].0);
    } else {
      CountForEntry(table, e - 1, k);
    }
  }

  lemma {:induction false} CountForAbsent(table: seq<(string, nat)>, e: nat, id: string)
    requires e <= |table|
    requires forall k :: 0 <= k < e ==> table[k].0 != id
    ensures CountFor(table, e, id) == 0
  {
    if e > 0 {
      CountForAbsent(table, e - 1, id);
    }
  }

  /** The lookup finds every id that the library holds. */
  lemma {:induction false} FindDefFinds(lib: seq<CardDef>, k: nat)
    requires k < |lib|
    ensures FindDef(lib, lib[k].id).Some?
  {
    if lib[0].id != lib[k].id {
      assert lib[1..][k - 1] == lib[k];
      FindDefFinds(lib[1..], k - 1);
    }
  }

  /** The count table totals 126 cards (constants.ts:51-58). */
  lemma CountsTotal()
    ensures Total(COUNTS, |COUNTS|) == DECK_SIZE
  {
    var t := COUNTS;
    assert Total(t, 4) == 76;
    assert Total(t, 9) == 101;
    assert Total(t, 11) == 111;
    assert Total(t, 13) == 116;
    assert Total(t, 16) == 120;
  }

  /** The count table lists the library's ids in the library's order. */
  lemma CountsFollowLibrary()
    ensures |COUNTS| == |CARD_LIBRARY|
    ensures forall k :: 0 <= k < |COUNTS| ==> COUNTS[k].0 == CARD_LIBRARY[k].id
  {}

  /** No id of the count table is silently skipped by the library lookup (constants.ts:60-62). */
  lemma CountsAllFound()
    ensures AllFound(COUNTS, CARD_LIBRARY)
  {
    CountsFollowLibrary();
    forall k | 0 <= k < |COUNTS| ensures FindDef(CARD_LIBRARY, COUNTS[k].0).Some? {
      FindDefFinds(CARD_LIBRARY, k);
    }
  }

  /** A key's length with the codes of its first and last letters, packed in one number. */
  function KeyTag(s: string): int
  {
    if s == [] then 0 else |s| * 1000000 + (s[0] as int) * 1000 + (s[|s| - 1] as int)
  }

  /** The position in the count table of the key with a given tag, -1 for a tag no key has. */
  function TagPosition(tag: int): int
  {
    match tag
    case 3097107 => 0
    case 5100101 => 1
    case 4104108 => 2
    case 4100119 => 3
    case 8102108 => 4
    case 7099105 => 5
    case 4100108 => 6
    case 5115108 => 7
    case 9100101 => 8
    case 9116105 => 9
    case 6110101 => 10
    case 4118116 => 11
    case 7115111 => 12
    case 5107105 => 13
    case 8107105 => 14
    case 14115101 => 15
    case 7097117 => 16
    case 9103097 => 17
    case _ => -1
  }

  /** The keys of the count table are distinct: the tag of each key gives back its position. */
  lemma CountsDistinct()
    ensures DistinctKeys(COUNTS)
  {
    forall k | 0 <= k < |COUNTS| ensures TagPosition(KeyTag(COUNTS[k].0)) == k {
      KeyPosition(k);
    }
  }

  lemma KeyPosition(k: nat)
    requires k < |COUNTS|
    ensures TagPosition(KeyTag(COUNTS[k].0)) == k
  {
    if k < 6 {
      assert k == 0 || k == 1 || k == 2 || k == 3 || k == 4 || k == 5;
    } else if k < 12 {
      assert k == 6 || k == 7 || k == 8 || k == 9 || k == 10 || k == 11;
    } else {
      assert k == 12 || k == 13 || k == 14 || k == 15 || k == 16 || k == 17;
    }
  }

  /** Exactly the weapon definitions carry an attack range, and it is 2, 3 or 4 (constants.ts:42-44). */
  lemma WeaponRanges()
    ensures forall k :: 0 <= k < |CARD_LIBRARY| ==>
      (CARD_LIBRARY[k].kind == EquipWeapon <==> CARD_LIBRARY[k].attackRange.Some?)
    ensures forall k :: 0 <= k < |CARD_LIBRARY| && CARD_LIBRARY[k].attackRange.Some? ==>
      2 <= CARD_LIBRARY[k].attackRange.value <= 4
  {}

  /** The roster lookup `CHARACTERS.find(c => c.id === id)`; every id has exactly one entry. */
  function CharacterOf(id: CharId): (c: Character)
    ensures c in CHARACTERS && c.id == id
    ensures forall k :: 0 <= k < |CHARACTERS| && CHARACTERS[k].id == id ==> CHARACTERS[k] == c
  {
    match id
    case Naruto => CHARACTERS[0]
    case Sasuke => CHARACTERS[1]
    case Kakashi => CHARACTERS[2]
    case Sakura => CHARACTERS[3]
    case Gaara => CHARACTERS[4]
    case Itachi => CHARACTERS[5]
    case Tsunade => CHARACTERS[6]
    case Jiraiya => CHARACTERS[7]
    case Orochimaru => CHARACTERS[8]
    case Pain => CHARACTERS[9]
    case Madara => CHARACTERS[10]
    case Minato => CHARACTERS[11]
  }
}
