/**
 * The data model of the card-battle game: card kinds, suits, card
 * definitions and instances, characters, players, the pending action and
 * the game state (types.ts).  Every string-literal union of the source is
 * a closed datatype here, so a phase, a suit or a follow-up tag cannot hold
 * any other value.
 */
module Types {

  datatype Option<+T> = None | Some(value: T)

  /** The card kinds of `CardType` (types.ts:2-18). */
  datatype CardKind =
    | Attack | Dodge | Heal | Draw | Aoe
    | DamageScroll | DiscardScroll | StealScroll
    | Duel | Negate | SkipTurn
    | EquipArmor | EquipWeapon | EquipOffHorse | EquipDefHorse

  /** The string value each kind carries in the source. */
  function KindName(k: CardKind): string
  {
    match k
    case Attack => "attack"
    case Dodge => "dodge"
    case Heal => "heal"
    case Draw => "draw"
    case Aoe => "aoe"
    case DamageScroll => "damage_scroll"
    case DiscardScroll => "discard_scroll"
    case StealScroll => "steal_scroll"
    case Duel => "duel"
    case Negate => "negate"
    case SkipTurn => "skip_turn"
    case EquipArmor => "equip_armor"
    case EquipWeapon => "equip_weapon"
    case EquipOffHorse => "equip_off_horse"
    case EquipDefHorse => "equip_def_horse"
  }

  /** `s.includes(sub)` of JavaScript, restricted to a prefix test at each position. */
  predicate HasPrefix(s: string, p: string)
  {
    |p| <= |s| && s[..|p|] == p
  }

  predicate Includes(s: string, sub: string)
    decreases |s|
  {
    HasPrefix(s, sub) || (|s| > 0 && Includes(s[1..], sub))
  }

  /** The source tests for equipment with `card.type.includes('equip')`. */
  predicate IsEquipKind(k: CardKind)
  {
    Includes(KindName(k), "equip")
  }

  /** The four suits of a playing card (types.ts:35). */
  datatype Suit = Spade | Heart | Club | Diamond

  predicate IsRed(s: Suit) { s == Heart || s == Diamond }

  /** A card definition of the library: id, kind and, for weapons, the attack range (types.ts:22-31). */
  datatype CardDef = CardDef(id: string, kind: CardKind, attackRange: Option<int>)

  /**
   * The instance id of a card.  The source formats it as
   * `<id>-<i>-<random suffix>`; the model keeps the definition id and the
   * index, which already make it unique within a generated deck.
   */
  datatype UniqueId = Generated(defId: string, index: nat) | GaaraVest

  /** A card instance: its definition's fields, an instance id, a suit and a rank (types.ts:33-37). */
  datatype PlayingCard = PlayingCard(def: CardDef, uniqueId: UniqueId, suit: Suit, number: int)
  {
    function Kind(): CardKind { def.kind }
  }

  /** The twelve character ids of the roster (constants.ts:13-26). */
  datatype CharId =
    | Naruto | Sasuke | Kakashi | Sakura | Gaara | Itachi
    | Tsunade | Jiraiya | Orochimaru | Pain | Madara | Minato

  /** The kind of target an ultimate skill takes (types.ts:44). */
  datatype UltType = TargetUlt | SelfUlt | AoeUlt | GlobalUlt

  /** A character definition: id, maximum hit points and the ultimate's target kind (types.ts:48-54). */
  datatype Character = Character(id: CharId, maxHp: int, ultType: UltType)

  /** The two flags the source keeps in `flags`: `ult_cooldown` and `used_ult`. */
  datatype Flags = Flags(ultCooldown: int, usedUlt: bool)

  /** The four equipment slots, each holding at most one card (types.ts:63-68). */
  datatype Slot = WeaponSlot | ArmorSlot | OffHorseSlot | DefHorseSlot

  datatype Equips = Equips(
    weapon: Option<PlayingCard>,
    armor: Option<PlayingCard>,
    offHorse: Option<PlayingCard>,
    defHorse: Option<PlayingCard>)

  const NoEquips := Equips(None, None, None, None)

  function GetSlot(e: Equips, sl: Slot): Option<PlayingCard>
  {
    match sl
    case WeaponSlot => e.weapon
    case ArmorSlot => e.armor
    case OffHorseSlot => e.offHorse
    case DefHorseSlot => e.defHorse
  }

  /** Puts `c` into slot `sl`; the other three slots keep their cards. */
  function SetSlot(e: Equips, sl: Slot, c: Option<PlayingCard>): (r: Equips)
    ensures GetSlot(r, sl) == c
    ensures forall other: Slot :: other != sl ==> GetSlot(r, other) == GetSlot(e, other)
  {
    match sl
    case WeaponSlot => e.(weapon := c)
    case ArmorSlot => e.(armor := c)
    case OffHorseSlot => e.(offHorse := c)
    case DefHorseSlot => e.(defHorse := c)
  }

  /** The slot an equipment kind goes into (App.tsx:709-712); none for the other kinds. */
  function SlotOf(k: CardKind): Option<Slot>
  {
    match k
    case EquipArmor => Some(ArmorSlot)
    case EquipWeapon => Some(WeaponSlot)
    case EquipOffHorse => Some(OffHorseSlot)
    case EquipDefHorse => Some(DefHorseSlot)
    case _ => None
  }

  /** A seat's player (types.ts:56-74); `id` is the seat index (0 is the human). */
  datatype Player = Player(
    id: nat,
    isAi: bool,
    character: Character,
    hp: int,
    maxHp: int,
    hand: seq<PlayingCard>,
    equips: Equips,
    isTurn: bool,
    isDying: bool,
    skippedTurn: bool,
    hasPlayedAttack: int,
    flags: Flags)

  /** The five phases of a turn (types.ts:81). */
  datatype Phase = Start | DrawPhase | Play | Discard | End

  /** The two kinds of pending action (types.ts:95). */
  datatype PendingType = ResponseCard | Judgement

  /** The only judgement step the source ever writes (types.ts:101). */
  datatype JudgementStep = DrawStep

  /** The follow-up tag of a response window (types.ts:102). */
  datatype ActionAfter = AfterDamage | AfterResolve | AfterJudgement | AfterStartDuel | AfterDuelRound

  /** A player id or the pseudo-target `'ALL_OTHERS'` of an area judgement. */
  datatype Target = Seat(seat: nat) | AllOthers

  /** The pending action (types.ts:94-103), without its display message. */
  datatype PendingAction = PendingAction(
    kind: PendingType,
    sourceId: nat,
    targetId: Target,
    cardUsed: PlayingCard,
    cardNeeded: Option<CardKind>,
    judgementStep: Option<JudgementStep>,
    actionAfter: Option<ActionAfter>)

  /** The game state (types.ts:76-86), without logs and the UI's discard selection. */
  datatype GameState = GameState(
    players: seq<Player>,
    deck: seq<PlayingCard>,
    discardPile: seq<PlayingCard>,
    turnIndex: nat,
    phase: Phase,
    pendingAction: Option<PendingAction>,
    winner: Option<Player>)

  /** Seats are numbered by position and the turn index points at a seat. */
  predicate Seated(s: GameState)
  {
    0 < |s.players|
    && s.turnIndex < |s.players|
    && forall i :: 0 <= i < |s.players| ==> s.players[i].id == i
  }

  /** The substring test on the kind names picks out exactly the four equipment kinds. */
  lemma EquipKindsAreTheSlotKinds(k: CardKind)
    ensures IsEquipKind(k) <==> SlotOf(k).Some?
  {
    match k
    case EquipArmor => assert HasPrefix(KindName(k), "equip");
    case EquipWeapon => assert HasPrefix(KindName(k), "equip");
    case EquipOffHorse => assert HasPrefix(KindName(k), "equip");
    case EquipDefHorse => assert HasPrefix(KindName(k), "equip");
    case _ => NoQ(KindName(k));
  }

  /** A string without the letter q never includes "equip". */
  lemma {:induction false} NoQ(s: string)
    requires forall i :: 0 <= i < |s| ==> s[i] != 'q'
    ensures !Includes(s, "equip")
  {
    if |s| > 0 {
      assert !HasPrefix(s, "equip") by {
        if |s| >= 5 { assert s[1] != 'q'; }
      }
      NoQ(s[1..]);
    }
  }
}
