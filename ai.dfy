/**
 * The AI's play step, `executeAiTurn` (App.tsx:542-646): a threat score over
 * the opponents and a fixed ladder of priorities that picks at most one card
 * to play, or ends the play phase.
 */
module Ai {
  import opened Types
  import opened Rules
  import opened Shuffle
  import opened State
  import opened Play

  /** `calculateThreat` (App.tsx:550-561): how attractive `t` is as a target for `me`. */
  function Threat(me: Player, t: Player): int
  {
    (if t.hp == 1 then 50 else (t.maxHp - t.hp) * 5)
    + |t.hand| * 2
    - (if t.equips.armor.Some? && me.character.id != Sasuke then 15 else 0)
    - (if t.equips.defHorse.Some? then 5 else 0)
    - (if !t.isAi then 15 else 0)
  }

  /** `players.filter(p => p.id !== player.id && p.hp > 0)` (App.tsx:545). */
  function Opponents(ps: seq<Player>, me: nat): (r: seq<Player>)
    ensures |r| <= |ps|
    ensures forall k :: 0 <= k < |r| ==> r[k] in ps && r[k].id != me && r[k].hp > 0
    ensures forall p :: p in ps && p.id != me && p.hp > 0 ==> p in r
  {
    if ps == [] then []
    else (if ps[0].id != me && ps[0].hp > 0 then [ps[0]] else []) + Opponents(ps[1..], me)
  }

  /**
   * The index that `sort((a, b) => threat(b) - threat(a))[0]` picks: the
   * sort is stable, so it is the first player of maximal threat.
   */
  function BestIndex(me: Player, c: seq<Player>): (r: nat)
    requires |c| > 0
    ensures r < |c|
    ensures forall k :: 0 <= k < |c| ==> Threat(me, c[k]) <= Threat(me, c[r])
    ensures forall k :: 0 <= k < r ==> Threat(me, c[k]) < Threat(me, c[r])
  {
    if |c| == 1 then 0
    else
      var j := BestIndex(me, c[1..]) + 1;
      assert forall k :: 1 <= k < |c| ==> c[k] == c[1..][k - 1];
      if Threat(me, c[0]) >= Threat(me, c[j]) then 0 else j
  }

  /** The best target of a candidate list, none for an empty list (App.tsx:563-567, 590-594). */
  function BestOf(me: Player, c: seq<Player>): (r: Option<Player>)
    ensures r.None? <==> c == []
    ensures r.Some? ==> r.value in c && forall k :: 0 <= k < |c| ==> Threat(me, c[k]) <= Threat(me, r.value)
  {
    if c == [] then None else Some(c[BestIndex(me, c)])
  }

  /** An opponent in attack range that the attack card is not stopped on. */
  predicate Hittable(me: Player, card: PlayingCard, p: Player, all: seq<Player>)
  {
    WithinRange(GetDistance(me, p, all), GetAttackRange(me)) && !IsImmuneToAttack(me, p, Some(card))
  }

  /** `opponents.filter(...)` for the attack (App.tsx:591): exactly the hittable opponents, in seat order. */
  function AttackTargets(me: Player, card: PlayingCard, opp: seq<Player>, all: seq<Player>): (r: seq<Player>)
    ensures |r| <= |opp|
    ensures forall k :: 0 <= k < |r| ==>
      r[k] in opp && WithinRange(GetDistance(me, r[k], all), GetAttackRange(me)) && !IsImmuneToAttack(me, r[k], Some(card))
    ensures forall p :: p in opp && Hittable(me, card, p, all) ==> p in r
  {
    if opp == [] then []
    else
      var p := opp[0];
      (if WithinRange(GetDistance(me, p, all), GetAttackRange(me)) && !IsImmuneToAttack(me, p, Some(card)) then [p] else [])
      + AttackTargets(me, card, opp[1..], all)
  }

  /** `Object.values(p.equips).some(e => !!e)`. */
  predicate HasEquipment(p: Player)
  {
    p.equips.weapon.Some? || p.equips.armor.Some? || p.equips.offHorse.Some? || p.equips.defHorse.Some?
  }

  /** An opponent at distance 1 with a card in hand or a slot. */
  predicate Robbable(me: Player, p: Player, all: seq<Player>)
  {
    GetDistance(me, p, all) <= 1 && (p.hand != [] || HasEquipment(p))
  }

  /** The steal target `opponents.find(...)` (App.tsx:624): the first robbable opponent, none when there is none. */
  function StealTarget(me: Player, opp: seq<Player>, all: seq<Player>): (r: Option<Player>)
    ensures r.Some? ==> r.value in opp && Robbable(me, r.value, all)
    ensures r.Some? ==> exists i :: 0 <= i < |opp| && opp[i] == r.value && forall j :: 0 <= j < i ==> !Robbable(me, opp[j], all)
    ensures r.None? <==> forall i :: 0 <= i < |opp| ==> !Robbable(me, opp[i], all)
  {
    if opp == [] then None
    else if Robbable(me, opp[0], all) then Some(opp[0])
    else
      var r := StealTarget(me, opp[1..], all);
      assert forall i :: 1 <= i < |opp| ==> opp[i] == opp[1..][i - 1];
      assert r.Some? ==> exists i :: 0 <= i < |opp| && opp[i] == r.value && forall j :: 0 <= j < i ==> !Robbable(me, opp[j], all) by {
        if r.Some? {
          var i :| 0 <= i < |opp[1..]| && opp[1..][i] == r.value && forall j :: 0 <= j < i ==> !Robbable(me, opp[1..][j], all);
          assert opp[i + 1] == r.value;
        }
      }
      r
  }

  /** The four equipment kinds the AI looks for (App.tsx:578-583). */
  predicate IsEquipCard(k: CardKind)
  {
    k == EquipWeapon || k == EquipArmor || k == EquipOffHorse || k == EquipDefHorse
  }

  /** `hand.filter(isEquip)[0]`. */
  function FirstEquip(h: seq<PlayingCard>): (r: Option<PlayingCard>)
    ensures r.Some? ==> r.value in h && IsEquipCard(r.value.Kind())
    ensures r.Some? ==> exists i :: 0 <= i < |h| && h[i] == r.value && forall j :: 0 <= j < i ==> !IsEquipCard(h[j].Kind())
    ensures r.None? <==> forall i :: 0 <= i < |h| ==> !IsEquipCard(h[i].Kind())
  {
    if h == [] then None
    else if IsEquipCard(h[0].Kind()) then Some(h[0])
    else
      var r := FirstEquip(h[1..]);
      assert forall i :: 1 <= i < |h| ==> h[i] == h[1..][i - 1];
      assert r.Some? ==> exists i :: 0 <= i < |h| && h[i] == r.value && forall j :: 0 <= j < i ==> !IsEquipCard(h[j].Kind()) by {
        if r.Some? {
          var i :| 0 <= i < |h[1..]| && h[1..][i] == r.value && forall j :: 0 <= j < i ==> !IsEquipCard(h[1..][j].Kind());
          assert h[i + 1] == r.value;
        }
      }
      r
  }

  /** `c.type === a || c.type === b`. */
  predicate EitherKind(c: PlayingCard, a: CardKind, b: CardKind)
  {
    c.Kind() == a || c.Kind() == b
  }

  /** `hand.find(c => c.type === a || c.type === b)` (App.tsx:615). */
  function FirstOfEither(h: seq<PlayingCard>, a: CardKind, b: CardKind): (r: Option<PlayingCard>)
    ensures r.Some? ==> r.value in h && (r.value.Kind() == a || r.value.Kind() == b)
    ensures r.Some? ==> exists i :: 0 <= i < |h| && h[i] == r.value && forall j :: 0 <= j < i ==> !EitherKind(h[j], a, b)
    ensures r.None? <==> forall i :: 0 <= i < |h| ==> h[i].Kind() != a && h[i].Kind() != b
  {
    if h == [] then None
    else if EitherKind(h[0], a, b) then Some(h[0])
    else
      var r := FirstOfEither(h[1..], a, b);
      assert forall i :: 1 <= i < |h| ==> h[i] == h[1..][i - 1];
      assert r.Some? ==> exists i :: 0 <= i < |h| && h[i] == r.value && forall j :: 0 <= j < i ==> !EitherKind(h[j], a, b) by {
        if r.Some? {
          var i :| 0 <= i < |h[1..]| && h[1..][i] == r.value && forall j :: 0 <= j < i ==> !EitherKind(h[1..][j], a, b);
          assert h[i + 1] == r.value;
        }
      }
      r
  }

  /** What the AI does: play one card, at a chosen player or at none, or end the play phase. */
  datatype AiMove = PlayCard(card: PlayingCard, target: Option<Player>) | EndPlay

  /** A move that plays a card of the hand, aimed exactly when its kind needs a target, and then at an opponent. */
  predicate LegalMove(me: Player, opp: seq<Player>, m: AiMove)
  {
    m.PlayCard? ==>
      m.card in me.hand
      && (m.target.Some? <==> NeedsTarget(m.card.Kind()))
      && (m.target.Some? ==> m.target.value in opp)
  }

  /** A rung of the ladder that, when it fires, plays a card of kind `k1` or `k2` legally. */
  predicate Fires(me: Player, opp: seq<Player>, r: Option<AiMove>, k1: CardKind, k2: CardKind)
  {
    r.Some? ==> r.value.PlayCard? && LegalMove(me, opp, r.value) && (r.value.card.Kind() == k1 || r.value.card.Kind() == k2)
  }

  /** At 2 hit points or fewer: the first heal card, else the first draw card (App.tsx:570-575). */
  function Urgent(me: Player, opp: seq<Player>): (r: Option<AiMove>)
    ensures Fires(me, opp, r, Heal, Draw)
    ensures r.Some? <==> me.hp <= 2 && exists i :: 0 <= i < |me.hand| && (me.hand[i].Kind() == Heal || me.hand[i].Kind() == Draw)
  {
    var heal := FirstOfKind(me.hand, Heal);
    var draw := FirstOfKind(me.hand, Draw);
    if me.hp <= 2 && heal.Some? then Some(PlayCard(heal.value, None))
    else if me.hp <= 2 && draw.Some? then Some(PlayCard(draw.value, None))
    else None
  }

  /** The first equipment card of the hand (App.tsx:577-586). */
  function Gear(me: Player, opp: seq<Player>): (r: Option<AiMove>)
    ensures r.Some? ==> r.value.PlayCard? && r.value.card in me.hand && IsEquipCard(r.value.card.Kind()) && r.value.target == None
    ensures r.None? <==> forall i :: 0 <= i < |me.hand| ==> !IsEquipCard(me.hand[i].Kind())
  {
    var e := FirstEquip(me.hand);
    if e.Some? then Some(PlayCard(e.value, None)) else None
  }

  /** `card`, when there is one, played at the best of the candidates `c`, when there are any. */
  function AtBest(me: Player, card: Option<PlayingCard>, c: seq<Player>): (r: Option<AiMove>)
    ensures r.Some? <==> card.Some? && c != []
    ensures r.Some? ==> r == Some(PlayCard(card.value, Some(c[BestIndex(me, c)])))
  {
    if card.Some? && c != [] then Some(PlayCard(card.value, BestOf(me, c))) else None
  }

  /** The skip card at the most threatening opponent (App.tsx:596-601). */
  function SkipRung(me: Player, opp: seq<Player>): (r: Option<AiMove>)
    ensures Fires(me, opp, r, SkipTurn, SkipTurn)
    ensures r.None? <==> opp == [] || forall i :: 0 <= i < |me.hand| ==> me.hand[i].Kind() != SkipTurn
  {
    AtBest(me, FirstOfKind(me.hand, SkipTurn), opp)
  }

  /**
   * An attack, when none was played this turn, at the most threatening
   * opponent in range that the card is not stopped on (App.tsx:603-612).
   */
  function Strike(me: Player, opp: seq<Player>, ps: seq<Player>): (r: Option<AiMove>)
    ensures Fires(me, opp, r, Attack, Attack)
    ensures r.Some? ==> me.hasPlayedAttack < 1 && var c := AttackTargets(me, r.value.card, opp, ps);
      c != [] && r.value.target == Some(c[BestIndex(me, c)])
    ensures r.None? <==> var attack := FirstOfKind(me.hand, Attack);
      attack.None? || me.hasPlayedAttack >= 1 || AttackTargets(me, attack.value, opp, ps) == []
  {
    var attack := FirstOfKind(me.hand, Attack);
    var r := if attack.Some? && me.hasPlayedAttack < 1 then AtBest(me, attack, AttackTargets(me, attack.value, opp, ps)) else None;
    assert r.Some? ==> r.value.target.value in opp by {
      if r.Some? {
        var c := AttackTargets(me, attack.value, opp, ps);
        assert c[BestIndex(me, c)] in opp;
      }
    }
    r
  }

  /** The fire scroll or the duel at the most threatening opponent (App.tsx:614-619). */
  function ScrollRung(me: Player, opp: seq<Player>): (r: Option<AiMove>)
    ensures Fires(me, opp, r, DamageScroll, Duel)
    ensures r.None? <==> opp == [] || forall i :: 0 <= i < |me.hand| ==> me.hand[i].Kind() != DamageScroll && me.hand[i].Kind() != Duel
  {
    AtBest(me, FirstOfEither(me.hand, DamageScroll, Duel), opp)
  }

  /** The steal scroll at the first opponent at distance 1 that has a card to take (App.tsx:621-626). */
  function Rob(me: Player, opp: seq<Player>, ps: seq<Player>): (r: Option<AiMove>)
    ensures Fires(me, opp, r, StealScroll, StealScroll)
    ensures r.Some? ==> var t := r.value.target.value; GetDistance(me, t, ps) <= 1 && (t.hand != [] || HasEquipment(t))
    ensures r.None? <==> StealTarget(me, opp, ps).None? || forall i :: 0 <= i < |me.hand| ==> me.hand[i].Kind() != StealScroll
  {
    var steal := FirstOfKind(me.hand, StealScroll);
    var t := StealTarget(me, opp, ps);
    if steal.Some? && t.Some? then Some(PlayCard(steal.value, t)) else None
  }

  /** The dismantle scroll at the most threatening opponent (App.tsx:628-632). */
  function DismantleRung(me: Player, opp: seq<Player>): (r: Option<AiMove>)
    ensures Fires(me, opp, r, DiscardScroll, DiscardScroll)
    ensures r.None? <==> opp == [] || forall i :: 0 <= i < |me.hand| ==> me.hand[i].Kind() != DiscardScroll
  {
    AtBest(me, FirstOfKind(me.hand, DiscardScroll), opp)
  }

  /** The area card, else the draw card, else a heal below full health (App.tsx:634-643). */
  function Filler(me: Player, opp: seq<Player>): (r: Option<AiMove>)
    ensures r.Some? ==>
      r.value.PlayCard? && LegalMove(me, opp, r.value)
      && (r.value.card.Kind() == Aoe || r.value.card.Kind() == Draw || (r.value.card.Kind() == Heal && me.hp < me.maxHp))
    ensures r.None? <==> forall i :: 0 <= i < |me.hand| ==>
      me.hand[i].Kind() != Aoe && me.hand[i].Kind() != Draw && (me.hand[i].Kind() == Heal ==> me.hp >= me.maxHp)
    ensures r.Some? && r.value.card.Kind() == Aoe ==> FirstOfKind(me.hand, Aoe) == Some(r.value.card)
    ensures r.Some? && r.value.card.Kind() == Draw ==> FirstOfKind(me.hand, Draw) == Some(r.value.card)
    ensures r.Some? && r.value.card.Kind() == Heal ==> FirstOfKind(me.hand, Heal) == Some(r.value.card)
    ensures r.Some? && r.value.card.Kind() != Aoe ==> forall i :: 0 <= i < |me.hand| ==> me.hand[i].Kind() != Aoe
    ensures r.Some? && r.value.card.Kind() == Heal ==> forall i :: 0 <= i < |me.hand| ==> me.hand[i].Kind() != Draw
  {
    var aoe := FirstOfKind(me.hand, Aoe);
    if aoe.Some? then Some(PlayCard(aoe.value, None)) else DrawOrHeal(me, opp)
  }

  /** Below the area card: the draw card, else a heal below full health. */
  function DrawOrHeal(me: Player, opp: seq<Player>): (r: Option<AiMove>)
    ensures r.Some? ==>
      r.value.PlayCard? && LegalMove(me, opp, r.value)
      && (r.value.card.Kind() == Draw || (r.value.card.Kind() == Heal && me.hp < me.maxHp))
    ensures r.None? <==> forall i :: 0 <= i < |me.hand| ==>
      me.hand[i].Kind() != Draw && (me.hand[i].Kind() == Heal ==> me.hp >= me.maxHp)
    ensures r.Some? && r.value.card.Kind() == Draw ==> FirstOfKind(me.hand, Draw) == Some(r.value.card)
    ensures r.Some? && r.value.card.Kind() == Heal ==> FirstOfKind(me.hand, Heal) == Some(r.value.card)
    ensures r.Some? && r.value.card.Kind() == Heal ==> forall i :: 0 <= i < |me.hand| ==> me.hand[i].Kind() != Draw
  {
    var draw := FirstOfKind(me.hand, Draw);
    var heal := FirstOfKind(me.hand, Heal);
    if draw.Some? then Some(PlayCard(draw.value, None))
    else if heal.Some? && me.hp < me.maxHp then Some(PlayCard(heal.value, None))
    else None
  }

  /** A rung that fires plays a card legally, and one that is not the attack rung plays no attack. */
  predicate RungOk(me: Player, opp: seq<Player>, x: Option<AiMove>, noAttack: bool)
  {
    x != Some(EndPlay) && (x.Some? ==> LegalMove(me, opp, x.value) && (noAttack ==> x.value.card.Kind() != Attack))
  }

  lemma RungsOk(me: Player, opp: seq<Player>, ps: seq<Player>)
    ensures RungOk(me, opp, Urgent(me, opp), true) && RungOk(me, opp, Gear(me, opp), true)
    ensures RungOk(me, opp, SkipRung(me, opp), true) && RungOk(me, opp, Strike(me, opp, ps), false)
    ensures RungOk(me, opp, ScrollRung(me, opp), true) && RungOk(me, opp, Rob(me, opp, ps), true)
    ensures RungOk(me, opp, DismantleRung(me, opp), true) && RungOk(me, opp, Filler(me, opp), true)
  {
    UpperRungsOk(me, opp, ps);
    ScrollRobOk(me, opp, ps);
    DismantleFillerOk(me, opp);
  }

  lemma UpperRungsOk(me: Player, opp: seq<Player>, ps: seq<Player>)
    ensures RungOk(me, opp, Urgent(me, opp), true) && RungOk(me, opp, Gear(me, opp), true)
    ensures RungOk(me, opp, SkipRung(me, opp), true) && RungOk(me, opp, Strike(me, opp, ps), false)
  {
    var g := Gear(me, opp);
    assert g.Some? ==> !NeedsTarget(g.value.card.Kind());
  }

  lemma ScrollRobOk(me: Player, opp: seq<Player>, ps: seq<Player>)
    ensures RungOk(me, opp, ScrollRung(me, opp), true) && RungOk(me, opp, Rob(me, opp, ps), true)
  {}

  lemma DismantleFillerOk(me: Player, opp: seq<Player>)
    ensures RungOk(me, opp, DismantleRung(me, opp), true) && RungOk(me, opp, Filler(me, opp), true)
  {}

  /** The rung `x` when it fires, the rest of the ladder otherwise. */
  function Pick(x: Option<AiMove>, rest: AiMove): AiMove
  {
    if x.Some? then x.value else rest
  }

  /** The rungs from the steal scroll down. */
  function LowerRungs(me: Player, opp: seq<Player>, ps: seq<Player>): AiMove
  {
    Pick(Rob(me, opp, ps), Pick(DismantleRung(me, opp), Pick(Filler(me, opp), EndPlay)))
  }

  /**
   * The ladder of `executeAiTurn` (App.tsx:569-645) for the player `me` at
   * the table `ps`: the first rung that fires, in the source's order;
   * otherwise the play phase ends.
   */
  function Choose(me: Player, ps: seq<Player>): AiMove
  {
    var opp := Opponents(ps, me.id);
    Pick(Urgent(me, opp), Pick(Gear(me, opp), Pick(SkipRung(me, opp), Pick(Strike(me, opp, ps),
      Pick(ScrollRung(me, opp), LowerRungs(me, opp, ps))))))
  }

  /** A pick of legal moves is legal, and plays an attack only when the rung or the rest does. */
  lemma PickOk(me: Player, opp: seq<Player>, x: Option<AiMove>, noAttack: bool, rest: AiMove)
    requires RungOk(me, opp, x, noAttack) && LegalMove(me, opp, rest)
    ensures LegalMove(me, opp, Pick(x, rest))
    ensures noAttack && Pick(x, rest).PlayCard? && Pick(x, rest).card.Kind() == Attack ==> Pick(x, rest) == rest
  {}

  /** The rungs from the steal scroll down play no attack card. */
  lemma LowerOk(me: Player, opp: seq<Player>, ps: seq<Player>)
    ensures var m := LowerRungs(me, opp, ps); LegalMove(me, opp, m) && (m.PlayCard? ==> m.card.Kind() != Attack)
  {
    RungsOk(me, opp, ps);
  }

  /**
   * The AI plays a card of its own hand. It aims exactly the kinds that need
   * a target, and always at one of its opponents.
   */
  lemma ChooseLegal(me: Player, ps: seq<Player>)
    ensures LegalMove(me, Opponents(ps, me.id), Choose(me, ps))
  {
    var opp := Opponents(ps, me.id);
    RungsOk(me, opp, ps);
    LowerOk(me, opp, ps);
    var m4 := Pick(ScrollRung(me, opp), LowerRungs(me, opp, ps));
    PickOk(me, opp, ScrollRung(me, opp), true, LowerRungs(me, opp, ps));
    var m3 := Pick(Strike(me, opp, ps), m4);
    PickOk(me, opp, Strike(me, opp, ps), false, m4);
    var m2 := Pick(SkipRung(me, opp), m3);
    PickOk(me, opp, SkipRung(me, opp), true, m3);
    var m1 := Pick(Gear(me, opp), m2);
    PickOk(me, opp, Gear(me, opp), true, m2);
    PickOk(me, opp, Urgent(me, opp), true, m1);
  }

  /** The move of the player whose turn it is. */
  function AiChoice(s: GameState): AiMove
    requires Valid(s)
  {
    Choose(s.players[s.turnIndex], s.players)
  }

  /** A player of a seated list sits at the seat its id names. */
  lemma SeatOf(s: GameState, p: Player)
    requires Valid(s) && p in s.players
    ensures p.id < |s.players| && s.players[p.id] == p
  {
    var i :| 0 <= i < |s.players| && s.players[i] == p;
  }

  /** The AI's target, when it has one, is an alive player at another seat than its own. */
  lemma AiTargetsOpponent(s: GameState)
    requires Valid(s)
    ensures var m := AiChoice(s);
      m.PlayCard? && m.target.Some? ==>
        var p := m.target.value;
        p.id < |s.players| && s.players[p.id] == p && p.id != s.turnIndex && p.hp > 0
  {
    var me := s.players[s.turnIndex];
    ChooseLegal(me, s.players);
    var opp := Opponents(s.players, me.id);
    var m := AiChoice(s);
    if m.PlayCard? && m.target.Some? {
      var p := m.target.value;
      var i :| 0 <= i < |opp| && opp[i] == p;
      SeatOf(s, p);
    }
  }

  /**
   * The AI attacks only when it has not attacked this turn (a cap of one,
   * where the human may attack twice), at an opponent in range that the
   * card is not stopped on, and at the first such opponent of maximal threat
   * (App.tsx:603-612).
   */
  lemma AiAttackLegal(me: Player, ps: seq<Player>)
    requires Choose(me, ps).PlayCard? && Choose(me, ps).card.Kind() == Attack
    ensures var r := Choose(me, ps);
      var c := AttackTargets(me, r.card, Opponents(ps, me.id), ps);
      me.hasPlayedAttack < 1 && c != [] && r.target == Some(c[BestIndex(me, c)])
      && WithinRange(GetDistance(me, r.target.value, ps), GetAttackRange(me))
      && !IsImmuneToAttack(me, r.target.value, Some(r.card))
    ensures var r := Choose(me, ps);
      forall p :: p in Opponents(ps, me.id) && Hittable(me, r.card, p, ps) ==> Threat(me, p) <= Threat(me, r.target.value)
  {
    var opp := Opponents(ps, me.id);
    RungsOk(me, opp, ps);
    LowerOk(me, opp, ps);
    var m4 := Pick(ScrollRung(me, opp), LowerRungs(me, opp, ps));
    PickOk(me, opp, ScrollRung(me, opp), true, LowerRungs(me, opp, ps));
    var m3 := Pick(Strike(me, opp, ps), m4);
    var m2 := Pick(SkipRung(me, opp), m3);
    PickOk(me, opp, SkipRung(me, opp), true, m3);
    var m1 := Pick(Gear(me, opp), m2);
    PickOk(me, opp, Gear(me, opp), true, m2);
    PickOk(me, opp, Urgent(me, opp), true, m1);
    assert Choose(me, ps) == m3 == Strike(me, opp, ps).value;
    var r := m3;
    var c := AttackTargets(me, r.card, opp, ps);
    assert c[BestIndex(me, c)] in c;
    BestOfHittable(me, r.card, opp, ps);
  }

  /** The best attack candidate is at least as threatening as every hittable opponent. */
  lemma BestOfHittable(me: Player, card: PlayingCard, opp: seq<Player>, ps: seq<Player>)
    requires AttackTargets(me, card, opp, ps) != []
    ensures var c := AttackTargets(me, card, opp, ps);
      forall p :: p in opp && Hittable(me, card, p, ps) ==> Threat(me, p) <= Threat(me, c[BestIndex(me, c)])
  {
    var c := AttackTargets(me, card, opp, ps);
    forall p | p in opp && Hittable(me, card, p, ps)
      ensures Threat(me, p) <= Threat(me, c[BestIndex(me, c)])
    {
      var k :| 0 <= k < |c| && c[k] == p;
    }
  }

  /** An AI that has attacked this turn plays no attack card (App.tsx:605). */
  lemma AiSingleAttack(me: Player, ps: seq<Player>)
    requires me.hasPlayedAttack >= 1
    ensures Choose(me, ps).PlayCard? ==> Choose(me, ps).card.Kind() != Attack
  {
    if Choose(me, ps).PlayCard? && Choose(me, ps).card.Kind() == Attack {
      AiAttackLegal(me, ps);
    }
  }

  /**
   * At 2 hit points or fewer the AI plays its first heal card, or failing
   * that its first draw card, before anything else (App.tsx:570-575).
   */
  lemma AiEmergency(me: Player, ps: seq<Player>)
    requires me.hp <= 2
    ensures var h := me.hand;
      (FirstOfKind(h, Heal).Some? ==> Choose(me, ps) == PlayCard(FirstOfKind(h, Heal).value, None))
      && (FirstOfKind(h, Heal).None? && FirstOfKind(h, Draw).Some? ==> Choose(me, ps) == PlayCard(FirstOfKind(h, Draw).value, None))
  {}

  /**
   * The AI ends its play phase only when it holds no equipment, area or draw
   * card, its heal cards would be wasted, none of its targeted cards has a
   * target, and an attack card is either its second this turn or finds no
   * one to hit (App.tsx:569-645).
   */
  lemma AiEndsWhenStuck(me: Player, ps: seq<Player>)
    requires Choose(me, ps) == EndPlay
    ensures var h := me.hand; var opp := Opponents(ps, me.id);
      forall i :: 0 <= i < |h| ==>
         !IsEquipCard(h[i].Kind()) && h[i].Kind() != Aoe && h[i].Kind() != Draw
         && (h[i].Kind() == Heal ==> me.hp > 2 && me.hp >= me.maxHp)
         && ((h[i].Kind() == SkipTurn || h[i].Kind() == DamageScroll || h[i].Kind() == Duel || h[i].Kind() == DiscardScroll) ==> opp == [])
         && (h[i].Kind() == StealScroll ==> StealTarget(me, opp, ps).None?)
         && (h[i].Kind() == Attack ==>
               me.hasPlayedAttack >= 1 || AttackTargets(me, FirstOfKind(h, Attack).value, opp, ps) == [])
  {
    var opp := Opponents(ps, me.id);
    RungsOk(me, opp, ps);
    assert Urgent(me, opp).None? && Gear(me, opp).None? && SkipRung(me, opp).None? && Strike(me, opp, ps).None?;
    assert ScrollRung(me, opp).None? && Rob(me, opp, ps).None? && DismantleRung(me, opp).None? && Filler(me, opp).None?;
  }

  /** The AI sees a human target as 15 points less threatening than an AI in the same position (App.tsx:559). */
  lemma HumanLowAggro(me: Player, t: Player)
    ensures Threat(me, t.(isAi := false)) == Threat(me, t.(isAi := true)) - 15
  {}

  /** Sasuke's threat score ignores armour, as his attacks do (App.tsx:555). */
  lemma SasukeIgnoresArmour(me: Player, t: Player, a: Option<PlayingCard>)
    requires me.character.id == Sasuke
    ensures Threat(me, t.(equips := t.equips.(armor := a))) == Threat(me, t)
  {}

  /** The shuffle draws enough for any draw card the AI may play. */
  predicate AiOracle(s: GameState, rnd: seq<real>)
  {
    AllRandom(rnd) && |s.deck| + |s.discardPile| <= |rnd|
  }

  /** The seat of a chosen player. */
  function SeatOfTarget(t: Option<Player>): Option<nat>
  {
    if t.Some? then Some(t.value.id) else None
  }

  /** The state after `executeAiTurn`: the chosen card is played, or the phase moves to the end (App.tsx:645). */
  function ExecuteAiTurn(s: GameState, rnd: seq<real>): GameState
    requires Valid(s) && AiOracle(s, rnd)
  {
    ChooseLegal(s.players[s.turnIndex], s.players);
    AiTargetsOpponent(s);
    match AiChoice(s)
    case PlayCard(c, t) => HandleCardPlay(s, s.turnIndex, SeatOfTarget(t), c, rnd)
    case EndPlay => s.(phase := End)
  }

  /** The AI's step keeps the state valid and the cards of the game, when the hand's ids are distinct. */
  lemma AiTurnKeeps(s: GameState, rnd: seq<real>)
    requires Valid(s) && AiOracle(s, rnd) && DistinctUids(s.players[s.turnIndex].hand)
    ensures Valid(ExecuteAiTurn(s, rnd)) && Cards(ExecuteAiTurn(s, rnd)) == Cards(s)
  {
    ChooseLegal(s.players[s.turnIndex], s.players);
    AiTargetsOpponent(s);
    match AiChoice(s)
    case PlayCard(c, t) => CardPlayKeeps(s, s.turnIndex, SeatOfTarget(t), c, rnd);
    case EndPlay =>
  }
}
