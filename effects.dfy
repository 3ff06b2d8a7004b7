/**
 * `resolveCardEffect` (App.tsx:772-809) and `applyDamageState`
 * (App.tsx:840-847): the immediate effect of a heal, draw, skip, area or
 * damage card. The source copies the player array and then writes hit
 * points, hands and the skip flag on its entries; the method below does the
 * same on an array, and is proved to compute the effect function.
 */
module Effects {
  import opened Types
  import opened Rules
  import opened Shuffle
  import opened State

  /** Hit points after a heal card: one more, two for tsunade, never above the maximum (App.tsx:781). */
  function HealedHp(p: Player): int
  {
    Min(p.hp + (if p.character.id == Tsunade then 2 else 1), p.maxHp)
  }

  /** The damage of the fire scroll: 2 when itachi uses it, 1 otherwise (App.tsx:805). */
  function ScrollDamage(source: Player): nat
  {
    if source.character.id == Itachi then 2 else 1
  }

  /** Every seat except the source loses one hit point, dead or alive (App.tsx:804). */
  function AreaHit(ps: seq<Player>, source: nat): (r: seq<Player>)
    ensures |r| == |ps|
  {
    seq(|ps|, i requires 0 <= i < |ps| => if ps[i].id != source then Hurt(ps[i], 1) else ps[i])
  }

  /** What an effect needs: a seat for the skip and the fire scroll, shuffle draws for the draw card. */
  predicate EffectReady(s: GameState, source: nat, target: Option<nat>, card: PlayingCard, rnd: seq<real>)
  {
    source < |s.players|
    && ((card.Kind() == SkipTurn || card.Kind() == DamageScroll) ==> target.Some? && target.value < |s.players|)
    && (card.Kind() == Draw ==> DrawOracle(s, 2, rnd))
  }

  /**
   * The effect of `card` played by seat `source` on `target`. Only five kinds
   * have one; the others (dodge, negate, the steal and dismantle scrolls,
   * duel, attack, equipment) leave the state as it is.
   */
  function ResolveEffect(s: GameState, source: nat, target: Option<nat>, card: PlayingCard, rnd: seq<real>): (r: GameState)
    requires EffectReady(s, source, target, card, rnd)
  {
    var src := s.players[source];
    match card.Kind()
    case Heal => WithPlayer(s, source, src.(hp := HealedHp(src)))
    case Draw => DrawCards(s, source, 2, rnd)
    case SkipTurn => WithPlayer(s, target.value, s.players[target.value].(skippedTurn := true))
    case Aoe => s.(players := AreaHit(s.players, source))
    case DamageScroll => WithPlayer(s, target.value, Hurt(s.players[target.value], ScrollDamage(src)))
    case _ => s
  }

  /** `applyDamageState` (App.tsx:840-847): `target.hp -= amount` on the shared array. */
  method ApplyDamageState(ps: array<Player>, target: nat, amount: int)
    requires target < ps.Length
    modifies ps
    ensures ps[..] == old(ps[..])[target := Hurt(old(ps[target]), amount)]
  {
    ps[target] := ps[target].(hp := ps[target].hp - amount);
  }

  /** `resolveCardEffect` (App.tsx:772-809), writing on a copy of the player array. */
  method ResolveCardEffect(s: GameState, source: nat, target: Option<nat>, card: PlayingCard, rnd: seq<real>)
    returns (r: GameState)
    requires EffectReady(s, source, target, card, rnd)
    ensures r == ResolveEffect(s, source, target, card, rnd)
  {
    var n := |s.players|;
    var ps := new Player[n](i requires 0 <= i < n => s.players[i]);
    assert ps[..] == s.players;
    var deck := s.deck;
    var discardPile := s.discardPile;
    var src := ps[source];
    match card.Kind() {
      case Heal =>
        ps[source] := src.(hp := Min(src.hp + (if src.character.id == Tsunade then 2 else 1), src.maxHp));
      case Draw =>
        if |deck| < 2 {
          deck := Shuffled(deck + discardPile, rnd);
          discardPile := [];
        }
        var k := Min(2, |deck|);
        ps[source] := src.(hand := src.hand + deck[..k]);
        deck := deck[k..];
      case SkipTurn =>
        var t := target.value;
        ps[t] := ps[t].(skippedTurn := true);
      case Aoe =>
        HitAllBut(ps, source);
      case DamageScroll =>
        ApplyDamageState(ps, target.value, if src.character.id == Itachi then 2 else 1);
      case _ =>
    }
    r := s.(players := ps[..], deck := deck, discardPile := discardPile);
  }

  /** The area card's loop over the shared array (App.tsx:804). */
  method HitAllBut(ps: array<Player>, source: nat)
    modifies ps
    ensures ps[..] == AreaHit(old(ps[..]), source)
  {
    ghost var start := ps[..];
    for i := 0 to ps.Length
      invariant ps[..i] == AreaHit(start, source)[..i]
      invariant forall k :: i <= k < ps.Length ==> ps[k] == start[k]
    {
      if ps[i].id != source {
        ApplyDamageState(ps, i, 1);
      }
      assert ps[..i + 1] == ps[..i] + [ps[i]];
      assert AreaHit(start, source)[..i + 1] == AreaHit(start, source)[..i] + [AreaHit(start, source)[i]];
    }
    assert ps[..] == ps[..ps.Length];
  }

  /**
   * The heal card sets the user's hit points to `min(hp + 1, maxHp)`, or
   * `hp + 2` for tsunade, so it never lifts them above the maximum and never
   * lowers them below where they were (App.tsx:780-781).
   */
  lemma HealClamps(s: GameState, source: nat, target: Option<nat>, card: PlayingCard, rnd: seq<real>)
    requires EffectReady(s, source, target, card, rnd) && card.Kind() == Heal
    ensures var p := s.players[source]; var q := ResolveEffect(s, source, target, card, rnd).players[source];
      q.hp <= p.maxHp
      && (p.hp <= p.maxHp ==> p.hp <= q.hp)
      && q.hp == (if p.hp + (if p.character.id == Tsunade then 2 else 1) <= p.maxHp then p.hp + (if p.character.id == Tsunade then 2 else 1) else p.maxHp)
      && q == p.(hp := q.hp)
    ensures forall k :: 0 <= k < |s.players| && k != source ==> ResolveEffect(s, source, target, card, rnd).players[k] == s.players[k]
  {}

  /**
   * The area card takes one hit point from every other seat, dead players
   * included, and none from its user; it records no winner (App.tsx:804).
   */
  lemma AreaFacts(s: GameState, source: nat, target: Option<nat>, card: PlayingCard, rnd: seq<real>)
    requires Valid(s) && EffectReady(s, source, target, card, rnd) && card.Kind() == Aoe
    ensures var r := ResolveEffect(s, source, target, card, rnd);
      |r.players| == |s.players|
      && (forall k :: 0 <= k < |s.players| && k != source ==> r.players[k] == s.players[k].(hp := s.players[k].hp - 1))
      && r.players[source] == s.players[source]
      && r.winner == s.winner && r.deck == s.deck && r.discardPile == s.discardPile
  {}

  /** The fire scroll and the skip card act on their target alone (App.tsx:802, 805). */
  lemma TargetedFacts(s: GameState, source: nat, target: Option<nat>, card: PlayingCard, rnd: seq<real>)
    requires EffectReady(s, source, target, card, rnd) && (card.Kind() == DamageScroll || card.Kind() == SkipTurn)
    ensures var r := ResolveEffect(s, source, target, card, rnd); var t := target.value;
      |r.players| == |s.players|
      && (forall k :: 0 <= k < |s.players| && k != t ==> r.players[k] == s.players[k])
      && (card.Kind() == DamageScroll ==>
            r.players[t] == s.players[t].(hp := s.players[t].hp - (if s.players[source].character.id == Itachi then 2 else 1)))
      && (card.Kind() == SkipTurn ==> r.players[t] == s.players[t].(skippedTurn := true))
      && r.winner == s.winner
  {}

  /**
   * The draw card draws two cards, reshuffling the discard pile into a deck
   * of fewer than two cards first (App.tsx:785-799).
   */
  lemma DrawFacts(s: GameState, source: nat, target: Option<nat>, card: PlayingCard, rnd: seq<real>)
    requires Valid(s) && EffectReady(s, source, target, card, rnd) && card.Kind() == Draw
    ensures var r := ResolveEffect(s, source, target, card, rnd);
      |r.players| == |s.players|
      && |r.players[source].hand| == |s.players[source].hand| + Min(2, |s.deck| + |s.discardPile|)
      && (|s.deck| >= 2 ==> r.players[source].hand == s.players[source].hand + s.deck[..2] && r.deck == s.deck[2..])
      && (|s.deck| < 2 ==> r.discardPile == [])
  {
    DrawCardsFacts(s, source, 2, rnd);
  }

  /** Every effect keeps the state valid and the cards of the game where they were or moved, never lost or made. */
  lemma ResolveEffectKeeps(s: GameState, source: nat, target: Option<nat>, card: PlayingCard, rnd: seq<real>)
    requires Valid(s) && EffectReady(s, source, target, card, rnd)
    ensures Valid(ResolveEffect(s, source, target, card, rnd))
    ensures Cards(ResolveEffect(s, source, target, card, rnd)) == Cards(s)
  {
    var src := s.players[source];
    match card.Kind()
    case Heal =>
      assert ResolveEffect(s, source, target, card, rnd) == WithPlayer(s, source, src.(hp := HealedHp(src)));
      SeatUpdateKeeps(s, source, src.(hp := HealedHp(src)));
    case Draw =>
      assert ResolveEffect(s, source, target, card, rnd) == DrawCards(s, source, 2, rnd);
      DrawCardsKeeps(s, source, 2, rnd);
    case SkipTurn =>
      var t := target.value;
      assert ResolveEffect(s, source, target, card, rnd) == WithPlayer(s, t, s.players[t].(skippedTurn := true));
      SeatUpdateKeeps(s, t, s.players[t].(skippedTurn := true));
    case Aoe =>
      assert ResolveEffect(s, source, target, card, rnd) == s.(players := AreaHit(s.players, source));
      AreaKeeps(s, source);
    case DamageScroll =>
      var t := target.value;
      assert ResolveEffect(s, source, target, card, rnd) == WithPlayer(s, t, Hurt(s.players[t], ScrollDamage(src)));
      SeatUpdateKeeps(s, t, Hurt(s.players[t], ScrollDamage(src)));
    case _ =>
  }

  /** A seat update that keeps the player's id and cards keeps the state valid and its cards. */
  lemma SeatUpdateKeeps(s: GameState, i: nat, p: Player)
    requires Valid(s) && i < |s.players| && p.id == s.players[i].id
    requires p.hand == s.players[i].hand && p.equips == s.players[i].equips
    ensures Valid(WithPlayer(s, i, p)) && Cards(WithPlayer(s, i, p)) == Cards(s)
  {
    SameCardsUpdate(s, i, p);
    SameShapeValid(s, WithPlayer(s, i, p));
  }

  lemma AreaKeeps(s: GameState, source: nat)
    requires Valid(s)
    ensures Valid(s.(players := AreaHit(s.players, source)))
    ensures Cards(s.(players := AreaHit(s.players, source))) == Cards(s)
  {
    var r := s.(players := AreaHit(s.players, source));
    forall k | 0 <= k < |s.players|
      ensures r.players[k].id == s.players[k].id && PlayerCards(r.players[k]) == PlayerCards(s.players[k])
    {
      assert r.players[k].hand == s.players[k].hand && r.players[k].equips == s.players[k].equips;
    }
    SeatCardsPointwise(r.players, s.players);
    SameShapeValid(s, r);
  }

  /** The kinds without an effect leave the state unchanged. */
  lemma NoEffect(s: GameState, source: nat, target: Option<nat>, card: PlayingCard, rnd: seq<real>)
    requires EffectReady(s, source, target, card, rnd)
    requires card.Kind() != Heal && card.Kind() != Draw && card.Kind() != SkipTurn && card.Kind() != Aoe && card.Kind() != DamageScroll
    ensures ResolveEffect(s, source, target, card, rnd) == s
  {}
}
