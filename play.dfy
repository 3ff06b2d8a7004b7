/**
 * Playing a card and answering it: `handleCardPlay` (App.tsx:684-748),
 * the human's play button (App.tsx:874-885), `resolveResponse`
 * (App.tsx:750-770), the AI's answer in a response window (App.tsx:390-412)
 * and the two steps of a judgement (App.tsx:417-450).
 */
module Play {
  import opened Types
  import opened Rules
  import opened Shuffle
  import opened State
  import opened Effects

  // ------------------------------------------------------------ the hand

  /** `hand.filter(c => c.uniqueId !== id)`. */
  function RemoveById(h: seq<PlayingCard>, id: UniqueId): (r: seq<PlayingCard>)
    ensures |r| <= |h|
  {
    if h == [] then [] else (if h[0].uniqueId != id then [h[0]] else []) + RemoveById(h[1..], id)
  }

  lemma {:induction false} RemoveAbsent(h: seq<PlayingCard>, id: UniqueId)
    requires forall k :: 0 <= k < |h| ==> h[k].uniqueId != id
    ensures RemoveById(h, id) == h
  {
    if h != [] {
      RemoveAbsent(h[1..], id);
      assert h == [h[0]] + h[1..];
    }
  }

  /** In a hand of distinct ids, filtering out a held card's id removes that card and nothing else. */
  lemma {:induction false} RemoveHeld(h: seq<PlayingCard>, c: PlayingCard)
    requires DistinctUids(h) && c in h
    ensures multiset(RemoveById(h, c.uniqueId)) + multiset{c} == multiset(h)
    ensures |RemoveById(h, c.uniqueId)| == |h| - 1
  {
    assert h == [h[0]] + h[1..];
    if h[0] == c {
      RemoveAbsent(h[1..], c.uniqueId);
    } else {
      var j :| 0 <= j < |h| && h[j] == c;
      assert h[0].uniqueId != c.uniqueId;
      assert c in h[1..];
      RemoveHeld(h[1..], c);
    }
  }

  /** `hand.find(c => c.type === kind)`. */
  function FirstOfKind(h: seq<PlayingCard>, k: CardKind): (r: Option<PlayingCard>)
    ensures r.Some? ==> r.value in h && r.value.Kind() == k
    ensures r.Some? ==> exists i :: 0 <= i < |h| && h[i] == r.value && forall j :: 0 <= j < i ==> h[j].Kind() != k
    ensures r.None? <==> forall i :: 0 <= i < |h| ==> h[i].Kind() != k
  {
    if h == [] then None
    else if h[0].Kind() == k then Some(h[0])
    else
      var r := FirstOfKind(h[1..], k);
      assert forall i :: 1 <= i < |h| ==> h[i] == h[1..][i - 1];
      assert r.Some? ==> exists i :: 0 <= i < |h| && h[i] == r.value && forall j :: 0 <= j < i ==> h[j].Kind() != k by {
        if r.Some? {
          var i :| 0 <= i < |h[1..]| && h[1..][i] == r.value && forall j :: 0 <= j < i ==> h[1..][j].Kind() != k;
          assert h[i + 1] == r.value;
        }
      }
      r
  }

  // ------------------------------------------------------------ card play

  /** The kinds the human must pick a target for (App.tsx:883). */
  predicate NeedsTarget(k: CardKind)
  {
    k == Attack || k == Duel || k == DamageScroll || k == StealScroll || k == DiscardScroll || k == SkipTurn
  }

  /** A response window asking `target` for a card of kind `needed`. */
  function Window(source: nat, target: nat, needed: CardKind, card: PlayingCard, after: ActionAfter): PendingAction
  {
    PendingAction(ResponseCard, source, Seat(target), card, Some(needed), None, Some(after))
  }

  /** What a play needs: a seat for the targeted kinds and shuffle draws for the draw card. */
  predicate PlayReady(s: GameState, seat: nat, target: Option<nat>, card: PlayingCard, rnd: seq<real>)
  {
    seat < |s.players|
    && (NeedsTarget(card.Kind()) ==> target.Some? && target.value < |s.players|)
    && (card.Kind() == Draw ==> DrawOracle(s.(discardPile := s.discardPile + [card]), 2, rnd))
  }

  /** The card leaves the hand of `seat` and goes on top of the discard pile (App.tsx:687-698). */
  function PlayedOut(s: GameState, seat: nat, card: PlayingCard): (r: GameState)
    requires seat < |s.players|
  {
    HandToDiscard(s, seat, RemoveById(s.players[seat].hand, card.uniqueId), [card])
  }

  /**
   * The equipment branch (App.tsx:701-720): the card just put on the discard
   * pile is popped off again, goes into its slot, and the slot's old card, if
   * any, goes on the discard pile.
   */
  function Equip(s: GameState, seat: nat, card: PlayingCard): (r: GameState)
    requires seat < |s.players| && |s.discardPile| > 0 && SlotOf(card.Kind()).Some?
  {
    var popped := s.discardPile[..|s.discardPile| - 1];
    var p := s.players[seat];
    var sl := SlotOf(card.Kind()).value;
    var prev := GetSlot(p.equips, sl);
    s.(players := s.players[seat := p.(equips := SetSlot(p.equips, sl, Some(card)))],
       discardPile := popped + (if prev.Some? then [prev.value] else []))
  }

  /** What the rest of a play needs once the card is on the discard pile. */
  predicate FollowReady(s: GameState, seat: nat, target: Option<nat>, card: PlayingCard, rnd: seq<real>)
  {
    seat < |s.players| && |s.discardPile| > 0
    && (NeedsTarget(card.Kind()) ==> target.Some? && target.value < |s.players|)
    && (card.Kind() == Draw ==> DrawOracle(s, 2, rnd))
  }

  /** The attack branch (App.tsx:722-736): one more attack this turn, and a window asking the target for a dodge. */
  function Attacked(s: GameState, seat: nat, target: nat, card: PlayingCard): (r: GameState)
    requires seat < |s.players|
  {
    var p := s.players[seat];
    s.(players := s.players[seat := p.(hasPlayedAttack := p.hasPlayedAttack + 1)],
       pendingAction := Some(Window(seat, target, Dodge, card, AfterDamage)))
  }

  /** The branch on the card's kind that follows its discard (App.tsx:700-747). */
  function FollowUp(s: GameState, seat: nat, target: Option<nat>, card: PlayingCard, rnd: seq<real>): (r: GameState)
    requires FollowReady(s, seat, target, card, rnd)
  {
    var k := card.Kind();
    if IsEquipKind(k) then
      EquipKindsAreTheSlotKinds(k);
      Equip(s, seat, card)
    else if k == Attack then Attacked(s, seat, target.value, card)
    else if k == Duel then s.(pendingAction := Some(Window(seat, target.value, Negate, card, AfterStartDuel)))
    else if k == Aoe then s.(pendingAction := Some(PendingAction(Judgement, seat, AllOthers, card, None, None, None)))
    else if k == DamageScroll then s.(pendingAction := Some(Window(seat, target.value, Negate, card, AfterJudgement)))
    else if k == StealScroll || k == DiscardScroll || k == SkipTurn then
      s.(pendingAction := Some(Window(seat, target.value, Negate, card, AfterResolve)))
    else
      ResolveEffect(s, seat, target, card, rnd)
  }

  /** `handleCardPlay` (App.tsx:684-748): seat `seat` plays `card` on `target`. */
  function HandleCardPlay(s: GameState, seat: nat, target: Option<nat>, card: PlayingCard, rnd: seq<real>): (r: GameState)
    requires PlayReady(s, seat, target, card, rnd)
  {
    FollowUp(PlayedOut(s, seat, card), seat, target, card, rnd)
  }

  /**
   * Playing equipment puts the card into its slot and nowhere else, moves the
   * slot's previous card to the end of the discard pile, and leaves the other
   * slots and the pending action as they were (App.tsx:701-720).
   */
  lemma EquipPlayFacts(s: GameState, seat: nat, target: Option<nat>, card: PlayingCard, rnd: seq<real>)
    requires PlayReady(s, seat, target, card, rnd) && SlotOf(card.Kind()).Some?
    ensures |HandleCardPlay(s, seat, target, card, rnd).players| == |s.players|
    ensures var r := HandleCardPlay(s, seat, target, card, rnd); var sl := SlotOf(card.Kind()).value;
      var e := s.players[seat].equips; var e' := r.players[seat].equips;
      GetSlot(e', sl) == Some(card)
      && (forall other: Slot :: other != sl ==> GetSlot(e', other) == GetSlot(e, other))
      && r.discardPile == s.discardPile + (if GetSlot(e, sl).Some? then [GetSlot(e, sl).value] else [])
      && r.players[seat].hand == RemoveById(s.players[seat].hand, card.uniqueId)
      && (forall k :: 0 <= k < |s.players| && k != seat ==> r.players[k] == s.players[k])
      && r.pendingAction == s.pendingAction && r.deck == s.deck
  {
    EquipKindsAreTheSlotKinds(card.Kind());
    var s1 := PlayedOut(s, seat, card);
    assert s1.discardPile[..|s1.discardPile| - 1] == s.discardPile;
  }

  /**
   * An attack counts towards the attack limit and opens a window in which
   * the target may answer with a dodge before taking damage (App.tsx:722-736).
   */
  lemma AttackPlayFacts(s: GameState, seat: nat, target: Option<nat>, card: PlayingCard, rnd: seq<real>)
    requires PlayReady(s, seat, target, card, rnd) && card.Kind() == Attack
    ensures var r := HandleCardPlay(s, seat, target, card, rnd);
      r.players[seat].hasPlayedAttack == s.players[seat].hasPlayedAttack + 1
      && r.pendingAction == Some(Window(seat, target.value, Dodge, card, AfterDamage))
      && r.discardPile == s.discardPile + [card]
      && r.players[seat].hand == RemoveById(s.players[seat].hand, card.uniqueId)
  {
    EquipKindsAreTheSlotKinds(card.Kind());
  }

  /**
   * The scrolls and the duel open a window asking the target for a negate;
   * the area card opens a judgement on all others (App.tsx:737-744).
   */
  lemma ScrollPlayFacts(s: GameState, seat: nat, target: Option<nat>, card: PlayingCard, rnd: seq<real>)
    requires PlayReady(s, seat, target, card, rnd)
    ensures var r := HandleCardPlay(s, seat, target, card, rnd); var k := card.Kind();
      (k == Duel ==> r.pendingAction == Some(Window(seat, target.value, Negate, card, AfterStartDuel)))
      && (k == DamageScroll ==> r.pendingAction == Some(Window(seat, target.value, Negate, card, AfterJudgement)))
      && ((k == StealScroll || k == DiscardScroll || k == SkipTurn) ==>
            r.pendingAction == Some(Window(seat, target.value, Negate, card, AfterResolve)))
      && (k == Aoe ==> r.pendingAction == Some(PendingAction(Judgement, seat, AllOthers, card, None, None, None)))
  {
    var k := card.Kind();
    if k == Duel || k == DamageScroll || k == StealScroll || k == DiscardScroll || k == SkipTurn || k == Aoe {
      assert !IsEquipKind(k) by {
        EquipKindsAreTheSlotKinds(k);
      }
      var s1 := PlayedOut(s, seat, card);
      assert HandleCardPlay(s, seat, target, card, rnd) == FollowUp(s1, seat, target, card, rnd);
    }
  }

  /**
   * A play keeps the state valid and moves cards without losing or making
   * any, when the card is in the player's hand and the hand's ids are
   * distinct.
   */
  lemma CardPlayKeeps(s: GameState, seat: nat, target: Option<nat>, card: PlayingCard, rnd: seq<real>)
    requires Valid(s) && PlayReady(s, seat, target, card, rnd)
    requires card in s.players[seat].hand && DistinctUids(s.players[seat].hand)
    ensures Valid(HandleCardPlay(s, seat, target, card, rnd))
    ensures Cards(HandleCardPlay(s, seat, target, card, rnd)) == Cards(s)
  {
    var h := s.players[seat].hand;
    RemoveHeld(h, card);
    HandToDiscardKeeps(s, seat, RemoveById(h, card.uniqueId), [card]);
    FollowUpKeeps(PlayedOut(s, seat, card), seat, target, card, rnd);
  }

  /** The branch after the discard keeps the state valid and its cards. */
  lemma FollowUpKeeps(s: GameState, seat: nat, target: Option<nat>, card: PlayingCard, rnd: seq<real>)
    requires Valid(s) && FollowReady(s, seat, target, card, rnd) && s.discardPile[|s.discardPile| - 1] == card
    ensures Valid(FollowUp(s, seat, target, card, rnd)) && Cards(FollowUp(s, seat, target, card, rnd)) == Cards(s)
  {
    var k := card.Kind();
    if IsEquipKind(k) {
      FollowUpEquipKeeps(s, seat, target, card, rnd);
    } else if k == Attack {
      FollowUpAttackKeeps(s, seat, target, card, rnd);
    } else if k == Duel || k == Aoe || k == DamageScroll || k == StealScroll || k == DiscardScroll || k == SkipTurn {
      FollowUpWindowKeeps(s, seat, target, card, rnd);
    } else {
      FollowUpEffectKeeps(s, seat, target, card, rnd);
    }
  }

  lemma FollowUpAttackKeeps(s: GameState, seat: nat, target: Option<nat>, card: PlayingCard, rnd: seq<real>)
    requires Valid(s) && FollowReady(s, seat, target, card, rnd) && card.Kind() == Attack
    ensures Valid(FollowUp(s, seat, target, card, rnd)) && Cards(FollowUp(s, seat, target, card, rnd)) == Cards(s)
  {
    assert !IsEquipKind(card.Kind()) by {
      EquipKindsAreTheSlotKinds(card.Kind());
    }
    AttackKeeps(s, seat, target.value, card);
  }

  /** The kinds with an immediate effect resolve it at once. */
  lemma FollowUpEffectKeeps(s: GameState, seat: nat, target: Option<nat>, card: PlayingCard, rnd: seq<real>)
    requires Valid(s) && FollowReady(s, seat, target, card, rnd) && !IsEquipKind(card.Kind())
    requires var k := card.Kind(); k != Attack && k != Duel && k != Aoe && k != DamageScroll && k != StealScroll && k != DiscardScroll && k != SkipTurn
    ensures Valid(FollowUp(s, seat, target, card, rnd)) && Cards(FollowUp(s, seat, target, card, rnd)) == Cards(s)
  {
    assert FollowUp(s, seat, target, card, rnd) == ResolveEffect(s, seat, target, card, rnd);
    ResolveEffectKeeps(s, seat, target, card, rnd);
  }

  lemma FollowUpEquipKeeps(s: GameState, seat: nat, target: Option<nat>, card: PlayingCard, rnd: seq<real>)
    requires Valid(s) && FollowReady(s, seat, target, card, rnd) && s.discardPile[|s.discardPile| - 1] == card
    requires IsEquipKind(card.Kind())
    ensures Valid(FollowUp(s, seat, target, card, rnd)) && Cards(FollowUp(s, seat, target, card, rnd)) == Cards(s)
  {
    EquipKindsAreTheSlotKinds(card.Kind());
    assert FollowUp(s, seat, target, card, rnd) == Equip(s, seat, card);
    EquipValid(s, seat, card);
    EquipCardsKept(s, seat, card);
  }

  /** The kinds that open a pending action change nothing but the pending action. */
  lemma FollowUpWindowKeeps(s: GameState, seat: nat, target: Option<nat>, card: PlayingCard, rnd: seq<real>)
    requires Valid(s) && FollowReady(s, seat, target, card, rnd)
    requires var k := card.Kind(); k == Duel || k == Aoe || k == DamageScroll || k == StealScroll || k == DiscardScroll || k == SkipTurn
    ensures Valid(FollowUp(s, seat, target, card, rnd)) && Cards(FollowUp(s, seat, target, card, rnd)) == Cards(s)
  {
    var k := card.Kind();
    EquipKindsAreTheSlotKinds(k);
    var a :=
      if k == Duel then Window(seat, target.value, Negate, card, AfterStartDuel)
      else if k == Aoe then PendingAction(Judgement, seat, AllOthers, card, None, None, None)
      else if k == DamageScroll then Window(seat, target.value, Negate, card, AfterJudgement)
      else Window(seat, target.value, Negate, card, AfterResolve);
    assert FollowUp(s, seat, target, card, rnd) == s.(pendingAction := Some(a));
    PendingKeeps(s, a);
  }

  /** Opening a well-formed pending action moves no card and keeps the state valid. */
  lemma PendingKeeps(s: GameState, a: PendingAction)
    requires Valid(s) && WellFormed(a, |s.players|)
    ensures Valid(s.(pendingAction := Some(a))) && Cards(s.(pendingAction := Some(a))) == Cards(s)
  {}

  /** Clearing the pending action moves no card and keeps the state valid. */
  lemma ClearKeeps(s: GameState)
    requires Valid(s)
    ensures Valid(s.(pendingAction := None)) && Cards(s.(pendingAction := None)) == Cards(s)
  {}

  lemma AttackKeeps(s: GameState, seat: nat, target: nat, card: PlayingCard)
    requires Valid(s) && seat < |s.players| && target < |s.players| && card.Kind() == Attack
    ensures Valid(Attacked(s, seat, target, card)) && Cards(Attacked(s, seat, target, card)) == Cards(s)
  {
    var p := s.players[seat];
    var q := p.(hasPlayedAttack := p.hasPlayedAttack + 1);
    var w := Window(seat, target, Dodge, card, AfterDamage);
    var s1 := WithPlayer(s, seat, q);
    SeatUpdateKeeps(s, seat, q);
    PendingKeeps(s1, w);
    assert Attacked(s, seat, target, card) == s1.(pendingAction := Some(w));
  }

  lemma EquipValid(s: GameState, seat: nat, card: PlayingCard)
    requires Valid(s) && seat < |s.players| && |s.discardPile| > 0 && SlotOf(card.Kind()).Some?
    ensures Valid(Equip(s, seat, card))
  {
    SameShapeValid(s, Equip(s, seat, card));
  }

  lemma EquipCardsKept(s: GameState, seat: nat, card: PlayingCard)
    requires seat < |s.players| && |s.discardPile| > 0 && SlotOf(card.Kind()).Some?
    requires s.discardPile[|s.discardPile| - 1] == card
    ensures Cards(Equip(s, seat, card)) == Cards(s)
  {
    var popped := s.discardPile[..|s.discardPile| - 1];
    var p := s.players[seat];
    var sl := SlotOf(card.Kind()).value;
    var prev := GetSlot(p.equips, sl);
    var p' := p.(equips := SetSlot(p.equips, sl, Some(card)));
    var r := Equip(s, seat, card);
    assert r.players == s.players[seat := p'];
    assert multiset(s.discardPile) == multiset(popped) + multiset{card} by {
      assert s.discardPile == popped + [card];
    }
    assert multiset(r.discardPile) == multiset(popped) + OptCards(prev);
    assert PlayerCards(p') + OptCards(prev) == PlayerCards(p) + multiset{card} by {
      SetSlotCards(p.equips, sl, card);
      Rearrange(multiset(p.hand), EquipCards(p.equips), EquipCards(p'.equips), OptCards(prev), multiset{card});
    }
    assert SeatCards(r.players) + PlayerCards(p) == SeatCards(s.players) + PlayerCards(p') by {
      SeatCardsUpdate(s.players, seat, p');
    }
    EquipCardsMove(multiset(s.deck), multiset(popped), multiset{card}, OptCards(prev),
      SeatCards(r.players), SeatCards(s.players), PlayerCards(p'), PlayerCards(p));
    assert Cards(r) == multiset(s.deck) + (multiset(popped) + OptCards(prev)) + SeatCards(r.players);
    assert Cards(s) == multiset(s.deck) + (multiset(popped) + multiset{card}) + SeatCards(s.players);
  }

  lemma EquipCardsMove(deck: multiset<PlayingCard>, popped: multiset<PlayingCard>, card: multiset<PlayingCard>,
                       prev: multiset<PlayingCard>, seats': multiset<PlayingCard>, seats: multiset<PlayingCard>,
                       p': multiset<PlayingCard>, p: multiset<PlayingCard>)
    requires p' + prev == p + card
    requires seats' + p == seats + p'
    ensures deck + (popped + prev) + seats' == deck + (popped + card) + seats
  {
    forall x ensures (deck + (popped + prev) + seats')[x] == (deck + (popped + card) + seats)[x] {
      assert (p' + prev)[x] == (p + card)[x];
      assert (seats' + p)[x] == (seats + p')[x];
    }
  }

  /**
   * The human's play button (App.tsx:874-885): a third attack in a turn is
   * refused; the targeted kinds are played on the target picked in the
   * target dialog (App.tsx:862-865), the others without a target.
   */
  function HandlePlaySelected(s: GameState, idx: nat, picked: Option<nat>, rnd: seq<real>): (r: GameState)
    requires Valid(s) && idx < |s.players[0].hand|
    requires var card := s.players[0].hand[idx];
      PlayReady(s, 0, if NeedsTarget(card.Kind()) then picked else None, card, rnd)
  {
    var card := s.players[0].hand[idx];
    if card.Kind() == Attack && s.players[0].hasPlayedAttack >= 2 then s
    else if NeedsTarget(card.Kind()) then HandleCardPlay(s, 0, picked, card, rnd)
    else HandleCardPlay(s, 0, None, card, rnd)
  }

  /** The play button keeps the state valid and the cards of the game, when the hand's ids are distinct. */
  lemma PlaySelectedKeeps(s: GameState, idx: nat, picked: Option<nat>, rnd: seq<real>)
    requires Valid(s) && idx < |s.players[0].hand| && DistinctUids(s.players[0].hand)
    requires var card := s.players[0].hand[idx];
      PlayReady(s, 0, if NeedsTarget(card.Kind()) then picked else None, card, rnd)
    ensures Valid(HandlePlaySelected(s, idx, picked, rnd)) && Cards(HandlePlaySelected(s, idx, picked, rnd)) == Cards(s)
  {
    var card := s.players[0].hand[idx];
    if !(card.Kind() == Attack && s.players[0].hasPlayedAttack >= 2) {
      CardPlayKeeps(s, 0, if NeedsTarget(card.Kind()) then picked else None, card, rnd);
    }
  }

  /**
   * The human may play an attack exactly while fewer than two were played
   * this turn; it then leaves the hand for the pile and opens a dodge window
   * on the picked seat (App.tsx:875-885).
   */
  lemma HumanAttackLimit(s: GameState, idx: nat, picked: Option<nat>, rnd: seq<real>)
    requires Valid(s) && idx < |s.players[0].hand| && s.players[0].hand[idx].Kind() == Attack
    requires PlayReady(s, 0, picked, s.players[0].hand[idx], rnd)
    ensures s.players[0].hasPlayedAttack >= 2 ==> HandlePlaySelected(s, idx, picked, rnd) == s
    ensures s.players[0].hasPlayedAttack < 2 ==>
      var r := HandlePlaySelected(s, idx, picked, rnd); var card := s.players[0].hand[idx];
      r.players[0].hasPlayedAttack == s.players[0].hasPlayedAttack + 1
      && r.pendingAction == Some(Window(0, picked.value, Dodge, card, AfterDamage))
      && r.discardPile == s.discardPile + [card]
      && r.players[0].hand == RemoveById(s.players[0].hand, card.uniqueId)
  {
    if s.players[0].hasPlayedAttack < 2 {
      AttackPlayFacts(s, 0, picked, s.players[0].hand[idx], rnd);
    }
  }

  // ------------------------------------------------------------ responses

  /** The seat of a pending target, none for all others. */
  function TargetSeat(t: Target): Option<nat>
  {
    if t.Seat? then Some(t.seat) else None
  }

  /** A response window is open with a well-formed pending action. */
  predicate Responding(s: GameState)
  {
    s.pendingAction.Some? && WellFormed(s.pendingAction.value, |s.players|)
  }

  /**
   * `resolveResponse` (App.tsx:750-770). An answered window is closed, except
   * in a duel round, where source and target swap and the new target is asked
   * for an attack. An unanswered window runs its follow-up: damage, the
   * scroll's effect, a judgement, the first duel round, or the duel's damage
   * to the player who did not answer.
   */
  function ResolveResponse(s: GameState, played: bool): (r: GameState)
    requires Responding(s)
  {
    if played then Answered(s) else Declined(s)
  }

  /** The window was answered with the card it asked for (App.tsx:754-761). */
  function Answered(s: GameState): (r: GameState)
    requires Responding(s)
  {
    var pa := s.pendingAction.value;
    if pa.actionAfter == Some(AfterDuelRound) then
      s.(pendingAction := Some(Window(pa.targetId.seat, pa.sourceId, Attack, pa.cardUsed, AfterDuelRound)))
    else s.(pendingAction := None)
  }

  /** The window was not answered: its follow-up runs (App.tsx:762-768). */
  function Declined(s: GameState): (r: GameState)
    requires Responding(s)
  {
    var pa := s.pendingAction.value;
    match pa.actionAfter
    case Some(AfterDamage) => ApplyDamage(s, pa.targetId.seat, 1).(pendingAction := None)
    case Some(AfterResolve) => ResolveEffect(s, pa.sourceId, TargetSeat(pa.targetId), pa.cardUsed, []).(pendingAction := None)
    case Some(AfterJudgement) =>
      s.(pendingAction := Some(PendingAction(Judgement, pa.sourceId, pa.targetId, pa.cardUsed, None, None, None)))
    case Some(AfterStartDuel) => s.(pendingAction := Some(Window(pa.sourceId, pa.targetId.seat, Attack, pa.cardUsed, AfterDuelRound)))
    case Some(AfterDuelRound) => ApplyDamage(s, pa.targetId.seat, 1).(pendingAction := None)
    case None => s.(pendingAction := None)
  }

  /**
   * Answering a duel round swaps the two duellists and keeps asking for an
   * attack; answering twice gives the original window back (App.tsx:754-757).
   */
  lemma DuelRoundSwaps(s: GameState, source: nat, target: nat, card: PlayingCard)
    requires source < |s.players| && target < |s.players|
    requires s.pendingAction == Some(Window(source, target, Attack, card, AfterDuelRound))
    ensures var r := ResolveResponse(s, true);
      r == s.(pendingAction := Some(Window(target, source, Attack, card, AfterDuelRound)))
    ensures Responding(ResolveResponse(s, true))
    ensures ResolveResponse(ResolveResponse(s, true), true) == s
  {}

  /** The duellist who does not answer with an attack takes one damage and the duel ends (App.tsx:767). */
  lemma DuelRoundDeclined(s: GameState)
    requires Responding(s) && s.pendingAction.value.actionAfter == Some(AfterDuelRound)
    ensures var t := s.pendingAction.value.targetId.seat; var r := ResolveResponse(s, false);
      r.players == s.players[t := s.players[t].(hp := s.players[t].hp - 1)] && r.pendingAction.None?
  {}

  /**
   * An answered window that is not a duel round cancels the card: only the
   * pending action changes, and it is cleared (App.tsx:759-761).
   */
  lemma AnsweredCancels(s: GameState)
    requires Responding(s) && s.pendingAction.value.actionAfter != Some(AfterDuelRound)
    ensures ResolveResponse(s, true) == s.(pendingAction := None)
  {}

  /** An unanswered attack deals one damage and records the winner when one player is left (App.tsx:763). */
  lemma UnansweredAttack(s: GameState)
    requires Responding(s) && s.pendingAction.value.actionAfter == Some(AfterDamage) && s.winner.None?
    ensures var t := s.pendingAction.value.targetId.seat; var r := ResolveResponse(s, false);
      r.players == s.players[t := s.players[t].(hp := s.players[t].hp - 1)] && r.pendingAction.None?
      && (r.winner.Some? <==> |Alive(r.players)| == 1)
  {
    WinnerIffOneSurvivor(s, s.pendingAction.value.targetId.seat, 1);
  }

  /** Resolving a response keeps the state valid and moves no card. */
  lemma ResolveResponseKeeps(s: GameState, played: bool)
    requires Valid(s) && Responding(s)
    ensures Valid(ResolveResponse(s, played)) && Cards(ResolveResponse(s, played)) == Cards(s)
  {
    if played {
      AnsweredKeeps(s);
    } else {
      DeclinedKeeps(s);
    }
  }

  lemma AnsweredKeeps(s: GameState)
    requires Valid(s) && Responding(s)
    ensures Valid(Answered(s)) && Cards(Answered(s)) == Cards(s)
  {
    var pa := s.pendingAction.value;
    if pa.actionAfter == Some(AfterDuelRound) {
      PendingKeeps(s, Window(pa.targetId.seat, pa.sourceId, Attack, pa.cardUsed, AfterDuelRound));
    } else {
      ClearKeeps(s);
    }
  }

  lemma DeclinedKeeps(s: GameState)
    requires Valid(s) && Responding(s)
    ensures Valid(Declined(s)) && Cards(Declined(s)) == Cards(s)
  {
    var pa := s.pendingAction.value;
    match pa.actionAfter
    case Some(AfterDamage) => DamageFollowUpKeeps(s);
    case Some(AfterDuelRound) => DamageFollowUpKeeps(s);
    case Some(AfterResolve) => ScrollFollowUpKeeps(s);
    case Some(AfterJudgement) =>
      PendingKeeps(s, PendingAction(Judgement, pa.sourceId, pa.targetId, pa.cardUsed, None, None, None));
    case Some(AfterStartDuel) =>
      PendingKeeps(s, Window(pa.sourceId, pa.targetId.seat, Attack, pa.cardUsed, AfterDuelRound));
    case None => ClearKeeps(s);
  }

  lemma DamageFollowUpKeeps(s: GameState)
    requires Valid(s) && Responding(s)
    requires s.pendingAction.value.actionAfter == Some(AfterDamage) || s.pendingAction.value.actionAfter == Some(AfterDuelRound)
    ensures Valid(Declined(s)) && Cards(Declined(s)) == Cards(s)
  {
    var t := s.pendingAction.value.targetId.seat;
    ApplyDamageKeeps(s, t, 1);
    ClearKeeps(ApplyDamage(s, t, 1));
  }

  lemma ScrollFollowUpKeeps(s: GameState)
    requires Valid(s) && Responding(s) && s.pendingAction.value.actionAfter == Some(AfterResolve)
    ensures Valid(Declined(s)) && Cards(Declined(s)) == Cards(s)
  {
    var pa := s.pendingAction.value;
    ResolveEffectKeeps(s, pa.sourceId, TargetSeat(pa.targetId), pa.cardUsed, []);
    ClearKeeps(ResolveEffect(s, pa.sourceId, TargetSeat(pa.targetId), pa.cardUsed, []));
  }

  /**
   * The AI's answer in a response window (App.tsx:390-412): an AI target
   * plays the first card of the asked kind, which goes to the discard pile,
   * and the window is resolved as answered; without one it is resolved as
   * unanswered. A window aimed at the human stays open.
   */
  function AiRespond(s: GameState): (r: GameState)
    requires Responding(s) && s.pendingAction.value.kind == ResponseCard
  {
    var pa := s.pendingAction.value;
    var t := pa.targetId.seat;
    var tgt := s.players[t];
    if s.winner.Some? then s
    else if tgt.isAi && pa.cardNeeded.Some? then
      match FirstOfKind(tgt.hand, pa.cardNeeded.value)
      case Some(c) => ResolveResponse(HandToDiscard(s, t, RemoveById(tgt.hand, c.uniqueId), [c]), true)
      case None => ResolveResponse(s, false)
    else s
  }

  /**
   * An AI holding the asked kind answers with exactly one such card, which
   * ends on the discard pile; an AI without one takes the follow-up
   * (App.tsx:395-411).
   */
  lemma AiRespondFacts(s: GameState)
    requires Responding(s) && s.pendingAction.value.kind == ResponseCard && s.winner.None?
    requires var t := s.pendingAction.value.targetId.seat; s.players[t].isAi && DistinctUids(s.players[t].hand)
    ensures var pa := s.pendingAction.value; var t := pa.targetId.seat; var r := AiRespond(s);
      match FirstOfKind(s.players[t].hand, pa.cardNeeded.value)
      case Some(c) =>
        |r.players[t].hand| == |s.players[t].hand| - 1
        && r.discardPile == s.discardPile + [c]
        && c.Kind() == pa.cardNeeded.value
        && r == ResolveResponse(HandToDiscard(s, t, RemoveById(s.players[t].hand, c.uniqueId), [c]), true)
      case None =>
        r == ResolveResponse(s, false)
  {
    var pa := s.pendingAction.value;
    var t := pa.targetId.seat;
    var h := s.players[t].hand;
    match FirstOfKind(h, pa.cardNeeded.value)
    case Some(c) =>
      RemoveHeld(h, c);
      var s1 := HandToDiscard(s, t, RemoveById(h, c.uniqueId), [c]);
      assert Answered(s1).players == s1.players && Answered(s1).discardPile == s1.discardPile;
    case None =>
  }

  /** The AI's answer keeps the state valid and moves no card. */
  lemma AiRespondKeeps(s: GameState)
    requires Valid(s) && Responding(s) && s.pendingAction.value.kind == ResponseCard
    requires var t := s.pendingAction.value.targetId.seat; DistinctUids(s.players[t].hand)
    ensures Valid(AiRespond(s)) && Cards(AiRespond(s)) == Cards(s)
  {
    var pa := s.pendingAction.value;
    var t := pa.targetId.seat;
    var h := s.players[t].hand;
    if s.winner.None? && s.players[t].isAi && pa.cardNeeded.Some? {
      match FirstOfKind(h, pa.cardNeeded.value)
      case Some(c) =>
        RemoveHeld(h, c);
        var s1 := HandToDiscard(s, t, RemoveById(h, c.uniqueId), [c]);
        HandToDiscardKeeps(s, t, RemoveById(h, c.uniqueId), [c]);
        AnsweredKeeps(s1);
      case None =>
        DeclinedKeeps(s);
    }
  }

  /** Once a winner is recorded, neither the AI's answer nor the judgement moves the game on (App.tsx:388). */
  lemma GameOverFreezes(s: GameState, r: real)
    requires Responding(s) && s.winner.Some? && IsRandom(r)
    ensures s.pendingAction.value.kind == ResponseCard ==> AiRespond(s) == s
    ensures s.pendingAction.value.kind == Judgement ==> JudgementTick(s, r) == s
  {}

  // ------------------------------------------------------------ judgement

  /** `['heart', 'diamond', 'spade', 'club'][Math.floor(Math.random() * 4)]` (App.tsx:425-426). */
  function JudgementSuit(r: real): Suit
    requires IsRandom(r)
  {
    [Heart, Diamond, Spade, Club][RandomBelow(r, 4)]
  }

  /** Every suit can be judged. */
  lemma JudgementSuitsAll(suit: Suit)
    ensures exists r :: IsRandom(r) && JudgementSuit(r) == suit
  {
    var r := match suit case Heart => 0.0 case Diamond => 0.25 case Spade => 0.5 case Club => 0.75;
    assert IsRandom(r) && JudgementSuit(r) == suit;
  }

  /** The judgement test (App.tsx:435-436): a fire scroll needs red, the area card black. */
  predicate JudgementSucceeds(card: PlayingCard, suit: Suit)
  {
    (card.def.id == "fireball" && (suit == Heart || suit == Diamond))
    || (card.def.id == "chidori" && (suit == Spade || suit == Club))
  }

  /** The fire scroll succeeds exactly on red, the area card exactly on black, and nothing else is judged a success. */
  lemma JudgementExactly(card: PlayingCard, suit: Suit)
    ensures card.def.id == "fireball" ==> (JudgementSucceeds(card, suit) <==> IsRed(suit))
    ensures card.def.id == "chidori" ==> (JudgementSucceeds(card, suit) <==> !IsRed(suit))
    ensures card.def.id != "fireball" && card.def.id != "chidori" ==> !JudgementSucceeds(card, suit)
  {}

  /**
   * One tick of a pending judgement (App.tsx:417-450): the first marks the
   * draw step; the second draws a suit, resolves the card's effect on
   * success, and clears the judgement either way.
   */
  function JudgementTick(s: GameState, r: real): (res: GameState)
    requires Responding(s) && s.pendingAction.value.kind == Judgement && IsRandom(r)
  {
    var pa := s.pendingAction.value;
    if s.winner.Some? then s
    else if pa.judgementStep.None? then s.(pendingAction := Some(pa.(judgementStep := Some(DrawStep))))
    else if JudgementSucceeds(pa.cardUsed, JudgementSuit(r)) then
      ResolveEffect(s, pa.sourceId, TargetSeat(pa.targetId), pa.cardUsed, []).(pendingAction := None)
    else s.(pendingAction := None)
  }

  /**
   * After the draw step the judgement is cleared whatever the suit; on a
   * failure nothing else changes, on a success the card's effect is applied
   * (App.tsx:435-446).
   */
  lemma JudgementClears(s: GameState, r: real)
    requires Responding(s) && s.pendingAction.value.kind == Judgement && IsRandom(r)
    requires s.pendingAction.value.judgementStep == Some(DrawStep) && s.winner.None?
    ensures JudgementTick(s, r).pendingAction.None?
    ensures var pa := s.pendingAction.value;
      !JudgementSucceeds(pa.cardUsed, JudgementSuit(r)) ==> JudgementTick(s, r) == s.(pendingAction := None)
    ensures var pa := s.pendingAction.value;
      JudgementSucceeds(pa.cardUsed, JudgementSuit(r)) ==>
        JudgementTick(s, r) == ResolveEffect(s, pa.sourceId, TargetSeat(pa.targetId), pa.cardUsed, []).(pendingAction := None)
  {}

  /** A judgement tick keeps the state valid and moves no card. */
  lemma JudgementKeeps(s: GameState, r: real)
    requires Valid(s) && Responding(s) && s.pendingAction.value.kind == Judgement && IsRandom(r)
    ensures Valid(JudgementTick(s, r)) && Cards(JudgementTick(s, r)) == Cards(s)
  {
    var pa := s.pendingAction.value;
    if s.winner.Some? {
    } else if pa.judgementStep.None? {
      PendingKeeps(s, pa.(judgementStep := Some(DrawStep)));
    } else if JudgementSucceeds(pa.cardUsed, JudgementSuit(r)) {
      ResolveEffectKeeps(s, pa.sourceId, TargetSeat(pa.targetId), pa.cardUsed, []);
      ClearKeeps(ResolveEffect(s, pa.sourceId, TargetSeat(pa.targetId), pa.cardUsed, []));
    } else {
      ClearKeeps(s);
    }
  }
}
