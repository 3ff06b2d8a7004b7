/**
 * Whole-state helpers shared by the phase, play and ultimate modules: the
 * well-formedness of a state, single-seat updates (`players.map(p => p.id ===
 * id ? … : p)` on seats whose id is their index), damage and the multiset of
 * all cards in play.
 */
module State {
  import opened Types
  import opened Rules
  import opened Shuffle

  /** Seats are numbered by position and every id a pending action names is a seat. */
  predicate Valid(s: GameState)
  {
    Seated(s) && (s.pendingAction.Some? ==> WellFormed(s.pendingAction.value, |s.players|))
  }

  /**
   * The shapes of pending action the source creates: a response window names
   * one target seat, the card it asks for and a follow-up; a judgement has no
   * follow-up and judges an area or a fire scroll, and only the area judgement
   * targets all others; a scroll resolved after its window is a steal,
   * dismantle or skip scroll (App.tsx:724-745, 757-767).
   */
  predicate WellFormed(a: PendingAction, n: nat)
  {
    a.sourceId < n
    && (a.targetId.Seat? ==> a.targetId.seat < n)
    && (a.kind == ResponseCard ==> a.targetId.Seat? && a.cardNeeded.Some? && a.actionAfter.Some?)
    && (a.kind == Judgement ==> a.actionAfter.None? && a.cardNeeded.None?)
    && (a.targetId.AllOthers? ==> a.cardUsed.Kind() == Aoe)
    && (a.kind == Judgement ==> a.cardUsed.Kind() == Aoe || a.cardUsed.Kind() == DamageScroll)
    && (a.actionAfter == Some(AfterJudgement) ==> a.cardUsed.Kind() == DamageScroll)
    && (a.actionAfter == Some(AfterResolve) ==>
          a.cardUsed.Kind() == StealScroll || a.cardUsed.Kind() == DiscardScroll || a.cardUsed.Kind() == SkipTurn)
  }

  /** Replaces the player of seat `i`, as the source's `map` over ids does. */
  function WithPlayer(s: GameState, i: nat, p: Player): (r: GameState)
    requires i < |s.players|
    ensures |r.players| == |s.players| && r.players[i] == p
    ensures forall k :: 0 <= k < |s.players| && k != i ==> r.players[k] == s.players[k]
  {
    s.(players := s.players[i := p])
  }

  /** A state with the same seats, ids, turn and pending action as a valid one is valid. */
  lemma SameShapeValid(s: GameState, r: GameState)
    requires Valid(s) && |r.players| == |s.players| && r.turnIndex == s.turnIndex && r.pendingAction == s.pendingAction
    requires forall i :: 0 <= i < |s.players| ==> r.players[i].id == s.players[i].id
    ensures Valid(r)
  {}

  /** Updating a seat with a player of the same id keeps the state valid. */
  lemma WithPlayerValid(s: GameState, i: nat, p: Player)
    requires Valid(s) && i < |s.players| && p.id == i
    ensures Valid(WithPlayer(s, i, p))
  {}

  /** `target.hp -= amount` (App.tsx:840-847). */
  function Hurt(p: Player, amount: int): Player
  {
    p.(hp := p.hp - amount)
  }

  /** The card an optional slot holds, as a multiset of at most one card. */
  function OptCards(o: Option<PlayingCard>): multiset<PlayingCard>
  {
    if o.Some? then multiset{o.value} else multiset{}
  }

  /** The cards lying in the four slots. */
  function EquipCards(e: Equips): multiset<PlayingCard>
  {
    OptCards(e.weapon) + OptCards(e.armor) + OptCards(e.offHorse) + OptCards(e.defHorse)
  }

  /** Filling a slot replaces its old card, if any, by the new one. */
  lemma SetSlotCards(e: Equips, sl: Slot, c: PlayingCard)
    ensures EquipCards(SetSlot(e, sl, Some(c))) + OptCards(GetSlot(e, sl)) == EquipCards(e) + multiset{c}
  {
    var w, a, o, d := OptCards(e.weapon), OptCards(e.armor), OptCards(e.offHorse), OptCards(e.defHorse);
    var n := OptCards(Some(c));
    assert n == multiset{c};
    match sl
    case WeaponSlot =>
      assert EquipCards(SetSlot(e, sl, Some(c))) == n + a + o + d;
      SlotSwap(n, a, o, d, w, w + a + o + d + n);
    case ArmorSlot =>
      assert EquipCards(SetSlot(e, sl, Some(c))) == w + n + o + d;
      SlotSwap(w, n, o, d, a, w + a + o + d + n);
    case OffHorseSlot =>
      assert EquipCards(SetSlot(e, sl, Some(c))) == w + a + n + d;
      SlotSwap(w, a, n, d, o, w + a + o + d + n);
    case DefHorseSlot =>
      assert EquipCards(SetSlot(e, sl, Some(c))) == w + a + o + n;
      SlotSwap(w, a, o, n, d, w + a + o + d + n);
  }

  /** Four slot multisets and a fifth add up to `total` when their counts do. */
  lemma SlotSwap(p: multiset<PlayingCard>, q: multiset<PlayingCard>, u: multiset<PlayingCard>, v: multiset<PlayingCard>,
                 x: multiset<PlayingCard>, total: multiset<PlayingCard>)
    requires forall y :: p[y] + q[y] + u[y] + v[y] + x[y] == total[y]
    ensures p + q + u + v + x == total
  {
    assert forall y :: (p + q + u + v + x)[y] == total[y];
  }

  function PlayerCards(p: Player): multiset<PlayingCard>
  {
    multiset(p.hand) + EquipCards(p.equips)
  }

  /** The cards held by the players, in hand or in a slot. */
  function SeatCards(ps: seq<Player>): multiset<PlayingCard>
  {
    if ps == [] then multiset{} else PlayerCards(ps[0]) + SeatCards(ps[1..])
  }

  /** Every card of the game: deck, discard pile, hands and equipment. */
  function Cards(s: GameState): multiset<PlayingCard>
  {
    multiset(s.deck) + multiset(s.discardPile) + SeatCards(s.players)
  }

  /** Associativity and commutativity of multiset union, in the shape the update lemma needs. */
  lemma Rearrange(h: multiset<PlayingCard>, r: multiset<PlayingCard>, r': multiset<PlayingCard>,
                  x: multiset<PlayingCard>, y: multiset<PlayingCard>)
    requires r' + x == r + y
    ensures h + r' + x == h + r + y
  {
    assert h + r' + x == h + (r' + x);
  }

  lemma SeatCardsUpdateHead(ps: seq<Player>, p: Player)
    requires 0 < |ps|
    ensures SeatCards(ps[0 := p]) + PlayerCards(ps[0]) == SeatCards(ps) + PlayerCards(p)
  {
    assert ps[0 := p][1..] == ps[1..];
    Rearrange(SeatCards(ps[1..]), PlayerCards(ps[0]), PlayerCards(p), PlayerCards(ps[0]), PlayerCards(p));
  }

  lemma Cancel(a: multiset<PlayingCard>, b: multiset<PlayingCard>, c: multiset<PlayingCard>)
    requires a + c == b + c
    ensures a == b
  {
    assert a == a + c - c;
  }

  /** Replacing one seat's player exchanges that player's cards and nobody else's. */
  lemma {:induction false} SeatCardsUpdate(ps: seq<Player>, i: nat, p: Player)
    requires i < |ps|
    ensures SeatCards(ps[i := p]) + PlayerCards(ps[i]) == SeatCards(ps) + PlayerCards(p)
  {
    var qs := ps[i := p];
    if i == 0 {
      SeatCardsUpdateHead(ps, p);
    } else {
      assert qs[1..] == ps[1..][i - 1 := p];
      assert ps[1..][i - 1] == ps[i];
      SeatCardsUpdate(ps[1..], i - 1, p);
      Rearrange(PlayerCards(ps[0]), SeatCards(ps[1..]), SeatCards(qs[1..]), PlayerCards(ps[i]), PlayerCards(p));
    }
  }

  /**
   * A change of one hand: when the new hand plus the cards taken out equals
   * the old hand plus the cards put in, the same holds of all seats.
   */
  lemma HandChange(ps: seq<Player>, i: nat, h: seq<PlayingCard>, added: multiset<PlayingCard>, removed: multiset<PlayingCard>)
    requires i < |ps| && multiset(h) + removed == multiset(ps[i].hand) + added
    ensures SeatCards(ps[i := ps[i].(hand := h)]) + removed == SeatCards(ps) + added
  {
    var p := ps[i].(hand := h);
    SeatCardsUpdate(ps, i, p);
    HandChangeStep(SeatCards(ps[i := p]), SeatCards(ps), multiset(h), multiset(ps[i].hand),
      EquipCards(ps[i].equips), added, removed);
  }

  lemma HandChangeStep(a: multiset<PlayingCard>, b: multiset<PlayingCard>, h: multiset<PlayingCard>,
                       old_h: multiset<PlayingCard>, e: multiset<PlayingCard>,
                       added: multiset<PlayingCard>, removed: multiset<PlayingCard>)
    requires a + (old_h + e) == b + (h + e)
    requires h + removed == old_h + added
    ensures a + removed == b + added
  {
    forall x ensures (a + removed)[x] == (b + added)[x] {
      assert (a + (old_h + e))[x] == (b + (h + e))[x];
      assert (h + removed)[x] == (old_h + added)[x];
    }
  }

  /** Seat `i` keeps `kept` of its hand and the rest goes on top of the discard pile. */
  function HandToDiscard(s: GameState, i: nat, kept: seq<PlayingCard>, moved: seq<PlayingCard>): (r: GameState)
    requires i < |s.players|
    ensures |r.players| == |s.players| && r.players[i].hand == kept && r.discardPile == s.discardPile + moved
  {
    s.(players := s.players[i := s.players[i].(hand := kept)], discardPile := s.discardPile + moved)
  }

  /** Moving cards from a hand to the discard pile keeps every card of the game. */
  lemma HandToDiscardKeeps(s: GameState, i: nat, kept: seq<PlayingCard>, moved: seq<PlayingCard>)
    requires Valid(s) && i < |s.players|
    requires multiset(kept) + multiset(moved) == multiset(s.players[i].hand)
    ensures Valid(HandToDiscard(s, i, kept, moved))
    ensures Cards(HandToDiscard(s, i, kept, moved)) == Cards(s)
  {
    var r := HandToDiscard(s, i, kept, moved);
    assert Cards(r) == Cards(s) by {
      HandChange(s.players, i, kept, multiset{}, multiset(moved));
      MoveToPile(multiset(s.deck), multiset(s.discardPile), multiset(moved), SeatCards(r.players), SeatCards(s.players));
      assert multiset(r.discardPile) == multiset(s.discardPile) + multiset(moved);
    }
    assert Valid(r) by {
      SameShapeValid(s, r);
    }
  }

  lemma MoveToPile(deck: multiset<PlayingCard>, discard: multiset<PlayingCard>, moved: multiset<PlayingCard>,
                   seats': multiset<PlayingCard>, seats: multiset<PlayingCard>)
    requires seats' + moved == seats + multiset{}
    ensures deck + (discard + moved) + seats' == deck + discard + seats
  {
    forall x ensures (deck + (discard + moved) + seats')[x] == (deck + discard + seats)[x] {
      assert (seats' + moved)[x] == (seats + multiset{})[x];
    }
  }

  /** A seat update that keeps the player's cards keeps the cards of the game. */
  lemma SameCardsUpdate(s: GameState, i: nat, p: Player)
    requires i < |s.players| && PlayerCards(p) == PlayerCards(s.players[i])
    ensures Cards(WithPlayer(s, i, p)) == Cards(s)
  {
    SeatCardsUpdate(s.players, i, p);
    Cancel(SeatCards(s.players[i := p]), SeatCards(s.players), PlayerCards(p));
  }

  /**
   * A state that differs from a valid one only in one seat's player, its
   * phase or its winner, where the new player has the old id and cards, is
   * valid and has the same cards.
   */
  lemma UpdateKeeps(s: GameState, r: GameState, i: nat, p: Player)
    requires Valid(s) && i < |s.players| && p.id == s.players[i].id && PlayerCards(p) == PlayerCards(s.players[i])
    requires r.players == s.players[i := p] && r.deck == s.deck && r.discardPile == s.discardPile
    requires r.turnIndex == s.turnIndex && r.pendingAction == s.pendingAction
    ensures Valid(r) && Cards(r) == Cards(s)
  {
    var w := WithPlayer(s, i, p);
    assert Cards(w) == Cards(s) by {
      SameCardsUpdate(s, i, p);
    }
    assert Valid(w) by {
      SameShapeValid(s, w);
    }
    assert r == w.(phase := r.phase, winner := r.winner);
  }

  /** Hit points do not hold cards: a sequence of damage keeps every seat's cards. */
  lemma {:induction false} SeatCardsPointwise(ps: seq<Player>, qs: seq<Player>)
    requires |ps| == |qs|
    requires forall k :: 0 <= k < |ps| ==> PlayerCards(ps[k]) == PlayerCards(qs[k])
    ensures SeatCards(ps) == SeatCards(qs)
  {
    if ps != [] {
      SeatCardsPointwise(ps[1..], qs[1..]);
    }
  }

  /** The shuffle draws a draw of `count` cards needs: one per card of deck and discard pile when it reshuffles. */
  predicate DrawOracle(s: GameState, count: nat, rnd: seq<real>)
  {
    AllRandom(rnd) && (|s.deck| < count ==> |s.deck| + |s.discardPile| <= |rnd| + 1)
  }

  /**
   * The deck and the discard pile a draw of `count` cards is taken from: when
   * the deck is too short, the two are merged and shuffled into a new deck and
   * the discard pile is emptied (App.tsx:478-490).
   */
  function Refill(s: GameState, count: nat, rnd: seq<real>): (r: (seq<PlayingCard>, seq<PlayingCard>))
    requires DrawOracle(s, count, rnd)
    ensures |s.deck| >= count ==> r == (s.deck, s.discardPile)
    ensures |s.deck| < count ==> r.1 == [] && |r.0| == |s.deck| + |s.discardPile|
  {
    if |s.deck| < count then
      FisherYatesPermutes(s.deck + s.discardPile, rnd);
      (FisherYates(s.deck + s.discardPile, rnd), [])
    else (s.deck, s.discardPile)
  }

  /** The refill only reorders the cards of deck and discard pile. */
  lemma RefillKeeps(s: GameState, count: nat, rnd: seq<real>)
    requires DrawOracle(s, count, rnd)
    ensures multiset(Refill(s, count, rnd).0) + multiset(Refill(s, count, rnd).1) == multiset(s.deck) + multiset(s.discardPile)
  {
    if |s.deck| < count {
      FisherYatesPermutes(s.deck + s.discardPile, rnd);
    }
  }

  lemma DrawStepCards(top: multiset<PlayingCard>, rest: multiset<PlayingCard>, discard': multiset<PlayingCard>,
                      deck: multiset<PlayingCard>, discard: multiset<PlayingCard>,
                      seats': multiset<PlayingCard>, seats: multiset<PlayingCard>)
    requires seats' + multiset{} == seats + top
    requires top + rest + discard' == deck + discard
    ensures rest + discard' + seats' == deck + discard + seats
  {
    forall x ensures (rest + discard' + seats')[x] == (deck + discard + seats)[x] {
      assert (seats' + multiset{})[x] == (seats + top)[x];
      assert (top + rest + discard')[x] == (deck + discard)[x];
    }
  }

  /**
   * `count` cards (as many as there are) go from the top of the refilled deck
   * to the hand of seat `seat`: the DRAW step (App.tsx:492-505) and the draw
   * card (App.tsx:785-799).
   */
  function DrawCards(s: GameState, seat: nat, count: nat, rnd: seq<real>): (r: GameState)
    requires seat < |s.players| && DrawOracle(s, count, rnd)
  {
    var p := s.players[seat];
    var (deck, discard) := Refill(s, count, rnd);
    var k := Min(count, |deck|);
    s.(players := s.players[seat := p.(hand := p.hand + deck[..k])], deck := deck[k..], discardPile := discard)
  }

  /**
   * A draw conserves the cards of the game. It moves exactly `count` cards
   * when deck and discard pile together hold that many, taking the top of the
   * deck when it is long enough and emptying the discard pile when it is not.
   */
  lemma DrawCardsFacts(s: GameState, seat: nat, count: nat, rnd: seq<real>)
    requires Valid(s) && seat < |s.players| && DrawOracle(s, count, rnd)
    ensures Valid(DrawCards(s, seat, count, rnd)) && Cards(DrawCards(s, seat, count, rnd)) == Cards(s)
    ensures |DrawCards(s, seat, count, rnd).players| == |s.players|
    ensures |DrawCards(s, seat, count, rnd).players[seat].hand| == |s.players[seat].hand| + Min(count, |s.deck| + |s.discardPile|)
    ensures |s.deck| >= count ==> (DrawCards(s, seat, count, rnd).players[seat].hand == s.players[seat].hand + s.deck[..count]
        && DrawCards(s, seat, count, rnd).deck == s.deck[count..] && DrawCards(s, seat, count, rnd).discardPile == s.discardPile)
    ensures |s.deck| < count ==> DrawCards(s, seat, count, rnd).discardPile == []
    ensures forall k :: 0 <= k < |s.players| && k != seat ==> DrawCards(s, seat, count, rnd).players[k] == s.players[k]
    ensures DrawCards(s, seat, count, rnd).players[seat] == s.players[seat].(hand := DrawCards(s, seat, count, rnd).players[seat].hand)
    ensures DrawCards(s, seat, count, rnd) == s.(players := DrawCards(s, seat, count, rnd).players,
      deck := DrawCards(s, seat, count, rnd).deck, discardPile := DrawCards(s, seat, count, rnd).discardPile)
  {
    DrawCardsKeeps(s, seat, count, rnd);
  }

  /** The conservation half of `DrawCardsFacts`. */
  lemma DrawCardsKeeps(s: GameState, seat: nat, count: nat, rnd: seq<real>)
    requires Valid(s) && seat < |s.players| && DrawOracle(s, count, rnd)
    ensures Valid(DrawCards(s, seat, count, rnd)) && Cards(DrawCards(s, seat, count, rnd)) == Cards(s)
  {
    var p := s.players[seat];
    var (deck, discard) := Refill(s, count, rnd);
    var k := Min(count, |deck|);
    var r := DrawCards(s, seat, count, rnd);
    assert r.players == s.players[seat := p.(hand := p.hand + deck[..k])];
    assert Cards(r) == Cards(s) by {
      RefillKeeps(s, count, rnd);
      assert deck == deck[..k] + deck[k..];
      assert multiset(p.hand + deck[..k]) == multiset(p.hand) + multiset(deck[..k]);
      HandChange(s.players, seat, p.hand + deck[..k], multiset(deck[..k]), multiset{});
      DrawStepCards(multiset(deck[..k]), multiset(deck[k..]), multiset(discard), multiset(s.deck),
        multiset(s.discardPile), SeatCards(r.players), SeatCards(s.players));
    }
    assert Valid(r) by {
      SameShapeValid(s, r);
    }
  }

  /**
   * `applyDamage` (App.tsx:849-858): the target loses `amount` hit points,
   * and when exactly one player is left alive that player becomes the winner.
   */
  function ApplyDamage(s: GameState, target: nat, amount: int): (r: GameState)
    requires target < |s.players|
    ensures r.players == s.players[target := Hurt(s.players[target], amount)]
    ensures r.deck == s.deck && r.discardPile == s.discardPile && r.phase == s.phase
    ensures r.turnIndex == s.turnIndex && r.pendingAction == s.pendingAction
    ensures r.winner.Some? && r.winner != s.winner ==> |Alive(r.players)| == 1 && r.winner == Some(Alive(r.players)[0])
    ensures |Alive(r.players)| == 1 ==> r.winner.Some? && r.winner.value.hp > 0 && r.winner.value in r.players
  {
    var ps := s.players[target := Hurt(s.players[target], amount)];
    var survivors := Alive(ps);
    if |survivors| == 1 then s.(players := ps, winner := Some(survivors[0]))
    else s.(players := ps)
  }

  /** With no winner before, a winner is recorded exactly when one player is left alive (App.tsx:854-855). */
  lemma WinnerIffOneSurvivor(s: GameState, target: nat, amount: int)
    requires target < |s.players| && s.winner.None?
    ensures ApplyDamage(s, target, amount).winner.Some? <==> |Alive(ApplyDamage(s, target, amount).players)| == 1
  {}

  /** Damage moves no card and keeps the state valid. */
  lemma ApplyDamageKeeps(s: GameState, target: nat, amount: int)
    requires Valid(s) && target < |s.players|
    ensures Valid(ApplyDamage(s, target, amount))
    ensures Cards(ApplyDamage(s, target, amount)) == Cards(s)
  {
    SameCardsUpdate(s, target, Hurt(s.players[target], amount));
  }

  // ------------------------------------------------------------ instance ids

  /** The cards of a list carry pairwise distinct instance ids. */
  predicate DistinctUids(h: seq<PlayingCard>)
  {
    forall i, j :: 0 <= i < j < |h| ==> h[i].uniqueId != h[j].uniqueId
  }

  /** Every card of a collection occurs once, and no two of its cards share an instance id. */
  predicate UniqueCards(m: multiset<PlayingCard>)
  {
    forall c, d :: c in m && d in m && c.uniqueId == d.uniqueId ==> c == d && m[c] == 1
  }

  /**
   * The invariant of a running game: a valid state whose cards, wherever
   * they lie, are each one of a kind, as `generateDeck` makes them. The
   * engine finds cards by `uniqueId` (App.tsx:401, 670-676, 870-872), which
   * is sound only under this invariant.
   */
  predicate Sound(s: GameState)
  {
    Valid(s) && UniqueCards(Cards(s))
  }

  /** A list has distinct instance ids exactly when its multiset of cards is unique. */
  lemma {:induction false} DistinctIffUnique(h: seq<PlayingCard>)
    ensures DistinctUids(h) <==> UniqueCards(multiset(h))
  {
    if h != [] {
      var x, t := h[0], h[1..];
      assert h == [x] + t;
      DistinctIffUnique(t);
      DistinctCons(h);
      UniqueAdd(x, multiset(t));
    }
  }

  /** A list has distinct ids when its tail has and no card of the tail shares the head's id. */
  lemma DistinctCons(h: seq<PlayingCard>)
    requires h != []
    ensures DistinctUids(h) <==> DistinctUids(h[1..]) && forall d :: d in h[1..] ==> d.uniqueId != h[0].uniqueId
  {
    var x, t := h[0], h[1..];
    assert forall k :: 1 <= k < |h| ==> h[k] == t[k - 1];
    if DistinctUids(t) && forall d :: d in t ==> d.uniqueId != x.uniqueId {
      forall i, j | 0 <= i < j < |h| ensures h[i].uniqueId != h[j].uniqueId {
        if i == 0 { assert h[j] in t; } else { assert h[i] == t[i - 1] && h[j] == t[j - 1]; }
      }
    }
    if DistinctUids(h) {
      forall d | d in t ensures d.uniqueId != x.uniqueId {
        var k :| 0 <= k < |t| && t[k] == d;
        assert h[k + 1] == d;
      }
    }
  }

  /** Adding one card keeps a collection unique exactly when no card shares its id. */
  lemma UniqueAdd(x: PlayingCard, m: multiset<PlayingCard>)
    ensures UniqueCards(multiset{x} + m) <==> UniqueCards(m) && forall d :: d in m ==> d.uniqueId != x.uniqueId
  {
    var n := multiset{x} + m;
    if UniqueCards(n) {
      forall d | d in m ensures d.uniqueId != x.uniqueId {
        assert x in n && d in n;
      }
      forall c, d | c in m && d in m && c.uniqueId == d.uniqueId ensures c == d && m[c] == 1 {
        assert c in n && d in n;
      }
    }
  }

  /** Part of a unique collection is unique. */
  lemma UniqueShrinks(m: multiset<PlayingCard>, part: multiset<PlayingCard>)
    requires UniqueCards(m) && part <= m
    ensures UniqueCards(part)
  {
    forall c, d | c in part && d in part && c.uniqueId == d.uniqueId ensures c == d && part[c] == 1 {
      assert c in m && d in m;
    }
  }

  /** A seat's cards are among the cards held by the players. */
  lemma {:induction false} PlayerInSeats(ps: seq<Player>, i: nat)
    requires i < |ps|
    ensures PlayerCards(ps[i]) <= SeatCards(ps)
  {
    var head, rest := PlayerCards(ps[0]), SeatCards(ps[1..]);
    assert SeatCards(ps) == head + rest;
    if i == 0 {
      WithinSum(head, rest, head);
    } else {
      PlayerInSeats(ps[1..], i - 1);
      assert ps[1..][i - 1] == ps[i];
      WithinSum(PlayerCards(ps[i]), head, rest);
    }
  }

  lemma WithinSum(a: multiset<PlayingCard>, b: multiset<PlayingCard>, c: multiset<PlayingCard>)
    requires a <= c
    ensures a <= b + c && a <= c + b
  {
    forall x ensures a[x] <= (b + c)[x] && a[x] <= (c + b)[x] {
      assert a[x] <= c[x];
    }
  }

  /** In a sound state every hand carries distinct instance ids. */
  lemma SoundHands(s: GameState, i: nat)
    requires Sound(s) && i < |s.players|
    ensures DistinctUids(s.players[i].hand)
  {
    PlayerInSeats(s.players, i);
    assert multiset(s.players[i].hand) <= Cards(s);
    UniqueShrinks(Cards(s), multiset(s.players[i].hand));
    DistinctIffUnique(s.players[i].hand);
  }

  /** A valid state holding some of a sound state's cards, and no others, is sound. */
  lemma SoundKept(s: GameState, r: GameState)
    requires Sound(s) && Valid(r) && Cards(r) <= Cards(s)
    ensures Sound(r)
  {
    UniqueShrinks(Cards(s), Cards(r));
  }
}
