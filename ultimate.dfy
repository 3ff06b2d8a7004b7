/**
 * The ultimate skills: `handleUltimateTrigger` (App.tsx:812-838) and the
 * human's ultimate button (App.tsx:861-863). The source first puts the
 * user's ultimate on a cooldown of 10 turns, then copies the player array
 * and writes hit points, hands, equipment and the skip flag on its entries;
 * the method below does the same on an array and is proved to compute the
 * effect function.
 */
module Ultimate {
  import opened Types
  import opened Rules
  import opened State
  import opened Effects

  /** The cooldown an ultimate is put on when it fires (App.tsx:815). */
  const ULT_COOLDOWN := 10

  /** The seat an ultimate aims at: `targetId ? players.find(...) : null`. */
  function Aim(s: GameState, target: Option<nat>): (r: Option<nat>)
    ensures r.Some? ==> r.value < |s.players|
  {
    if target.Some? && target.value < |s.players| then target else None
  }

  /** The user's ultimate goes on cooldown (App.tsx:815). */
  function OnCooldown(s: GameState, src: nat): (r: GameState)
    requires src < |s.players|
  {
    var c := s.players[src];
    WithPlayer(s, src, c.(flags := c.flags.(ultCooldown := ULT_COOLDOWN)))
  }

  /** Every alive seat other than `src` loses one hit point (App.tsx:824, 830). */
  function OthersHit(ps: seq<Player>, src: nat): (r: seq<Player>)
    ensures |r| == |ps|
  {
    seq(|ps|, i requires 0 <= i < |ps| => if ps[i].id != src && ps[i].hp > 0 then Hurt(ps[i], 1) else ps[i])
  }

  /** Every alive seat, the user's included, loses one hit point (App.tsx:833). */
  function AliveHit(ps: seq<Player>): (r: seq<Player>)
    ensures |r| == |ps|
  {
    seq(|ps|, i requires 0 <= i < |ps| => if ps[i].hp > 0 then Hurt(ps[i], 1) else ps[i])
  }

  /** The first two cards of a hand are spliced away, or all of a shorter hand (App.tsx:832). */
  function Stripped(p: Player): Player
  {
    p.(hand := p.hand[Min(2, |p.hand|)..])
  }

  /** An alive seat other than `src` is stripped; the others keep their hands. */
  function PainOne(p: Player, src: nat): Player
  {
    if p.id != src && p.hp > 0 then Stripped(p) else p
  }

  /** Every alive seat other than `src` loses the first two cards of its hand (App.tsx:832). */
  function PainStrip(ps: seq<Player>, src: nat): (r: seq<Player>)
    ensures |r| == |ps|
  {
    seq(|ps|, i requires 0 <= i < |ps| => PainOne(ps[i], src))
  }

  /** `target.hp -= amount` on the aimed seat, if there is one. */
  function Strike(s: GameState, tgt: Option<nat>, amount: int): (r: GameState)
    requires tgt.Some? ==> tgt.value < |s.players|
  {
    if tgt.Some? then WithPlayer(s, tgt.value, Hurt(s.players[tgt.value], amount)) else s
  }

  /** `src.hand.push(...deck.slice(0, k))` and `deck.slice(k)`: no reshuffle, fewer cards from a short deck. */
  function TopUp(s: GameState, seat: nat, k: nat): (r: GameState)
    requires seat < |s.players|
  {
    var m := Min(k, |s.deck|);
    var p := s.players[seat];
    s.(players := s.players[seat := p.(hand := p.hand + s.deck[..m])], deck := s.deck[m..])
  }

  /** The character-specific part of an ultimate (App.tsx:816-837), on the state after the cooldown. */
  function UltBody(s: GameState, src: nat, tgt: Option<nat>): (r: GameState)
    requires src < |s.players| && (tgt.Some? ==> tgt.value < |s.players|)
  {
    var ps := s.players;
    var p := ps[src];
    match p.character.id
    case Naruto => Strike(s, tgt, 2)
    case Sasuke => s.(players := OthersHit(ps, src))
    case Kakashi =>
      if tgt.Some? then
        var t := Hurt(ps[tgt.value], 1);
        WithPlayer(s, tgt.value, if t.hp > 0 then t.(equips := NoEquips) else t)
      else s
    case Sakura => WithPlayer(s, src, p.(hp := p.maxHp))
    case Gaara =>
      if tgt.Some? then WithPlayer(s, tgt.value, Hurt(ps[tgt.value].(skippedTurn := true), 1)) else s
    case Itachi => Strike(s, tgt, 2)
    case Tsunade => TopUp(WithPlayer(s, src, p.(hp := Min(p.maxHp, p.hp + 2))), src, 2)
    case Jiraiya => s.(players := OthersHit(ps, src))
    case Orochimaru =>
      var healed := WithPlayer(s, src, p.(hp := Min(p.maxHp, p.hp + 1)));
      var need := Max(0, 5 - |p.hand|);
      if need > 0 then TopUp(healed, src, need) else healed
    case Pain => s.(players := PainStrip(ps, src))
    case Madara => TopUp(s.(players := AliveHit(ps)), src, 3)
    case Minato => Strike(s, tgt, 2)
  }

  /** `handleUltimateTrigger` (App.tsx:812-838): seat `src` fires its ultimate at `target`. */
  function UltEffect(s: GameState, src: nat, target: Option<nat>): (r: GameState)
    requires src < |s.players|
  {
    UltBody(OnCooldown(s, src), src, Aim(s, target))
  }

  /** Every alive seat other than `src` loses a hit point, on the shared array. */
  method HitOthers(ps: array<Player>, src: nat)
    modifies ps
    ensures ps[..] == OthersHit(old(ps[..]), src)
  {
    ghost var start := ps[..];
    for i := 0 to ps.Length
      invariant ps[..i] == OthersHit(start, src)[..i]
      invariant ps[i..] == start[i..]
    {
      if ps[i].id != src && ps[i].hp > 0 {
        ApplyDamageState(ps, i, 1);
      }
      assert ps[..i + 1] == ps[..i] + [ps[i]];
      assert OthersHit(start, src)[..i + 1] == OthersHit(start, src)[..i] + [OthersHit(start, src)[i]];
    }
    assert ps[..] == ps[..ps.Length];
  }

  /** Every alive seat loses a hit point, on the shared array. */
  method HitAlive(ps: array<Player>)
    modifies ps
    ensures ps[..] == AliveHit(old(ps[..]))
  {
    ghost var start := ps[..];
    for i := 0 to ps.Length
      invariant ps[..i] == AliveHit(start)[..i]
      invariant ps[i..] == start[i..]
    {
      if ps[i].hp > 0 {
        ApplyDamageState(ps, i, 1);
      }
      assert ps[..i + 1] == ps[..i] + [ps[i]];
      assert AliveHit(start)[..i + 1] == AliveHit(start)[..i] + [AliveHit(start)[i]];
    }
    assert ps[..] == ps[..ps.Length];
  }

  /** Every alive seat other than `src` loses up to two cards from the front of its hand, on the shared array. */
  method StripOthers(ps: array<Player>, src: nat)
    modifies ps
    ensures ps[..] == PainStrip(old(ps[..]), src)
  {
    ghost var start := ps[..];
    for i := 0 to ps.Length
      invariant ps[..i] == PainStrip(start, src)[..i]
      invariant ps[i..] == start[i..]
    {
      var t := ps[i];
      if t.id != src && t.hp > 0 {
        if |t.hand| > 0 {
          ps[i] := t.(hand := t.hand[Min(2, |t.hand|)..]);
        } else {
          assert t.hand[0..] == t.hand;
        }
      }
      assert ps[i] == PainStrip(start, src)[i];
      assert ps[i + 1..] == start[i + 1..];
      assert ps[..i + 1] == ps[..i] + [ps[i]];
      assert PainStrip(start, src)[..i + 1] == PainStrip(start, src)[..i] + [PainStrip(start, src)[i]];
    }
    assert ps[..] == ps[..ps.Length];
  }

  /** `handleUltimateTrigger` (App.tsx:812-838), writing on a copy of the player array. */
  method UltimateTrigger(s: GameState, src: nat, target: Option<nat>) returns (r: GameState)
    requires src < |s.players|
    ensures r == UltEffect(s, src, target)
  {
    var n := |s.players|;
    var ps := new Player[n](i requires 0 <= i < n => s.players[i]);
    ps[src] := ps[src].(flags := ps[src].flags.(ultCooldown := ULT_COOLDOWN));
    ghost var s0 := OnCooldown(s, src);
    assert ps[..] == s0.players;
    var tgt := if target.Some? && target.value < n then target else None;
    var id := ps[src].character.id;
    var deck := s.deck;
    if id == Tsunade || id == Orochimaru || id == Madara {
      deck := DrawingUlt(ps, s0, s.deck, src, tgt);
    } else {
      StrikingUlt(ps, s0, src, tgt);
    }
    r := s.(players := ps[..], deck := deck);
  }

  /** The ultimates that change only the player array, in place (App.tsx:823-828, 830, 832, 834). */
  method StrikingUlt(ps: array<Player>, ghost s0: GameState, src: nat, tgt: Option<nat>)
    requires ps[..] == s0.players && src < ps.Length && (tgt.Some? ==> tgt.value < ps.Length)
    requires var id := ps[src].character.id; id != Tsunade && id != Orochimaru && id != Madara
    modifies ps
    ensures s0.(players := ps[..]) == UltBody(s0, src, tgt)
  {
    var p := ps[src];
    match p.character.id {
      case Naruto =>
        if tgt.Some? { ApplyDamageState(ps, tgt.value, 2); }
      case Sasuke =>
        HitOthers(ps, src);
      case Kakashi =>
        if tgt.Some? {
          var t := tgt.value;
          ApplyDamageState(ps, t, 1);
          if ps[t].hp > 0 {
            ps[t] := ps[t].(equips := NoEquips);
          }
        }
      case Sakura =>
        ps[src] := p.(hp := p.maxHp);
      case Gaara =>
        if tgt.Some? {
          var t := tgt.value;
          ps[t] := ps[t].(skippedTurn := true);
          ApplyDamageState(ps, t, 1);
        }
      case Itachi =>
        if tgt.Some? { ApplyDamageState(ps, tgt.value, 2); }
      case Jiraiya =>
        HitOthers(ps, src);
      case Pain =>
        StripOthers(ps, src);
      case Minato =>
        if tgt.Some? { ApplyDamageState(ps, tgt.value, 2); }
    }
  }

  /** The ultimates that also draw from the deck (App.tsx:829, 831, 833). */
  method DrawingUlt(ps: array<Player>, ghost s0: GameState, deck0: seq<PlayingCard>, src: nat, tgt: Option<nat>)
    returns (deck: seq<PlayingCard>)
    requires ps[..] == s0.players && deck0 == s0.deck && src < ps.Length && (tgt.Some? ==> tgt.value < ps.Length)
    requires var id := ps[src].character.id; id == Tsunade || id == Orochimaru || id == Madara
    modifies ps
    ensures s0.(players := ps[..], deck := deck) == UltBody(s0, src, tgt)
  {
    var p := ps[src];
    deck := deck0;
    match p.character.id {
      case Tsunade =>
        ps[src] := p.(hp := Min(p.maxHp, p.hp + 2));
        var m := Min(2, |deck|);
        ps[src] := ps[src].(hand := ps[src].hand + deck[..m]);
        deck := deck[m..];
      case Orochimaru =>
        ps[src] := p.(hp := Min(p.maxHp, p.hp + 1));
        var need := Max(0, 5 - |p.hand|);
        if need > 0 {
          var m := Min(need, |deck|);
          ps[src] := ps[src].(hand := ps[src].hand + deck[..m]);
          deck := deck[m..];
        }
      case Madara =>
        HitAlive(ps);
        var m := Min(3, |deck|);
        ps[src] := ps[src].(hand := ps[src].hand + deck[..m]);
        deck := deck[m..];
    }
  }

  /**
   * The human's ultimate button (App.tsx:861-863): during the play phase,
   * when the ultimate is not marked used and is available, it fires; a
   * targeted ultimate only opens the target dialog and fires at the seat
   * picked there, so with no pick (the dialog cancelled) nothing happens;
   * otherwise nothing happens either.
   */
  function HandleUltClick(s: GameState, picked: Option<nat>): (r: GameState)
    requires 0 < |s.players|
    ensures |r.players| == |s.players|
  {
    var me := s.players[0];
    if UltFires(s, picked) then
      var t := if me.character.ultType == TargetUlt then picked else None;
      BodyFrame(OnCooldown(s, 0), 0, Aim(s, t));
      UltEffect(s, 0, t)
    else s
  }

  /** When the human's button fires: in PLAY, unused, available, and with a pick for a targeted ultimate. */
  predicate UltFires(s: GameState, picked: Option<nat>)
    requires 0 < |s.players|
  {
    var me := s.players[0];
    s.phase == Play && !me.flags.usedUlt && CheckUltimateAvailable(me)
    && (me.character.ultType == TargetUlt ==> picked.Some?)
  }

  // ------------------------------------------------------------ properties

  /**
   * Whatever the character, an ultimate puts its user on a cooldown of 10
   * and leaves the user's other flags, the discard pile, the turn, the phase,
   * the pending action and the winner as they were: no ultimate records a
   * winner, even one that kills (App.tsx:815, 836).
   */
  lemma UltSetsCooldown(s: GameState, src: nat, target: Option<nat>)
    requires Valid(s) && src < |s.players|
    ensures var r := UltEffect(s, src, target);
      |r.players| == |s.players|
      && r.players[src].flags == s.players[src].flags.(ultCooldown := ULT_COOLDOWN)
      && r.players[src].character == s.players[src].character
      && r.discardPile == s.discardPile && r.turnIndex == s.turnIndex && r.phase == s.phase
      && r.pendingAction == s.pendingAction && r.winner == s.winner
      && (forall k :: 0 <= k < |s.players| ==> r.players[k].id == s.players[k].id && r.players[k].isAi == s.players[k].isAi)
  {
    var s0 := OnCooldown(s, src);
    BodyFrame(s0, src, Aim(s, target));
  }

  /** The frame every ultimate keeps: seats, ids, the user's flags and character, and everything but players and deck. */
  predicate SameFrame(s: GameState, r: GameState, src: nat)
    requires src < |s.players|
  {
    |r.players| == |s.players|
    && r.players[src].flags == s.players[src].flags
    && r.players[src].character == s.players[src].character
    && r.discardPile == s.discardPile && r.turnIndex == s.turnIndex && r.phase == s.phase
    && r.pendingAction == s.pendingAction && r.winner == s.winner
    && (forall k :: 0 <= k < |s.players| ==> r.players[k].id == s.players[k].id && r.players[k].isAi == s.players[k].isAi)
  }

  lemma BodyFrame(s: GameState, src: nat, tgt: Option<nat>)
    requires src < |s.players| && (tgt.Some? ==> tgt.value < |s.players|)
    ensures SameFrame(s, UltBody(s, src, tgt), src)
  {
    var ps := s.players;
    var p := ps[src];
    match p.character.id
    case Naruto =>
    case Itachi =>
    case Minato =>
    case Kakashi =>
    case Gaara =>
    case Sakura =>
    case Sasuke => assert UltBody(s, src, tgt) == s.(players := OthersHit(ps, src));
    case Jiraiya => assert UltBody(s, src, tgt) == s.(players := OthersHit(ps, src));
    case Pain => assert UltBody(s, src, tgt) == s.(players := PainStrip(ps, src));
    case Tsunade =>
    case Orochimaru =>
    case Madara => assert UltBody(s, src, tgt) == TopUp(s.(players := AliveHit(ps)), src, 3);
  }

  /**
   * The single-target damage ultimates of naruto, itachi and minato take two
   * hit points from the aimed seat and change no other seat than the user's
   * cooldown; without a target they only set the cooldown (App.tsx:823, 828,
   * 834).
   */
  lemma StrikeUlt(s: GameState, src: nat, target: Option<nat>)
    requires Valid(s) && src < |s.players|
    requires var id := s.players[src].character.id; id == Naruto || id == Itachi || id == Minato
    ensures var r := UltEffect(s, src, target); var tgt := Aim(s, target);
      |r.players| == |s.players|
      && (tgt.Some? ==> r.players[tgt.value].hp == s.players[tgt.value].hp - 2)
      && (tgt.Some? && tgt.value != src ==> r.players[tgt.value] == Hurt(s.players[tgt.value], 2))
      && (tgt.Some? && tgt.value == src ==> r.players[src] == Hurt(OnCooldown(s, src).players[src], 2))
      && (forall k :: 0 <= k < |s.players| && k != src && (tgt.Some? ==> k != tgt.value) ==> r.players[k] == s.players[k])
      && (tgt.None? ==> r == OnCooldown(s, src))
      && r.deck == s.deck
  {}

  /**
   * The area ultimates of sasuke and jiraiya take one hit point from every
   * alive seat other than the user's and leave the dead as they are
   * (App.tsx:820, 824, 830).
   */
  lemma VolleyUlt(s: GameState, src: nat, target: Option<nat>)
    requires Valid(s) && src < |s.players|
    requires s.players[src].character.id == Sasuke || s.players[src].character.id == Jiraiya
    ensures var r := UltEffect(s, src, target);
      (forall k :: 0 <= k < |s.players| && k != src && s.players[k].hp > 0 ==> r.players[k] == Hurt(s.players[k], 1))
      && (forall k :: 0 <= k < |s.players| && k != src && s.players[k].hp <= 0 ==> r.players[k] == s.players[k])
      && r.players[src].hp == s.players[src].hp
      && r.deck == s.deck
  {
    var s0 := OnCooldown(s, src);
    assert UltEffect(s, src, target).players == OthersHit(s0.players, src);
  }

  /**
   * Madara's ultimate takes one hit point from every alive seat, its user's
   * included, and then its user draws the top three cards of the deck, or
   * the whole of a shorter deck, without a reshuffle (App.tsx:833).
   */
  lemma MadaraUlt(s: GameState, src: nat, target: Option<nat>)
    requires Valid(s) && src < |s.players| && s.players[src].character.id == Madara
    ensures var r := UltEffect(s, src, target); var m := Min(3, |s.deck|);
      (forall k :: 0 <= k < |s.players| && k != src ==>
         r.players[k] == if s.players[k].hp > 0 then Hurt(s.players[k], 1) else s.players[k])
      && r.players[src].hp == (if s.players[src].hp > 0 then s.players[src].hp - 1 else s.players[src].hp)
      && r.players[src].hand == s.players[src].hand + s.deck[..m]
      && r.deck == s.deck[m..]
  {
    var s0 := OnCooldown(s, src);
    assert UltEffect(s, src, target) == TopUp(s0.(players := AliveHit(s0.players)), src, 3);
  }

  /**
   * The healing ultimates: sakura's restores all hit points; tsunade's heals
   * two, capped at the maximum, and draws two cards; orochimaru's heals one
   * and fills the hand up to five cards from the deck (App.tsx:826, 829,
   * 831).
   */
  lemma HealUlt(s: GameState, src: nat, target: Option<nat>)
    requires Valid(s) && src < |s.players|
    ensures var r := UltEffect(s, src, target); var p := s.players[src]; var q := r.players[src];
      (p.character.id == Sakura ==> q.hp == p.maxHp && r.deck == s.deck)
      && (p.character.id == Tsunade ==>
            q.hp == Min(p.maxHp, p.hp + 2) && q.hand == p.hand + s.deck[..Min(2, |s.deck|)] && r.deck == s.deck[Min(2, |s.deck|)..])
      && (p.character.id == Orochimaru ==>
            q.hp == Min(p.maxHp, p.hp + 1)
            && |q.hand| == (if |p.hand| >= 5 then |p.hand| else Min(5, |p.hand| + |s.deck|))
            && (|p.hand| < 5 ==> q.hand == p.hand + s.deck[..Min(5 - |p.hand|, |s.deck|)]))
      && ((p.character.id == Sakura || p.character.id == Tsunade || p.character.id == Orochimaru) ==>
            forall k :: 0 <= k < |s.players| && k != src ==> r.players[k] == s.players[k])
  {}

  /**
   * Gaara's ultimate makes the aimed seat skip its next turn and takes one
   * hit point from it (App.tsx:827).
   */
  lemma GaaraUlt(s: GameState, src: nat, target: Option<nat>)
    requires Valid(s) && src < |s.players| && s.players[src].character.id == Gaara
    requires Aim(s, target).Some?
    ensures var r := UltEffect(s, src, target); var t := Aim(s, target).value;
      r.players[t].skippedTurn && r.players[t].hp == s.players[t].hp - 1
      && r.players[t].hand == s.players[t].hand && r.players[t].equips == s.players[t].equips
      && (forall k :: 0 <= k < |s.players| && k != src && k != t ==> r.players[k] == s.players[k])
  {}

  /**
   * Kakashi's ultimate takes one hit point from the aimed seat and, when it
   * survives, clears all four of its slots; the cleared cards go nowhere,
   * so the game is left with exactly those cards fewer (App.tsx:825).
   */
  lemma KakashiUlt(s: GameState, src: nat, target: Option<nat>)
    requires Valid(s) && src < |s.players| && s.players[src].character.id == Kakashi
    requires Aim(s, target).Some?
    ensures var r := UltEffect(s, src, target); var t := Aim(s, target).value;
      |r.players| == |s.players|
      && (forall k :: 0 <= k < |s.players| && k != src && k != t ==> r.players[k] == s.players[k])
      && (t != src ==> r.players[t].(hp := s.players[t].hp, equips := s.players[t].equips) == s.players[t])
      && r.players[t].hand == s.players[t].hand
    ensures var r := UltEffect(s, src, target); var t := Aim(s, target).value;
      r.players[t].hp == s.players[t].hp - 1
      && (r.players[t].hp > 0 ==>
            r.players[t].equips == NoEquips && Cards(r) + EquipCards(s.players[t].equips) == Cards(s))
      && (r.players[t].hp <= 0 ==> r.players[t].equips == s.players[t].equips && Cards(r) == Cards(s))
  {
    KakashiSeats(s, src, target);
    KakashiCards(s, src, target);
  }

  /** The seats after kakashi's ultimate: only the aimed seat's hit points and slots change, and the user's cooldown. */
  lemma KakashiSeats(s: GameState, src: nat, target: Option<nat>)
    requires Valid(s) && src < |s.players| && s.players[src].character.id == Kakashi
    requires Aim(s, target).Some?
    ensures var r := UltEffect(s, src, target); var t := Aim(s, target).value;
      |r.players| == |s.players|
      && (forall k :: 0 <= k < |s.players| && k != src && k != t ==> r.players[k] == s.players[k])
      && (t != src ==> r.players[t].(hp := s.players[t].hp, equips := s.players[t].equips) == s.players[t])
      && r.players[t].hand == s.players[t].hand
  {
    var s0 := OnCooldown(s, src);
    var t := Aim(s, target).value;
    var h := Hurt(s0.players[t], 1);
    assert UltEffect(s, src, target) == WithPlayer(s0, t, if h.hp > 0 then h.(equips := NoEquips) else h);
  }

  /** The hit points of kakashi's target and the cards that leave the game. */
  lemma KakashiCards(s: GameState, src: nat, target: Option<nat>)
    requires Valid(s) && src < |s.players| && s.players[src].character.id == Kakashi
    requires Aim(s, target).Some?
    ensures var r := UltEffect(s, src, target); var t := Aim(s, target).value;
      |r.players| == |s.players|
      && r.players[t].hp == s.players[t].hp - 1
      && (r.players[t].hp > 0 ==>
            r.players[t].equips == NoEquips && Cards(r) + EquipCards(s.players[t].equips) == Cards(s))
      && (r.players[t].hp <= 0 ==> r.players[t].equips == s.players[t].equips && Cards(r) == Cards(s))
  {
    var c := s.players[src];
    var s0 := OnCooldown(s, src);
    var t := Aim(s, target).value;
    var h := Hurt(s0.players[t], 1);
    var q := if h.hp > 0 then h.(equips := NoEquips) else h;
    assert UltEffect(s, src, target) == WithPlayer(s0, t, q);
    assert Cards(s0) == Cards(s) by {
      SameCardsUpdate(s, src, c.(flags := c.flags.(ultCooldown := ULT_COOLDOWN)));
    }
    if h.hp > 0 {
      assert Cards(WithPlayer(s0, t, q)) + EquipCards(s.players[t].equips) == Cards(s0) by {
        Disarmed(s0, t, q);
      }
    } else {
      assert Cards(WithPlayer(s0, t, q)) == Cards(s0) by {
        SameCardsUpdate(s0, t, q);
      }
    }
  }

  /** A seat left with its hand and no equipment leaves the game with exactly its old equipment fewer. */
  lemma Disarmed(s: GameState, t: nat, q: Player)
    requires t < |s.players| && q.hand == s.players[t].hand && q.equips == NoEquips
    ensures Cards(WithPlayer(s, t, q)) + EquipCards(s.players[t].equips) == Cards(s)
  {
    SeatCardsUpdate(s.players, t, q);
    assert PlayerCards(s.players[t]) == PlayerCards(q) + EquipCards(s.players[t].equips);
    LoseCards(s, s.players[t := q], PlayerCards(q), EquipCards(s.players[t].equips));
  }

  /** Seats that exchange `lost` cards for none leave the game with exactly those fewer. */
  lemma LoseCards(s: GameState, qs: seq<Player>, kept: multiset<PlayingCard>, lost: multiset<PlayingCard>)
    requires SeatCards(qs) + (kept + lost) == SeatCards(s.players) + kept
    ensures Cards(s.(players := qs)) + lost == Cards(s)
  {
    forall x ensures (Cards(s.(players := qs)) + lost)[x] == Cards(s)[x] {
      assert (SeatCards(qs) + (kept + lost))[x] == (SeatCards(s.players) + kept)[x];
    }
  }

  /** The cards Pain's ultimate takes out of one hand. */
  function PainLossOne(p: Player, src: nat): multiset<PlayingCard>
  {
    if p.id != src && p.hp > 0 then multiset(p.hand[..Min(2, |p.hand|)]) else multiset{}
  }

  /** The cards Pain's ultimate takes out of the hands of `ps`. */
  function PainLoss(ps: seq<Player>, src: nat): multiset<PlayingCard>
  {
    if ps == [] then multiset{} else PainLossOne(ps[0], src) + PainLoss(ps[1..], src)
  }

  /** One stripped player holds exactly the spliced cards fewer. */
  lemma PainOneCards(p: Player, src: nat)
    ensures PlayerCards(PainOne(p, src)) + PainLossOne(p, src) == PlayerCards(p)
  {
    var m := Min(2, |p.hand|);
    assert p.hand == p.hand[..m] + p.hand[m..];
  }

  /** Pain's stripping leaves the seats with exactly the spliced cards fewer. */
  lemma {:induction false} PainAccount(ps: seq<Player>, src: nat)
    ensures SeatCards(PainStrip(ps, src)) + PainLoss(ps, src) == SeatCards(ps)
  {
    if ps != [] {
      var qs := PainStrip(ps, src);
      assert qs[1..] == PainStrip(ps[1..], src);
      assert qs[0] == PainOne(ps[0], src);
      PainAccount(ps[1..], src);
      PainOneCards(ps[0], src);
      PainStep(PlayerCards(qs[0]), PainLossOne(ps[0], src), PlayerCards(ps[0]),
        SeatCards(qs[1..]), PainLoss(ps[1..], src), SeatCards(ps[1..]));
    }
  }

  lemma PainStep(q0: multiset<PlayingCard>, l: multiset<PlayingCard>, p0: multiset<PlayingCard>,
                 qr: multiset<PlayingCard>, lr: multiset<PlayingCard>, pr: multiset<PlayingCard>)
    requires q0 + l == p0 && qr + lr == pr
    ensures q0 + qr + (l + lr) == p0 + pr
  {
    forall x ensures (q0 + qr + (l + lr))[x] == (p0 + pr)[x] {
      assert (q0 + l)[x] == p0[x];
      assert (qr + lr)[x] == pr[x];
    }
  }

  /** Pain's ultimate takes nothing from `p`: it is the user, dead, or holds no card. */
  predicate NothingToTake(p: Player, src: nat)
  {
    p.id != src && p.hp > 0 ==> p.hand == []
  }

  lemma PainLossOneEmpty(p: Player, src: nat)
    ensures PainLossOne(p, src) == multiset{} <==> NothingToTake(p, src)
  {
    if p.hand != [] {
      assert p.hand[0] in multiset(p.hand[..Min(2, |p.hand|)]);
    }
  }

  lemma EmptyUnion(a: multiset<PlayingCard>, b: multiset<PlayingCard>)
    ensures a + b == multiset{} <==> a == multiset{} && b == multiset{}
  {
    if a != multiset{} {
      var x :| x in a;
      assert x in a + b;
    }
  }

  /** Pain loses nothing exactly when no alive seat other than `src` holds a card. */
  lemma {:induction false} PainLossEmpty(ps: seq<Player>, src: nat)
    ensures PainLoss(ps, src) == multiset{} <==> forall k :: 0 <= k < |ps| ==> NothingToTake(ps[k], src)
  {
    if ps != [] {
      PainLossEmpty(ps[1..], src);
      PainLossOneEmpty(ps[0], src);
      EmptyUnion(PainLossOne(ps[0], src), PainLoss(ps[1..], src));
      assert forall k :: 1 <= k < |ps| ==> ps[k] == ps[1..][k - 1];
      assert (forall k :: 0 <= k < |ps| ==> NothingToTake(ps[k], src)) <==>
        NothingToTake(ps[0], src) && forall k :: 0 <= k < |ps[1..]| ==> NothingToTake(ps[1..][k], src);
    }
  }

  /**
   * Pain's ultimate splices up to two cards from the front of every alive
   * other player's hand and discards none of them: the game is left with
   * exactly those cards fewer, and with fewer cards at all whenever one of
   * those players held a card (App.tsx:832).
   */
  lemma PainUlt(s: GameState, src: nat, target: Option<nat>)
    requires Valid(s) && src < |s.players| && s.players[src].character.id == Pain
    ensures var r := UltEffect(s, src, target);
      (forall k :: 0 <= k < |s.players| && k != src && s.players[k].hp > 0 ==>
         r.players[k].hand == s.players[k].hand[Min(2, |s.players[k].hand|)..])
      && Cards(r) + PainLoss(s.players, src) == Cards(s)
      && (PainLoss(s.players, src) == multiset{} <==> forall k :: 0 <= k < |s.players| ==> NothingToTake(s.players[k], src))
      && r.deck == s.deck
  {
    var s0 := OnCooldown(s, src);
    assert UltEffect(s, src, target) == s0.(players := PainStrip(s0.players, src));
    PainCards(s, src);
    PainLossEmpty(s.players, src);
  }

  lemma PainCards(s: GameState, src: nat)
    requires src < |s.players|
    ensures var s0 := OnCooldown(s, src); Cards(s0.(players := PainStrip(s0.players, src))) + PainLoss(s.players, src) == Cards(s)
  {
    var c := s.players[src];
    var c' := c.(flags := c.flags.(ultCooldown := ULT_COOLDOWN));
    var s0 := WithPlayer(s, src, c');
    assert s0 == OnCooldown(s, src);
    var qs := PainStrip(s0.players, src);
    var lost := PainLoss(s.players, src);
    assert SeatCards(qs) + lost == SeatCards(s0.players) by {
      PainAccount(s0.players, src);
      PainLossSame(s0.players, s.players, src);
    }
    assert Cards(s0.(players := qs)) + lost == Cards(s0) by {
      LoseSeatCards(s0, qs, lost);
    }
    assert Cards(s0) == Cards(s) by {
      SameCardsUpdate(s, src, c');
    }
  }

  lemma LoseSeatCards(s: GameState, qs: seq<Player>, lost: multiset<PlayingCard>)
    requires SeatCards(qs) + lost == SeatCards(s.players)
    ensures Cards(s.(players := qs)) + lost == Cards(s)
  {
    forall x ensures (Cards(s.(players := qs)) + lost)[x] == Cards(s)[x] {
      assert (SeatCards(qs) + lost)[x] == SeatCards(s.players)[x];
    }
  }

  /** Changing the user's flags does not change what Pain's ultimate takes. */
  lemma {:induction false} PainLossSame(ps: seq<Player>, qs: seq<Player>, src: nat)
    requires |ps| == |qs|
    requires forall k :: 0 <= k < |ps| ==> ps[k].id == qs[k].id && ps[k].hp == qs[k].hp && ps[k].hand == qs[k].hand
    ensures PainLoss(ps, src) == PainLoss(qs, src)
  {
    if ps != [] {
      PainLossSame(ps[1..], qs[1..], src);
    }
  }

  /** Drawing from the deck without a reshuffle keeps the cards of the game. */
  lemma TopUpKeeps(s: GameState, seat: nat, k: nat)
    requires Valid(s) && seat < |s.players|
    ensures Valid(TopUp(s, seat, k)) && Cards(TopUp(s, seat, k)) == Cards(s)
  {
    var m := Min(k, |s.deck|);
    var p := s.players[seat];
    var r := TopUp(s, seat, k);
    assert Cards(r) == Cards(s) by {
      assert s.deck == s.deck[..m] + s.deck[m..];
      assert multiset(p.hand + s.deck[..m]) == multiset(p.hand) + multiset(s.deck[..m]);
      HandChange(s.players, seat, p.hand + s.deck[..m], multiset(s.deck[..m]), multiset{});
      DrawStepCards(multiset(s.deck[..m]), multiset(s.deck[m..]), multiset(s.discardPile), multiset(s.deck),
        multiset(s.discardPile), SeatCards(r.players), SeatCards(s.players));
    }
    assert Valid(r) by {
      SameShapeValid(s, r);
    }
  }

  /** An ultimate keeps the state valid. */
  lemma UltKeepsValid(s: GameState, src: nat, target: Option<nat>)
    requires Valid(s) && src < |s.players|
    ensures Valid(UltEffect(s, src, target))
  {
    UltSetsCooldown(s, src, target);
    SameShapeValid(s, UltEffect(s, src, target));
  }

  /** No ultimate brings a card into the game; kakashi's and pain's may take some out. */
  lemma UltCardsShrink(s: GameState, src: nat, target: Option<nat>)
    requires Valid(s) && src < |s.players|
    ensures Cards(UltEffect(s, src, target)) <= Cards(s)
  {
    var c := s.players[src];
    if c.character.id == Pain {
      PainUlt(s, src, target);
    } else if c.character.id == Kakashi && Aim(s, target).Some? {
      KakashiUlt(s, src, target);
    } else if c.character.id == Kakashi {
      assert UltEffect(s, src, target) == OnCooldown(s, src);
      SameCardsUpdate(s, src, c.(flags := c.flags.(ultCooldown := ULT_COOLDOWN)));
    } else {
      UltKeepsCards(s, src, target);
    }
  }

  /** The human's ultimate button keeps the state valid and brings no card into the game. */
  lemma UltClickKeeps(s: GameState, picked: Option<nat>)
    requires Valid(s)
    ensures Valid(HandleUltClick(s, picked)) && Cards(HandleUltClick(s, picked)) <= Cards(s)
    ensures var id := s.players[0].character.id;
      id != Kakashi && id != Pain ==> Cards(HandleUltClick(s, picked)) == Cards(s)
  {
    var me := s.players[0];
    if UltFires(s, picked) {
      var t := if me.character.ultType == TargetUlt then picked else None;
      assert HandleUltClick(s, picked) == UltEffect(s, 0, t);
      UltKeepsValid(s, 0, t);
      UltCardsShrink(s, 0, t);
      if me.character.id != Kakashi && me.character.id != Pain {
        UltKeepsCards(s, 0, t);
      }
    }
  }

  /**
   * Every ultimate but kakashi's and pain's keeps the cards of the game: the
   * others change hit points and flags or draw from the deck into the user's
   * hand.
   */
  lemma UltKeepsCards(s: GameState, src: nat, target: Option<nat>)
    requires Valid(s) && src < |s.players|
    requires s.players[src].character.id != Kakashi && s.players[src].character.id != Pain
    ensures Cards(UltEffect(s, src, target)) == Cards(s)
  {
    CooldownKeeps(s, src);
    BodyKeepsCards(OnCooldown(s, src), src, Aim(s, target));
  }

  /** Setting the cooldown keeps the state valid, the game's cards and the user's character. */
  lemma CooldownKeeps(s: GameState, src: nat)
    requires Valid(s) && src < |s.players|
    ensures var s0 := OnCooldown(s, src);
      Valid(s0) && Cards(s0) == Cards(s) && s0.players[src].character == s.players[src].character
  {
    var s0 := OnCooldown(s, src);
    var c := s.players[src];
    SameCardsUpdate(s, src, c.(flags := c.flags.(ultCooldown := ULT_COOLDOWN)));
    SameShapeValid(s, s0);
  }

  lemma BodyKeepsCards(s: GameState, src: nat, tgt: Option<nat>)
    requires Valid(s) && src < |s.players| && (tgt.Some? ==> tgt.value < |s.players|)
    requires s.players[src].character.id != Kakashi && s.players[src].character.id != Pain
    ensures Cards(UltBody(s, src, tgt)) == Cards(s)
  {
    var p := s.players[src];
    var r := UltBody(s, src, tgt);
    match p.character.id
    case Naruto =>
      assert r == Strike(s, tgt, 2);
      StrikeKeeps(s, tgt, 2);
    case Itachi =>
      assert r == Strike(s, tgt, 2);
      StrikeKeeps(s, tgt, 2);
    case Minato =>
      assert r == Strike(s, tgt, 2);
      StrikeKeeps(s, tgt, 2);
    case Sasuke =>
      assert r == s.(players := OthersHit(s.players, src));
      HitOthersKeeps(s, src);
    case Jiraiya =>
      assert r == s.(players := OthersHit(s.players, src));
      HitOthersKeeps(s, src);
    case Sakura =>
      assert r == WithPlayer(s, src, p.(hp := p.maxHp));
      SameCardsUpdate(s, src, p.(hp := p.maxHp));
    case Gaara =>
      if tgt.Some? {
        assert r == WithPlayer(s, tgt.value, Hurt(s.players[tgt.value].(skippedTurn := true), 1));
        SameCardsUpdate(s, tgt.value, Hurt(s.players[tgt.value].(skippedTurn := true), 1));
      } else {
        assert r == s;
      }
    case Tsunade =>
      var healed := WithPlayer(s, src, p.(hp := Min(p.maxHp, p.hp + 2)));
      assert r == TopUp(healed, src, 2);
      assert Valid(healed) && Cards(healed) == Cards(s) by {
        SeatUpdateKeeps(s, src, p.(hp := Min(p.maxHp, p.hp + 2)));
      }
      TopUpKeeps(healed, src, 2);
    case Orochimaru =>
      var healed := WithPlayer(s, src, p.(hp := Min(p.maxHp, p.hp + 1)));
      var need := Max(0, 5 - |p.hand|);
      assert r == if need > 0 then TopUp(healed, src, need) else healed;
      assert Valid(healed) && Cards(healed) == Cards(s) by {
        SeatUpdateKeeps(s, src, p.(hp := Min(p.maxHp, p.hp + 1)));
      }
      TopUpKeeps(healed, src, need);
    case Madara =>
      assert r == TopUp(s.(players := AliveHit(s.players)), src, 3);
      AliveHitKeeps(s);
      TopUpKeeps(s.(players := AliveHit(s.players)), src, 3);
  }

  lemma StrikeKeeps(s: GameState, tgt: Option<nat>, amount: int)
    requires tgt.Some? ==> tgt.value < |s.players|
    ensures Cards(Strike(s, tgt, amount)) == Cards(s)
  {
    if tgt.Some? {
      SameCardsUpdate(s, tgt.value, Hurt(s.players[tgt.value], amount));
    }
  }

  lemma HitOthersKeeps(s: GameState, src: nat)
    ensures Cards(s.(players := OthersHit(s.players, src))) == Cards(s)
  {
    var qs := OthersHit(s.players, src);
    forall k | 0 <= k < |qs| ensures PlayerCards(qs[k]) == PlayerCards(s.players[k]) {
      assert qs[k].hand == s.players[k].hand && qs[k].equips == s.players[k].equips;
    }
    SeatCardsPointwise(qs, s.players);
  }

  lemma AliveHitKeeps(s: GameState)
    requires Valid(s)
    ensures Valid(s.(players := AliveHit(s.players))) && Cards(s.(players := AliveHit(s.players))) == Cards(s)
  {
    var r := s.(players := AliveHit(s.players));
    forall k | 0 <= k < |s.players|
      ensures r.players[k].id == s.players[k].id && PlayerCards(r.players[k]) == PlayerCards(s.players[k])
    {
      assert r.players[k].hand == s.players[k].hand && r.players[k].equips == s.players[k].equips;
    }
    SeatCardsPointwise(r.players, s.players);
    SameShapeValid(s, r);
  }

  /**
   * The human's button fires the ultimate exactly when the game is in the
   * play phase, the ultimate is not marked used and it is available, and a
   * targeted ultimate has its target picked; it then cannot fire again until
   * the cooldown has run out (App.tsx:861-863).
   */
  lemma UltClickExactly(s: GameState, picked: Option<nat>, again: Option<nat>)
    requires Valid(s)
    ensures var me := s.players[0];
      !(s.phase == Play && !me.flags.usedUlt && CheckUltimateAvailable(me)) ==> HandleUltClick(s, picked) == s
    ensures s.players[0].character.ultType == TargetUlt && picked.None? ==> HandleUltClick(s, picked) == s
    ensures var me := s.players[0];
      s.phase == Play && !me.flags.usedUlt && CheckUltimateAvailable(me) && (me.character.ultType == TargetUlt ==> picked.Some?) ==>
        HandleUltClick(s, picked).players[0].flags.ultCooldown == ULT_COOLDOWN
        && HandleUltClick(HandleUltClick(s, picked), again) == HandleUltClick(s, picked)
  {
    var me := s.players[0];
    if UltFires(s, picked) {
      UltSetsCooldown(s, 0, if me.character.ultType == TargetUlt then picked else None);
    }
  }
}
