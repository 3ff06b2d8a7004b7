/**
 * The turn structure of App.tsx: the START and DRAW steps of `runPhase`
 * (App.tsx:455-509), `nextTurn` (App.tsx:511-529), the hand limit of
 * `checkDiscardRequirement` (App.tsx:531-539), the AI's `handleDiscardPhase`
 * (App.tsx:648-680) and the human's `confirmDiscard` (App.tsx:867-873).
 */
module Phases {
  import opened Types
  import opened Rules
  import opened Shuffle
  import opened State

  // ---------------------------------------------------------------- START

  /** `Math.max(0, cooldown - 1)`. */
  function Countdown(c: int): int
  {
    Max(0, c - 1)
  }

  /** The START step (App.tsx:458-472) for the player of seat `seat`. */
  function RunStart(s: GameState, seat: nat): (r: GameState)
    requires seat < |s.players|
    ensures |r.players| == |s.players|
    ensures forall k :: 0 <= k < |s.players| && k != seat ==> r.players[k] == s.players[k]
    ensures r.players[seat].hasPlayedAttack == 0
    ensures r.players[seat].flags.ultCooldown == Max(0, s.players[seat].flags.ultCooldown - 1)
    ensures !r.players[seat].skippedTurn
    ensures r.phase == (if s.players[seat].skippedTurn then End else DrawPhase)
    ensures r.deck == s.deck && r.discardPile == s.discardPile && r.turnIndex == s.turnIndex
    ensures r.pendingAction == s.pendingAction && r.winner == s.winner
  {
    var p := s.players[seat];
    var reset := p.(hasPlayedAttack := 0, flags := p.flags.(ultCooldown := Countdown(p.flags.ultCooldown)));
    if p.skippedTurn then
      s.(players := s.players[seat := reset.(skippedTurn := false)], phase := End)
    else
      s.(players := s.players[seat := reset], phase := DrawPhase)
  }

  /** The START step moves no card and keeps the state valid. */
  lemma RunStartKeeps(s: GameState, seat: nat)
    requires Valid(s) && seat < |s.players|
    ensures Valid(RunStart(s, seat))
    ensures Cards(RunStart(s, seat)) == Cards(s)
  {
    var q := s.players[seat];
    var reset := q.(hasPlayedAttack := 0, flags := q.flags.(ultCooldown := Countdown(q.flags.ultCooldown)));
    var p := if q.skippedTurn then reset.(skippedTurn := false) else reset;
    UpdateKeeps(s, RunStart(s, seat), seat, p);
  }

  /** `k` START steps of the same seat, each run on the state the previous one left. */
  function Starts(s: GameState, seat: nat, k: nat): (r: GameState)
    requires seat < |s.players|
    ensures |r.players| == |s.players|
  {
    if k == 0 then s else RunStart(Starts(s, seat, k - 1), seat)
  }

  /**
   * The cooldown counts down one per START step and stops at 0: after the
   * ultimate sets it to 10 (App.tsx:815), `k` START steps leave `10 - k`.
   */
  lemma {:induction false} CooldownCountsDown(s: GameState, seat: nat, k: nat)
    requires seat < |s.players| && s.players[seat].flags.ultCooldown >= 0
    ensures Starts(s, seat, k).players[seat].flags.ultCooldown == Max(0, s.players[seat].flags.ultCooldown - k)
  {
    if k > 0 {
      CooldownCountsDown(s, seat, k - 1);
    }
  }

  // ----------------------------------------------------------------- DRAW

  /** Cards drawn in the DRAW step: 2 for an AI, 3 for the human, one more for naruto at 2 hp or less (App.tsx:474-475). */
  function DrawCount(p: Player): (n: nat)
    ensures n == 2 || n == 3 || n == 4
    ensures n == 4 <==> !p.isAi && p.character.id == Naruto && p.hp <= 2
  {
    (if p.isAi then 2 else 3) + (if p.character.id == Naruto && p.hp <= 2 then 1 else 0)
  }

  /**
   * The DRAW step (App.tsx:473-508): the draw count of cards goes from the
   * (refilled) deck to the player's hand and the phase is PLAY.
   */
  function RunDraw(s: GameState, seat: nat, rnd: seq<real>): (r: GameState)
    requires seat < |s.players| && DrawOracle(s, DrawCount(s.players[seat]), rnd)
    ensures r == DrawCards(s, seat, DrawCount(s.players[seat]), rnd).(phase := Play)
  {
    var p := s.players[seat];
    var count := DrawCount(p);
    var (deck, discard) := Refill(s, count, rnd);
    var k := Min(count, |deck|);
    s.(players := s.players[seat := p.(hand := p.hand + deck[..k])],
       deck := deck[k..], discardPile := discard, phase := Play)
  }

  /**
   * The DRAW step as the source runs it: the merged pile is copied into an
   * array and shuffled in place before the slices are taken.
   */
  method DrawStep(s: GameState, seat: nat, rnd: seq<real>) returns (r: GameState)
    requires seat < |s.players| && DrawOracle(s, DrawCount(s.players[seat]), rnd)
    ensures r == RunDraw(s, seat, rnd)
  {
    var p := s.players[seat];
    var count := DrawCount(p);
    var deck := s.deck;
    var discard := s.discardPile;
    if |deck| < count {
      deck := Shuffled(s.deck + s.discardPile, rnd);
      discard := [];
    }
    var k := Min(count, |deck|);
    r := s.(players := s.players[seat := p.(hand := p.hand + deck[..k])],
            deck := deck[k..], discardPile := discard, phase := Play);
  }

  /**
   * The DRAW step conserves the cards of the game. It moves exactly the
   * draw count when deck and discard pile together hold that many, taking
   * the top of the deck when it is long enough and emptying the discard pile
   * when it is not (App.tsx:478-505).
   */
  lemma RunDrawFacts(s: GameState, seat: nat, rnd: seq<real>)
    requires Valid(s) && seat < |s.players| && DrawOracle(s, DrawCount(s.players[seat]), rnd)
    ensures Valid(RunDraw(s, seat, rnd)) && Cards(RunDraw(s, seat, rnd)) == Cards(s)
    ensures RunDraw(s, seat, rnd).phase == Play
    ensures var count := DrawCount(s.players[seat]);
      |RunDraw(s, seat, rnd).players[seat].hand| == |s.players[seat].hand| + Min(count, |s.deck| + |s.discardPile|)
    ensures var count := DrawCount(s.players[seat]);
      |s.deck| >= count ==> (RunDraw(s, seat, rnd).players[seat].hand == s.players[seat].hand + s.deck[..count]
        && RunDraw(s, seat, rnd).deck == s.deck[count..] && RunDraw(s, seat, rnd).discardPile == s.discardPile)
    ensures |s.deck| < DrawCount(s.players[seat]) ==> RunDraw(s, seat, rnd).discardPile == []
    ensures forall k :: 0 <= k < |s.players| && k != seat ==> RunDraw(s, seat, rnd).players[k] == s.players[k]
  {
    DrawCardsFacts(s, seat, DrawCount(s.players[seat]), rnd);
  }

  /** `runPhase` (App.tsx:455-509): the START or the DRAW step, and nothing in the other phases. */
  function RunPhase(s: GameState, seat: nat, rnd: seq<real>): (r: GameState)
    requires seat < |s.players|
    requires s.phase == DrawPhase ==> DrawOracle(s, DrawCount(s.players[seat]), rnd)
    ensures s.phase == Start ==> r.phase in {End, DrawPhase}
    ensures s.phase == DrawPhase ==> r.phase == Play
    ensures s.phase !in {Start, DrawPhase} ==> r == s
  {
    match s.phase
    case Start => RunStart(s, seat)
    case DrawPhase => RunDraw(s, seat, rnd)
    case _ => s
  }

  // ------------------------------------------------------------ NEXT TURN

  /** `(idx + 1) % players.length`: the next seat around the table. */
  function Next(n: nat, idx: nat): (r: nat)
    requires n > 0
    ensures r < n
  {
    (idx + 1) % n
  }

  lemma NextValue(n: nat, idx: nat)
    requires idx < n
    ensures Next(n, idx) == if idx + 1 < n then idx + 1 else 0
  {}

  /** The seat `j` places after `idx`. */
  function After(n: nat, idx: nat, j: nat): (r: nat)
    requires idx < n
    ensures r < n
  {
    if j == 0 then idx else Next(n, After(n, idx, j - 1))
  }

  lemma {:induction false} AfterShift(n: nat, idx: nat, j: nat)
    requires idx < n
    ensures After(n, Next(n, idx), j) == After(n, idx, j + 1)
  {
    if j > 0 {
      AfterShift(n, idx, j - 1);
    }
  }

  lemma {:induction false} AfterValue(n: nat, idx: nat, j: nat)
    requires idx < n && j < n
    ensures After(n, idx, j) == if idx + j < n then idx + j else idx + j - n
  {
    if j > 0 {
      AfterValue(n, idx, j - 1);
      NextValue(n, After(n, idx, j - 1));
    }
  }

  /**
   * The loop of `nextTurn` from seat `idx` after `loops` iterations:
   * `while (players[nextIdx].hp <= 0 && loops < players.length)`.
   */
  function NextSeat(ps: seq<Player>, idx: nat, loops: nat): (r: nat)
    requires idx < |ps| && loops <= |ps|
    ensures r < |ps|
    decreases |ps| - loops
  {
    if ps[idx].hp <= 0 && loops < |ps| then NextSeat(ps, Next(|ps|, idx), loops + 1) else idx
  }

  /** `nextTurn`'s new state: the seat the loop stops at, phase START, no pending action. */
  function NextTurnState(s: GameState): (r: GameState)
    requires Valid(s)
  {
    s.(turnIndex := NextSeat(s.players, Next(|s.players|, s.turnIndex), 0), phase := Start, pendingAction := None)
  }

  /** `nextTurn` (App.tsx:511-529) with its `while` loop. */
  method NextTurn(s: GameState) returns (r: GameState)
    requires Valid(s)
    ensures r == NextTurnState(s)
  {
    var n := |s.players|;
    var nextIdx := (s.turnIndex + 1) % n;
    var loops := 0;
    while s.players[nextIdx].hp <= 0 && loops < n
      invariant 0 <= nextIdx < n && 0 <= loops <= n
      invariant NextSeat(s.players, nextIdx, loops) == NextSeat(s.players, Next(n, s.turnIndex), 0)
      decreases n - loops
    {
      nextIdx := (nextIdx + 1) % n;
      loops := loops + 1;
    }
    r := s.(turnIndex := nextIdx, phase := Start, pendingAction := None);
  }

  /** The number of seats the loop passes over from seat `idx` after `loops` iterations. */
  function Skips(ps: seq<Player>, idx: nat, loops: nat): (m: nat)
    requires idx < |ps| && loops <= |ps|
    ensures m <= |ps| - loops
    decreases |ps| - loops
  {
    if ps[idx].hp <= 0 && loops < |ps| then 1 + Skips(ps, Next(|ps|, idx), loops + 1) else 0
  }

  /**
   * The loop stops `Skips` seats further on; every seat it passes is dead,
   * and it stops at a dead seat only after passing all the seats it may visit.
   */
  lemma {:induction false} NextSeatSkipsDead(ps: seq<Player>, idx: nat, loops: nat)
    requires idx < |ps| && loops <= |ps|
    ensures NextSeat(ps, idx, loops) == After(|ps|, idx, Skips(ps, idx, loops))
    ensures forall j :: 0 <= j < Skips(ps, idx, loops) ==> ps[After(|ps|, idx, j)].hp <= 0
    ensures ps[NextSeat(ps, idx, loops)].hp <= 0 ==> Skips(ps, idx, loops) == |ps| - loops
    decreases |ps| - loops
  {
    var n := |ps|;
    if ps[idx].hp <= 0 && loops < n {
      var idx' := Next(n, idx);
      var m := Skips(ps, idx', loops + 1);
      NextSeatSkipsDead(ps, idx', loops + 1);
      AfterShift(n, idx, m);
      forall j | 0 <= j < m + 1 ensures ps[After(n, idx, j)].hp <= 0 {
        if j > 0 {
          AfterShift(n, idx, j - 1);
        }
      }
    }
  }

  /**
   * `nextTurn` passes over at most all the seats, only over dead ones, and
   * lands on an alive seat whenever any seat is alive (App.tsx:513-519).
   */
  lemma NextTurnLandsAlive(s: GameState)
    requires Valid(s)
    ensures var n := |s.players|; var start := Next(n, s.turnIndex); var m := Skips(s.players, start, 0);
      m <= n && NextTurnState(s).turnIndex == After(n, start, m)
      && forall j :: 0 <= j < m ==> s.players[After(n, start, j)].hp <= 0
    ensures (exists i :: 0 <= i < |s.players| && s.players[i].hp > 0) ==> s.players[NextTurnState(s).turnIndex].hp > 0
  {
    var n := |s.players|;
    var start := Next(n, s.turnIndex);
    NextSeatSkipsDead(s.players, start, 0);
    if exists i :: 0 <= i < n && s.players[i].hp > 0 {
      var i :| 0 <= i < n && s.players[i].hp > 0;
      var j := if i >= start then i - start else i + n - start;
      AfterValue(n, start, j);
    }
  }

  /** `nextTurn` moves no card and keeps the state valid. */
  lemma NextTurnKeeps(s: GameState)
    requires Valid(s)
    ensures Valid(NextTurnState(s)) && Cards(NextTurnState(s)) == Cards(s)
  {}

  // -------------------------------------------------------------- DISCARD

  /** The hand limit: hit points for an AI, one more for the human (App.tsx:532). */
  function HandLimit(p: Player): int
  {
    if p.isAi then p.hp else p.hp + 1
  }

  /** `checkDiscardRequirement` (App.tsx:531-539): DISCARD when over the limit, the next turn otherwise. */
  function CheckDiscardRequirement(s: GameState, seat: nat): (r: GameState)
    requires Valid(s) && seat < |s.players|
    ensures |s.players[seat].hand| > HandLimit(s.players[seat]) ==> r == s.(phase := Discard)
    ensures |s.players[seat].hand| <= HandLimit(s.players[seat]) ==> r == NextTurnState(s)
    ensures |s.players[seat].hand| <= HandLimit(s.players[seat]) ==> r.phase == Start && r.pendingAction.None?
    ensures r.players == s.players && r.deck == s.deck && r.discardPile == s.discardPile
  {
    if |s.players[seat].hand| > HandLimit(s.players[seat]) then s.(phase := Discard) else NextTurnState(s)
  }

  /**
   * After the check the turn either stays with the current seat, in DISCARD,
   * or passes as `nextTurn` passes it, to an alive seat whenever any seat is
   * alive (App.tsx:531-539, 513-519).
   */
  lemma DiscardCheckLandsAlive(s: GameState)
    requires Valid(s)
    ensures var r := CheckDiscardRequirement(s, s.turnIndex);
      (r.phase == Discard ==> r.turnIndex == s.turnIndex)
      && (r.phase != Discard ==> r.phase == Start && r.turnIndex == NextTurnState(s).turnIndex)
      && (r.phase != Discard && (exists i :: 0 <= i < |s.players| && s.players[i].hp > 0) ==> r.players[r.turnIndex].hp > 0)
  {
    var r := CheckDiscardRequirement(s, s.turnIndex);
    if r.phase != Discard {
      assert r == NextTurnState(s);
      NextTurnLandsAlive(s);
    }
  }

  /** `scoreCard` (App.tsx:658-664): how much the AI wants to keep a card of a kind. */
  function KindScore(k: CardKind): int
  {
    if k == Heal then 10
    else if k == Dodge then 8
    else if k == Attack then 5
    else if IsEquipKind(k) then 6
    else 1
  }

  /** The score of each kind: 10, 8 and 5 for heal, dodge and attack, 6 for the four equipment kinds, 1 otherwise. */
  function ScoreTable(k: CardKind): (v: int)
  {
    match k
    case Heal => 10
    case Dodge => 8
    case Attack => 5
    case EquipWeapon => 6
    case EquipArmor => 6
    case EquipOffHorse => 6
    case EquipDefHorse => 6
    case _ => 1
  }

  lemma KindScoreTable(k: CardKind)
    ensures KindScore(k) == ScoreTable(k)
  {
    if SlotOf(k).Some? {
      EquipScore(k);
    } else {
      OtherScore(k);
    }
  }

  lemma EquipScore(k: CardKind)
    requires SlotOf(k).Some?
    ensures KindScore(k) == ScoreTable(k) == 6
  {
    EquipKindsAreTheSlotKinds(k);
  }

  lemma OtherScore(k: CardKind)
    requires SlotOf(k).None?
    ensures KindScore(k) == ScoreTable(k)
  {
    assert !IsEquipKind(k) by {
      EquipKindsAreTheSlotKinds(k);
    }
    assert KindScore(k) == if k == Heal then 10 else if k == Dodge then 8 else if k == Attack then 5 else 1;
  }

  /** The score the AI's sort compares. */
  function ScoreCard(c: PlayingCard): int
  {
    ScoreTable(c.Kind())
  }

  /** The five scores in increasing order. */
  const SCORES: seq<int> := [1, 5, 6, 8, 10]

  lemma ScoreCardValues(c: PlayingCard)
    ensures ScoreCard(c) in SCORES
  {}

  /** Inserts `x` before the first card scoring at least as much: the insertion step of a stable sort. */
  function Insert(x: PlayingCard, s: seq<PlayingCard>): (r: seq<PlayingCard>)
    ensures |r| == |s| + 1
  {
    if s == [] || ScoreCard(x) <= ScoreCard(s[0]) then [x] + s else [s[0]] + Insert(x, s[1..])
  }

  /** `[...hand].sort((a, b) => scoreCard(a) - scoreCard(b))`: JavaScript's sort is stable. */
  function SortByScore(h: seq<PlayingCard>): (r: seq<PlayingCard>)
    ensures |r| == |h|
  {
    if h == [] then [] else Insert(h[0], SortByScore(h[1..]))
  }

  predicate SortedByScore(s: seq<PlayingCard>)
  {
    forall i, j :: 0 <= i < j < |s| ==> ScoreCard(s[i]) <= ScoreCard(s[j])
  }

  /** Every card of `s` scores at least `v`. */
  predicate AtLeast(s: seq<PlayingCard>, v: int)
  {
    forall k :: 0 <= k < |s| ==> v <= ScoreCard(s[k])
  }

  lemma AtLeastConcat(a: seq<PlayingCard>, b: seq<PlayingCard>, v: int)
    requires AtLeast(a, v) && AtLeast(b, v)
    ensures AtLeast(a + b, v)
  {
    forall k | 0 <= k < |a + b| ensures v <= ScoreCard((a + b)[k]) {
      if k >= |a| {
        assert (a + b)[k] == b[k - |a|];
      } else {
        assert (a + b)[k] == a[k];
      }
    }
  }

  lemma {:induction false} InsertAtLeast(x: PlayingCard, s: seq<PlayingCard>, v: int)
    requires AtLeast(s, v) && v <= ScoreCard(x)
    ensures AtLeast(Insert(x, s), v)
  {
    if s == [] || ScoreCard(x) <= ScoreCard(s[0]) {
      AtLeastConcat([x], s, v);
    } else {
      InsertAtLeast(x, s[1..], v);
      AtLeastConcat([s[0]], Insert(x, s[1..]), v);
    }
  }

  lemma {:induction false} InsertSorted(x: PlayingCard, s: seq<PlayingCard>)
    requires SortedByScore(s)
    ensures SortedByScore(Insert(x, s))
  {
    if s == [] || ScoreCard(x) <= ScoreCard(s[0]) {
      var r := [x] + s;
      forall i, j | 0 <= i < j < |r| ensures ScoreCard(r[i]) <= ScoreCard(r[j]) {
        if i > 0 {
          assert r[i] == s[i - 1] && r[j] == s[j - 1];
        } else {
          assert r[j] == s[j - 1];
        }
      }
    } else {
      var t := Insert(x, s[1..]);
      assert SortedByScore(s[1..]);
      InsertSorted(x, s[1..]);
      assert AtLeast(s[1..], ScoreCard(s[0]));
      InsertAtLeast(x, s[1..], ScoreCard(s[0]));
      var r := [s[0]] + t;
      forall i, j | 0 <= i < j < |r| ensures ScoreCard(r[i]) <= ScoreCard(r[j]) {
        assert r[j] == t[j - 1];
        if i > 0 {
          assert r[i] == t[i - 1];
        }
      }
    }
  }

  lemma {:induction false} InsertPermutes(x: PlayingCard, s: seq<PlayingCard>)
    ensures multiset(Insert(x, s)) == multiset(s) + multiset{x}
  {
    if s != [] && ScoreCard(x) > ScoreCard(s[0]) {
      InsertPermutes(x, s[1..]);
      assert s == [s[0]] + s[1..];
    }
  }

  /** The sort orders the hand by score and keeps its cards. */
  lemma {:induction false} SortByScorePermutes(h: seq<PlayingCard>)
    ensures SortedByScore(SortByScore(h))
    ensures multiset(SortByScore(h)) == multiset(h)
  {
    if h != [] {
      var t := SortByScore(h[1..]);
      assert SortByScore(h) == Insert(h[0], t);
      SortByScorePermutes(h[1..]);
      assert SortedByScore(SortByScore(h)) by {
        InsertSorted(h[0], t);
      }
      assert multiset(SortByScore(h)) == multiset(h) by {
        InsertPermutes(h[0], t);
        assert h == [h[0]] + h[1..];
      }
    }
  }

  /** The cards of `h` scoring `v`, in their order in `h`. */
  function WithScore(h: seq<PlayingCard>, v: int): (r: seq<PlayingCard>)
    ensures forall k :: 0 <= k < |r| ==> ScoreCard(r[k]) == v
  {
    if h == [] then [] else (if ScoreCard(h[0]) == v then [h[0]] else []) + WithScore(h[1..], v)
  }

  /** The hand cut into its score classes, lowest first, each in hand order. */
  function Buckets(h: seq<PlayingCard>, vs: seq<int>): seq<PlayingCard>
  {
    if vs == [] then [] else WithScore(h, vs[0]) + Buckets(h, vs[1..])
  }

  predicate Increasing(vs: seq<int>)
  {
    forall i, j :: 0 <= i < j < |vs| ==> vs[i] < vs[j]
  }

  lemma {:induction false} BucketsEmpty(vs: seq<int>)
    ensures Buckets([], vs) == []
  {
    if vs != [] {
      BucketsEmpty(vs[1..]);
    }
  }

  /** Every card filed under scores of at least `v` scores at least `v`. */
  lemma {:induction false} BucketsAtLeast(h: seq<PlayingCard>, vs: seq<int>, v: int)
    requires forall i :: 0 <= i < |vs| ==> v <= vs[i]
    ensures AtLeast(Buckets(h, vs), v)
  {
    if vs != [] {
      BucketsAtLeast(h, vs[1..], v);
      AtLeastConcat(WithScore(h, vs[0]), Buckets(h, vs[1..]), v);
    }
  }

  lemma InsertAtFront(x: PlayingCard, s: seq<PlayingCard>)
    requires AtLeast(s, ScoreCard(x))
    ensures Insert(x, s) == [x] + s
  {}

  lemma {:induction false} InsertPast(x: PlayingCard, a: seq<PlayingCard>, b: seq<PlayingCard>)
    requires forall k :: 0 <= k < |a| ==> ScoreCard(a[k]) < ScoreCard(x)
    ensures Insert(x, a + b) == a + Insert(x, b)
  {
    if a != [] {
      assert (a + b)[1..] == a[1..] + b;
      assert (a + b)[0] == a[0];
      InsertPast(x, a[1..], b);
      assert Insert(x, a + b) == [a[0]] + Insert(x, a[1..] + b);
      assert a == [a[0]] + a[1..];
      assert [a[0]] + (a[1..] + Insert(x, b)) == ([a[0]] + a[1..]) + Insert(x, b);
    } else {
      assert a + b == b;
    }
  }

  lemma WithScoreCons(x: PlayingCard, t: seq<PlayingCard>, v: int)
    ensures WithScore([x] + t, v) == (if ScoreCard(x) == v then [x] else []) + WithScore(t, v)
  {
    assert ([x] + t)[1..] == t;
  }

  /** A card whose score is not listed changes none of the listed classes. */
  lemma {:induction false} BucketsOmit(x: PlayingCard, t: seq<PlayingCard>, vs: seq<int>)
    requires forall i :: 0 <= i < |vs| ==> vs[i] != ScoreCard(x)
    ensures Buckets([x] + t, vs) == Buckets(t, vs)
  {
    if vs != [] {
      WithScoreCons(x, t, vs[0]);
      assert WithScore([x] + t, vs[0]) == WithScore(t, vs[0]);
      forall i | 0 <= i < |vs[1..]| ensures vs[1..][i] != ScoreCard(x) {
        assert vs[1..][i] == vs[i + 1];
      }
      BucketsOmit(x, t, vs[1..]);
    }
  }

  /** Inserting a card into the score classes files it at the head of its own class. */
  lemma {:induction false} InsertIntoBuckets(x: PlayingCard, t: seq<PlayingCard>, vs: seq<int>, m: nat)
    requires Increasing(vs) && m < |vs| && vs[m] == ScoreCard(x)
    ensures Insert(x, Buckets(t, vs)) == Buckets([x] + t, vs)
  {
    if m == 0 {
      InsertIntoFirstBucket(x, t, vs);
    } else {
      assert Increasing(vs[1..]) && vs[1..][m - 1] == ScoreCard(x);
      InsertIntoBuckets(x, t, vs[1..], m - 1);
      InsertPastFirstBucket(x, t, vs);
    }
  }

  /** A card above the lowest listed score passes over the whole first class. */
  lemma InsertPastFirstBucket(x: PlayingCard, t: seq<PlayingCard>, vs: seq<int>)
    requires 0 < |vs| && vs[0] < ScoreCard(x)
    requires Insert(x, Buckets(t, vs[1..])) == Buckets([x] + t, vs[1..])
    ensures Insert(x, Buckets(t, vs)) == Buckets([x] + t, vs)
  {
    var a, b := WithScore(t, vs[0]), Buckets(t, vs[1..]);
    assert Buckets(t, vs) == a + b;
    InsertPast(x, a, b);
    assert WithScore([x] + t, vs[0]) == a by {
      WithScoreCons(x, t, vs[0]);
    }
    assert Buckets([x] + t, vs) == a + Buckets([x] + t, vs[1..]);
  }

  /** A card of the lowest listed score goes to the very front. */
  lemma InsertIntoFirstBucket(x: PlayingCard, t: seq<PlayingCard>, vs: seq<int>)
    requires Increasing(vs) && 0 < |vs| && vs[0] == ScoreCard(x)
    ensures Insert(x, Buckets(t, vs)) == Buckets([x] + t, vs)
  {
    var a, b := WithScore(t, vs[0]), Buckets(t, vs[1..]);
    assert Buckets(t, vs) == a + b;
    assert AtLeast(a + b, vs[0]) by {
      BucketsAtLeast(t, vs[1..], vs[0]);
      assert AtLeast(a, vs[0]);
      AtLeastConcat(a, b, vs[0]);
    }
    InsertAtFront(x, a + b);
    assert Buckets([x] + t, vs) == ([x] + a) + b by {
      WithScoreCons(x, t, vs[0]);
      BucketsOmit(x, t, vs[1..]);
    }
  }

  /**
   * The sort is the stable one: the sorted hand is the hand's cards of score
   * 1, then of score 5, 6, 8 and 10, each class in its order in the hand.
   */
  lemma {:induction false} SortByScoreIsStable(h: seq<PlayingCard>)
    ensures SortByScore(h) == Buckets(h, SCORES)
  {
    if h == [] {
      BucketsEmpty(SCORES);
    } else {
      SortByScoreIsStable(h[1..]);
      ScoreCardValues(h[0]);
      var m :| 0 <= m < |SCORES| && SCORES[m] == ScoreCard(h[0]);
      InsertIntoBuckets(h[0], h[1..], SCORES, m);
      assert h == [h[0]] + h[1..];
    }
  }

  /**
   * `sortedHand.slice(0, countNeeded)` and `sortedHand.slice(countNeeded)`:
   * the cards to discard and the cards kept.
   */
  function DiscardSplit(h: seq<PlayingCard>, countNeeded: nat): (r: (seq<PlayingCard>, seq<PlayingCard>))
  {
    var sorted := SortByScore(h);
    var cut := Min(countNeeded, |sorted|);
    (sorted[..cut], sorted[cut..])
  }

  /**
   * The split discards `countNeeded` cards (all of them when the hand is
   * shorter), keeps the others, and no discarded card scores more than a
   * kept one.
   */
  lemma DiscardSplitFacts(h: seq<PlayingCard>, countNeeded: nat)
    ensures |DiscardSplit(h, countNeeded).0| == Min(countNeeded, |h|)
    ensures multiset(DiscardSplit(h, countNeeded).0) + multiset(DiscardSplit(h, countNeeded).1) == multiset(h)
    ensures forall i, j :: 0 <= i < |DiscardSplit(h, countNeeded).0| && 0 <= j < |DiscardSplit(h, countNeeded).1| ==>
      ScoreCard(DiscardSplit(h, countNeeded).0[i]) <= ScoreCard(DiscardSplit(h, countNeeded).1[j])
  {
    var sorted := SortByScore(h);
    var cut := Min(countNeeded, |sorted|);
    assert DiscardSplit(h, countNeeded) == (sorted[..cut], sorted[cut..]);
    SortByScorePermutes(h);
    SplitParts(sorted, cut);
    SplitOrdered(sorted, cut);
  }

  /** Cutting a sequence in two keeps its multiset. */
  lemma SplitParts(s: seq<PlayingCard>, cut: nat)
    requires cut <= |s|
    ensures multiset(s[..cut]) + multiset(s[cut..]) == multiset(s)
  {
    assert s == s[..cut] + s[cut..];
  }

  /** Cutting a sorted sequence leaves no card of the front scoring more than one of the back. */
  lemma SplitOrdered(s: seq<PlayingCard>, cut: nat)
    requires SortedByScore(s) && cut <= |s|
    ensures forall i, j :: 0 <= i < cut && 0 <= j < |s| - cut ==> ScoreCard(s[..cut][i]) <= ScoreCard(s[cut..][j])
  {
    forall i, j | 0 <= i < cut && 0 <= j < |s| - cut ensures ScoreCard(s[..cut][i]) <= ScoreCard(s[cut..][j]) {
      assert s[..cut][i] == s[i] && s[cut..][j] == s[cut + j];
    }
  }

  /** `handleDiscardPhase` (App.tsx:648-680): the AI discards its lowest-scored cards down to the limit. */
  function HandleDiscardPhase(s: GameState, seat: nat): (r: GameState)
    requires Valid(s) && seat < |s.players|
    ensures |s.players[seat].hand| <= HandLimit(s.players[seat]) ==> r == NextTurnState(s)
  {
    var p := s.players[seat];
    var countNeeded := |p.hand| - HandLimit(p);
    if countNeeded <= 0 then NextTurnState(s)
    else
      var (toDiscard, kept) := DiscardSplit(p.hand, countNeeded);
      HandToDiscard(s, seat, kept, toDiscard).(phase := End)
  }

  /**
   * Above the limit, the AI keeps exactly as many cards as the limit allows
   * (none when the limit is negative) and puts the others at the end of the
   * discard pile, none of them scoring more than a kept card (App.tsx:651-679).
   */
  lemma DiscardPhaseFacts(s: GameState, seat: nat)
    requires Valid(s) && seat < |s.players|
    requires |s.players[seat].hand| > HandLimit(s.players[seat])
    ensures var p := s.players[seat]; var r := HandleDiscardPhase(s, seat);
      r.phase == End && |r.players| == |s.players|
      && |r.players[seat].hand| == Max(0, HandLimit(p))
      && |r.discardPile| == |s.discardPile| + |p.hand| - Max(0, HandLimit(p))
      && r.discardPile[..|s.discardPile|] == s.discardPile
      && multiset(r.discardPile[|s.discardPile|..]) + multiset(r.players[seat].hand) == multiset(p.hand)
      && (forall i, j :: |s.discardPile| <= i < |r.discardPile| && 0 <= j < |r.players[seat].hand| ==>
            ScoreCard(r.discardPile[i]) <= ScoreCard(r.players[seat].hand[j]))
      && (forall k :: 0 <= k < |s.players| && k != seat ==> r.players[k] == s.players[k])
  {
    var p := s.players[seat];
    var n := |p.hand| - HandLimit(p);
    var (d, k) := DiscardSplit(p.hand, n);
    DiscardSplitFacts(p.hand, n);
    var r := HandleDiscardPhase(s, seat);
    assert r.discardPile == s.discardPile + d && r.players[seat].hand == k;
    assert r.discardPile[|s.discardPile|..] == d;
    forall i, j | |s.discardPile| <= i < |r.discardPile| && 0 <= j < |k| ensures ScoreCard(r.discardPile[i]) <= ScoreCard(k[j]) {
      assert r.discardPile[i] == d[i - |s.discardPile|];
    }
  }

  /** The AI's discard keeps the cards of the game and the state valid. */
  lemma DiscardPhaseKeeps(s: GameState, seat: nat)
    requires Valid(s) && seat < |s.players|
    ensures Valid(HandleDiscardPhase(s, seat)) && Cards(HandleDiscardPhase(s, seat)) == Cards(s)
  {
    var p := s.players[seat];
    if |p.hand| > HandLimit(p) {
      OverLimitKeeps(s, seat);
    } else {
      assert HandleDiscardPhase(s, seat) == NextTurnState(s);
      NextTurnKeeps(s);
    }
  }

  lemma OverLimitKeeps(s: GameState, seat: nat)
    requires Valid(s) && seat < |s.players| && |s.players[seat].hand| > HandLimit(s.players[seat])
    ensures Valid(HandleDiscardPhase(s, seat)) && Cards(HandleDiscardPhase(s, seat)) == Cards(s)
  {
    var p := s.players[seat];
    var n := |p.hand| - HandLimit(p);
    var split := DiscardSplit(p.hand, n);
    var t := HandToDiscard(s, seat, split.1, split.0);
    assert Valid(t) && Cards(t) == Cards(s) by {
      DiscardSplitFacts(p.hand, n);
      HandToDiscardKeeps(s, seat, split.1, split.0);
    }
    assert HandleDiscardPhase(s, seat) == t.(phase := End);
    SameShapeValid(t, t.(phase := End));
  }

  /** `p.hand.filter(c => ids.includes(c.uniqueId))`. */
  function Selected(h: seq<PlayingCard>, ids: seq<UniqueId>): seq<PlayingCard>
  {
    if h == [] then [] else (if h[0].uniqueId in ids then [h[0]] else []) + Selected(h[1..], ids)
  }

  /** `p.hand.filter(c => !ids.includes(c.uniqueId))`. */
  function Unselected(h: seq<PlayingCard>, ids: seq<UniqueId>): seq<PlayingCard>
  {
    if h == [] then [] else (if h[0].uniqueId !in ids then [h[0]] else []) + Unselected(h[1..], ids)
  }

  /** The filter keeps exactly the cards whose id was not selected. */
  lemma {:induction false} UnselectedMembers(h: seq<PlayingCard>, ids: seq<UniqueId>)
    ensures forall c :: c in Unselected(h, ids) <==> c in h && c.uniqueId !in ids
  {
    if h != [] {
      UnselectedMembers(h[1..], ids);
      assert h == [h[0]] + h[1..];
    }
  }

  /** The two filters split a hand. */
  lemma {:induction false} SelectionSplits(h: seq<PlayingCard>, ids: seq<UniqueId>)
    ensures multiset(Selected(h, ids)) + multiset(Unselected(h, ids)) == multiset(h)
  {
    if h != [] {
      SelectionSplits(h[1..], ids);
      assert h == [h[0]] + h[1..];
    }
  }

  /**
   * `confirmDiscard` (App.tsx:867-873): the human's selected cards leave the
   * hand and the phase becomes END. The source does not put them on the
   * discard pile and does not check how many were selected.
   */
  function ConfirmDiscard(s: GameState, ids: seq<UniqueId>): (r: GameState)
    requires Valid(s)
    ensures r.discardPile == s.discardPile && r.deck == s.deck && r.phase == End && |r.players| == |s.players|
    ensures forall c :: c in r.players[0].hand <==> c in s.players[0].hand && c.uniqueId !in ids
    ensures forall k :: 0 < k < |s.players| ==> r.players[k] == s.players[k]
  {
    UnselectedMembers(s.players[0].hand, ids);
    s.(players := s.players[0 := s.players[0].(hand := Unselected(s.players[0].hand, ids))], phase := End)
  }

  /** The selected cards are lost: they are in no pile and no hand afterwards. */
  lemma ConfirmDiscardLoses(s: GameState, ids: seq<UniqueId>)
    requires Valid(s)
    ensures Valid(ConfirmDiscard(s, ids))
    ensures Cards(ConfirmDiscard(s, ids)) + multiset(Selected(s.players[0].hand, ids)) == Cards(s)
  {
    var h := s.players[0].hand;
    var kept, lost := Unselected(h, ids), Selected(h, ids);
    SelectionSplits(h, ids);
    assert multiset(kept) + multiset(lost) == multiset(h) + multiset{};
    HandChange(s.players, 0, kept, multiset{}, multiset(lost));
    var ps := s.players[0 := s.players[0].(hand := kept)];
    assert ConfirmDiscard(s, ids) == s.(players := ps, phase := End);
    LostCards(multiset(s.deck) + multiset(s.discardPile), multiset(lost), SeatCards(ps), SeatCards(s.players));
  }

  /**
   * The discard the human's confirmation evidently intends, as the AI's own
   * discard does it (App.tsx:676): the selected cards go to the end of the
   * discard pile.
   */
  function ConfirmDiscardToPile(s: GameState, ids: seq<UniqueId>): (r: GameState)
    requires Valid(s)
    ensures r.deck == s.deck && r.phase == End && |r.players| == |s.players|
    ensures r.discardPile == s.discardPile + Selected(s.players[0].hand, ids)
    ensures forall c :: c in r.players[0].hand <==> c in s.players[0].hand && c.uniqueId !in ids
    ensures forall k :: 0 < k < |s.players| ==> r.players[k] == s.players[k]
  {
    UnselectedMembers(s.players[0].hand, ids);
    HandToDiscard(s, 0, Unselected(s.players[0].hand, ids), Selected(s.players[0].hand, ids)).(phase := End)
  }

  /** The corrected discard keeps every card of the game and the state valid. */
  lemma ConfirmDiscardToPileKeeps(s: GameState, ids: seq<UniqueId>)
    requires Valid(s)
    ensures Valid(ConfirmDiscardToPile(s, ids)) && Cards(ConfirmDiscardToPile(s, ids)) == Cards(s)
  {
    var h := s.players[0].hand;
    var t := HandToDiscard(s, 0, Unselected(h, ids), Selected(h, ids));
    assert Valid(t) && Cards(t) == Cards(s) by {
      SelectionSplits(h, ids);
      HandToDiscardKeeps(s, 0, Unselected(h, ids), Selected(h, ids));
    }
    assert ConfirmDiscardToPile(s, ids) == t.(phase := End);
    SameShapeValid(t, t.(phase := End));
  }

  /** A concrete loss: a one-card hand whose card is selected leaves the game one card short. */
  lemma ConfirmDiscardLosesACard(s: GameState, c: PlayingCard)
    requires Valid(s) && s.players[0].hand == [c]
    ensures c !in ConfirmDiscard(s, [c.uniqueId]).players[0].hand
    ensures Cards(ConfirmDiscard(s, [c.uniqueId])) != Cards(s)
    ensures Cards(ConfirmDiscardToPile(s, [c.uniqueId])) == Cards(s)
  {
    ConfirmDiscardLoses(s, [c.uniqueId]);
    ConfirmDiscardToPileKeeps(s, [c.uniqueId]);
    assert Selected([c], [c.uniqueId]) == [c];
    assert multiset(Selected(s.players[0].hand, [c.uniqueId])) == multiset{c};
  }

  lemma LostCards(piles: multiset<PlayingCard>, lost: multiset<PlayingCard>,
                  seats': multiset<PlayingCard>, seats: multiset<PlayingCard>)
    requires seats' + lost == seats + multiset{}
    ensures piles + seats' + lost == piles + seats
  {
    forall x ensures (piles + seats' + lost)[x] == (piles + seats)[x] {
      assert (seats' + lost)[x] == (seats + multiset{})[x];
    }
  }
}
