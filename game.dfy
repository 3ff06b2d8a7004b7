/**
 * The engine as a whole: every transition App.tsx makes on the game state,
 * with the random draws and the choices each one depends on, and the
 * invariant they all keep. A game dealt from a generated deck starts sound,
 * and every run of steps from a sound state stays sound and never brings a
 * card into the game.
 */
module Game {
  import opened Types
  import opened Shuffle
  import opened Catalog
  import opened State
  import opened Deck
  import opened Phases
  import opened Play
  import opened Ultimate
  import opened Ai

  /** One transition of the engine, with what it draws or what the player chose. */
  datatype Step =
    | RunTurnPhase(rnd: seq<real>)                              // `runPhase` for the seat whose turn it is
    | AiPlay(rnd: seq<real>)                                    // `executeAiTurn`
    | HumanPlay(idx: nat, picked: Option<nat>, rnd: seq<real>)  // `handlePlaySelected`
    | HumanUlt(picked: Option<nat>)                             // `handleUltClick`
    | Answer(played: bool)                                      // `resolveResponse`
    | AiAnswer                                                  // an AI answering a response window
    | Judge(draw: real)                                         // one tick of the judgement
    | DiscardCheck                                              // `checkDiscardRequirement`
    | AiDiscard                                                 // the AI's discard phase
    | HumanDiscard(ids: seq<UniqueId>)                          // `confirmDiscard`, with the selected ids
    | HumanEnd                                                  // the human's end button
    | EndTurn                                                   // `nextTurn`

  /** What a step needs of the state: the pending action it answers, enough random draws, a held card. */
  predicate Ready(s: GameState, st: Step)
    requires Valid(s)
  {
    match st
    case RunTurnPhase(rnd) => s.phase == DrawPhase ==> DrawOracle(s, DrawCount(s.players[s.turnIndex]), rnd)
    case AiPlay(rnd) => AiOracle(s, rnd)
    case HumanPlay(idx, picked, rnd) =>
      idx < |s.players[0].hand|
      && PlayReady(s, 0, if NeedsTarget(s.players[0].hand[idx].Kind()) then picked else None, s.players[0].hand[idx], rnd)
    case HumanUlt(_) => true
    case Answer(_) => Responding(s)
    case AiAnswer => Responding(s) && s.pendingAction.value.kind == ResponseCard
    case Judge(r) => Responding(s) && s.pendingAction.value.kind == Judgement && IsRandom(r)
    case DiscardCheck => true
    case AiDiscard => true
    case HumanDiscard(_) => true
    case HumanEnd => true
    case EndTurn => true
  }

  /** The state after the step. */
  function Apply(s: GameState, st: Step): GameState
    requires Valid(s) && Ready(s, st)
  {
    match st
    case RunTurnPhase(rnd) => RunPhase(s, s.turnIndex, rnd)
    case AiPlay(rnd) => ExecuteAiTurn(s, rnd)
    case HumanPlay(idx, picked, rnd) => HandlePlaySelected(s, idx, picked, rnd)
    case HumanUlt(picked) => HandleUltClick(s, picked)
    case Answer(played) => ResolveResponse(s, played)
    case AiAnswer => AiRespond(s)
    case Judge(r) => JudgementTick(s, r)
    case DiscardCheck => CheckDiscardRequirement(s, s.turnIndex)
    case AiDiscard => HandleDiscardPhase(s, s.turnIndex)
    case HumanDiscard(ids) => ConfirmDiscard(s, ids)
    case HumanEnd => s.(phase := End)
    case EndTurn => NextTurnState(s)
  }

  /**
   * The steps that may take cards out of the game: the human's discard,
   * which never puts the selected cards on the pile, and the human firing
   * kakashi's or pain's ultimate.
   */
  predicate Removes(s: GameState, st: Step)
    requires Valid(s)
  {
    st.HumanDiscard? || (st.HumanUlt? && (s.players[0].character.id == Kakashi || s.players[0].character.id == Pain))
  }

  /**
   * Every step keeps the state sound and brings no card into the game; all
   * but the human's discard and the kakashi and pain ultimates keep exactly
   * the cards there were.
   */
  lemma StepKeeps(s: GameState, st: Step)
    requires Sound(s) && Ready(s, st)
    ensures Sound(Apply(s, st)) && Cards(Apply(s, st)) <= Cards(s)
    ensures !Removes(s, st) ==> Cards(Apply(s, st)) == Cards(s)
  {
    var r := Apply(s, st);
    assert Valid(r) && Cards(r) <= Cards(s) && (!Removes(s, st) ==> Cards(r) == Cards(s)) by {
      match st
      case RunTurnPhase(rnd) => PhaseStepKeeps(s, rnd);
      case AiPlay(rnd) =>
        SoundHands(s, s.turnIndex);
        AiTurnKeeps(s, rnd);
      case HumanPlay(idx, picked, rnd) =>
        SoundHands(s, 0);
        PlaySelectedKeeps(s, idx, picked, rnd);
      case HumanUlt(picked) => UltClickKeeps(s, picked);
      case Answer(played) => ResolveResponseKeeps(s, played);
      case AiAnswer =>
        SoundHands(s, s.pendingAction.value.targetId.seat);
        AiRespondKeeps(s);
      case Judge(d) => JudgementKeeps(s, d);
      case DiscardCheck => DiscardCheckKeeps(s);
      case AiDiscard => DiscardPhaseKeeps(s, s.turnIndex);
      case HumanDiscard(ids) => ConfirmDiscardLoses(s, ids);
      case HumanEnd => assert Cards(r) == Cards(s);
      case EndTurn => NextTurnKeeps(s);
    }
    SoundKept(s, r);
  }

  lemma PhaseStepKeeps(s: GameState, rnd: seq<real>)
    requires Valid(s) && Ready(s, RunTurnPhase(rnd))
    ensures Valid(RunPhase(s, s.turnIndex, rnd)) && Cards(RunPhase(s, s.turnIndex, rnd)) == Cards(s)
  {
    match s.phase
    case Start => RunStartKeeps(s, s.turnIndex);
    case DrawPhase => RunDrawFacts(s, s.turnIndex, rnd);
    case _ =>
  }

  lemma DiscardCheckKeeps(s: GameState)
    requires Valid(s)
    ensures Valid(CheckDiscardRequirement(s, s.turnIndex)) && Cards(CheckDiscardRequirement(s, s.turnIndex)) == Cards(s)
  {
    NextTurnKeeps(s);
  }

  /** `steps` can be taken one after the other from `s`, and they end in `t`. */
  predicate Run(s: GameState, steps: seq<Step>, t: GameState)
    decreases |steps|
  {
    if steps == [] then t == s
    else Valid(s) && Ready(s, steps[0]) && Run(Apply(s, steps[0]), steps[1..], t)
  }

  /**
   * Every state reached from a sound state is sound, so every hand of it
   * carries distinct instance ids, and holds only cards the start held.
   */
  lemma {:induction false} RunKeeps(s: GameState, steps: seq<Step>, t: GameState)
    requires Sound(s) && Run(s, steps, t)
    ensures Sound(t) && Cards(t) <= Cards(s)
    ensures forall i :: 0 <= i < |t.players| ==> DistinctUids(t.players[i].hand)
    decreases |steps|
  {
    if steps != [] {
      var u := Apply(s, steps[0]);
      StepKeeps(s, steps[0]);
      RunKeeps(u, steps[1..], t);
    }
    forall i | 0 <= i < |t.players| ensures DistinctUids(t.players[i].hand) {
      SoundHands(t, i);
    }
  }

  /**
   * A game dealt from a generated deck is sound: its cards are those of the
   * deck, plus at most gaara's vest, whose id `skill-gaara-vest` no
   * generated card carries (constants.ts:49-80, App.tsx:305-325).
   */
  lemma DealtSound(s: GameState, table: seq<(string, nat)>, lib: seq<CardDef>,
                   suits: seq<real>, ranks: seq<real>, shuffles: seq<real>, vest: Option<PlayingCard>)
    requires Valid(s) && DistinctKeys(table)
    requires AllRandom(suits) && AllRandom(ranks) && AllRandom(shuffles)
    requires Total(table, |table|) <= |suits| && Total(table, |table|) <= |ranks| && Total(table, |table|) <= |shuffles| + 1
    requires vest.Some? ==> vest.value.uniqueId == GaaraVest
    requires Cards(s) == multiset(FisherYates(Built(table, lib, |table|, suits, ranks), shuffles)) + OptCards(vest)
    ensures Sound(s)
  {
    var built := Built(table, lib, |table|, suits, ranks);
    var deck := FisherYates(built, shuffles);
    assert multiset(deck) == multiset(built) by {
      FisherYatesPermutes(built, shuffles);
    }
    assert UniqueCards(multiset(deck)) by {
      BuiltIdsDistinct(table, lib, |table|, suits, ranks);
      DistinctIffUnique(built);
    }
    if vest.Some? {
      assert forall d: PlayingCard :: d in multiset(deck) ==> d.uniqueId.Generated? by {
        BuiltIdsKeyed(table, lib, |table|, suits, ranks);
      }
      UniqueAdd(vest.value, multiset(deck));
      assert multiset{vest.value} + multiset(deck) == Cards(s);
    }
  }
}
