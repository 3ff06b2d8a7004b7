# Ninja card battle: a verified model of the rules engine

This project models the rules engine of a five-seat, turn-based card battle game. Seat 0 is the human; the other four seats are computer players. Each player has:

- a character with a fixed maximum of hit points and an ultimate skill;
- a hand of cards;
- four equipment slots (weapon, armour, offence mount, defence mount).

A turn runs through five phases: START, DRAW, PLAY, DISCARD and END. In the PLAY phase, a card may open a *pending action*. This is either a response window, where the target may answer with a dodge, a negate or (in a duel) an attack, or a judgement, where a random suit decides whether a scroll takes effect. The computer players choose their plays with a fixed priority ladder.

The model follows the source files `types.ts`, `constants.ts` and the engine half of `App.tsx`. The React state is an immutable `GameState` datatype. Each `setGameState` becomes one state transition.

Where the source works step by step, the model does too, as methods:

- array shuffles;
- the `while` loop of `nextTurn`;
- the copied player array that `resolveCardEffect` and `handleUltimateTrigger` write on.

Each such method is proved equal to a specification function. The properties are lemmas about those functions.

## How the model is organised

Modules follow the engine's components:

- `Types`: the entities of `types.ts`.
- `Catalog`: the card library, the roster and the deck's count table of `constants.ts`.
- `Deck` and `Shuffle`: deck generation and the Fisher–Yates shuffle used at three places.
- `Rules`: distance, attack range, armour immunity and the ultimate's availability.
- `State`:
  - the invariant `Valid`: every seat's player has the seat's id, and the pending action names existing seats and fitting cards;
  - `Cards`: the multiset of every card in the deck, the discard pile, the hands and the slots;
  - drawing and damage.
- `Phases`: the START and DRAW steps, `nextTurn`, the hand limit, the AI's discard and the human's discard.
- `Effects`: the immediate effect of a card.
- `Play`: `handleCardPlay`, the human's play button, `resolveResponse`, the AI's answer in a response window and the judgement.
- `Ultimate`: the twelve ultimates and the human's ultimate button.
- `Ai`: the threat score, target choice and the priority ladder of `executeAiTurn`.
- `Game`: every engine step as one `Step`, and the invariant that a run of steps keeps.

Randomness (`Math.random()`) is a parameter. It is a sequence of reals in `[0, 1)`, and `Math.floor(r * k)` is modelled with `.Floor` on reals.

The central invariant is card conservation. Every operation keeps `Valid` and keeps `Cards` unchanged. There are three exceptions: the human's `confirmDiscard` and the Pain and Kakashi ultimates, whose removed cards go nowhere. The lemmas state exactly which cards each of them loses; the first is a defect, recorded under "## Findings" with a corrected version that keeps every card.

A second invariant, `State.Sound`, adds that every card in the game has its own instance id. The source relies on this whenever it removes a card from a hand with `filter` by `uniqueId` (App.tsx:688, App.tsx:403): with two cards of one id, both would go. `Deck.GenerateDeck` deals distinct ids, and `Game.DealtSound` shows that a game dealt from such a deck, plus gaara's vest, is sound. `Game.Step` lists the engine's transitions: the phase step, the AI's turn, the human's play and ultimate buttons, the answers to a response window, the judgement tick, the hand-limit check, the two discards, the human's end button (App.tsx:1007) and `nextTurn`. The human's discard step is the program's own `confirmDiscard`, `Phases.ConfirmDiscard`, so it is one of the steps that lose cards; the corrected `Phases.ConfirmDiscardToPile` keeps them. `Game.RunKeeps` proves that any run of steps from a sound state stays sound. `Game.Ready` asks only for what a step needs to be defined: the pending action it answers, enough random draws and a held card. It does not ask whose turn it is, so the theorem covers more runs than the source's scheduling produces.

## Model

| member | source | states |
|---|---|---|
| Types.SetSlot | types.ts:63-68 | writing one equipment slot sets that slot to the given card and leaves the other three slots as they were |
| Types.EquipKindsAreTheSlotKinds | App.tsx:701 | the substring test for "equip" on a card's type holds exactly for the four kinds that have a slot (App.tsx:709-712) |
| Catalog.FindDef | constants.ts:61 | the library lookup returns a definition with the asked id, and returns none only when no definition has that id |
| Catalog.CountsTotal | constants.ts:51-58 | the count table adds up to 126 cards |
| Catalog.CountsFollowLibrary | constants.ts:28-58 | the count table lists the library's ids in the library's order, one entry per definition |
| Catalog.CountsAllFound | constants.ts:60-62 | every id of the count table is found in the library, so no entry is skipped by the `if (def)` guard |
| Catalog.CountsDistinct | constants.ts:51-58 | the count table's ids are distinct |
| Catalog.WeaponRanges | constants.ts:42-44 | exactly the weapon definitions carry an attack range, and every range is 2, 3 or 4 |
| Catalog.CharacterOf | constants.ts:13-26 | every character id has a definition in the roster, carrying that id, and it is the only roster entry with that id |
| Deck.Rank | constants.ts:68 | a card's rank is between 1 and 13 |
| Deck.BuiltCounts | constants.ts:60-72 | the unshuffled deck holds the table's total number of cards, and exactly the table's count of each id |
| Deck.BuiltCardsWellFormed | constants.ts:61-68 | every pushed card carries the library definition of its id and a rank in 1..13 |
| Deck.BuiltIdsDistinct | constants.ts:66 | the instance ids of the pushed cards are pairwise distinct |
| Deck.BuiltFacts | constants.ts:60-72 | the count, per-id and distinct-id facts together, for any table with distinct keys that the library covers |
| Deck.StandardTable | constants.ts:51-58 | the game's own table totals 126, is covered by the library and has distinct keys |
| Deck.PushCopies | constants.ts:63-70 | the push loop appends exactly the block of `count` new cards of one definition |
| Deck.BuildDeck | constants.ts:60-72 | the loop over the table builds the specified unshuffled deck |
| Deck.GenerateDeck | constants.ts:49-80 | the result is the shuffled build, a permutation of it, with the table's total, each id's count, pairwise distinct instance ids (for any table with distinct keys) and well-formed cards |
| Shuffle.RandomBelow | constants.ts:75 | `Math.floor(r * k)` for `r` in `[0, 1)` is an index below `k` |
| Shuffle.SwapPermutes | constants.ts:76 | a swap exchanges the two entries, keeps the others and permutes the sequence |
| Shuffle.FisherYatesPermutes | constants.ts:74-77 | the shuffle keeps the length and is a permutation of its input |
| Shuffle.SwapInPlace | constants.ts:76 | the destructuring swap on the array computes the swap function |
| Shuffle.ShuffleInPlace | constants.ts:74-77 | the in-place loop computes the shuffle function and permutes the array |
| Shuffle.Shuffled | App.tsx:484-487 | shuffling a copied sequence returns the shuffle function's permutation of it |
| Rules.Alive | App.tsx:14 | the alive list holds exactly the players with positive hit points |
| Rules.FindIndex | App.tsx:18-19 | the index found is the first seat with that id, and -1 exactly when none has it |
| Rules.RingDistanceFacts | App.tsx:22-23 | the ring distance is symmetric and at most half the ring |
| Rules.GetDistance | App.tsx:12-29 | every distance is at least 1 |
| Rules.AliveDistance | App.tsx:15-28 | the distance once the dead are filtered out is at least 1 |
| Rules.DistanceMinato | App.tsx:13 | minato is at distance 1 from anyone, even a dead player |
| Rules.DistanceTwoAlive | App.tsx:16 | with two players alive every distance is 1 |
| Rules.DistanceToDead | App.tsx:18-20 | unless exactly two are alive, a dead source or target (of a non-minato source) gives 999 |
| Rules.DistancePlain | App.tsx:22-28 | without the distance modifiers, distance is symmetric and at most half the alive count |
| Rules.PlainValue | App.tsx:12-29 | without the modifiers, the distance is 1 for two alive and otherwise the ring distance clamped to 1 |
| Rules.GetAttackRange | App.tsx:31-35 | unarmed range is 1, or 2 for sasuke; armed range exists exactly when the weapon has one |
| Rules.AttackRangeBounds | App.tsx:31-35 | with a library weapon the range is between 1 and 5, and at least 2 for sasuke |
| Rules.IsImmuneToAttack | App.tsx:37-43 | immunity needs a black attack card |
| Rules.ImmunityExactly | App.tsx:37-43 | immune exactly when the source is not sasuke, the target wears the vest and the card is a black attack |
| Rules.CheckUltimateAvailable | App.tsx:45-64 | only a human off cooldown can have the ultimate available |
| Rules.UltimateAvailableExactly | App.tsx:45-64 | available exactly when human, off cooldown and the character's own condition holds |
| State.HandToDiscard | App.tsx:403-404 | the seat's hand becomes the kept cards and the moved cards go to the end of the discard pile |
| State.HandToDiscardKeeps | App.tsx:403-404 | moving cards from a hand to the discard pile keeps the state valid and the game's cards |
| State.Refill | App.tsx:478-490 | a deck with enough cards is kept; a short one becomes deck and discard pile together, with the discard pile emptied |
| State.RefillKeeps | App.tsx:478-490 | the refill moves no card out of deck and discard pile together |
| State.DrawCardsFacts | App.tsx:478-505 | drawing keeps validity and cards, adds `min(count, deck + discard)` cards to the seat's hand (the top of the deck when it suffices, else after a reshuffle that empties the discard pile) and changes no other seat |
| State.DrawCardsKeeps | App.tsx:478-505 | drawing keeps the state valid and the game's cards |
| State.ApplyDamage | App.tsx:849-858 | the target loses the amount; piles, phase, turn and pending action are kept; a new winner is the single survivor, and a single survivor is recorded as winner |
| State.WinnerIffOneSurvivor | App.tsx:854-855 | with no winner before, a winner is recorded exactly when one player is left alive |
| State.ApplyDamageKeeps | App.tsx:849-858 | damage keeps the state valid and the game's cards |
| State.DistinctIffUnique | constants.ts:66 | a hand's instance ids are pairwise distinct exactly when its multiset holds each id once |
| State.UniqueAdd | constants.ts:66 | adding a card keeps the ids unique exactly when none of the cards already there has its id |
| State.UniqueShrinks | constants.ts:66 | a part of a collection with unique ids has unique ids |
| State.PlayerInSeats | App.tsx:688 | the cards of one seat are part of the cards of all seats |
| State.SoundHands | App.tsx:688 | in a sound state every hand's instance ids are pairwise distinct, as `filter` by id needs |
| State.SoundKept | App.tsx:688 | a valid state holding only cards of a sound state is sound |
| Phases.RunStart | App.tsx:458-472 | the START step resets the attack count, lowers the cooldown to no less than 0 and clears the skip flag; it goes to END for a skipped player and to DRAW otherwise; it changes nothing else |
| Phases.RunStartKeeps | App.tsx:458-472 | the START step keeps the state valid and the game's cards |
| Phases.CooldownCountsDown | App.tsx:460 | `k` START steps lower the cooldown by `k`, never below 0 |
| Phases.DrawCount | App.tsx:474-475 | the draw count is 2, 3 or 4, and is 4 exactly for a human naruto at 2 hit points or fewer |
| Phases.DrawStep | App.tsx:473-508 | the DRAW step computes the draw function |
| Phases.RunDraw | App.tsx:473-508 | the DRAW step draws the draw count of cards and moves to PLAY |
| Phases.RunDrawFacts | App.tsx:478-505 | the DRAW step keeps validity and cards, moves to PLAY, adds the drawn cards to the hand, and empties the discard pile when it reshuffles |
| Phases.RunPhase | App.tsx:455-509 | START goes to END or DRAW, DRAW goes to PLAY, and the other phases are left alone |
| Phases.NextValue | App.tsx:513 | the next seat is the following index, wrapping to 0 |
| Phases.NextTurn | App.tsx:511-529 | the `while` loop computes the next-turn function |
| Phases.NextSeatSkipsDead | App.tsx:515-518 | the scan stops at the first alive seat after the current one, all seats it passes are dead, and it stops on a dead seat only after a full round |
| Phases.NextTurnLandsAlive | App.tsx:511-529 | the next turn goes to the first alive seat after the current one, and lands on an alive seat whenever one exists |
| Phases.NextTurnKeeps | App.tsx:511-529 | the next turn keeps the state valid and the game's cards |
| Phases.CheckDiscardRequirement | App.tsx:531-539 | a hand over the limit leads to DISCARD; a hand within the limit gives exactly the state `nextTurn` produces, with no pending action; players and piles are unchanged |
| Phases.DiscardCheckLandsAlive | App.tsx:531-539 | the check either stays on the current seat in DISCARD or starts the seat `nextTurn` picks, which is alive whenever any player is |
| Phases.KindScoreTable | App.tsx:658-664 | the AI's keep-score of each kind, written out per kind |
| Phases.ScoreCardValues | App.tsx:658-664 | every card scores one of the five values of the table |
| Phases.SortByScorePermutes | App.tsx:666 | sorting by score gives a sorted permutation of the hand |
| Phases.SortByScoreIsStable | App.tsx:666 | sorting by score is stable: the result lists the cards of each score in hand order, scores ascending |
| Phases.DiscardSplitFacts | App.tsx:666-669 | the discarded part has `min(needed, hand)` cards, the two parts permute the hand, and no discarded card scores more than a kept one |
| Phases.HandleDiscardPhase | App.tsx:648-680 | a hand within the limit goes straight to the next turn |
| Phases.DiscardPhaseFacts | App.tsx:648-680 | the AI keeps exactly its hand limit of cards and discards the lowest-scored rest to the pile, and sets END; the turn moves on only at the next `checkDiscardRequirement` |
| Phases.DiscardPhaseKeeps | App.tsx:648-680 | the AI's discard keeps the state valid and the game's cards |
| Phases.UnselectedMembers | App.tsx:871 | the kept hand holds exactly the cards whose ids were not selected |
| Phases.SelectionSplits | App.tsx:869-871 | the selected and the kept cards together permute the hand |
| Phases.ConfirmDiscard | App.tsx:867-873 | the human's confirmation keeps the unselected cards, moves to END, and leaves both piles and the other seats alone |
| Phases.ConfirmDiscardLoses | App.tsx:867-873 | the confirmation keeps the state valid, but the game is left with exactly the selected cards fewer |
| Phases.ConfirmDiscardLosesACard | App.tsx:867-873 | discarding a one-card hand loses that card from the game as written, and not in the corrected discard |
| Phases.ConfirmDiscardToPile | App.tsx:676 | the corrected confirmation puts the selected cards at the end of the discard pile and keeps the unselected ones |
| Phases.ConfirmDiscardToPileKeeps | App.tsx:676 | the corrected confirmation keeps the state valid and the game's cards |
| Effects.AreaHit | App.tsx:804 | the area hit keeps the number of seats |
| Effects.ApplyDamageState | App.tsx:840-847 | the in-place damage lowers the target's hit points and changes no other entry |
| Effects.ResolveCardEffect | App.tsx:772-809 | the method writing on a copied player array computes the effect function |
| Effects.HitAllBut | App.tsx:804 | the in-place loop over the array takes one hit point from every seat but the user's, as the area function does |
| Effects.HealClamps | App.tsx:780-781 | a heal adds 1 (2 for tsunade), never above the maximum, and never below the old hit points when those were within the maximum; nothing else changes |
| Effects.AreaFacts | App.tsx:804 | the area card takes one hit point from every other seat, dead ones included, and none from its user, and records no winner |
| Effects.TargetedFacts | App.tsx:802-805 | the fire scroll takes 1 (2 for itachi) and the skip card sets the skip flag, on the target only |
| Effects.DrawFacts | App.tsx:785-799 | the draw card draws two cards, reshuffling a short deck first |
| Effects.ResolveEffectKeeps | App.tsx:772-809 | every effect keeps the state valid and the game's cards |
| Effects.NoEffect | App.tsx:772-809 | the kinds without an immediate effect leave the state unchanged |
| Play.RemoveById | App.tsx:688 | removing by instance id never lengthens the hand |
| Play.RemoveHeld | App.tsx:688 | removing a held card with distinct ids removes exactly that card |
| Play.RemoveAbsent | App.tsx:688 | removing an id no card has leaves the hand alone |
| Play.FirstOfKind | App.tsx:396 | `hand.find` by kind returns the first card of that kind in hand order, and none exactly when the hand has none |
| Play.EquipPlayFacts | App.tsx:701-720 | equipment goes into its slot only; the slot's previous card goes to the end of the discard pile; other slots, seats, deck and pending action are kept |
| Play.AttackPlayFacts | App.tsx:722-736 | an attack counts towards the limit, leaves the hand for the end of the discard pile, and opens a dodge window on the target with damage as follow-up |
| Play.ScrollPlayFacts | App.tsx:737-744 | the duel, the fire scroll and the other scrolls open a negate window with their follow-up; the area card opens a judgement on all others |
| Play.CardPlayKeeps | App.tsx:684-748 | playing a held card keeps the state valid and the game's cards |
| Play.FollowUpKeeps | App.tsx:700-747 | the branch after the card's discard keeps validity and cards |
| Play.EquipValid | App.tsx:701-720 | equipping keeps the state valid |
| Play.EquipCardsKept | App.tsx:701-720 | equipping moves the popped card into the slot and the old slot card to the pile, keeping the game's cards |
| Play.HumanAttackLimit | App.tsx:875-885 | a third attack in a turn is refused with no change; otherwise the attack count goes up by one, the card leaves the hand for the end of the discard pile, and a dodge window opens on the picked seat with damage as follow-up |
| Play.PlaySelectedKeeps | App.tsx:875-885 | the human's play button keeps the state valid and the game's cards |
| Play.DuelRoundSwaps | App.tsx:754-757 | answering a duel round swaps the duellists and keeps asking for an attack; two answers give the original window back |
| Play.DuelRoundDeclined | App.tsx:767 | the duellist who does not answer takes one damage and the duel ends |
| Play.AnsweredCancels | App.tsx:759-761 | an answered window that is not a duel round is cleared and nothing else changes |
| Play.UnansweredAttack | App.tsx:763 | an unanswered attack deals one damage, clears the window, and records a winner exactly when one player is left |
| Play.ResolveResponseKeeps | App.tsx:750-770 | resolving a response keeps validity and cards |
| Play.AnsweredKeeps | App.tsx:754-761 | the answered branch keeps validity and cards |
| Play.DeclinedKeeps | App.tsx:762-768 | the unanswered branch keeps validity and cards |
| Play.AiRespondFacts | App.tsx:390-412 | an AI holding the asked kind plays exactly one such card to the discard pile and the window is answered; without one it is unanswered |
| Play.AiRespondKeeps | App.tsx:390-412 | the AI's answer keeps validity and cards |
| Play.GameOverFreezes | App.tsx:388 | with a winner recorded, neither the AI's answer nor a judgement changes the state |
| Play.JudgementSuitsAll | App.tsx:425-426 | every suit can be drawn |
| Play.JudgementExactly | App.tsx:435-436 | the fire scroll succeeds exactly on red, the area card exactly on black, any other card never |
| Play.JudgementClears | App.tsx:429-446 | after the draw step the judgement is cleared; a failure changes nothing else and a success applies the card's effect |
| Play.JudgementKeeps | App.tsx:417-450 | a judgement tick keeps validity and cards |
| Ultimate.Aim | App.tsx:819 | a looked-up target is an existing seat |
| Ultimate.OthersHit | App.tsx:824-830 | the volley keeps the number of seats |
| Ultimate.AliveHit | App.tsx:833 | madara's hit keeps the number of seats |
| Ultimate.HitOthers | App.tsx:824-830 | the in-place loop computes the volley on the array |
| Ultimate.HitAlive | App.tsx:833 | the in-place loop computes madara's hit on the array |
| Ultimate.StripOthers | App.tsx:832 | the in-place loop computes pain's hand splice on the array |
| Ultimate.UltimateTrigger | App.tsx:812-838 | the method writing on a copied player array computes the ultimate function |
| Ultimate.StrikingUlt | App.tsx:823-834 | the ultimates that leave the deck alone, written on the array, give the player list of the ultimate function |
| Ultimate.DrawingUlt | App.tsx:829-833 | the ultimates that draw, written on the array, give the player list and the deck of the ultimate function |
| Ultimate.UltSetsCooldown | App.tsx:815-836 | any ultimate puts its user's cooldown at 10 and keeps the other flags, piles, turn, phase, pending action and winner |
| Ultimate.StrikeUlt | App.tsx:823-834 | naruto, itachi and minato set the aimed seat to exactly itself with 2 hit points less (the user's cooldown set first when it aims at itself) and change no other seat but the user's cooldown |
| Ultimate.VolleyUlt | App.tsx:820-830 | sasuke and jiraiya take 1 from every alive other seat and leave the dead alone |
| Ultimate.MadaraUlt | App.tsx:833 | madara takes 1 from every alive seat, their own included, then draws up to 3 from the deck without a reshuffle |
| Ultimate.HealUlt | App.tsx:826-831 | sakura heals fully; tsunade heals 2 capped and draws 2; orochimaru heals 1 and fills the hand towards 5; no other seat changes |
| Ultimate.GaaraUlt | App.tsx:827 | gaara makes the aimed seat skip its next turn and takes 1 from it |
| Ultimate.KakashiUlt | App.tsx:825 | kakashi takes 1 from the aimed seat and, if it survives, clears its slots, leaving the game exactly those cards fewer; the target's hand and every other seat but the user's cooldown are unchanged |
| Ultimate.PainUlt | App.tsx:832 | pain splices up to two front cards from every alive other hand, leaving the game exactly those cards fewer, and fewer at all exactly when one of those hands had a card |
| Ultimate.UltKeepsValid | App.tsx:812-838 | every ultimate keeps the state valid |
| Ultimate.UltKeepsCards | App.tsx:812-838 | every ultimate except pain's and kakashi's keeps the game's cards |
| Ultimate.UltCardsShrink | App.tsx:812-838 | no ultimate brings a card into the game: the cards afterwards are a sub-multiset of those before |
| Ultimate.UltClickExactly | App.tsx:861-863 | the human's button fires exactly in PLAY with the ultimate unused and available and, for a targeted ultimate, a seat picked in the dialog; a cancelled dialog changes nothing; it then cannot fire again at once |
| Ultimate.UltClickKeeps | App.tsx:861 | the human's button keeps the state valid, never adds a card, and keeps the game's cards unless the character is kakashi or pain |
| Ai.Opponents | App.tsx:545 | the opponents are exactly the alive players other than the AI |
| Ai.BestIndex | App.tsx:566-593 | the chosen target has the highest threat, and it is the first of the highest (the stable sort) |
| Ai.BestOf | App.tsx:563-567 | a best target exists exactly for a nonempty list, is in it and is maximal |
| Ai.AttackTargets | App.tsx:591 | the attack candidates are exactly the opponents within range that the card is not stopped on |
| Ai.StealTarget | App.tsx:624 | the steal target is the first opponent in seat order at distance 1 with a card in hand or a slot, and none exactly when no opponent is |
| Ai.FirstEquip | App.tsx:578-585 | an equipment card of the hand with no equipment card before it, none exactly when there is none |
| Ai.FirstOfEither | App.tsx:615 | a card of either kind with no card of either kind before it, none exactly when there is none |
| Ai.Urgent | App.tsx:570-575 | the emergency rung fires exactly at 2 hit points or fewer with a heal or draw card in hand |
| Ai.Gear | App.tsx:577-588 | the equip rung plays an equipment card without target, and fires exactly when one is held |
| Ai.SkipRung | App.tsx:596-601 | the skip rung fires exactly when a skip card is held and an opponent exists |
| Ai.Strike | App.tsx:603-612 | the attack rung fires exactly when the hand holds an attack card, none was played this turn and some opponent is hittable by the first attack card; it aims at the most threatening such opponent |
| Ai.ScrollRung | App.tsx:614-619 | the scroll rung fires exactly when a fire scroll or duel is held and an opponent exists |
| Ai.Rob | App.tsx:621-626 | the steal rung fires exactly when a steal scroll is held and a steal target exists, which is at distance 1 with something to take |
| Ai.DismantleRung | App.tsx:628-632 | the dismantle rung fires exactly when a dismantle scroll is held and an opponent exists |
| Ai.Filler | App.tsx:634-642 | the last rung plays the hand's first area card; with none, its first draw card; with neither, its first heal below full health; it fires exactly when one of these applies |
| Ai.DrawOrHeal | App.tsx:638-642 | without an area card: the first draw card, else the first heal below full health, none exactly when neither applies |
| Ai.RungsOk | App.tsx:569-645 | every rung proposes a legal move: a held card, a target exactly when the kind needs one, and the target an opponent |
| Ai.ChooseLegal | App.tsx:569-645 | the AI's choice is always a legal move |
| Ai.AiTargetsOpponent | App.tsx:545-645 | in a valid state, the AI's target is an alive seat other than its own |
| Ai.AiAttackLegal | App.tsx:603-612 | an AI attack is its first this turn, at an opponent in range that is not immune, whose threat no other such opponent exceeds |
| Ai.BestOfHittable | App.tsx:591-593 | the best attack target has the highest threat among all opponents the card can hit |
| Ai.AiSingleAttack | App.tsx:605 | an AI that has attacked this turn plays no attack |
| Ai.AiEmergency | App.tsx:570-575 | at 2 hit points or fewer, an AI holding a heal plays its first heal, else its first draw card |
| Ai.AiEndsWhenStuck | App.tsx:569-645 | the AI ends the phase only when it holds no equipment, area or draw card, a heal would be wasted, its targeted scrolls have no opponent, its steal scroll no steal target, and its attack card is past the one-attack limit or hits no one |
| Ai.HumanLowAggro | App.tsx:559 | a human target scores 15 less threat than an AI in the same position |
| Ai.SasukeIgnoresArmour | App.tsx:555 | for sasuke, a target's armour does not change its threat |
| Ai.AiTurnKeeps | App.tsx:542-646 | the AI's play step keeps the state valid and the game's cards |
| Game.StepKeeps | App.tsx:353-885 | every engine step keeps the state sound and adds no card; all but the human's discard and the kakashi and pain ultimates keep the game's cards exactly |
| Game.PhaseStepKeeps | App.tsx:455-509 | the phase step keeps the state valid and the game's cards |
| Game.DiscardCheckKeeps | App.tsx:531-539 | the hand-limit check keeps the state valid and the game's cards |
| Game.RunKeeps | App.tsx:353-885 | every state reached by a run of steps from a sound state is sound, holds no card the start did not, and every hand in it has distinct instance ids |
| Game.DealtSound | App.tsx:305-325 | a game whose cards are a generated deck plus at most gaara's vest (id `skill-gaara-vest`) is sound |

## Specification functions

These functions define an operation of the engine. Their properties are stated by the lemmas named with them, which have rows above.

- `Ai.Threat` (App.tsx:550-561): `Ai.HumanLowAggro`, `Ai.SasukeIgnoresArmour`, `Ai.BestIndex`, `Ai.BestOf`, `Ai.BestOfHittable`.
- `Ai.Choose` (App.tsx:569-645): `Ai.ChooseLegal`, `Ai.AiTargetsOpponent`, `Ai.AiAttackLegal`, `Ai.AiSingleAttack`, `Ai.AiEmergency`, `Ai.AiEndsWhenStuck`.
- `Ai.ExecuteAiTurn` (App.tsx:542-646): `Ai.AiTurnKeeps`.
- `Play.HandleCardPlay` (App.tsx:684-748): `Play.EquipPlayFacts`, `Play.AttackPlayFacts`, `Play.ScrollPlayFacts`, `Play.CardPlayKeeps`.
- `Play.HandlePlaySelected` (App.tsx:875-885): `Play.HumanAttackLimit`, `Play.PlaySelectedKeeps`.
- `Play.Equip` (App.tsx:701-720): `Play.EquipValid`, `Play.EquipCardsKept`, `Play.EquipPlayFacts`.
- `Play.ResolveResponse` (App.tsx:750-770): `Play.DuelRoundSwaps`, `Play.DuelRoundDeclined`, `Play.AnsweredCancels`, `Play.UnansweredAttack`, `Play.ResolveResponseKeeps`.
- `Play.AiRespond` (App.tsx:390-412): `Play.AiRespondFacts`, `Play.AiRespondKeeps`, `Play.GameOverFreezes`.
- `Play.JudgementTick` (App.tsx:417-450): `Play.JudgementClears`, `Play.JudgementExactly`, `Play.JudgementKeeps`, `Play.GameOverFreezes`.
- `Effects.ResolveEffect` (App.tsx:772-809): `Effects.ResolveCardEffect`, `Effects.HealClamps`, `Effects.AreaFacts`, `Effects.TargetedFacts`, `Effects.DrawFacts`, `Effects.NoEffect`, `Effects.ResolveEffectKeeps`.
- `Ultimate.UltEffect` (App.tsx:812-838): `Ultimate.UltimateTrigger`, `Ultimate.UltSetsCooldown`, the per-character lemmas from `Ultimate.StrikeUlt` to `Ultimate.PainUlt`, `Ultimate.UltKeepsValid`, `Ultimate.UltKeepsCards`, `Ultimate.UltCardsShrink`.
- `Ultimate.HandleUltClick` (App.tsx:861-863): `Ultimate.UltClickExactly`, `Ultimate.UltClickKeeps`.
- `State.DrawCards` (App.tsx:478-505): `State.DrawCardsFacts`, `State.DrawCardsKeeps`.
- `Phases.NextTurnState` (App.tsx:511-529): `Phases.NextTurn`, `Phases.NextSeatSkipsDead`, `Phases.NextTurnLandsAlive`, `Phases.NextTurnKeeps`.
- `Phases.ScoreCard` (App.tsx:658-664): `Phases.KindScoreTable`, `Phases.ScoreCardValues`.
- `Phases.SortByScore` (App.tsx:666): `Phases.SortByScorePermutes`, `Phases.SortByScoreIsStable`, `Phases.DiscardSplitFacts`.
- `Deck.Built` (constants.ts:60-72): `Deck.BuiltCounts`, `Deck.BuiltCardsWellFormed`, `Deck.BuiltIdsDistinct`, `Deck.BuiltFacts`, `Deck.BuildDeck`.
- `Shuffle.FisherYates` (constants.ts:74-77): `Shuffle.FisherYatesPermutes`, `Shuffle.ShuffleInPlace`, `Shuffle.Shuffled`.

## Left out

- Rendering, animations, toasts, the log and the chat bubbles are not modelled. That includes the 15% chat roll at `App.tsx:548`, which draws a random number without affecting the rules. These are presentation.
- The `useEffect` scheduling and the `setTimeout` delays are left out. The model takes each scheduled step as one transition on the state it reads. Stale closures are out too: `executeAiTurn` and the judgement read `gameState` instead of `prev`, and the model reads one consistent state.
- The source copies players shallowly and then mutates shared objects (`applyDamageState` on a copied array, the `flags` of ultimates). In the model every write makes a new value. Aliasing between the old and new state is not captured. The copied player arrays are modelled as fresh `array`s of player values. Only `applyDamage` copies the players themselves (`map(p => ({...p}))`, App.tsx:851). `resolveCardEffect` and `handleUltimateTrigger` copy only the array (`[...prev.players]`, App.tsx:775 and App.tsx:817), so their player objects stay shared with the previous state; the model does not capture that sharing.
- Instance ids drop the random base-36 suffix (`constants.ts:66`). An id is the definition id and the copy's index, which is already unique.
- `Deck.GenerateDeck` takes the count table and library as parameters and is applied to the game's constants by `Deck.StandardTable`. This keeps verification of the literal strings small.
- The judgement draws a rank as well (`App.tsx:427`). It only appears in the log, so it is left out.
- `resolveResponse` and the judgement call `resolveCardEffect`, which may reshuffle only for a draw card. `State.Valid` proves those only ever resolve non-draw cards, so they are given no random draws.
- The human never answers a response window. `App.tsx:390-415` answers only when the target is an AI, and the page renders only the judgement banner (`App.tsx:977`), with no answer control. A window aimed at the human therefore stays open and the game stalls there. `Play.ResolveResponse` takes the answer as a free `played` argument, an over-approximation: it also allows the human answers that the source cannot produce.
- Character selection and `startGame` are not modelled: setting up the seats and dealing the opening hands. The model starts from any valid state.
- The UI selection fields are not part of `GameState`: `selectedCardIdx`, `activeSkill` and `cardsToDiscard` (the discard selection is the `ids` argument of `Phases.ConfirmDiscard`). The same goes for the target dialog.
- `isTurn`, `isDying` and `used_ult` are never written by the engine. They are carried as data, and `used_ult` stays false.
- In `handleCardPlay`, `targetId!` (`App.tsx:729-744`) is only a type assertion. Without a target the source would open a window aimed at `null` that nothing answers. Every caller passes a target for the cards that need one: the AI ladder and the target dialog (`App.tsx:862-865`). So the model requires one (`Play.PlayReady`).
- `Play.Equip`: `newDiscard.pop()` takes the card just pushed back off the discard pile. The model does this on sequence values, not a shared array.

## Findings

| source | as written | input that shows it | evidently intended | confidence | as-written member | corrected member |
|---|---|---|---|---|---|---|
| App.tsx:867-873 | The human's `confirmDiscard` filters the selected cards out of the hand but never puts them on the discard pile, so they leave the game. | The human in the DISCARD phase holding one card `c`, selecting it and confirming: afterwards `c` is in no hand, slot, deck or pile. | The selected cards go to the end of the discard pile, as in the AI's discard at App.tsx:676. | not executed | Phases.ConfirmDiscard, Phases.ConfirmDiscardLosesACard | Phases.ConfirmDiscardToPile, Phases.ConfirmDiscardToPileKeeps |
