# Texas Hold'em betting and settlement, modelled in Dafny

This project models the core of a Python Texas Hold'em trainer. It covers
the chips, the betting and the settlement of a hand, and the cards and
hand scores they rest on. The trainer has two generations of table code,
and both are modelled:

- **engine.py, `PokerEngine`.** A table state machine that keeps per-seat
  lists (`stacks`, `contributions`, `total_contrib`, `active`, `all_in`).
  It moves the button, posts the blinds and deals from the end of a
  shuffled deck. It applies `fold`/`check`/`call`/`bet`/`raise` with their
  `ValueError`s, advances the turn with `_next_player` and closes streets
  with `_end_betting_round`. It layers the pot into side pots with
  `_compute_side_pots` and pays each layer in `showdown`.
  - `Engine.PokerEngine` in engine.dfy is a class with the same fields. Its
    methods change them in place, step by step as the Python does.
  - Each method is proved to leave exactly the table that a pure function of
    `EngineSpec` (engine_spec.dfy) computes from the table before.
  - The properties of play are lemmas about those functions
    (engine_props.dfy).
- **poker_tutor.py.** This generation has:
  - `Player` objects whose chips change in place;
  - a `GameState` holding the board, the pot and its `Pot` layers (`collect_bet`,
    `build_side_pots`, `deal_hole_cards`, `deal_next_street`);
  - `BettingRound` (`post_blinds`, `_act`, `run`);
  - the second, delta-based `showdown`.

  `Tutor` (tutor.dfy) models these as classes. Each method states the new seats as a
  function of a snapshot of the old ones (`SeatView`). `TutorProps`
  (tutor_props.dfy) proves the betting, chip and payout properties.
- **Side pots and payouts.** `SidePots` (side_pots.dfy) is shared by both
  generations. Its reference definition peels one contribution level at a
  time. Both the engine's walk over the sorted `(amount, seat)` entries and
  the tutor's walk over the distinct levels are proved to build exactly
  these layers. Each layer goes to its strongest contending seats.
- **Cards, deck and evaluator of poker_fast_eval.py.**
  - `Cards` (cards.dfy): `Card.from_str`, `__str__` and the `Deck` class
    (build, shuffle, `draw` with Python slice semantics).
  - `Shuffle` (shuffle.dfy): the Fisher-Yates shuffle of `random.shuffle`.
  - `HandEval` (hand_eval.dfy): the fallback `HandEvaluator`, that is,
    `_eval5` scoring with Python's tuple/list order and the best of all
    five-card combinations.
- **`monte_carlo_strength` of hand_strength_simple.py.** `HandStrength` and
  `HandStrengthProps` model the estimate of the hero's winning chance over
  repeated random deals, ties counted as half.

Parameters stand in for what cannot be seen or run:

- The random generator is a stream of draws (`rolls`).
- Each evaluator is a parameter whose integer order is the order of the
  hands:
  - pokerkit's `StandardHighHand` in the engine is `HandValue`, with
    `None` where no hand can be formed;
  - the tutor's `HandEvaluator().evaluate` is `eval`;
  - the Monte Carlo comparison is `Evaluator`.
- Python exceptions are values: `Result`/`Outcome` errors for the
  `ValueError`s of `player_action`, and `IndexError`, `ValueError` and
  `ZeroDivisionError` in `monte_carlo_strength`. A `KeyError` or a failed
  `str.index` becomes `None`.

In four places the model departs from the code as written, because the
code's own tests or neighbouring code, or the model's own convention, call
for a different rule. They are listed under "## Findings". For each, the
code as written is modelled by an `...AsWritten` member with a lemma that
shows the difference. The rest of the model uses the corrected rule:

- The blinds are clamped to the stack. `collect_bet` in poker_tutor.py:169
  clamps every bet this way. engine.py:76-79 marks a seat all in once its
  blind empties its stack, which only makes sense if a blind never takes
  more than the stack.
- The odd chips of a split go to the first winner. This is the model's own
  convention, chosen so that a payout keeps every chip on the table.
- A short all-in raise never lowers the bet to match. This is the model's
  own reading of the name of the test at test_engine.py:89
  (`test_partial_raise_does_not_lower_current_bet`). What that test asserts
  is a different rule, which neither the code nor the model follows; see
  the note under "## Findings".
- The wheel is the lowest straight, as tests/test_poker_tutor.py:32-43
  says.

A layer that no seat still in the hand may win is paid to nobody: engine.py
skips it (`if not eligible: continue`, engine.py:336-338), and the model
does the same (`SidePots.Claimed`).

## Model

| member | source | states |
|---|---|---|
| Shuffle.Shuffle | poker_fast_eval.py:163 | the in-place loop of `random.shuffle` returns the Fisher-Yates permutation driven by the draws, with the same cards as the input |
| Shuffle.ShuffledPermutes | poker_fast_eval.py:163 | shuffling only reorders: same length and the same multiset of cards |
| Cards.IndexOf | poker_fast_eval.py:142-143 | `str.index` finds the first position holding the character, and fails exactly when the character is absent |
| Cards.FromStrToStr | poker_fast_eval.py:137-148 | printing a valid card and parsing the text gives the same card back |
| Cards.ToStrFromStr | poker_fast_eval.py:137-144 | parsing succeeds exactly when the upper-cased first character is a rank letter and the lower-cased second one a suit letter; the parsed card then prints as that normalised pair |
| Cards.CanonicalRoundTrip | poker_fast_eval.py:137-148 | a canonical code such as "As" parses and prints back verbatim |
| Cards.FullDeckExact | poker_fast_eval.py:160-162 | the fresh deck holds each of the 52 valid cards exactly once |
| Cards.StrsOfDistinct | poker_fast_eval.py:146-148 | distinct valid cards have distinct printed forms |
| Cards.SliceStop | poker_fast_eval.py:166 | the stop index of `cards[:n]` is `n` when it lies within the list and is never past its end |
| Cards.Deck.constructor | poker_fast_eval.py:156-163 | the new deck is the rank-major deck shuffled by the draws: a permutation of the 52 cards |
| Cards.Deck.Draw | poker_fast_eval.py:165-166 | `draw(n)` returns the first `min(n, len)` cards as Python slices them, and the cards drawn followed by the cards left are the old deck |
| Cards.DrawFreshDeck | tests/test_poker_tutor.py:15-22 | drawing 52 from a fresh shuffled deck yields every valid card once, 52 distinct printed forms, and an empty deck |
| HandEval.SeqLessOrder | poker_fast_eval.py:75 | Python's `<` on rank lists is a strict total order |
| HandEval.ScoreLessOrder | poker_fast_eval.py:75 | Python's `<` on `(category, ranks)` tuples is a strict total order, so "best so far" is well defined |
| HandEval.WithCountFirstIsMax | poker_fast_eval.py:93-98 | the first rank found with a given count is the largest rank with that count, the `max(k for k, v ... if v == c)` of the source |
| HandEval.QuadKicker | poker_fast_eval.py:92-95 | a hand with four of a kind has a quad rank and a kicker, so both `max` calls have something to take |
| HandEval.TwoPairKicker | poker_fast_eval.py:108-112 | two pairs in five cards leave a kicker |
| HandEval.Eval5AsWritten | poker_fast_eval.py:79-117 | `_eval5` as written scores every five-card hand with a category from 1 to 9, the one `CategoryOf` gives from how often each rank occurs and whether the suits agree |
| HandEval.ClassifyCategory | poker_fast_eval.py:90-117 | the tests on `counts.values()`, in the source's order, give: straight flush 9; some rank four times 8; some rank three times and some rank twice 7; flush 6; straight 5; some rank three times 4; two ranks twice each 3; one rank twice 2; otherwise 1 |
| HandEval.FullHouseCounts | poker_fast_eval.py:95-99 | among five cards `sorted(counts.values()) == [2, 3]` holds exactly when some rank occurs three times and some rank twice |
| HandEval.PairsListed | poker_fast_eval.py:108-109 | `len(pairs) >= 2` exactly when two different ranks occur twice each |
| HandEval.KindListed | poker_fast_eval.py:91 | `c in counts.values()` exactly when some rank occurs `c` times |
| HandEval.DistinctClassify | poker_fast_eval.py:90-117 | five different ranks can only score a straight flush, a flush, a straight or a high card, each with the ranks in descending order |
| HandEval.Eval5 | poker_fast_eval.py:84-103 | the corrected score has the category of `_eval5` and equals it on every hand that is not a wheel |
| HandEval.Eval5Permutation | poker_fast_eval.py:79-83 | the score of five cards does not depend on their order, as written and corrected |
| HandEval.WheelLowestStraight | poker_fast_eval.py:84-103 | with the correction, no straight (or straight flush) scores below the wheel of its category, and every other one scores above it |
| HandEval.WheelBeatsKingHighAsWritten | poker_fast_eval.py:85-91 | as written, the A-5 wheel outscores the K-high straight (the finding) |
| HandEval.KingHighBeatsWheel | tests/test_poker_tutor.py:32-43 | with the correction, the K-high straight outscores the wheel, whose ranks are listed ace-low |
| HandEval.CombinationsExact | poker_fast_eval.py:73 | `itertools.combinations(cards, k)` lists exactly the length-`k` subsequences of the cards |
| HandEval.CombinationsWhole | poker_fast_eval.py:73 | the only combination of all the cards is the cards themselves |
| HandEval.ScoresOf | poker_fast_eval.py:73-74 | the scores of the combinations, one per combination in order |
| HandEval.BestIsMax | poker_fast_eval.py:71-77 | `evaluate` returns `(0, [])` for fewer than five cards; otherwise the score of some five-card subsequence, and no five-card subsequence scores higher |
| HandEval.Evaluate | poker_fast_eval.py:71-77 | the running-best loop returns the best score, attained by some five-card subsequence and beaten by none |
| SidePots.LevelsExact | poker_tutor.py:184 | the levels are the distinct totals above the threshold, strictly ascending (`sorted(set(totals))`) |
| SidePots.PeelLevels | poker_tutor.py:186-193 | layer `k` holds `(level_k - level_{k-1})` times the number of seats reaching `level_k`, and is shared by those seats |
| SidePots.LayerAt | poker_tutor.py:186-193 | there is one layer per positive level, and it has the amount and the eligible seats the tutor's loop computes |
| SidePots.PeelShape | engine.py:278-288 | no layer is empty; the first is open to every seat that put chips in; each later layer's seats are a strict subset of the previous one's |
| SidePots.SidePotsSum | poker_tutor.py:177-195 | the layers add up to every chip put in |
| SidePots.SidePotsEmpty | poker_tutor.py:179-182 | there are no layers exactly when no seat put anything in |
| SidePots.ThreeWaySidePots | tests/test_sidepots.py:13-24 | totals of 98, 199 and 202 make layers of 294, 202 and 3 chips, open to three, two and one seats |
| SidePots.SortedContribsFacts | engine.py:273-274 | the sorted contributions have one `(amount, seat)` entry per seat that put chips in, in ascending amount order |
| SidePots.EngineLoopPeel | engine.py:275-289 | the engine's walk over the sorted entries, from any state its invariant allows, finishes with exactly the reference side pots |
| SidePots.Contending | engine.py:336 | the contending seats of a layer are exactly those it admits that still hold a hand, in seat order |
| SidePots.WinnersExact | poker_tutor.py:536-537 | a seat wins a contested layer exactly when no contending seat beats it; there is always a winner, and none is listed twice |
| SidePots.WinnersAppend | engine.py:339-347 | the running best: a stronger seat restarts the winner list, an equal one joins it, a weaker one changes nothing |
| SidePots.PayFacts | engine.py:349-350 | each winner gains the share and the first winner also the odd chips; everyone else is untouched; the table gains share times winners plus odd |
| SidePots.SplitAsWrittenLoses | engine.py:348-350 | as written, a split loses `amount % len(winners)` chips (the finding) |
| SidePots.OddChipDropped | poker_tutor.py:538-540 | as written, three chips split two ways pay 1 and 1, and one chip disappears |
| SidePots.SplitFacts | engine.py:348-350 | the corrected split pays out the whole layer: the floor share to each winner and the remainder to the first |
| SidePots.LayerWinners | engine.py:336-347 | the winners of one layer are listed only when somebody contends it |
| SidePots.LayerWinnersExact | engine.py:336-347 | the winners of a layer are exactly its contending seats that no other contending seat beats, each listed once |
| SidePots.AwardShares | engine.py:335-350 | a contested layer pays `amount // n` to each of its `n` winners and the remainder to the first; an uncontested one pays nothing |
| SidePots.SettleSum | poker_tutor.py:532-540 | paying every layer adds to the stacks exactly the chips of the contested layers |
| SidePots.ClaimedAll | poker_tutor.py:532-535 | when every layer has a contender, all of their chips are paid out |
| EngineSpec.TupleToStr | engine.py:388-406 | `_tuple_to_str` fails exactly outside ranks 2-14 and suits 0-3, and otherwise gives a rank letter and a suit letter |
| EngineSpec.TupleToStrInjective | engine.py:388-406 | different cards print differently, and `(14, 3)` prints as "As" |
| EngineSpec.AdvanceInRange | engine.py:219-220 | taking `k <= n` steps of `(turn + 1) % n` wraps round the table at most once |
| EngineSpec.DealFlopCards | engine.py:291-301 | burning and dealing the flop keeps the deck, the hands and the board disjoint parts of the standard deck |
| EngineSpec.DealOneCards | engine.py:303-319 | the same for the turn and the river |
| EngineSpec.EndRoundWellFormed | engine.py:240-269 | closing a street keeps the table well formed, and moves preflop to the flop, the flop to the turn and the turn to the river |
| EngineSpec.FastForwardWellFormed | engine.py:224-226 | closing the streets in turn reaches the river with a well-formed table |
| EngineSpec.DealHoleMultiset | engine.py:102-106 | popping two cards per seat keeps every card, in the deck or in a hand |
| EngineSpec.DealHandCards | engine.py:98-108 | a new deal holds the 52 cards once each between the deck and the hands, two per seat, with `52 - 2n` left and an empty board |
| EngineSpec.PostBlindsPot | engine.py:68-75 | after the blinds the pot is what the two blinds contributed |
| EngineSpec.ResetSeats | engine.py:44-46 | the button, the small blind and the big blind are seats in range, the blinds on the next two seats and distinct |
| EngineSpec.NewHandWellFormed | engine.py:42-112 | `new_hand` leaves a well-formed preflop table |
| EngineSpec.ActWellFormed | engine.py:127-187 | an accepted action keeps the table well formed and on the same street |
| EngineProps.StandardDeckDistinct | engine.py:99 | the 52 cards of the standard deck are distinct |
| EngineProps.NewHandSeats | engine.py:44-55 | `new_hand` moves the button one seat on and puts the blinds on the next two seats; the first action goes to the seat after the big blind and the bet to match is the big blind; the big blind closes the round, and every seat is back in |
| EngineProps.NewHandBlinds | engine.py:68-79 | each blind seat pays its blind or its whole stack, whichever is less, as its bet and its total; the pot is the two payments and no chip is lost; exactly the blind seats left with nothing are all in |
| EngineProps.PostBlindsEffect | engine.py:68-79 | the same for posting the blinds on a table with nothing put in |
| EngineProps.BlindsAllIn | engine.py:76-79 | after the two all-in checks, exactly the blind seats with empty stacks are all in |
| EngineProps.NewHandStacksNonNegative | engine.py:69-70 | with the clamped blinds no stack goes negative |
| EngineProps.BlindOverdrawsAsWritten | engine.py:69-70 | as written, a one-chip stack on a big blind of two goes to -1, where the clamped blind leaves it at 0 (the finding) |
| EngineProps.NewHandCards | engine.py:98-108 | after `new_hand` the deck and the hole cards hold the 52 cards once each, two per seat, with `52 - 2n` left in the deck |
| EngineProps.ActRejections | engine.py:129-187 | each `ValueError` of `player_action` is raised exactly under its condition |
| EngineProps.ActConserves | engine.py:143-185 | an accepted action keeps every chip: what leaves the stacks is in the pot, and the pot grows with the totals |
| EngineProps.CallConserves | engine.py:143-152 | a call keeps every chip |
| EngineProps.BetConserves | engine.py:154-169 | a bet keeps every chip |
| EngineProps.RaiseConserves | engine.py:171-185 | a raise keeps every chip |
| EngineProps.FoldAndCheck | engine.py:134-141 | a fold only takes the seat out of the hand, and an allowed check changes nothing |
| EngineProps.CallMoves | engine.py:143-152 | a call moves `min(current_bet - contributions[p], stacks[p])` from stack to bet, total and pot and touches no other seat; the caller is all in exactly when its stack is empty, and has then matched the bet or gone all in |
| EngineProps.BetOpens | engine.py:154-169 | an opening bet, clamped to the stack, becomes the bet to match and the bettor's own bet; the bettor is the last raiser |
| EngineProps.RaiseNeverLowers | engine.py:171-185 | with the correction a raise never lowers the bet to match; with chips enough it lifts the bet by `amount`; the raiser is the last raiser and all in exactly when its stack is empty |
| EngineProps.PartialRaiseTest | test_engine.py:89-99 | three seats of 50 chips, blinds 1 and 2: seat 0's `raise 100` is capped at 50 and the bet to match becomes 50 under the code as written (engine.py:181) and under the modelled rule, not the 2 the test expects; the turn passes to the small blind |
| EngineProps.ShortAllInLowersAsWritten | engine.py:181 | as written, an all-in raise that cannot even call lowers the bet to match (the finding) |
| EngineProps.ShortAllInExample | engine.py:174-181 | facing 20 with 15 chips, `raise 10` leaves the bet at 15 as written and at 20 corrected |
| EngineProps.NextActorFound | engine.py:217-223 | the turn search stops at a seat that can act, and none of the seats it passes can act |
| EngineProps.NextActorNone | engine.py:217-224 | a search that finds nobody has passed only seats that cannot act |
| EngineProps.NobodyCanAct | engine.py:217-229 | a full search finds nobody exactly when no seat can act (everybody left is all in or folded) |
| EngineProps.FoldToOneWins | engine.py:203-215 | with one seat left in, that seat takes the whole pot and the hand is complete; no chip is lost |
| EngineProps.FoldHeadsUp | test_engine.py:47-54 | heads up with 100 chips and blinds 1 and 2, the small blind's fold ends the hand with the big blind on 101 |
| EngineProps.EndRoundNextStreet | engine.py:240-269 | closing a betting street clears every bet and deals 3 or 1 cards after a burn, keeping the board; the first action and the closing of the round go to the seat left of the button; no chip moves |
| EngineProps.FastForwardKeeps | engine.py:224-226 | fast-forwarding when nobody can act only deals streets: it reaches the river and moves no chip |
| EngineProps.ClaimedAtMost | engine.py:335-338 | the contested chips are never negative and never more than the chips in the layers |
| EngineProps.ShowdownConserves | engine.py:321-364 | showdown empties the pot into the stacks: exactly the contested layers are paid, never more than was put in, and all of it when every layer has a contender |
| EngineProps.NextPlayerChips | engine.py:201-238 | `_next_player` moves chips only when the hand ends; then the pot is empty and the stacks have gained at most the pot |
| Engine.RunningBest | engine.py:339-347 | the running-best loop returns the seats holding the strongest hand among the eligible ones, in order |
| Engine.LayerWinnersOf | engine.py:336-347 | the contending seats of a layer and their running best are the layer's winners |
| Engine.ComputeSidePots | engine.py:271-289 | `_compute_side_pots` returns exactly the reference side pots of the totals |
| Engine.DealHoleCards | engine.py:102-106 | the deal loop leaves the deck without its last `2n` cards and gives each seat the two cards it pops |
| Engine.PokerEngine.constructor | engine.py:16-40 | `__init__` builds full stacks, no hand dealt, and a well-formed table |
| Engine.PokerEngine.NewHand | engine.py:42-112 | `new_hand` changes the table exactly as `NewHandSpec` says, returns the hole cards and leaves a well-formed preflop table |
| Engine.PokerEngine.ResetHand | engine.py:44-55 | the button, blind and betting-state reset of `new_hand` |
| Engine.PokerEngine.PostBlinds | engine.py:68-79 | the blinds, each clamped to the stack, posted as `PostBlinds` says |
| Engine.PokerEngine.DealHand | engine.py:98-111 | shuffle, deal, clear the board and seat the first actor, as `DealHand` says |
| Engine.PokerEngine.PlayerAction | engine.py:117-199 | a rejected action returns its error and leaves every field as it was; an accepted one leaves the table `PlayerActionSpec` computes; the table stays well formed |
| Engine.PokerEngine.ApplyAction | engine.py:127-187 | the validation and chip movement of `player_action`, rejected or applied as `ActSpec` says |
| Engine.PokerEngine.Call | engine.py:143-152 | the call in place, as `CallSpec` says |
| Engine.PokerEngine.Bet | engine.py:154-169 | the bet in place, as `BetSpec` says |
| Engine.PokerEngine.Raise | engine.py:171-185 | the raise in place, as `RaiseSpec` says |
| Engine.PokerEngine.NextPlayer | engine.py:201-238 | `_next_player` in place, as `NextPlayerSpec` says, keeping the table well formed |
| Engine.PokerEngine.FindActor | engine.py:217-223 | the search loop finds the seat `NextActor` names, or none after a full turn of the table; only `turn` changes |
| Engine.PokerEngine.RunOut | engine.py:224-229 | with nobody able to act, the streets are closed up to the river and the hand is shown down |
| Engine.PokerEngine.AllSettled | engine.py:232-235 | the round-complete test is true exactly when every seat still in has matched the bet or is all in |
| Engine.PokerEngine.EndBettingRound | engine.py:240-269 | `_end_betting_round` in place, as `EndRoundSpec` says, keeping the table well formed |
| Engine.PokerEngine.CloseRiver | engine.py:262-265 | the river closes into the showdown |
| Engine.PokerEngine.NextStreet | engine.py:242-269 | any other street closes: bets cleared, next street dealt, turn reseated |
| Engine.PokerEngine.DealFlop | engine.py:291-301 | `deal_flop` in place, as `DealFlopSpec` says, returning the board |
| Engine.PokerEngine.DealOne | engine.py:303-319 | `deal_turn` and `deal_river` in place, as `DealOneSpec` says, returning the board |
| Engine.PokerEngine.Showdown | engine.py:321-364 | `showdown` in place, as `ShowdownSpec` says |
| Engine.PokerEngine.CollectHands | engine.py:323-331 | the hands gathered are exactly the seats not folded (or all in) that the evaluator gives a hand, with their strengths |
| Engine.PokerEngine.AwardLayer | engine.py:335-350 | one layer paid to its winners as `Award` says |
| Engine.PokerEngine.PayShares | engine.py:349-350 | the payment loop credits each winner its share, the first also the odd chips |
| Tutor.StreetOrder | poker_tutor.py:145-163 | the streets advance in order from preflop; the board grows by 3, 1 and 1 cards; the showdown stays the showdown |
| Tutor.Player.constructor | poker_tutor.py:95-109 | a new player holds the given name, chips, bets, cards and fold flag |
| Tutor.Player.ResetForNewStreet | poker_tutor.py:112-113 | only the street bet changes, to 0 |
| Tutor.ActiveOf | poker_tutor.py:200-201 | `active_players` lists exactly the seats not folded with chips behind or in front |
| Tutor.MaxOf | poker_tutor.py:204-205 | `max` is an upper bound that some element reaches |
| Tutor.Collected | poker_tutor.py:167-175 | `collect_bet` on a seat moves at most its stack from the stack into its street bet and hand total; it pays the full amount when it can cover it and goes all in otherwise |
| Tutor.AddToLastSum | poker_tutor.py:175 | growing the current layer grows the layers' total by as much |
| Tutor.AddToLastKeeps | poker_tutor.py:175 | growing the current layer changes only that layer's amount, by exactly the chips added; its eligible seats and every earlier layer are kept |
| Tutor.GrownTrans | poker_tutor.py:175 | two collections in a row leave the layers as one collection of the pot's whole growth would |
| Tutor.ActOnCollects | poker_tutor.py:267-273 | a call or a raise is one `collect_bet` of the chips it names |
| Tutor.GameState.constructor | poker_tutor.py:127-136 | the pot defaults to the bets placed and starts as one layer open to every seat |
| Tutor.GameState.PassTurn | poker_tutor.py:250 | the turn passes to the next seat, wrapping to seat 0; nothing else changes |
| Tutor.GameState.ActivePlayers | poker_tutor.py:200-201 | the active players are exactly the seats not folded with chips |
| Tutor.GameState.CollectBet | poker_tutor.py:167-175 | the seat, the pot and the current layer change as one collection: the current layer grows by exactly what the pot grows and no other layer changes; chips are conserved |
| Tutor.GameState.BuildSidePots | poker_tutor.py:177-195 | with nothing committed the layers stay, otherwise they become the reference side pots of the hand totals |
| Tutor.GameState.DealHoleCards | poker_tutor.py:140-143 | each seat takes the next two cards of the deck; the deck loses them; the seat after the dealer acts |
| Tutor.GameState.DealNextStreet | poker_tutor.py:145-163 | a burn card, the street's cards onto the board, the next street, every bet cleared and the seat after the dealer to act |
| Tutor.GameState.DealStreetCards | poker_tutor.py:147-160 | the burn and board draws of `deal_next_street` take consecutive slices of the deck |
| Tutor.GameState.ResetStreetBets | poker_tutor.py:161-162 | every seat's street bet is cleared |
| Tutor.DrawTwice | poker_tutor.py:147-149 | two draws in a row take consecutive slices of the deck |
| Tutor.BettingRound.constructor | poker_tutor.py:221-224 | the round holds its table and blinds |
| Tutor.BettingRound.PostBlinds | poker_tutor.py:228-234 | the blinds are collected from the next two seats; chips are conserved; the current layer grows by exactly the blinds and no other layer changes; the seat after the big blind acts and the big blind is the last aggressor |
| Tutor.BettingRound.Act | poker_tutor.py:255-274 | `_act` changes the seats as `ActOn` says; the pot and the current layer gain exactly what the actor put in and no other layer changes; a fold or another choice leaves the pot and the layers as they were; a raise makes the actor the last aggressor; chips are conserved |
| Tutor.BettingRound.CallOrRaise | poker_tutor.py:267-274 | a call or a raise changes the seats as `ActOn` says, grows the pot and the current layer by what the actor put in, and makes a raiser the last aggressor; chips are conserved |
| Tutor.BettingRound.FoldSeat | poker_tutor.py:264-266 | a fold sets only the actor's fold flag; no chip moves |
| Tutor.BettingRound.Step | poker_tutor.py:240-248 | an action changes the seats, the last aggressor, the pot and its layers as `Act` states, and the end test that follows is `RoundOver` of the seats it leaves |
| Tutor.BettingRound.EndCondition | poker_tutor.py:243-248 | the two end tests of `run` on the table give what `RoundOver` gives on its seats |
| Tutor.RoundOver | poker_tutor.py:243-248 | the round is over with one player left exactly when one seat is active, and with every bet matched exactly when more or fewer seats are active and all of them are on the highest bet; otherwise it goes on |
| Tutor.ActiveCount | poker_tutor.py:243-245 | `len(active_players)` is the number of active seats |
| Tutor.ActiveMatched | poker_tutor.py:246-248 | `all(p.bet == highest_bet for p in active)` holds exactly when every active seat is on the highest bet |
| Tutor.BettingRound.Run | poker_tutor.py:238-251 | `run` leaves the seats, the seat to act and the last aggressor that `RunFrom` computes from the table before, reports how it ended and how many decisions it took; chips are conserved; the current layer grows by exactly what the pot grows and no other layer changes |
| Tutor.BettingRound.Turn | poker_tutor.py:240-251 | one pass of the loop either ends the round where `RunFrom` ends it or leaves a table from which `RunFrom` reaches the same end |
| Tutor.BettingRound.ActTurn | poker_tutor.py:240-251 | a seat that can act takes the next decision, and the round ends or the turn passes on exactly as `RunFrom` says |
| Tutor.BettingRound.SkipSeat | poker_tutor.py:240-251 | a seat that has folded or has no chips is passed over without any other change |
| Tutor.RunFromEnds | poker_tutor.py:238-251 | a round ends with one player left or all bets matched only after an action and only then, with nobody able to act only when every seat is folded or out of chips, and out of decisions only with all of them used and a seat to act that can |
| Tutor.ShowdownPayout | poker_tutor.py:524-543 | the second `showdown` credits every seat exactly the payouts of the layers, each split among its strongest seats still in the hand |
| Tutor.PayLayer | poker_tutor.py:532-540 | one layer's deltas are as `Award` says |
| Tutor.GameState.CreditSeats | poker_tutor.py:542-543 | every seat's stack grows by its delta and nothing else about the seats changes |
| TutorProps.CollectedConserves | poker_tutor.py:167-175 | a collection keeps each seat's chips, behind and in front |
| TutorProps.FoldLeaves | poker_tutor.py:264-266 | a fold takes the seat out of the hand and changes no chip, bet or other seat |
| TutorProps.CallMatches | poker_tutor.py:267-269 | a call brings the caller to the highest bet, or as near as its stack allows and all in; the highest bet and the other seats stay |
| TutorProps.RaiseLeads | poker_tutor.py:270-274 | a covered raise puts the raiser ahead of every other seat by at least the big blind and the asked amount, holding the highest bet alone |
| TutorProps.RaiseShortAllIn | poker_tutor.py:270-274 | an uncovered raise puts the raiser all in; the highest bet becomes the raiser's bet only if it passed the old one |
| TutorProps.ActConserves | poker_tutor.py:264-274 | whatever the action, only the acting seat changes and its chips only move from stack to bet |
| TutorProps.BlindsPosted | poker_tutor.py:228-232 | with three or more seats, seats 1 and 2 post the blinds and nobody else pays |
| TutorProps.BlindsHeadsUp | poker_tutor.py:228-232 | heads up, seat 1 posts the small blind and the big blind wraps round to seat 0 |
| TutorProps.BlindsConserve | poker_tutor.py:228-232 | posting the blinds keeps every chip on the table |
| TutorProps.PairsTakeTop | poker_tutor.py:140-142 | the first `n` seats' pairs are the top `2n` cards in deal order |
| TutorProps.DealtTakesTop | poker_tutor.py:140-142 | with enough cards every seat gets two, the seats' cards end to end are the top of the deck, and nothing else changes |
| TutorProps.ResetBetsFacts | poker_tutor.py:160-162 | a new street clears every bet and keeps stacks, totals and who is in the hand |
| TutorProps.ShowdownConserves | poker_tutor.py:530-543 | the showdown adds exactly the chips of the contested layers to the stacks, and with every layer contested the whole of them |
| TutorProps.FoldedUnpaid | poker_tutor.py:527-533 | a folded seat is paid nothing, whatever its cards |
| TutorProps.AwardOne | poker_tutor.py:536-540 | a layer with a single winner goes to it whole |
| TutorProps.AwardTwo | poker_tutor.py:538-540 | with the correction, a layer split two ways gives the odd chip to the first winner |
| TutorProps.SoleBest | poker_tutor.py:536-537 | a contender strictly stronger than every other wins the layer alone |
| TutorProps.AllTie | poker_tutor.py:536-537 | contenders all of the same strength all win the layer |
| TutorProps.OddChipKept | poker_tutor.py:538-540 | with the correction, three chips between two equal hands pay 2 and 1, and none is lost |
| TutorProps.StrongestTakesLayer | poker_tutor.py:532-540 | a contender stronger than every other contender takes the whole layer |
| TutorProps.StrongestTakesAll | poker_tutor.py:532-540 | a seat that may win every layer and holds the strongest hand takes the chips of all the layers |
| TutorProps.StrongestPaidAll | poker_tutor.py:524-543 | at showdown, such a seat is paid every layer and no other seat anything |
| TutorProps.RiggedShowdown | tests/test_sidepots.py:26-42 | with stacks 2, 1 and 198 behind totals of 98, 199 and 202, and C's hand the strongest, C ends with 697 and A and B keep 2 and 1 |
| HandStrength.BaseDeck | hand_strength_simple.py:51 | the base deck holds exactly the standard cards that are not known, without repeats when the standard deck has none |
| HandStrength.PoppedSplit | hand_strength_simple.py:61-64 | the cards popped and the cards left make up the deck |
| HandStrength.BestScore | hand_strength_simple.py:67-68 | `max(opp_hands)` is at least every opponent's score and is some opponent's score |
| HandStrength.CompleteBoard | hand_strength_simple.py:60-62 | the board is completed to five cards by popping, failing exactly when the deck is too short |
| HandStrength.DealOpponents | hand_strength_simple.py:64 | two popped cards per opponent, failing exactly when the deck is too short |
| HandStrength.BestOf | hand_strength_simple.py:68 | the loop computes `max(opp_hands)` |
| HandStrength.PlayRound | hand_strength_simple.py:57-73 | one iteration's deal, scoring and verdict, as `Round` says |
| HandStrength.TallyNext | hand_strength_simple.py:70-73 | one more verdict adds a win or a tie, or ends the tally with its error |
| HandStrength.MonteCarloStrength | hand_strength_simple.py:46-75 | the procedure returns exactly `Strength` of its inputs |
| HandStrengthProps.FlattenPairs | hand_strength_simple.py:64 | the opponents' pairs end to end are the cards popped for them |
| HandStrengthProps.DealShape | hand_strength_simple.py:60-64 | the deal succeeds exactly when the deck holds the missing board cards and two per opponent; the board then extends the known cards to five and every opponent holds two |
| HandStrengthProps.DealDistinct | hand_strength_simple.py:51-64 | dealing from a deck disjoint from the hero's and known cards gives every card at most once, all from the deck |
| HandStrengthProps.IterationDeckDistinct | hand_strength_simple.py:51-58 | each iteration's shuffled deck is free of repeats and of the hero's and known cards |
| HandStrengthProps.DealtCardsDistinct | hand_strength_simple.py:51-64 | no card is dealt twice in any iteration |
| HandStrengthProps.VerdictMeaning | hand_strength_simple.py:68-73 | a win means beating every opponent; a tie means matching the best and beating or matching the rest; a loss means some opponent is better |
| HandStrengthProps.RoundFails | hand_strength_simple.py:60-68 | an iteration fails with `IndexError` exactly when the deck is short, and with `ValueError` exactly when there is no opponent |
| HandStrengthProps.TallyBound | hand_strength_simple.py:53-73 | the wins and ties together never exceed the iterations |
| HandStrengthProps.TallyCounts | hand_strength_simple.py:70-73 | without errors the tally counts exactly the wins and the ties |
| HandStrengthProps.TallyFails | hand_strength_simple.py:56-73 | every iteration's deck has the same size, so either the first iteration fails or none does for lack of cards or opponents |
| HandStrengthProps.AllRoundsPlay | hand_strength_simple.py:56-68 | with cards and opponents enough, every iteration yields a verdict |
| HandStrengthProps.StrengthMeaning | hand_strength_simple.py:46-75 | `ZeroDivisionError` with no iterations and 0 with a negative count; otherwise the `IndexError` or `ValueError` above, or wins plus half the ties over the iterations |
| HandStrengthProps.StrengthBounds | test_hand_strength_simple.py:8-10 | the estimate lies between 0 and 1 |
| HandStrengthProps.RateBounds | hand_strength_simple.py:75 | with at most one win or tie per iteration, the rate lies between 0 and 1 |

## Left out

- The user interface (ui_app.py, analysis_window.py, main.py), `print_table`, `prompt_action`, `bot_decide`, `Coach`, `RangeModel` and `MonteCarloSimulator`: these are I/O and advice, not the betting core. `_act`'s choice becomes a `Decision` parameter.
- The hand histories of engine.py (`_current_history`, the history records in `new_hand`, `player_action`, `_next_player` and `showdown`, and `save_histories`): bookkeeping and file output that no chip or card depends on.
- `PokerEngine.add_chips` (engine.py:413-415): a rebuy helper outside a hand's play; it is not modelled.
- `_card_to_tuple` (engine.py:366-386), pokerkit's `StandardHighHand` and treys: foreign code. Cards in the engine are already tuples, and hand strength is the `HandValue` parameter.
- Engine.PokerEngine.Showdown: the engine's `_tuple_to_str` strings are fed to the evaluator, which here takes the tuples directly.
- ai.py, texas_solver.py and config.py: outside the betting core.
- The seeding of `random.Random` and `RNG`: the draws are the `rolls` parameter, so every permutation is reachable and no particular generator is modelled.
- HandStrength.Rate: Python's float division is modelled as exact real division, without rounding.
- The summary print at the end of the second `showdown` (poker_tutor.py:545-551): display only. Its `max` raises `ValueError` when no seat still in the hand may win the main pot, and that is not modelled.
- The first `showdown` of poker_tutor.py (poker_tutor.py:444-481): it is replaced at import by the second definition, which is the one modelled.
- Tutor.BettingRound.Run: the Python loop never returns when nobody can act or the decisions run out. The model stops there and reports `NobodyCanAct` or `OutOfDecisions`, so non-termination is not modelled.
- Engine.PokerEngine.PlayerAction: it requires a live street (preflop to river). `player_action` never checks the stage. Before the first hand, or once a hand is complete, it still applies the action and moves the turn. If the table's round then looks complete, `_end_betting_round` clears the bets and reseats. Only when no seat can act afterwards does the `while stage != "river"` of engine.py:224-226 never end. None of these off-street calls is modelled; the game loop calls `player_action` only on a live street (main.py:354, main.py:376).
- Engine.PokerEngine.constructor: it requires 2 to 22 seats, so that every `deck.pop()` of a hand succeeds. The source does not check this.
- Tutor.GameState.constructor: it requires a deck. poker_tutor.py:127 defaults `deck` to `None`, and dealing from such a table then fails; that case is not modelled.
- SidePots.EngineLoopPeel: `remaining` is a Python set, so the order of `participants` in a layer follows set iteration. The model uses seat order, which makes the running best of engine.py pick winners in seat order too.
- TutorProps.RiggedShowdown: it states the ranking the test describes (C beats A and B). The test's evaluator as literally written (`cards in C.hole_cards` compares a list with cards) scores every hand alike, and that case is not modelled.
- EngineProps.RaiseNeverLowers: test_engine.py:91-99 expects the bet to match to stay at the big blind after a raise that the stack caps at 50 chips, and the round to close on the small blind's call. The model follows the code, which makes the bet 50 (EngineProps.PartialRaiseTest), so the test's rule is not modelled.
- Tutor.ActOn: its own contract only keeps the seat count; its meaning is stated by TutorProps.FoldLeaves, CallMatches, RaiseLeads, RaiseShortAllIn and ActConserves.
- EngineSpec.StandardDeck and EngineSpec.DealHole: their own contracts give only lengths; their contents are stated by EngineProps.StandardDeckDistinct, EngineSpec.DealHoleMultiset and EngineProps.NewHandCards.

## Findings

| source | as written | input that shows it | evidently intended | confidence | as-written member | corrected member |
|---|---|---|---|---|---|---|
| engine.py:69-74 | the blinds are taken in full from the stacks whatever they hold | a big blind of 2 on a 1-chip stack: the stack becomes -1 | each blind is clamped to the stack, as `collect_bet` clamps every bet (poker_tutor.py:169), with a stack emptied by its blind marked all in (engine.py:76-79) | not executed | EngineProps.BlindOverdrawsAsWritten | EngineProps.NewHandBlinds |
| engine.py:348 | `share = amount // len(winners)` is paid to every winner and the remainder is lost; poker_tutor.py:538 does the same | a layer of 3 chips tied between two seats pays 1 and 1 | the whole layer is paid; giving the odd chips to the first winner in seat order is this model's own convention | not executed | SidePots.SplitAsWrittenLoses | SidePots.SplitFacts |
| engine.py:181 | after a raise the bet to match becomes the raiser's contribution, even when the raiser went all in for less than a call | facing 20 with 15 chips and nothing in, `raise 10`: the bet to match falls from 20 to 15 | a short all-in raise never lowers the bet to match; this is the model's own reading of the name of the test at test_engine.py:89, whose assertions ask for a different rule (see below) | not executed | EngineProps.ShortAllInLowersAsWritten | EngineProps.RaiseNeverLowers |
| poker_fast_eval.py:85-103 | a wheel is scored `(5, [12, 3, 2, 1, 0])`, ace first, so it outranks every other straight | As 5h 4d 3c 2s scores above Ks Qh Jd Tc 9s | the wheel is the lowest straight (tests/test_poker_tutor.py:32-43) | not executed | HandEval.WheelBeatsKingHighAsWritten | HandEval.KingHighBeatsWheel |

The test at test_engine.py:89-99 seats three players with 50 chips and
blinds 1 and 2. Seat 0 then raises 100, which its stack caps at 50. The
test expects the bet to match to stay at 2, the turn to pass to the small
blind, and the small blind's call to close the preflop round. As written,
engine.py:181 makes the bet to match 50. The small blind's call then leaves
the big blind facing 48 more, so the round stays open. By this reading the
test cannot pass as the code is written. The test's rule would treat a
raise capped below the amount asked for as no raise at all. That rule is
not evidently what the authors intended for every stack, so it is not
modelled. `EngineProps.PartialRaiseTest` states the scenario: the code as
written and the modelled rule both make the bet 50, and the turn passes to
the small blind.
