/** What `monte_carlo_strength` promises: the cards of one iteration are
    distinct and come from the deck, the verdict compares the hero with
    every opponent, the errors depend only on how many cards are left and
    how many opponents there are, and the estimate is the share of
    iterations won, ties counting half, so it lies between 0 and 1. */
module HandStrengthProps {
  import opened Common
  import Cards
  import Shuffle
  import opened HandStrength

  // ---------------------------------------------------------------------
  // Dealing one iteration
  // ---------------------------------------------------------------------

  /** The opponents' pairs, laid end to end, are the cards popped for them. */
  lemma {:induction false} FlattenPairs(p: seq<Cards.Card>, m: nat)
    requires 2 * m <= |p|
    ensures Flatten(Pairs(p, m)) == p[..2 * m]
  {
    if m > 0 {
      FlattenPairs(p, m - 1);
      assert Pairs(p, m) == Pairs(p, m - 1) + [p[2 * m - 2..2 * m]];
      FlattenAppend(Pairs(p, m - 1), p[2 * m - 2..2 * m]);
      assert p[..2 * m - 2] + p[2 * m - 2..2 * m] == p[..2 * m];
    }
  }

  /** The deal succeeds exactly when the deck holds the missing board cards
      and two cards per opponent; then the board extends the known cards to
      five (or keeps them all when there are more) and every opponent holds
      two cards. */
  lemma DealShape(known: seq<Cards.Card>, numOpponents: int, deck: seq<Cards.Card>)
    ensures DealOut(known, numOpponents, deck).Ok? <==> Need(known) + 2 * Max(numOpponents, 0) <= |deck|
    ensures DealOut(known, numOpponents, deck).Ok? ==>
      (DealOut(known, numOpponents, deck).value.board[..|known|] == known &&
       |DealOut(known, numOpponents, deck).value.board| == Max(|known|, 5) &&
       |DealOut(known, numOpponents, deck).value.opps| == Max(numOpponents, 0) &&
       forall j :: 0 <= j < |DealOut(known, numOpponents, deck).value.opps| ==>
         |DealOut(known, numOpponents, deck).value.opps[j]| == 2)
  {
  }

  /** Dealing from a deck that shares no card with the hero's and the known
      cards gives every card at most once, and only cards of the deck are
      added. */
  lemma DealDistinct(hero: seq<Cards.Card>, known: seq<Cards.Card>, numOpponents: int, deck: seq<Cards.Card>)
    requires NoDup(hero + known + deck)
    requires DealOut(known, numOpponents, deck).Ok?
    ensures NoDup(hero + DealOut(known, numOpponents, deck).value.board +
                  Flatten(DealOut(known, numOpponents, deck).value.opps))
    ensures multiset(DealOut(known, numOpponents, deck).value.board +
                     Flatten(DealOut(known, numOpponents, deck).value.opps)) <= multiset(known + deck)
  {
    var need, m := Need(known), Max(numOpponents, 0);
    var rest := deck[..|deck| - need];
    var p1 := Popped(deck, need);
    var p2 := Popped(rest, 2 * m);
    var d := DealOut(known, numOpponents, deck).value;
    assert d.board + Flatten(d.opps) == known + (p1 + p2) by {
      assert d.board == known + p1 && d.opps == Pairs(p2, m);
      FlattenPairs(p2, m);
      assert p2[..2 * m] == p2;
    }
    assert multiset(p1 + p2) <= multiset(deck) by {
      PoppedSplit(deck, need);
      PoppedSplit(rest, 2 * m);
    }
    AppendAssoc(hero, d.board, Flatten(d.opps));
    AppendAssoc(hero, known, p1 + p2);
    SubNoDup(hero + known + (p1 + p2), hero + known + deck);
  }

  /** Every iteration's shuffled deck is free of repeats and of the hero's
      and the known cards, when the standard deck and the known cards are. */
  lemma IterationDeckDistinct(standard: seq<Cards.Card>, hero: seq<Cards.Card>, known: seq<Cards.Card>,
                              rolls: seq<seq<nat>>, k: nat)
    requires NoDup(standard) && NoDup(hero + known)
    ensures NoDup(hero + known + DeckAt(BaseDeck(standard, hero + known), rolls, k))
  {
    var base := BaseDeck(standard, hero + known);
    var deck := DeckAt(base, rolls, k);
    Shuffle.ShuffledPermutes(base, if k < |rolls| then rolls[k] else []);
    PermutationNoDup(base, deck);
    forall x | x in hero + known
      ensures x !in deck
    {
      assert x !in multiset(base);
    }
    NoDupConcat(hero + known, deck);
  }

  /** No card is dealt twice in any iteration. */
  lemma DealtCardsDistinct(standard: seq<Cards.Card>, hero: seq<Cards.Card>, known: seq<Cards.Card>,
                           numOpponents: int, rolls: seq<seq<nat>>, k: nat)
    requires NoDup(standard) && NoDup(hero + known)
    requires DealOut(known, numOpponents, DeckAt(BaseDeck(standard, hero + known), rolls, k)).Ok?
    ensures var d := DealOut(known, numOpponents, DeckAt(BaseDeck(standard, hero + known), rolls, k)).value;
      NoDup(hero + d.board + Flatten(d.opps))
  {
    IterationDeckDistinct(standard, hero, known, rolls, k);
    DealDistinct(hero, known, numOpponents, DeckAt(BaseDeck(standard, hero + known), rolls, k));
  }

  // ---------------------------------------------------------------------
  // The verdict of one iteration
  // ---------------------------------------------------------------------

  /** The hero wins when it beats every opponent, ties when it is at least
      as good as all and as good as one, and loses when some opponent beats
      it. */
  lemma VerdictMeaning(hero: seq<Cards.Card>, opps: seq<seq<Cards.Card>>, board: seq<Cards.Card>, eval: Evaluator)
    requires |opps| > 0
    ensures Judge(eval(hero, board), BestScore(opps, board, eval)) == Win <==>
      forall j :: 0 <= j < |opps| ==> eval(opps[j], board) < eval(hero, board)
    ensures Judge(eval(hero, board), BestScore(opps, board, eval)) == Tie <==>
      (forall j :: 0 <= j < |opps| ==> eval(opps[j], board) <= eval(hero, board)) &&
      exists j :: 0 <= j < |opps| && eval(opps[j], board) == eval(hero, board)
    ensures Judge(eval(hero, board), BestScore(opps, board, eval)) == Loss <==>
      exists j :: 0 <= j < |opps| && eval(opps[j], board) > eval(hero, board)
  {
  }

  /** An iteration fails with `IndexError` exactly when the deck is too
      short, and with `ValueError` exactly when it is long enough but there
      is no opponent. */
  lemma RoundFails(hero: seq<Cards.Card>, known: seq<Cards.Card>, numOpponents: int, deck: seq<Cards.Card>,
                   eval: Evaluator)
    ensures Round(hero, known, numOpponents, deck, eval) == Err(EmptyDeck) <==>
      Need(known) + 2 * Max(numOpponents, 0) > |deck|
    ensures Round(hero, known, numOpponents, deck, eval) == Err(NoOpponents) <==>
      Need(known) + 2 * Max(numOpponents, 0) <= |deck| && numOpponents <= 0
    ensures Round(hero, known, numOpponents, deck, eval).Err? <==>
      Need(known) + 2 * Max(numOpponents, 0) > |deck| || numOpponents <= 0
  {
  }

  // ---------------------------------------------------------------------
  // The estimate
  // ---------------------------------------------------------------------

  /** Each verdict adds at most one win or tie. */
  lemma {:induction false} TallyBound(outs: seq<Result<Verdict, Failure>>)
    ensures Tally(outs).Ok? ==> Tally(outs).value.wins + Tally(outs).value.ties <= |outs|
  {
    if outs != [] {
      TallyBound(outs[..|outs| - 1]);
    }
  }

  /** When no verdict is an error, the tally counts the wins and the ties
      among them. */
  lemma {:induction false} TallyCounts(outs: seq<Result<Verdict, Failure>>)
    requires forall k :: 0 <= k < |outs| ==> outs[k].Ok?
    ensures Tally(outs) == Ok(Counts(multiset(outs)[Ok(Win)], multiset(outs)[Ok(Tie)]))
  {
    if outs != [] {
      var init := outs[..|outs| - 1];
      TallyCounts(init);
      assert outs == init + [outs[|outs| - 1]];
      assert multiset(outs) == multiset(init) + multiset{outs[|outs| - 1]};
    }
  }

  /** Every shuffled deck has the base deck's size, so the first iteration
      already fails when any does, and its error is the result. */
  lemma TallyFails(base: seq<Cards.Card>, hero: seq<Cards.Card>, known: seq<Cards.Card>,
                   numOpponents: int, rolls: seq<seq<nat>>, eval: Evaluator, n: nat)
    requires n > 0
    ensures Need(known) + 2 * Max(numOpponents, 0) > |base| ==>
      Tally(Outcomes(base, hero, known, numOpponents, rolls, eval, n)) == Err(EmptyDeck)
    ensures Need(known) + 2 * Max(numOpponents, 0) <= |base| && numOpponents <= 0 ==>
      Tally(Outcomes(base, hero, known, numOpponents, rolls, eval, n)) == Err(NoOpponents)
  {
    var outs := Outcomes(base, hero, known, numOpponents, rolls, eval, n);
    var deck := DeckAt(base, rolls, 0);
    RoundFails(hero, known, numOpponents, deck, eval);
    assert outs[..1] == [Round(hero, known, numOpponents, deck, eval)];
    assert outs[..1][..0] == [];
    if Need(known) + 2 * Max(numOpponents, 0) > |base| || numOpponents <= 0 {
      TallyStops(outs, 1);
    }
  }

  /** Whether every iteration can be played: the deck completes the board
      and deals each opponent, and there is an opponent. */
  lemma AllRoundsPlay(base: seq<Cards.Card>, hero: seq<Cards.Card>, known: seq<Cards.Card>,
                      numOpponents: int, rolls: seq<seq<nat>>, eval: Evaluator, n: nat)
    requires Need(known) + 2 * Max(numOpponents, 0) <= |base| && numOpponents > 0
    ensures forall k :: 0 <= k < n ==> Outcomes(base, hero, known, numOpponents, rolls, eval, n)[k].Ok?
  {
    forall k | 0 <= k < n
      ensures Outcomes(base, hero, known, numOpponents, rolls, eval, n)[k].Ok?
    {
      RoundFails(hero, known, numOpponents, DeckAt(base, rolls, k), eval);
    }
  }

  /** `monte_carlo_strength`: with no iterations `ZeroDivisionError`, with
      a negative count (an empty `range`) 0; otherwise `IndexError` when the
      deck cannot complete the board and deal every opponent, `ValueError`
      when there is no opponent, and else the number of iterations won plus
      half the number tied, over the iterations. */
  lemma StrengthMeaning(standard: seq<Cards.Card>, hero: seq<Cards.Card>, known: seq<Cards.Card>,
                        numOpponents: int, iterations: int, rolls: seq<seq<nat>>, eval: Evaluator)
    ensures iterations == 0 ==> Strength(standard, hero, known, numOpponents, iterations, rolls, eval) == Err(ZeroIterations)
    ensures iterations < 0 ==> Strength(standard, hero, known, numOpponents, iterations, rolls, eval) == Ok(0.0)
    ensures iterations > 0 ==>
      (Strength(standard, hero, known, numOpponents, iterations, rolls, eval) ==
        if Need(known) + 2 * Max(numOpponents, 0) > |BaseDeck(standard, hero + known)| then Err(EmptyDeck)
        else if numOpponents <= 0 then Err(NoOpponents)
        else Ok(Rate(multiset(Outcomes(BaseDeck(standard, hero + known), hero, known, numOpponents, rolls, eval,
                                       iterations))[Ok(Win)],
                     multiset(Outcomes(BaseDeck(standard, hero + known), hero, known, numOpponents, rolls, eval,
                                       iterations))[Ok(Tie)],
                     iterations)))
  {
    if iterations > 0 {
      var base := BaseDeck(standard, hero + known);
      var outs := Outcomes(base, hero, known, numOpponents, rolls, eval, iterations);
      TallyFails(base, hero, known, numOpponents, rolls, eval, iterations);
      if Need(known) + 2 * Max(numOpponents, 0) > |base| {
        assert Strength(standard, hero, known, numOpponents, iterations, rolls, eval) == Err(EmptyDeck);
      } else if numOpponents <= 0 {
        assert Strength(standard, hero, known, numOpponents, iterations, rolls, eval) == Err(NoOpponents);
      } else {
        AllRoundsPlay(base, hero, known, numOpponents, rolls, eval, iterations);
        TallyCounts(outs);
        var wins, ties := multiset(outs)[Ok(Win)], multiset(outs)[Ok(Tie)];
        assert Strength(standard, hero, known, numOpponents, iterations, rolls, eval) == Ok(Rate(wins, ties, iterations));
      }
    }
  }

  /** The estimate is a probability. */
  lemma StrengthBounds(standard: seq<Cards.Card>, hero: seq<Cards.Card>, known: seq<Cards.Card>,
                       numOpponents: int, iterations: int, rolls: seq<seq<nat>>, eval: Evaluator)
    requires Strength(standard, hero, known, numOpponents, iterations, rolls, eval).Ok?
    ensures 0.0 <= Strength(standard, hero, known, numOpponents, iterations, rolls, eval).value <= 1.0
  {
    if iterations > 0 {
      var outs := Outcomes(BaseDeck(standard, hero + known), hero, known, numOpponents, rolls, eval, iterations);
      TallyBound(outs);
      var c := Tally(outs).value;
      assert Strength(standard, hero, known, numOpponents, iterations, rolls, eval) == Ok(Rate(c.wins, c.ties, iterations));
      RateBounds(c.wins, c.ties, iterations);
    }
  }

  /** At most one win or tie per iteration makes the rate a probability. */
  lemma RateBounds(wins: nat, ties: nat, iterations: nat)
    requires iterations > 0 && wins + ties <= iterations
    ensures 0.0 <= Rate(wins, ties, iterations) <= 1.0
  {
    var x, n := wins as real + 0.5 * ties as real, iterations as real;
    assert x / n * n == x;
  }
}
