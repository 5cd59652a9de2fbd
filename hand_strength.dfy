/** `monte_carlo_strength` of hand_strength_simple.py: the hero's chance of
    winning, estimated by dealing the unknown cards again and again from a
    shuffled copy of the deck without the known cards.

    The random generator is a parameter: `rolls[k]` is the stream of draws
    that the k-th `rng.shuffle` consumes (see Shuffle).  The hand comparison
    of `StandardHighHand` is a parameter too, a score per (hole cards,
    board) whose integer order is the order of the hands.  The Python
    errors the procedure can raise are values: an `IndexError` from `pop`
    on an empty deck, a `ValueError` from `max` with no opponent, and a
    `ZeroDivisionError` when there are no iterations. */
module HandStrength {
  import opened Common
  import Cards
  import Shuffle

  /** The score of a hand (hole cards, board); a higher score is a better hand. */
  type Evaluator = (seq<Cards.Card>, seq<Cards.Card>) -> int

  datatype Failure = EmptyDeck | NoOpponents | ZeroIterations

  /** How the hero's hand compares with the best opponent's. */
  datatype Verdict = Win | Tie | Loss

  /** The dealt board and the opponents' hole cards of one iteration. */
  datatype Deal = Deal(board: seq<Cards.Card>, opps: seq<seq<Cards.Card>>)

  /** The running `wins` and `ties`. */
  datatype Counts = Counts(wins: nat, ties: nat)

  // ---------------------------------------------------------------------
  // The deck
  // ---------------------------------------------------------------------

  /** `[card for card in STANDARD if card not in hero + board_known]`. */
  function BaseDeck(standard: seq<Cards.Card>, known: seq<Cards.Card>): (r: seq<Cards.Card>)
    ensures forall c :: c in r <==> c in standard && c !in known
    ensures NoDup(standard) ==> NoDup(r)
    ensures |r| <= |standard|
  {
    if standard == [] then []
    else
      var rest := BaseDeck(standard[1..], known);
      assert forall c :: c in standard[1..] ==> c in standard;
      if standard[0] in known then rest else [standard[0]] + rest
  }

  /** The deck of iteration `k`: the base deck shuffled with that
      iteration's draws (none when the stream has run out). */
  function DeckAt(base: seq<Cards.Card>, rolls: seq<seq<nat>>, k: nat): seq<Cards.Card>
  {
    Shuffle.Shuffled(base, if k < |rolls| then rolls[k] else [])
  }

  /** What `n` successive `deck.pop()` calls return: the last card first. */
  function Popped(deck: seq<Cards.Card>, n: nat): (r: seq<Cards.Card>)
    requires n <= |deck|
    ensures |r| == n
  {
    if n == 0 then [] else [deck[|deck| - 1]] + Popped(deck[..|deck| - 1], n - 1)
  }

  /** Popped cards and the cards left are the deck. */
  lemma {:induction false} PoppedSplit(deck: seq<Cards.Card>, n: nat)
    requires n <= |deck|
    ensures multiset(Popped(deck, n)) + multiset(deck[..|deck| - n]) == multiset(deck)
  {
    if n > 0 {
      var init := deck[..|deck| - 1];
      PoppedSplit(init, n - 1);
      assert Popped(deck, n) == [deck[|deck| - 1]] + Popped(init, n - 1);
      assert init[..|init| - (n - 1)] == deck[..|deck| - n];
      assert deck == init + [deck[|deck| - 1]];
      assert multiset(deck) == multiset(init) + multiset{deck[|deck| - 1]};
    } else {
      assert deck[..|deck|] == deck;
    }
  }

  /** One more pop: the card now at the end of what is left. */
  lemma {:induction false} PoppedStep(deck: seq<Cards.Card>, n: nat)
    requires n < |deck|
    ensures Popped(deck, n + 1) == Popped(deck, n) + [deck[|deck| - 1 - n]]
  {
    if n > 0 {
      PoppedStep(deck[..|deck| - 1], n - 1);
    }
  }

  // ---------------------------------------------------------------------
  // One iteration
  // ---------------------------------------------------------------------

  /** The board cards still to come: `while len(board) < 5`. */
  function Need(known: seq<Cards.Card>): nat
  {
    if |known| < 5 then 5 - |known| else 0
  }

  /** `[[deck.pop(), deck.pop()] for _ in range(m)]` on the popped cards
      `p`: opponent `j` takes cards `2j` and `2j + 1`. */
  function Pairs(p: seq<Cards.Card>, m: nat): (r: seq<seq<Cards.Card>>)
    requires 2 * m <= |p|
    ensures |r| == m
  {
    seq(m, j requires 0 <= j < m => p[2 * j..2 * j + 2])
  }

  /** The board completed from the top of the deck, then two cards to each
      opponent from what is left; the deck running out is an `IndexError`. */
  function DealOut(known: seq<Cards.Card>, numOpponents: int, deck: seq<Cards.Card>): Result<Deal, Failure>
  {
    var need, m := Need(known), Max(numOpponents, 0);
    if need + 2 * m > |deck| then Err(EmptyDeck)
    else
      var rest := deck[..|deck| - need];
      Ok(Deal(known + Popped(deck, need), Pairs(Popped(rest, 2 * m), m)))
  }

  /** `max(opp_hands)`, as a score. */
  function BestScore(opps: seq<seq<Cards.Card>>, board: seq<Cards.Card>,
                     eval: Evaluator): (r: int)
    requires |opps| > 0
    ensures forall j :: 0 <= j < |opps| ==> eval(opps[j], board) <= r
    ensures exists j :: 0 <= j < |opps| && eval(opps[j], board) == r
  {
    if |opps| == 1 then eval(opps[0], board)
    else
      var m := BestScore(opps[1..], board, eval);
      assert forall j :: 1 <= j < |opps| ==> opps[j] == opps[1..][j - 1];
      Max(eval(opps[0], board), m)
  }

  function Judge(hero: int, best: int): Verdict
  {
    if hero > best then Win else if hero == best then Tie else Loss
  }

  /** One iteration on its shuffled deck. */
  function Round(hero: seq<Cards.Card>, known: seq<Cards.Card>, numOpponents: int, deck: seq<Cards.Card>,
                 eval: Evaluator): Result<Verdict, Failure>
  {
    match DealOut(known, numOpponents, deck)
    case Err(e) => Err(e)
    case Ok(d) =>
      if d.opps == [] then Err(NoOpponents)
      else Ok(Judge(eval(hero, d.board), BestScore(d.opps, d.board, eval)))
  }

  /** `while len(board) < 5: board.append(deck.pop())`. */
  method CompleteBoard(known: seq<Cards.Card>, deck0: seq<Cards.Card>)
    returns (board: seq<Cards.Card>, deck: seq<Cards.Card>, short: bool)
    ensures short <==> Need(known) > |deck0|
    ensures !short ==> (board == known + Popped(deck0, Need(known)) &&
      deck == deck0[..|deck0| - Need(known)])
  {
    deck := deck0;
    board := known;
    while |board| < 5
      invariant |known| <= |board| <= Max(|known|, 5)
      invariant |board| - |known| <= |deck0| && deck == deck0[..|deck0| - (|board| - |known|)]
      invariant board == known + Popped(deck0, |board| - |known|)
    {
      if deck == [] {
        return board, deck, true;
      }
      PoppedStep(deck0, |board| - |known|);
      board := board + [deck[|deck| - 1]];
      deck := deck[..|deck| - 1];
    }
    short := false;
  }

  /** `[[deck.pop(), deck.pop()] for _ in range(num_opponents)]`. */
  method DealOpponents(numOpponents: int, deck0: seq<Cards.Card>)
    returns (opps: seq<seq<Cards.Card>>, short: bool)
    ensures short <==> 2 * Max(numOpponents, 0) > |deck0|
    ensures !short ==> opps == Pairs(Popped(deck0, 2 * Max(numOpponents, 0)), Max(numOpponents, 0))
  {
    var deck := deck0;
    opps := [];
    var j := 0;
    while j < numOpponents
      invariant 0 <= j <= Max(numOpponents, 0) && 2 * j <= |deck0| && deck == deck0[..|deck0| - 2 * j]
      invariant opps == Pairs(Popped(deck0, 2 * j), j)
    {
      if |deck| < 2 {
        return opps, true;
      }
      var first := deck[|deck| - 1];
      var second := deck[|deck| - 2];
      PairsStep(deck0, j);
      deck := deck[..|deck| - 2];
      opps := opps + [[first, second]];
      j := j + 1;
    }
    short := false;
  }

  /** Two more pops hand the next opponent the next two cards. */
  lemma PairsStep(deck0: seq<Cards.Card>, j: nat)
    requires 2 * j + 2 <= |deck0|
    ensures var n := |deck0| - 2 * j;
      Pairs(Popped(deck0, 2 * j + 2), j + 1) ==
        Pairs(Popped(deck0, 2 * j), j) + [[deck0[n - 1], deck0[n - 2]]]
  {
    var n := |deck0| - 2 * j;
    PoppedStep(deck0, 2 * j);
    PoppedStep(deck0, 2 * j + 1);
    var p, q := Popped(deck0, 2 * j), Popped(deck0, 2 * j + 2);
    assert q == p + [deck0[n - 1], deck0[n - 2]];
    var a, b := Pairs(p, j), Pairs(q, j + 1);
    forall i | 0 <= i < j
      ensures b[i] == a[i]
    {
      assert q[2 * i..2 * i + 2] == p[2 * i..2 * i + 2];
    }
    assert b[j] == [deck0[n - 1], deck0[n - 2]];
  }

  /** `max(opp_hands)`. */
  method BestOf(opps: seq<seq<Cards.Card>>, board: seq<Cards.Card>,
                eval: Evaluator)
    returns (best: int)
    requires |opps| > 0
    ensures best == BestScore(opps, board, eval)
  {
    best := eval(opps[0], board);
    var i := 1;
    while i < |opps|
      invariant 1 <= i <= |opps|
      invariant best == BestScore(opps[..i], board, eval)
    {
      BestScoreStep(opps, board, eval, i);
      best := Max(best, eval(opps[i], board));
      i := i + 1;
    }
    assert opps[..i] == opps;
  }

  /** The body of the `for` loop: complete the board by popping, pop two
      cards per opponent, score every hand, and compare the hero with the
      best opponent. */
  method PlayRound(hero: seq<Cards.Card>, known: seq<Cards.Card>, numOpponents: int, deck0: seq<Cards.Card>,
                   eval: Evaluator)
    returns (v: Result<Verdict, Failure>)
    ensures v == Round(hero, known, numOpponents, deck0, eval)
  {
    var board, deck, short := CompleteBoard(known, deck0);
    if short {
      return Err(EmptyDeck);
    }
    var opps, short2 := DealOpponents(numOpponents, deck);
    if short2 {
      return Err(EmptyDeck);
    }
    if opps == [] {
      return Err(NoOpponents);
    }
    var heroScore := eval(hero, board);
    var best := BestOf(opps, board, eval);
    v := Ok(Judge(heroScore, best));
  }

  lemma BestScoreStep(opps: seq<seq<Cards.Card>>, board: seq<Cards.Card>,
                      eval: Evaluator, i: nat)
    requires 1 <= i < |opps|
    ensures BestScore(opps[..i + 1], board, eval) == Max(BestScore(opps[..i], board, eval), eval(opps[i], board))
  {
    var a, b := opps[..i], opps[..i + 1];
    var m := BestScore(b, board, eval);
    var n := BestScore(a, board, eval);
    assert forall j :: 0 <= j < i ==> b[j] == a[j];
    assert b[i] == opps[i];
  }

  // ---------------------------------------------------------------------
  // The whole estimate
  // ---------------------------------------------------------------------

  /** The verdict of every one of the first `n` iterations, each dealt
      from its own shuffled copy of the base deck. */
  function Outcomes(base: seq<Cards.Card>, hero: seq<Cards.Card>, known: seq<Cards.Card>, numOpponents: int,
                    rolls: seq<seq<nat>>, eval: Evaluator, n: nat): (r: seq<Result<Verdict, Failure>>)
    ensures |r| == n
  {
    seq(n, k requires 0 <= k < n => Round(hero, known, numOpponents, DeckAt(base, rolls, k), eval))
  }

  /** One more iteration appends its verdict. */
  lemma OutcomesStep(base: seq<Cards.Card>, hero: seq<Cards.Card>, known: seq<Cards.Card>, numOpponents: int,
                     rolls: seq<seq<nat>>, eval: Evaluator, n: nat)
    ensures Outcomes(base, hero, known, numOpponents, rolls, eval, n + 1) ==
      Outcomes(base, hero, known, numOpponents, rolls, eval, n) +
      [Round(hero, known, numOpponents, DeckAt(base, rolls, n), eval)]
  {
  }

  /** The first `k` of `n` verdicts are the verdicts of `k` iterations. */
  lemma OutcomesPrefix(base: seq<Cards.Card>, hero: seq<Cards.Card>, known: seq<Cards.Card>, numOpponents: int,
                       rolls: seq<seq<nat>>, eval: Evaluator, k: nat, n: nat)
    requires k <= n
    ensures Outcomes(base, hero, known, numOpponents, rolls, eval, n)[..k] ==
      Outcomes(base, hero, known, numOpponents, rolls, eval, k)
  {
  }

  /** `wins` and `ties` after going through the verdicts in order, or the
      first error, which ends the loop. */
  function Tally(outs: seq<Result<Verdict, Failure>>): Result<Counts, Failure>
  {
    if outs == [] then Ok(Counts(0, 0))
    else
      match Tally(outs[..|outs| - 1])
      case Err(e) => Err(e)
      case Ok(c) =>
        match outs[|outs| - 1]
        case Err(e) => Err(e)
        case Ok(v) => Ok(Counted(c, v))
  }

  /** `wins += 1` on a win, `ties += 1` on a tie. */
  function Counted(c: Counts, v: Verdict): (r: Counts)
    ensures r.wins + r.ties <= c.wins + c.ties + 1
  {
    match v
    case Win => Counts(c.wins + 1, c.ties)
    case Tie => Counts(c.wins, c.ties + 1)
    case Loss => c
  }

  /** One more verdict is counted, or stops the tally with its error. */
  lemma TallyNext(outs: seq<Result<Verdict, Failure>>, c: Counts, v: Result<Verdict, Failure>)
    requires Tally(outs) == Ok(c)
    ensures Tally(outs + [v]) == if v.Ok? then Ok(Counted(c, v.value)) else Err(v.error)
  {
    assert (outs + [v])[..|outs|] == outs;
  }

  /** Once a prefix of the verdicts fails, the whole tally reports its error. */
  lemma {:induction false} TallyStops(outs: seq<Result<Verdict, Failure>>, k: nat)
    requires k <= |outs| && Tally(outs[..k]).Err?
    ensures Tally(outs) == Tally(outs[..k])
    decreases |outs| - k
  {
    if k < |outs| {
      var longer := outs[..k + 1];
      assert longer[..k] == outs[..k];
      assert Tally(longer) == Tally(outs[..k]);
      TallyStops(outs, k + 1);
    } else {
      assert outs[..k] == outs;
    }
  }

  /** `(wins + 0.5 * ties) / iterations`: the share of iterations won, a
      tie counting half. */
  function Rate(wins: nat, ties: nat, iterations: nat): real
    requires iterations > 0
  {
    (wins as real + 0.5 * ties as real) / iterations as real
  }

  /** The estimate after `iterations` iterations, or the error. */
  function Strength(standard: seq<Cards.Card>, hero: seq<Cards.Card>, known: seq<Cards.Card>, numOpponents: int,
                    iterations: int, rolls: seq<seq<nat>>, eval: Evaluator)
    : Result<real, Failure>
  {
    if iterations == 0 then Err(ZeroIterations)
    else if iterations < 0 then Ok(0.0)
    else
      match Tally(Outcomes(BaseDeck(standard, hero + known), hero, known, numOpponents, rolls, eval, iterations))
      case Err(e) => Err(e)
      case Ok(c) => Ok(Rate(c.wins, c.ties, iterations))
  }

  /** `monte_carlo_strength`: build the base deck, run the iterations on
      shuffled copies counting wins and ties, and return the win rate with
      ties counted as half. */
  method MonteCarloStrength(standard: seq<Cards.Card>, hero: seq<Cards.Card>, known: seq<Cards.Card>,
                            numOpponents: int, iterations: int, rolls: seq<seq<nat>>,
                            eval: Evaluator)
    returns (r: Result<real, Failure>)
    ensures r == Strength(standard, hero, known, numOpponents, iterations, rolls, eval)
  {
    var base := BaseDeck(standard, hero + known);
    var wins, ties := 0, 0;
    var k := 0;
    while k < iterations
      invariant 0 <= k && (iterations >= 0 ==> k <= iterations)
      invariant Tally(Outcomes(base, hero, known, numOpponents, rolls, eval, k)) == Ok(Counts(wins, ties))
    {
      var deck := Shuffle.Shuffle(base, if k < |rolls| then rolls[k] else []);
      assert deck == DeckAt(base, rolls, k);
      var v := PlayRound(hero, known, numOpponents, deck, eval);
      OutcomesStep(base, hero, known, numOpponents, rolls, eval, k);
      TallyNext(Outcomes(base, hero, known, numOpponents, rolls, eval, k), Counts(wins, ties), v);
      if v.Err? {
        OutcomesPrefix(base, hero, known, numOpponents, rolls, eval, k + 1, iterations);
        TallyStops(Outcomes(base, hero, known, numOpponents, rolls, eval, iterations), k + 1);
        return Err(v.error);
      }
      var c := Counted(Counts(wins, ties), v.value);
      wins, ties := c.wins, c.ties;
      k := k + 1;
    }
    if iterations == 0 {
      return Err(ZeroIterations);
    }
    if iterations < 0 {
      return Ok(0.0);
    }
    r := Ok(Rate(wins, ties, iterations));
  }
}
