/** What the table functions of Tutor promise: a fold leaves the hand and
    nothing else, a call reaches the highest bet or puts the caller all in,
    a full raise takes the lead alone, every action and the blinds keep the
    chips on the table, the deal hands out the top of the deck in order,
    and the showdown pays exactly the contested layers, never to a seat
    that folded. */
module TutorProps {
  import opened Common
  import opened Tutor
  import SidePots
  import Cards

  // ---------------------------------------------------------------------
  // Helpers
  // ---------------------------------------------------------------------

  /** A bound that some element reaches is the maximum. */
  lemma MaxOfIs(s: seq<int>, m: int, at: nat)
    requires |s| > 0 && at < |s| && s[at] == m
    requires forall i :: 0 <= i < |s| ==> s[i] <= m
    ensures MaxOf(s) == m
  {
  }

  /** The bets after seat `k` is replaced. */
  lemma BetsAt(v: seq<SeatView>, k: nat, x: SeatView)
    requires k < |v|
    ensures Bets(v[k := x]) == Bets(v)[k := x.bet]
    ensures BetTotals(v[k := x]) == BetTotals(v)[k := x.betTotal]
  {
  }

  /** The chips a seat holds, behind and in front, and what it put in on
      earlier streets, over a whole table. */
  ghost predicate SameChips(w: seq<SeatView>, v: seq<SeatView>)
  {
    StackSum(w) + Sum(Bets(w)) == StackSum(v) + Sum(Bets(v)) &&
    Sum(BetTotals(w)) - Sum(Bets(w)) == Sum(BetTotals(v)) - Sum(Bets(v))
  }

  /** Collecting from one seat moves chips from its stack into its bet. */
  lemma CollectedConserves(v: seq<SeatView>, k: nat, chips: int)
    requires k < |v|
    ensures SameChips(v[k := Collected(v[k], chips)], v)
  {
    var x := Collected(v[k], chips);
    StackSumUpdate(v, k, x);
    BetsAt(v, k, x);
    SumUpdate(Bets(v), k, x.bet);
    SumUpdate(BetTotals(v), k, x.betTotal);
  }

  // ---------------------------------------------------------------------
  // `_act`
  // ---------------------------------------------------------------------

  /** A fold takes the seat out of the hand and changes nothing else: not
      its chips, not its bet, not the highest bet. */
  lemma FoldLeaves(v: seq<SeatView>, t: nat, amt: int, bb: int)
    requires t < |v|
    ensures var r := ActOn(v, t, Fold, amt, bb);
      InHand(r) == InHand(v) - {t} && Bets(r) == Bets(v) && Highest(r) == Highest(v) &&
      StackSum(r) == StackSum(v) && BetTotals(r) == BetTotals(v) &&
      forall i :: 0 <= i < |v| && i != t ==> r[i] == v[i]
  {
    var r := ActOn(v, t, Fold, amt, bb);
    StackSumUpdate(v, t, r[t]);
    BetsAt(v, t, r[t]);
    assert Bets(v)[t := v[t].bet] == Bets(v);
    assert BetTotals(v)[t := v[t].betTotal] == BetTotals(v);
  }

  /** A call brings the caller's bet up to the highest bet, or as near as
      its stack allows, all in; the highest bet stays where it was and no
      other seat changes. */
  lemma CallMatches(v: seq<SeatView>, t: nat, amt: int, bb: int)
    requires t < |v| && 0 <= v[t].stack
    ensures var r := ActOn(v, t, Call, amt, bb);
      r[t].bet == Min(Highest(v), v[t].bet + v[t].stack) &&
      r[t].stack == v[t].stack - (r[t].bet - v[t].bet) &&
      (r[t].bet == Highest(v) || r[t].stack == 0) &&
      Highest(r) == Highest(v) && InHand(r) == InHand(v) &&
      forall i :: 0 <= i < |v| && i != t ==> r[i] == v[i]
  {
    var r := ActOn(v, t, Call, amt, bb);
    var h := Highest(v);
    assert Bets(v)[t] <= h;
    BetsAt(v, t, r[t]);
    var at :| 0 <= at < |v| && Bets(v)[at] == h;
    if at == t {
      assert r[t].bet == h;
    }
    MaxOfIs(Bets(r), h, at);
  }

  /** A raise the stack can cover puts the raiser ahead of every other
      seat by at least the big blind and by at least the asked amount:
      the raiser's bet becomes the highest, held alone. */
  lemma RaiseLeads(v: seq<SeatView>, t: nat, amt: int, bb: int)
    requires t < |v| && 0 < bb
    requires RaiseTotal(Highest(v), v[t].bet, amt, bb) <= v[t].stack
    ensures var r := ActOn(v, t, Raise, amt, bb);
      r[t].bet >= Highest(v) + bb && r[t].bet >= Highest(v) + amt &&
      r[t].bet >= 3 * Highest(v) - v[t].bet &&
      Highest(r) == r[t].bet && InHand(r) == InHand(v) &&
      forall i :: 0 <= i < |v| && i != t ==> r[i] == v[i] && r[i].bet < r[t].bet
  {
    var r := ActOn(v, t, Raise, amt, bb);
    var h := Highest(v);
    assert forall i :: 0 <= i < |v| ==> Bets(v)[i] <= h;
    BetsAt(v, t, r[t]);
    MaxOfIs(Bets(r), r[t].bet, t);
  }

  /** A raise the stack cannot cover puts the raiser all in; the highest
      bet becomes the raiser's bet only if it got past the old one. */
  lemma RaiseShortAllIn(v: seq<SeatView>, t: nat, amt: int, bb: int)
    requires t < |v| && 0 <= v[t].stack
    requires v[t].stack < RaiseTotal(Highest(v), v[t].bet, amt, bb)
    ensures var r := ActOn(v, t, Raise, amt, bb);
      r[t].stack == 0 && r[t].bet == v[t].bet + v[t].stack &&
      Highest(r) == Max(Highest(v), r[t].bet) &&
      forall i :: 0 <= i < |v| && i != t ==> r[i] == v[i]
  {
    var r := ActOn(v, t, Raise, amt, bb);
    var h := Highest(v);
    BetsAt(v, t, r[t]);
    if r[t].bet >= h {
      MaxOfIs(Bets(r), r[t].bet, t);
    } else {
      var at :| 0 <= at < |v| && Bets(v)[at] == h;
      assert at != t;
      MaxOfIs(Bets(r), h, at);
    }
  }

  /** Whatever the action, only the acting seat changes and its chips
      only move from its stack into its bet. */
  lemma ActConserves(v: seq<SeatView>, t: nat, action: Action, amt: int, bb: int)
    requires t < |v|
    ensures var r := ActOn(v, t, action, amt, bb);
      SameChips(r, v) && forall i :: 0 <= i < |v| && i != t ==> r[i] == v[i]
  {
    match action
    case Fold => FoldLeaves(v, t, amt, bb);
    case Call => CollectedConserves(v, t, Highest(v) - v[t].bet);
    case Raise => CollectedConserves(v, t, RaiseTotal(Highest(v), v[t].bet, amt, bb));
    case Other(_) =>
  }

  // ---------------------------------------------------------------------
  // `post_blinds`
  // ---------------------------------------------------------------------

  /** With three seats or more, seat 1 posts the small blind and seat 2
      the big blind, each short stack going all in; the dealer and every
      other seat post nothing. */
  lemma BlindsPosted(v: seq<SeatView>, sb: int, bb: int)
    requires |v| >= 3
    ensures var r := Blinds(v, sb, bb);
      r[1] == Collected(v[1], sb) && r[2] == Collected(v[2], bb) &&
      forall i :: 0 <= i < |v| && i != 1 && i != 2 ==> r[i] == v[i]
  {
  }

  /** Heads up the small blind is seat 1 and the big blind wraps round to
      the dealer, seat 0. */
  lemma BlindsHeadsUp(v: seq<SeatView>, sb: int, bb: int)
    requires |v| == 2
    ensures Blinds(v, sb, bb) == [Collected(v[0], bb), Collected(v[1], sb)]
  {
  }

  /** Posting the blinds keeps every chip on the table. */
  lemma BlindsConserve(v: seq<SeatView>, sb: int, bb: int)
    requires |v| > 0
    ensures SameChips(Blinds(v, sb, bb), v)
  {
    var s, b := 1 % |v|, 2 % |v|;
    var v1 := v[s := Collected(v[s], sb)];
    CollectedConserves(v, s, sb);
    CollectedConserves(v1, b, bb);
  }

  // ---------------------------------------------------------------------
  // `deal_hole_cards` and the street reset
  // ---------------------------------------------------------------------

  function HoleCardsOf(v: seq<SeatView>): (r: seq<seq<Cards.Card>>)
    ensures |r| == |v| && forall i :: 0 <= i < |v| ==> r[i] == v[i].holeCards
  {
    seq(|v|, i requires 0 <= i < |v| => v[i].holeCards)
  }

  /** The first `n` seats' pairs are the top `2n` cards, in deal order. */
  lemma {:induction false} PairsTakeTop(cards: seq<Cards.Card>, n: nat)
    requires 2 * n <= |cards|
    ensures Flatten(seq(n, i requires 0 <= i < n => Pair(cards, i))) == cards[..2 * n]
  {
    var ps := seq(n, i requires 0 <= i < n => Pair(cards, i));
    if n == 0 {
      assert ps == [];
    } else {
      var qs := seq(n - 1, i requires 0 <= i < n - 1 => Pair(cards, i));
      assert ps == qs + [Pair(cards, n - 1)];
      FlattenAppend(qs, Pair(cards, n - 1));
      PairsTakeTop(cards, n - 1);
      assert cards[..2 * n] == cards[..2 * (n - 1)] + cards[2 * (n - 1)..2 * n];
    }
  }

  /** With enough cards every seat gets two, the seats' cards laid end to
      end are the top of the deck in deal order, and nothing but the hole
      cards changes. */
  lemma DealtTakesTop(v: seq<SeatView>, cards: seq<Cards.Card>)
    requires 2 * |v| <= |cards|
    ensures var r := Dealt(v, cards);
      Flatten(HoleCardsOf(r)) == cards[..2 * |v|] &&
      (forall i :: 0 <= i < |v| ==> |r[i].holeCards| == 2 && r[i] == v[i].(holeCards := r[i].holeCards))
  {
    var r := Dealt(v, cards);
    assert HoleCardsOf(r) == seq(|v|, i requires 0 <= i < |v| => Pair(cards, i));
    PairsTakeTop(cards, |v|);
  }

  lemma {:induction false} StackSumReset(v: seq<SeatView>)
    ensures StackSum(ResetBets(v)) == StackSum(v)
  {
    if v != [] {
      assert ResetBets(v)[1..] == ResetBets(v[1..]);
      StackSumReset(v[1..]);
    }
  }

  /** A new street clears every bet and leaves the stacks, the hand
      totals and who is in the hand as they were. */
  lemma ResetBetsFacts(v: seq<SeatView>)
    ensures var r := ResetBets(v);
      Sum(Bets(r)) == 0 && StackSum(r) == StackSum(v) &&
      BetTotals(r) == BetTotals(v) && InHand(r) == InHand(v)
  {
    assert Bets(ResetBets(v)) == Zeros(|v|);
    SumZeros(|v|);
    StackSumReset(v);
  }

  // ---------------------------------------------------------------------
  // The second `showdown`
  // ---------------------------------------------------------------------

  lemma {:induction false} StackSumCredited(v: seq<SeatView>, d: seq<int>)
    requires |d| == |v|
    ensures StackSum(Credited(v, d)) == StackSum(v) + Sum(d)
  {
    if v != [] {
      assert Credited(v, d)[1..] == Credited(v[1..], d[1..]);
      StackSumCredited(v[1..], d[1..]);
    }
  }

  /** The showdown adds to the stacks exactly the chips of the layers some
      seat still in the hand may win; with every layer contested, the
      whole of the layers. */
  lemma ShowdownConserves(v: seq<SeatView>, pots: seq<SidePots.Layer>, board: seq<Cards.Card>,
                          eval: seq<Cards.Card> -> int)
    ensures StackSum(Credited(v, Payouts(v, pots, board, eval))) ==
      StackSum(v) + SidePots.Claimed(pots, InHand(v), |v|)
    ensures (forall k :: 0 <= k < |pots| ==> SidePots.Contending(pots[k], InHand(v), |v|) != []) ==>
      StackSum(Credited(v, Payouts(v, pots, board, eval))) == StackSum(v) + SidePots.SumAmounts(pots)
  {
    var strength := Strengths(v, board, eval);
    SidePots.SettleSum(Zeros(|v|), pots, InHand(v), strength);
    SumZeros(|v|);
    StackSumCredited(v, Payouts(v, pots, board, eval));
    if forall k :: 0 <= k < |pots| ==> SidePots.Contending(pots[k], InHand(v), |v|) != [] {
      SidePots.ClaimedAll(pots, InHand(v), |v|);
    }
  }

  /** Settling never touches a seat outside the contenders. */
  lemma {:induction false} SettleOutside(stacks: seq<int>, layers: seq<SidePots.Layer>, contenders: set<nat>,
                                          strength: seq<int>, i: nat)
    requires |strength| == |stacks| && i < |stacks| && i !in contenders
    ensures SidePots.Settle(stacks, layers, contenders, strength)[i] == stacks[i]
    decreases |layers|
  {
    if layers != [] {
      var w := SidePots.LayerWinners(layers[0], contenders, strength);
      var next := SidePots.Award(stacks, layers[0], contenders, strength);
      if w != [] {
        SidePots.LayerWinnersExact(layers[0], contenders, strength);
        assert i !in w;
        SidePots.SplitFacts(stacks, layers[0].amount, w);
      }
      assert next[i] == stacks[i];
      SettleOutside(next, layers[1..], contenders, strength, i);
    }
  }

  /** A seat that folded is paid nothing, whatever its cards. */
  lemma FoldedUnpaid(v: seq<SeatView>, pots: seq<SidePots.Layer>, board: seq<Cards.Card>,
                     eval: seq<Cards.Card> -> int, i: nat)
    requires i < |v| && v[i].hasFolded
    ensures Payouts(v, pots, board, eval)[i] == 0
    ensures Credited(v, Payouts(v, pots, board, eval))[i] == v[i]
  {
    SettleOutside(Zeros(|v|), pots, InHand(v), Strengths(v, board, eval), i);
  }

  /** Seat `w` credited with `amt`. */
  function Credit(s: seq<int>, w: nat, amt: int): (r: seq<int>)
    requires w < |s|
    ensures |r| == |s|
  {
    s[w := s[w] + amt]
  }

  /** A layer with a single winner goes to it whole. */
  lemma AwardOne(stacks: seq<int>, layer: SidePots.Layer, c: set<nat>, st: seq<int>, w: nat)
    requires |st| == |stacks| && w < |stacks| && SidePots.LayerWinners(layer, c, st) == [w]
    ensures SidePots.Award(stacks, layer, c, st) == Credit(stacks, w, layer.amount)
  {
    var q, r := layer.amount / 1, layer.amount % 1;
    assert q == layer.amount && r == 0;
    assert [w][1..] == [];
    assert SidePots.Pay(stacks, [w], q, r) == SidePots.Pay(stacks[w := stacks[w] + q + r], [], q, 0);
  }

  /** A layer split two ways: the odd chip goes to the first winner. */
  lemma AwardTwo(stacks: seq<int>, layer: SidePots.Layer, c: set<nat>, st: seq<int>, a: nat, b: nat)
    requires |st| == |stacks| && a < |stacks| && b < |stacks| && a != b
    requires SidePots.LayerWinners(layer, c, st) == [a, b]
    ensures var q := layer.amount / 2;
      SidePots.Award(stacks, layer, c, st) ==
        stacks[a := stacks[a] + q + layer.amount % 2][b := stacks[b] + q]
  {
    var w, q, r := [a, b], layer.amount / 2, layer.amount % 2;
    var s1 := stacks[a := stacks[a] + q + r];
    assert w[1..] == [b] && [b][1..] == [];
    assert SidePots.Pay(stacks, w, q, r) == SidePots.Pay(s1, [b], q, 0);
    assert SidePots.Pay(s1, [b], q, 0) == SidePots.Pay(s1[b := s1[b] + q], [], q, 0);
  }

  /** A contender strictly stronger than every other wins the layer
      alone. */
  lemma SoleBest(layer: SidePots.Layer, c: set<nat>, st: seq<int>, seats: seq<nat>, x: nat)
    requires SidePots.Contending(layer, c, |st|) == seats && x in seats
    requires forall y :: y in seats && y != x ==> st[y] < st[x]
    ensures SidePots.LayerWinners(layer, c, st) == [x]
  {
    var w := SidePots.LayerWinners(layer, c, st);
    SidePots.LayerWinnersExact(layer, c, st);
    assert x in w;
    forall i | 0 <= i < |w|
      ensures w[i] == x
    {
      assert w[i] in seats;
    }
    OnlyElement(w, x);
  }

  /** A list without repeats whose every element is `x` is `[x]`. */
  lemma OnlyElement(w: seq<nat>, x: nat)
    requires NoDup(w) && x in w && forall i :: 0 <= i < |w| ==> w[i] == x
    ensures w == [x]
  {
    NoDupMultiset(w);
    AllSame(w, x);
    assert w == [w[0]];
  }

  lemma {:induction false} AllSame(w: seq<nat>, x: nat)
    requires forall i :: 0 <= i < |w| ==> w[i] == x
    ensures multiset(w)[x] == |w|
  {
    if w != [] {
      assert w == [w[0]] + w[1..];
      AllSame(w[1..], x);
    }
  }

  lemma {:induction false} FilterAll(seats: seq<nat>, st: seq<int>, best: int)
    requires forall i :: 0 <= i < |seats| ==> seats[i] < |st| && st[seats[i]] == best
    ensures SidePots.Filter(seats, st, best) == seats
  {
    if seats != [] {
      FilterAll(seats[1..], st, best);
      assert [seats[0]] + seats[1..] == seats;
    }
  }

  /** Contenders all holding the same strength all win the layer. */
  lemma AllTie(layer: SidePots.Layer, c: set<nat>, st: seq<int>, seats: seq<nat>)
    requires SidePots.Contending(layer, c, |st|) == seats && seats != []
    requires forall i :: 0 <= i < |seats| ==> st[seats[i]] == st[seats[0]]
    ensures SidePots.LayerWinners(layer, c, st) == seats
  {
    assert SidePots.MaxStrength(seats, st) == st[seats[0]];
    FilterAll(seats, st, st[seats[0]]);
  }

  /** Three chips between two equal hands: the first seat gets the odd
      chip and none is lost. */
  lemma OddChipKept(stacks: seq<int>, layer: SidePots.Layer, c: set<nat>, st: seq<int>)
    requires stacks == [0, 0] && layer == SidePots.Layer(3, {0, 1}) && c == {0, 1} && st == [5, 5]
    ensures var r := SidePots.Award(stacks, layer, c, st); |r| == 2 && r[0] == 2 && r[1] == 1
  {
    assert SidePots.Contending(layer, c, 2) == [0, 1];
    AllTie(layer, c, st, [0, 1]);
    AwardTwo(stacks, layer, c, st, 0, 1);
  }

  /** A layer goes whole to a contender holding a strictly better hand
      than every other contender. */
  lemma StrongestTakesLayer(stacks: seq<int>, layer: SidePots.Layer, c: set<nat>, st: seq<int>, x: nat)
    requires |st| == |stacks| && x in SidePots.Contending(layer, c, |st|)
    requires forall y :: y in SidePots.Contending(layer, c, |st|) && y != x ==> st[y] < st[x]
    ensures x < |stacks| && SidePots.Award(stacks, layer, c, st) == Credit(stacks, x, layer.amount)
  {
    SoleBest(layer, c, st, SidePots.Contending(layer, c, |st|), x);
    AwardOne(stacks, layer, c, st, x);
  }

  lemma CreditTwice(s: seq<int>, w: nat, a: int, b: int)
    requires w < |s|
    ensures Credit(Credit(s, w, a), w, b) == Credit(s, w, a + b)
  {
    assert forall i :: 0 <= i < |s| ==> Credit(Credit(s, w, a), w, b)[i] == Credit(s, w, a + b)[i];
  }

  /** Seat `x` may win every one of `layers`. */
  predicate OpenToAll(layers: seq<SidePots.Layer>, x: nat)
    decreases |layers|
  {
    layers == [] || (x in layers[0].eligible && OpenToAll(layers[1..], x))
  }

  /** A seat that may win every layer and holds the strongest hand at the
      table takes the chips of all the layers. */
  lemma {:induction false} StrongestTakesAll(stacks: seq<int>, layers: seq<SidePots.Layer>, c: set<nat>,
                                             st: seq<int>, x: nat)
    requires |st| == |stacks| && x < |st| && x in c
    requires OpenToAll(layers, x)
    requires forall y :: 0 <= y < |st| && y != x ==> st[y] < st[x]
    ensures SidePots.Settle(stacks, layers, c, st) == Credit(stacks, x, SidePots.SumAmounts(layers))
    decreases |layers|
  {
    if layers != [] {
      var a, rest := layers[0].amount, layers[1..];
      var first := Credit(stacks, x, a);
      calc {
        SidePots.Settle(stacks, layers, c, st);
        SidePots.Settle(SidePots.Award(stacks, layers[0], c, st), rest, c, st);
        { StrongestTakesLayer(stacks, layers[0], c, st, x); }
        SidePots.Settle(first, rest, c, st);
        { StrongestTakesAll(first, rest, c, st, x); }
        Credit(first, x, SidePots.SumAmounts(rest));
        { CreditTwice(stacks, x, a, SidePots.SumAmounts(rest)); }
        Credit(stacks, x, a + SidePots.SumAmounts(rest));
        { assert SidePots.SumAmounts(layers) == a + SidePots.SumAmounts(rest); }
        Credit(stacks, x, SidePots.SumAmounts(layers));
      }
    } else {
      assert Credit(stacks, x, 0) == stacks;
    }
  }

  /** Seat `x` may win each of three layers, and they hold their amounts
      between them. */
  lemma ThreeOpen(l0: SidePots.Layer, l1: SidePots.Layer, l2: SidePots.Layer, x: nat)
    requires x in l0.eligible && x in l1.eligible && x in l2.eligible
    ensures OpenToAll([l0, l1, l2], x)
    ensures SidePots.SumAmounts([l0, l1, l2]) == l0.amount + l1.amount + l2.amount
  {
    var pots := [l0, l1, l2];
    assert pots[1..] == [l1, l2] && pots[1..][1..] == [l2] && pots[1..][1..][1..] == [];
    assert SidePots.SumAmounts([l2]) == l2.amount && OpenToAll([l2], x);
    assert SidePots.SumAmounts([l1, l2]) == l1.amount + l2.amount && OpenToAll([l1, l2], x);
  }

  /** At showdown, a seat still in the hand that may win every layer and
      holds the strongest hand at the table is paid every layer, and no
      other seat is paid anything. */
  lemma StrongestPaidAll(v: seq<SeatView>, pots: seq<SidePots.Layer>, board: seq<Cards.Card>,
                         eval: seq<Cards.Card> -> int, x: nat)
    requires x < |v| && !v[x].hasFolded && OpenToAll(pots, x)
    requires forall y :: 0 <= y < |v| && y != x ==> Strengths(v, board, eval)[y] < Strengths(v, board, eval)[x]
    ensures forall i :: 0 <= i < |v| ==>
      Payouts(v, pots, board, eval)[i] == if i == x then SidePots.SumAmounts(pots) else 0
  {
    StrongestTakesAll(Zeros(|v|), pots, InHand(v), Strengths(v, board, eval), x);
  }

  /** Three layers that seat 2 may win, holding 499 chips between them,
      go to seat 2 when it holds the strongest hand. */
  lemma ThreeLayersToOne(v: seq<SeatView>, l0: SidePots.Layer, l1: SidePots.Layer, l2: SidePots.Layer,
                         board: seq<Cards.Card>, eval: seq<Cards.Card> -> int)
    requires |v| == 3 && !v[2].hasFolded
    requires 2 in l0.eligible && 2 in l1.eligible && 2 in l2.eligible
    requires l0.amount + l1.amount + l2.amount == 499
    requires forall y :: 0 <= y < 2 ==> Strengths(v, board, eval)[y] < Strengths(v, board, eval)[2]
    ensures var d := Payouts(v, [l0, l1, l2], board, eval); d[0] == 0 && d[1] == 0 && d[2] == 499
  {
    ThreeOpen(l0, l1, l2, 2);
    StrongestPaidAll(v, [l0, l1, l2], board, eval, 2);
  }

  /** The rigged showdown of tests/test_sidepots.py:26-42: after the
      forced bets A, B and C hold 2, 1 and 198 chips behind totals of 98,
      199 and 202; with C's hand the strongest, C takes all three layers
      and ends with 697 while A and B keep 2 and 1. */
  lemma RiggedShowdown(v: seq<SeatView>, board: seq<Cards.Card>, eval: seq<Cards.Card> -> int)
    requires |v| == 3 && v[0].stack == 2 && v[1].stack == 1 && v[2].stack == 198
    requires !v[0].hasFolded && !v[1].hasFolded && !v[2].hasFolded
    requires eval(v[0].holeCards + board) < eval(v[2].holeCards + board)
    requires eval(v[1].holeCards + board) < eval(v[2].holeCards + board)
    ensures var r := Credited(v, Payouts(v, SidePots.SidePots([98, 199, 202]), board, eval));
      r[0].stack == 2 && r[1].stack == 1 && r[2].stack == 697
  {
    var st := Strengths(v, board, eval);
    assert forall y :: 0 <= y < 2 ==> st[y] < st[2];
    var d := Payouts(v, SidePots.SidePots([98, 199, 202]), board, eval);
    assert d[0] == 0 && d[1] == 0 && d[2] == 499 by {
      SidePots.ThreeWaySidePots();
      ThreeLayersToOne(v, SidePots.Layer(294, {0, 1, 2}), SidePots.Layer(202, {1, 2}), SidePots.Layer(3, {2}),
                       board, eval);
    }
  }
}
