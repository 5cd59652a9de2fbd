/** The command-line generation of the table, poker_tutor.py: `Player`
    objects whose chips change in place, a `GameState` holding the board,
    the pot and its layers, the blinds and actions of `BettingRound`, and
    the second (delta-based) `showdown`.

    Every method that changes players states the table it leaves as a pure
    function of the table it found, through `SeatView`, a snapshot of one
    seat's fields; the chip and betting properties are lemmas about those
    functions.  The layers and their payout are the functions of SidePots. */
module Tutor {
  import opened Common
  import SidePots
  import Cards

  /** `Street` of poker_tutor.py. */
  datatype Street = Preflop | Flop | Turn | River | Showdown

  /** The street `deal_next_street` moves to. */
  function NextStreet(s: Street): Street
  {
    match s
    case Preflop => Flop
    case Flop => Turn
    case Turn => River
    case _ => Showdown
  }

  /** The board cards `deal_next_street` adds after its burn card. */
  function StreetCards(s: Street): nat
  {
    match s
    case Preflop => 3
    case Flop => 1
    case Turn => 1
    case _ => 0
  }

  /** The order of the streets. */
  function StreetIndex(s: Street): nat
  {
    match s
    case Preflop => 0
    case Flop => 1
    case Turn => 2
    case River => 3
    case Showdown => 4
  }

  /** From preflop the streets come in order, the board holding 3, 4 and
      then 5 cards, and after the river comes the showdown, which stays. */
  lemma StreetOrder(s: Street)
    ensures s != Showdown ==> StreetIndex(NextStreet(s)) == StreetIndex(s) + 1
    ensures s == Showdown ==> NextStreet(s) == Showdown
    ensures StreetCards(Preflop) + StreetCards(Flop) + StreetCards(Turn) == 5
    ensures StreetCards(s) > 0 <==> s != River && s != Showdown
  {
  }

  // ---------------------------------------------------------------------
  // Seats
  // ---------------------------------------------------------------------

  /** `Player`: a seat's chips and cards. */
  class Player {
    const name: string
    var stack: int
    var bet: int          // chips committed this street
    var betTotal: int     // chips committed this hand
    var holeCards: seq<Cards.Card>
    var hasFolded: bool

    constructor (name: string, stack: int, bet: int, betTotal: int, holeCards: seq<Cards.Card>, folded: bool)
      ensures this.name == name && ViewOf(this) == SeatView(stack, bet, betTotal, holeCards, folded)
    {
      this.name := name;
      this.stack := stack;
      this.bet := bet;
      this.betTotal := betTotal;
      this.holeCards := holeCards;
      this.hasFolded := folded;
    }

    /** `reset_for_new_street`. */
    method ResetForNewStreet()
      modifies this`bet
      ensures ViewOf(this) == old(ViewOf(this)).(bet := 0)
    {
      bet := 0;
    }
  }

  /** The fields of one seat at one moment. */
  datatype SeatView = SeatView(stack: int, bet: int, betTotal: int, holeCards: seq<Cards.Card>, hasFolded: bool)

  function ViewOf(p: Player): SeatView
    reads p
  {
    SeatView(p.stack, p.bet, p.betTotal, p.holeCards, p.hasFolded)
  }

  /** The snapshot of every seat. */
  function ViewsOf(ps: seq<Player>): (r: seq<SeatView>)
    reads ps
    ensures |r| == |ps| && forall i :: 0 <= i < |ps| ==> r[i] == ViewOf(ps[i])
  {
    seq(|ps|, i reads ps requires 0 <= i < |ps| => ViewOf(ps[i]))
  }

  /** Distinct objects, one per seat. */
  predicate Distinct(ps: seq<Player>)
  {
    forall i, j :: 0 <= i < j < |ps| ==> ps[i] != ps[j]
  }

  /** A snapshot that differs from `v` at seat `k` alone is `v` with seat
      `k` replaced. */
  lemma ViewsAt(w: seq<SeatView>, v: seq<SeatView>, k: nat)
    requires k < |v| == |w| && forall i :: 0 <= i < |v| && i != k ==> w[i] == v[i]
    ensures w == v[k := w[k]]
  {
  }

  /** The chips behind the seats. */
  function StackSum(v: seq<SeatView>): int
  {
    if v == [] then 0 else v[0].stack + StackSum(v[1..])
  }

  lemma {:induction false} StackSumUpdate(v: seq<SeatView>, k: nat, x: SeatView)
    requires k < |v|
    ensures StackSum(v[k := x]) == StackSum(v) - v[k].stack + x.stack
  {
    if k > 0 {
      StackSumUpdate(v[1..], k - 1, x);
      assert v[k := x][1..] == v[1..][k - 1 := x];
    } else {
      assert v[k := x][1..] == v[1..];
    }
  }

  function Bets(v: seq<SeatView>): (r: seq<int>)
    ensures |r| == |v| && forall i :: 0 <= i < |v| ==> r[i] == v[i].bet
  {
    seq(|v|, i requires 0 <= i < |v| => v[i].bet)
  }

  function BetTotals(v: seq<SeatView>): (r: seq<int>)
    ensures |r| == |v| && forall i :: 0 <= i < |v| ==> r[i] == v[i].betTotal
  {
    seq(|v|, i requires 0 <= i < |v| => v[i].betTotal)
  }

  /** The seats that have not folded (`active_idxs` of `showdown`). */
  function InHand(v: seq<SeatView>): (r: set<nat>)
    ensures forall i: nat :: i in r <==> i < |v| && !v[i].hasFolded
  {
    set i: nat | i < |v| && !v[i].hasFolded
  }

  /** Still in the hand with chips, as `active_players` filters. */
  predicate Active(x: SeatView)
  {
    !x.hasFolded && x.stack + x.bet > 0
  }

  /** A seat `run` lets act: not folded and chips behind. */
  predicate CanAct(x: SeatView)
  {
    !x.hasFolded && x.stack > 0
  }

  /** `[p for p in ps if not p.has_folded and p.stack + p.bet > 0]`. */
  function ActiveOf(ps: seq<Player>): (r: seq<Player>)
    reads ps
    ensures forall i :: 0 <= i < |r| ==> r[i] in ps && Active(ViewOf(r[i]))
    ensures forall i :: 0 <= i < |ps| && Active(ViewOf(ps[i])) ==> ps[i] in r
    ensures |r| <= |ps|
  {
    if ps == [] then []
    else (if Active(ViewOf(ps[0])) then [ps[0]] else []) + ActiveOf(ps[1..])
  }

  /** The largest of a non-empty sequence, Python's `max`. */
  function MaxOf(s: seq<int>): (r: int)
    requires |s| > 0
    ensures forall i :: 0 <= i < |s| ==> s[i] <= r
    ensures exists i :: 0 <= i < |s| && s[i] == r
  {
    if |s| == 1 then s[0]
    else
      var m := MaxOf(s[1..]);
      assert forall i :: 1 <= i < |s| ==> s[i] == s[1..][i - 1];
      if s[0] >= m then s[0] else m
  }

  /** `highest_bet`: the largest bet of the street. */
  function Highest(v: seq<SeatView>): int
    requires |v| > 0
  {
    MaxOf(Bets(v))
  }

  /** The seats `0 .. n - 1`, Python's `set(range(n))`. */
  function Seats(n: nat): (r: set<nat>)
    ensures forall i: nat :: i in r <==> i < n
  {
    if n == 0 then {} else Seats(n - 1) + {n - 1}
  }

  // ---------------------------------------------------------------------
  // What one call does to the seats
  // ---------------------------------------------------------------------

  /** `collect_bet` on one seat: `chips`, but never more than the stack,
      move from the stack into this street's bet and this hand's total. */
  function Collected(x: SeatView, chips: int): (r: SeatView)
    ensures r.stack + r.bet == x.stack + x.bet
    ensures r.betTotal - r.bet == x.betTotal - x.bet
    ensures r.holeCards == x.holeCards && r.hasFolded == x.hasFolded
    ensures chips <= x.stack ==> r.bet == x.bet + chips
    ensures chips >= x.stack ==> r.stack == 0
    ensures 0 <= chips && 0 <= x.stack ==> 0 <= r.stack <= x.stack
  {
    var c := Min(chips, x.stack);
    x.(stack := x.stack - c, bet := x.bet + c, betTotal := x.betTotal + c)
  }

  /** The current (last) layer grown by `c` chips. */
  function AddToLast(pots: seq<SidePots.Layer>, c: int): (r: seq<SidePots.Layer>)
    requires |pots| > 0
    ensures |r| == |pots|
  {
    var last := |pots| - 1;
    pots[last := pots[last].(amount := pots[last].amount + c)]
  }

  /** Only the current layer changes, and only in its amount. */
  lemma AddToLastKeeps(pots: seq<SidePots.Layer>, c: int)
    requires |pots| > 0
    ensures var r := AddToLast(pots, c);
      r[..|r| - 1] == pots[..|pots| - 1] && r[|r| - 1].eligible == pots[|pots| - 1].eligible &&
      r[|r| - 1].amount == pots[|pots| - 1].amount + c
  {
  }

  /** Growing the current layer grows the layers' total by as much. */
  lemma {:induction false} AddToLastSum(pots: seq<SidePots.Layer>, c: int)
    requires |pots| > 0
    ensures SidePots.SumAmounts(AddToLast(pots, c)) == SidePots.SumAmounts(pots) + c
  {
    if |pots| > 1 {
      AddToLastSum(pots[1..], c);
      assert AddToLast(pots, c)[1..] == AddToLast(pots[1..], c);
    }
  }

  /** Growing the current layer twice is growing it once by the sum. */
  lemma AddToLastCompose(pots: seq<SidePots.Layer>, a: int, b: int, c: int)
    requires |pots| > 0 && a + b == c
    ensures AddToLast(AddToLast(pots, a), b) == AddToLast(pots, c)
  {
  }

  /** The layers `pots'` once the pot has gone from `pot` to `pot'`:
      `collect_bet` adds every chip it takes to the current layer, so that
      layer has grown by exactly what the pot has and the others are as
      they were. */
  predicate Grown(pots: seq<SidePots.Layer>, pots': seq<SidePots.Layer>, pot: int, pot': int)
    requires |pots| > 0
  {
    pots' == AddToLast(pots, pot' - pot)
  }

  /** Two growths in a row are one. */
  lemma GrownTrans(p0: seq<SidePots.Layer>, p1: seq<SidePots.Layer>, p2: seq<SidePots.Layer>, a: int, b: int, c: int)
    requires |p0| > 0 && Grown(p0, p1, a, b) && Grown(p1, p2, b, c)
    ensures Grown(p0, p2, a, c)
  {
    AddToLastCompose(p0, b - a, c - b, c - a);
  }

  /** With the pot unchanged, so are the layers. */
  lemma GrownSame(pots: seq<SidePots.Layer>, pot: int)
    requires |pots| > 0
    ensures Grown(pots, pots, pot, pot)
  {
    var last := |pots| - 1;
    assert pots[last].(amount := pots[last].amount + 0) == pots[last];
  }

  /** The choice made for the seat to act. */
  datatype Action = Fold | Call | Raise | Other(name: string)

  /** What `_act` passes to `collect_bet` for a raise: the call and then
      the larger of the asked amount and the minimum raise. */
  function RaiseTotal(highest: int, bet: int, amt: int, bb: int): int
  {
    var minRaise := Max(bb, highest * 2 - bet);
    (highest - bet) + Max(amt, minRaise)
  }

  /** `_act` on the seats, seat `t` acting with `action` and `amt`. */
  function ActOn(v: seq<SeatView>, t: nat, action: Action, amt: int, bb: int): (r: seq<SeatView>)
    requires t < |v|
    ensures |r| == |v|
  {
    match action
    case Fold => v[t := v[t].(hasFolded := true)]
    case Call => v[t := Collected(v[t], Highest(v) - v[t].bet)]
    case Raise => v[t := Collected(v[t], RaiseTotal(Highest(v), v[t].bet, amt, bb))]
    case Other(_) => v
  }

  /** A call or a raise is one collection of the chips it names. */
  lemma ActOnCollects(v: seq<SeatView>, t: nat, action: Action, amt: int, bb: int, chips: int)
    requires t < |v|
    requires action == Call ==> chips == Highest(v) - v[t].bet
    requires action.Raise? ==> chips == RaiseTotal(Highest(v), v[t].bet, amt, bb)
    requires action == Call || action.Raise?
    ensures ActOn(v, t, action, amt, bb) == v[t := Collected(v[t], chips)]
  {
  }

  /** `post_blinds` on the seats: the seat after the dealer posts the
      small blind, the one after it the big blind. */
  function Blinds(v: seq<SeatView>, sb: int, bb: int): seq<SeatView>
    requires |v| > 0
  {
    var s, b := 1 % |v|, 2 % |v|;
    var v1 := v[s := Collected(v[s], sb)];
    v1[b := Collected(v1[b], bb)]
  }

  /** `deal_hole_cards` on the seats: seat `i` takes cards `2i` and
      `2i + 1` of the deck. */
  function Dealt(v: seq<SeatView>, cards: seq<Cards.Card>): (r: seq<SeatView>)
    ensures |r| == |v|
  {
    seq(|v|, i requires 0 <= i < |v| => v[i].(holeCards := Pair(cards, i)))
  }

  /** Seat `i`'s two hole cards from `cards`, cut short when the deck runs
      out as Python's slices are. */
  function Pair(cards: seq<Cards.Card>, i: nat): (r: seq<Cards.Card>)
    ensures |r| <= 2
  {
    cards[Min(2 * i, |cards|)..Min(2 * i + 2, |cards|)]
  }

  /** Every seat's street bet cleared. */
  function ResetBets(v: seq<SeatView>): (r: seq<SeatView>)
    ensures |r| == |v|
  {
    seq(|v|, i requires 0 <= i < |v| => v[i].(bet := 0))
  }

  /** Each seat's hand strength; folded seats are never asked. */
  function Strengths(v: seq<SeatView>, board: seq<Cards.Card>, eval: seq<Cards.Card> -> int): (r: seq<int>)
    ensures |r| == |v|
  {
    seq(|v|, i requires 0 <= i < |v| => if v[i].hasFolded then 0 else eval(v[i].holeCards + board))
  }

  /** The chips `showdown` hands each seat: every contested layer split
      among its strongest seats still in the hand. */
  function Payouts(v: seq<SeatView>, pots: seq<SidePots.Layer>, board: seq<Cards.Card>,
                   eval: seq<Cards.Card> -> int): (r: seq<int>)
    ensures |r| == |v|
  {
    SidePots.Settle(Zeros(|v|), pots, InHand(v), Strengths(v, board, eval))
  }

  /** Seat `i`'s stack grown by `d[i]`. */
  function Credited(v: seq<SeatView>, d: seq<int>): (r: seq<SeatView>)
    requires |d| == |v|
    ensures |r| == |v|
  {
    seq(|v|, i requires 0 <= i < |v| => v[i].(stack := v[i].stack + d[i]))
  }

  // ---------------------------------------------------------------------
  // The table
  // ---------------------------------------------------------------------

  /** `GameState`: the mutable state of one hand. */
  class GameState {
    var players: seq<Player>
    var deck: Cards.Deck
    var board: seq<Cards.Card>
    var pot: int
    var pots: seq<SidePots.Layer>
    var street: Street
    var toAct: int
    var lastAggressor: int

    /** One object per seat, at least one seat, the seat to act in range,
        and a current pot layer for `collect_bet` to add to. */
    ghost predicate Valid()
      reads this
    {
      |players| > 0 && |pots| > 0 && 0 <= toAct < |players| && Distinct(players)
    }

    function View(): (r: seq<SeatView>)
      reads this`players, players
      ensures |r| == |players|
    {
      ViewsOf(players)
    }

    /** Every chip of the hand: the stacks and the pot. */
    function Chips(): int
      reads this`players, this`pot, players
    {
      StackSum(View()) + pot
    }

    /** The chips of the pot not yet in any layer. */
    function Unlayered(): int
      reads this`pot, this`pots
    {
      pot - SidePots.SumAmounts(pots)
    }

    /** `GameState(players, deck, board=..., pot=...)`: the pot defaults to
        the bets already placed and starts as one layer open to every
        seat. */
    constructor (players: seq<Player>, deck: Cards.Deck, board: seq<Cards.Card>, pot: Option<int>)
      requires |players| > 0 && Distinct(players)
      ensures Valid() && Unlayered() == 0
      ensures this.players == players && this.deck == deck && this.board == board
      ensures this.pot == (if pot.Some? then pot.value else Sum(Bets(View())))
      ensures pots == [SidePots.Layer(this.pot, Seats(|players|))]
      ensures street == Preflop && toAct == 0 && lastAggressor == 0
    {
      this.players := players;
      this.deck := deck;
      this.board := board;
      new;
      this.pot := if pot.Some? then pot.value else Sum(Bets(View()));
      this.pots := [SidePots.Layer(this.pot, Seats(|players|))];
      assert SidePots.SumAmounts(pots[1..]) == 0;
      this.street := Preflop;
      this.toAct := 0;
      this.lastAggressor := 0;
    }

    /** The turn passing to the next seat, `to_act = (to_act + 1) %
        len(players)` at the foot of `run`'s loop. */
    method PassTurn()
      requires Valid()
      modifies this`toAct
      ensures Valid() && toAct == if old(toAct) + 1 < |players| then old(toAct) + 1 else 0
      ensures View() == old(View()) && Chips() == old(Chips()) && Unlayered() == old(Unlayered())
    {
      NextSeat(toAct, |players|);
      toAct := (toAct + 1) % |players|;
    }

    /** `dealer_idx`: seat 0 deals. */
    function DealerIdx(): int
    {
      0
    }

    /** `highest_bet`. */
    function HighestBet(): int
      reads this`players, players
      requires |players| > 0
    {
      Highest(View())
    }

    /** `active_players`. */
    function ActivePlayers(): (r: seq<Player>)
      reads this`players, players
      ensures forall i :: 0 <= i < |r| ==> r[i] in players && Active(ViewOf(r[i]))
      ensures forall i :: 0 <= i < |players| && Active(View()[i]) ==> players[i] in r
    {
      ActiveOf(players)
    }

    /** `collect_bet`: move `chips`, but never more than the stack, from
        the player into its bets, the pot and the current layer. */
    method CollectBet(player: Player, chips: int, ghost seat: nat)
      requires Valid() && seat < |players| && players[seat] == player
      modifies this`pot, this`pots, player`stack, player`bet, player`betTotal
      ensures Valid()
      ensures View() == old(View())[seat := Collected(old(View())[seat], chips)]
      ensures var c := old(View())[seat].stack - View()[seat].stack;
        pot == old(pot) + c && pots == AddToLast(old(pots), c)
      ensures Grown(old(pots), pots, old(pot), pot)
      ensures Chips() == old(Chips()) && Unlayered() == old(Unlayered())
    {
      ghost var v0 := View();
      var c := Min(chips, player.stack);
      AddToLastSum(pots, c);
      pot := pot + c;
      pots := AddToLast(pots, c);
      assert Unlayered() == old(Unlayered());
      player.stack := player.stack - c;
      player.bet := player.bet + c;
      player.betTotal := player.betTotal + c;
      ViewsAt(View(), v0, seat);
      assert ViewOf(player) == Collected(v0[seat], chips);
      StackSumUpdate(v0, seat, ViewOf(player));
    }

    /** `build_side_pots`: with no chips committed nothing changes;
        otherwise the layers become one per distinct positive total, each
        paid by every seat reaching it (the side pots of SidePots). */
    method BuildSidePots()
      requires Valid()
      modifies this`pots
      ensures Valid()
      ensures var layers := SidePots.SidePots(BetTotals(View()));
        pots == if layers == [] then old(pots) else layers
    {
      var tc := BetTotals(View());
      SidePots.SidePotsEmpty(tc);
      if forall i :: 0 <= i < |tc| ==> tc[i] <= 0 {
        return;
      }
      var levels := SidePots.PotLevels(tc);
      SidePots.LevelsPositive(tc);
      ghost var layers := SidePots.SidePots(tc);
      var newPots: seq<SidePots.Layer> := [];
      var prev := 0;
      var k := 0;
      while k < |levels|
        modifies {}
        invariant 0 <= k <= |levels| && prev == (if k == 0 then 0 else levels[k - 1])
        invariant newPots == layers[..k]
      {
        var level := levels[k];
        var eligible := set i: nat | i < |tc| && tc[i] > 0 && tc[i] >= level;
        assert eligible == SidePots.Eligible(tc, level);
        SidePots.LayerAt(tc, k, prev, eligible);
        PrefixStep(layers, k);
        newPots := newPots + [SidePots.Layer((level - prev) * |eligible|, eligible)];
        prev := level;
        k := k + 1;
      }
      assert newPots == layers;
      pots := newPots;
    }

    /** `deal_hole_cards`: two cards from the deck to every seat in turn,
        then the seat after the dealer acts first. */
    method DealHoleCards()
      requires Valid()
      modifies this`toAct, deck, players
      ensures Valid() && deck == old(deck)
      ensures View() == Dealt(old(View()), old(deck.cards))
      ensures deck.cards == old(deck.cards)[Min(2 * |players|, |old(deck.cards)|)..]
      ensures toAct == (DealerIdx() + 1) % |players|
    {
      ghost var v0 := View();
      ghost var cards := deck.cards;
      var k := 0;
      while k < |players|
        modifies deck, players
        invariant 0 <= k <= |players|
        invariant deck.cards == cards[Min(2 * k, |cards|)..]
        invariant forall i :: 0 <= i < |players| ==>
          ViewOf(players[i]) == if i < k then Dealt(v0, cards)[i] else v0[i]
      {
        ghost var before := deck.cards;
        var drawn := deck.Draw(2);
        assert cards[..Min(2 * k, |cards|)] + before == cards;
        DrawTwice(cards, 2 * k, 2, cards[..Min(2 * k, |cards|)], before, drawn, deck.cards);
        assert drawn == Pair(cards, k);
        players[k].holeCards := drawn;
        k := k + 1;
      }
      toAct := (DealerIdx() + 1) % |players|;
    }

    /** `deal_next_street`: burn a card, add the street's cards to the
        board (none after the river, which leads to the showdown), clear
        the street bets, and give the seat after the dealer the first
        action. */
    method DealNextStreet()
      requires Valid()
      modifies this`board, this`street, this`toAct, this`lastAggressor, deck, players
      ensures Valid() && deck == old(deck)
      ensures var cards, k := old(deck.cards), StreetCards(old(street));
        board == old(board) + cards[Min(1, |cards|)..Min(1 + k, |cards|)] &&
        deck.cards == cards[Min(1 + k, |cards|)..]
      ensures street == NextStreet(old(street))
      ensures View() == ResetBets(old(View()))
      ensures lastAggressor == toAct == (DealerIdx() + 1) % |players|
    {
      DealStreetCards();
      ResetStreetBets();
      lastAggressor := (DealerIdx() + 1) % |players|;
      toAct := lastAggressor;
    }

    /** The burn card and the street's board cards of `deal_next_street`,
        and the street it moves to. */
    method DealStreetCards()
      modifies this`board, this`street, deck
      ensures var cards, k := old(deck.cards), StreetCards(old(street));
        board == old(board) + cards[Min(1, |cards|)..Min(1 + k, |cards|)] &&
        deck.cards == cards[Min(1 + k, |cards|)..]
      ensures street == NextStreet(old(street))
    {
      ghost var cards := deck.cards;
      ghost var k := StreetCards(street);
      var burn := deck.Draw(1);
      ghost var mid := deck.cards;
      if street == Preflop {
        var drawn := deck.Draw(3);
        DrawTwice(cards, 1, k, burn, mid, drawn, deck.cards);
        board := board + drawn;
        street := Flop;
      } else if street == Flop {
        var drawn := deck.Draw(1);
        DrawTwice(cards, 1, k, burn, mid, drawn, deck.cards);
        board := board + drawn;
        street := Turn;
      } else if street == Turn {
        var drawn := deck.Draw(1);
        DrawTwice(cards, 1, k, burn, mid, drawn, deck.cards);
        board := board + drawn;
        street := River;
      } else {
        DrawTwice(cards, 1, k, burn, mid, [], deck.cards);
        street := Showdown;
      }
    }

    /** The "reset betting" loop of `deal_next_street`: every seat's
        street bet cleared. */
    /** The last step of the second `showdown`: every seat's stack grows by
        its delta. */
    method CreditSeats(deltas: seq<int>)
      requires Valid() && |deltas| == |players|
      modifies players
      ensures View() == Credited(old(View()), deltas)
    {
      ghost var v0 := View();
      var i := 0;
      while i < |players|
        invariant 0 <= i <= |players|
        invariant forall j :: 0 <= j < |players| ==>
          ViewOf(players[j]) == if j < i then Credited(v0, deltas)[j] else v0[j]
      {
        var player := players[i];
        player.stack := player.stack + deltas[i];
        i := i + 1;
      }
    }

    method ResetStreetBets()
      requires Valid()
      modifies players
      ensures View() == ResetBets(old(View()))
    {
      ghost var v0 := View();
      var i := 0;
      while i < |players|
        invariant 0 <= i <= |players|
        invariant forall j :: 0 <= j < |players| ==>
          ViewOf(players[j]) == if j < i then ResetBets(v0)[j] else v0[j]
      {
        players[i].ResetForNewStreet();
        i := i + 1;
      }
    }
  }

  /** Two draws in a row take consecutive slices of the deck. */
  lemma DrawTwice(cards: seq<Cards.Card>, a: nat, b: nat, first: seq<Cards.Card>, mid: seq<Cards.Card>,
                  second: seq<Cards.Card>, rest: seq<Cards.Card>)
    requires first + mid == cards && |first| == Cards.SliceStop(a, |cards|)
    requires second + rest == mid && |second| == Cards.SliceStop(b, |mid|)
    ensures second == cards[Min(a, |cards|)..Min(a + b, |cards|)]
    ensures rest == cards[Min(a + b, |cards|)..]
  {
    assert mid == cards[|first|..];
    assert second == mid[..|second|] && rest == mid[|second|..];
  }

  // ---------------------------------------------------------------------
  // Betting
  // ---------------------------------------------------------------------

  /** The action and amount chosen for one turn. */
  datatype Decision = Decision(action: Action, amount: int)

  /** How `run` ended: one seat left, every active seat matched, or (the
      two cases the Python loop spins on) nobody able to act or no more
      decisions. */
  datatype RoundEnd = OneLeft | AllMatched | NobodyCanAct | OutOfDecisions

  /** The seats still in with chips, `len(active_players)`. */
  function CountActive(v: seq<SeatView>): nat
  {
    if v == [] then 0 else (if Active(v[0]) then 1 else 0) + CountActive(v[1..])
  }

  /** Every seat still in with chips is on the highest bet. */
  predicate AllActiveMatched(v: seq<SeatView>)
    requires |v| > 0
  {
    forall i :: 0 <= i < |v| && Active(v[i]) ==> v[i].bet == Highest(v)
  }

  /** The two end conditions `run` tests after an action. */
  function RoundOver(v: seq<SeatView>): (r: Option<RoundEnd>)
    requires |v| > 0
    ensures r == Some(OneLeft) <==> CountActive(v) == 1
    ensures r == Some(AllMatched) <==> CountActive(v) != 1 && AllActiveMatched(v)
    ensures r.None? || r == Some(OneLeft) || r == Some(AllMatched)
  {
    if CountActive(v) == 1 then Some(OneLeft)
    else if AllActiveMatched(v) then Some(AllMatched)
    else None
  }

  /** The seat `idle` places after `start` round a table of `n`. */
  function Around(start: nat, idle: nat, n: nat): (r: nat)
    requires start < n && idle <= n
    ensures r < n
  {
    if start + idle < n then start + idle else start + idle - n
  }

  /** Where `run` stops: how, the seats, the seat to act, how many
      decisions it has taken and the last aggressor. */
  datatype RoundResult = RoundResult(end: RoundEnd, seats: seq<SeatView>, toAct: nat, used: nat, aggressor: int)

  /** `run` on the seats with decisions `ds[k..]` still to come: the seat
      `idle` places after `start` is next; after `idle` seats in a row
      that cannot act, nobody can; a seat that can act takes decision `k`
      (`ActThen`). */
  function RunFrom(v: seq<SeatView>, start: nat, idle: nat, ds: seq<Decision>, k: nat, agg: int, bb: int): (r: RoundResult)
    requires start < |v| && idle <= |v| && k <= |ds|
    ensures |r.seats| == |v| && r.toAct < |v| && k <= r.used <= |ds|
    decreases |ds| - k, |v| - idle + 1
  {
    var n := |v|;
    var t := Around(start, idle, n);
    if idle == n then RoundResult(NobodyCanAct, v, t, k, agg)
    else if !CanAct(v[t]) then RunFrom(v, start, idle + 1, ds, k, agg, bb)
    else if k == |ds| then RoundResult(OutOfDecisions, v, t, k, agg)
    else ActThen(v, t, ds, k, agg, bb)
  }

  /** Seat `t` acts on decision `k`; the round ends when `RoundOver` says
      so, the turn otherwise passing to the seat after `t`. */
  function ActThen(v: seq<SeatView>, t: nat, ds: seq<Decision>, k: nat, agg: int, bb: int): (r: RoundResult)
    requires t < |v| && k < |ds|
    ensures |r.seats| == |v| && r.toAct < |v| && k < r.used <= |ds|
    decreases |ds| - k, 0
  {
    var w := ActOn(v, t, ds[k].action, ds[k].amount, bb);
    var a := if ds[k].action.Raise? then t else agg;
    var over := RoundOver(w);
    if over.Some? then RoundResult(over.value, w, t, k + 1, a)
    else RunFrom(w, Around(t, 1, |v|), 0, ds, k + 1, a, bb)
  }

  /** A seat that cannot act is passed over. */
  lemma RunFromSkip(v: seq<SeatView>, start: nat, idle: nat, ds: seq<Decision>, k: nat, agg: int, bb: int)
    requires start < |v| && idle < |v| && k <= |ds| && !CanAct(v[Around(start, idle, |v|)])
    ensures RunFrom(v, start, idle, ds, k, agg, bb) == RunFrom(v, start, idle + 1, ds, k, agg, bb)
  {
  }

  /** A seat that can act takes the next decision; the round then ends
      or the turn passes to the seat after it. */
  lemma RunFromAct(v: seq<SeatView>, start: nat, idle: nat, ds: seq<Decision>, k: nat, agg: int, bb: int)
    returns (t: nat, w: seq<SeatView>, a: int)
    requires start < |v| && idle < |v| && k < |ds| && CanAct(v[Around(start, idle, |v|)])
    ensures t == Around(start, idle, |v|) && w == ActOn(v, t, ds[k].action, ds[k].amount, bb)
    ensures a == if ds[k].action.Raise? then t else agg
    ensures RoundOver(w).Some? ==>
      RunFrom(v, start, idle, ds, k, agg, bb) == RoundResult(RoundOver(w).value, w, t, k + 1, a)
    ensures RoundOver(w).None? ==>
      RunFrom(v, start, idle, ds, k, agg, bb) == RunFrom(w, Around(t, 1, |v|), 0, ds, k + 1, a, bb)
  {
    t := Around(start, idle, |v|);
    w := ActOn(v, t, ds[k].action, ds[k].amount, bb);
    a := if ds[k].action.Raise? then t else agg;
    assert RunFrom(v, start, idle, ds, k, agg, bb) == ActThen(v, t, ds, k, agg, bb);
  }

  /** How `run` ends: after one action or more, with one active player
      left or every active player on the highest bet; with no seat able
      to act; or with every decision used and a seat to act that can. */
  lemma {:induction false} RunFromEnds(v: seq<SeatView>, start: nat, idle: nat, ds: seq<Decision>, k: nat, agg: int, bb: int)
    requires start < |v| && idle <= |v| && k <= |ds|
    requires forall i :: 0 <= i < |v| && (start <= i < start + idle || i < start + idle - |v|) ==> !CanAct(v[i])
    ensures var r := RunFrom(v, start, idle, ds, k, agg, bb);
      (r.end == OneLeft ==> r.used > k && CountActive(r.seats) == 1) &&
      (r.end == AllMatched ==> r.used > k && CountActive(r.seats) != 1 && AllActiveMatched(r.seats)) &&
      (r.end == NobodyCanAct ==> forall i :: 0 <= i < |v| ==> !CanAct(r.seats[i])) &&
      (r.end == OutOfDecisions ==> r.used == |ds| && CanAct(r.seats[r.toAct]))
    decreases |ds| - k, |v| - idle + 1
  {
    var n := |v|;
    var t := Around(start, idle, n);
    if idle == n {
      forall i | 0 <= i < n
        ensures !CanAct(v[i])
      {
        assert start <= i < start + idle || i < start + idle - n;
      }
    } else if !CanAct(v[t]) {
      RunFromEnds(v, start, idle + 1, ds, k, agg, bb);
    } else if k < |ds| {
      var w := ActOn(v, t, ds[k].action, ds[k].amount, bb);
      var a := if ds[k].action.Raise? then t else agg;
      assert RunFrom(v, start, idle, ds, k, agg, bb) == ActThen(v, t, ds, k, agg, bb);
      if RoundOver(w).None? {
        RunFromEnds(w, Around(t, 1, n), 0, ds, k + 1, a, bb);
      }
    }
  }

  /** `len(active_players)` counts the seats still in with chips. */
  lemma {:induction false} ActiveCount(ps: seq<Player>)
    ensures |ActiveOf(ps)| == CountActive(ViewsOf(ps))
    decreases |ps|
  {
    if ps != [] {
      ActiveCount(ps[1..]);
      assert ViewsOf(ps)[1..] == ViewsOf(ps[1..]);
    }
  }

  /** `all(p.bet == highest_bet for p in active)` is `AllActiveMatched`. */
  lemma ActiveMatched(ps: seq<Player>)
    requires |ps| > 0
    ensures (forall i :: 0 <= i < |ActiveOf(ps)| ==> ActiveOf(ps)[i].bet == Highest(ViewsOf(ps))) ==>
      AllActiveMatched(ViewsOf(ps))
    ensures AllActiveMatched(ViewsOf(ps)) ==>
      forall i :: 0 <= i < |ActiveOf(ps)| ==> ActiveOf(ps)[i].bet == Highest(ViewsOf(ps))
  {
    var a, v := ActiveOf(ps), ViewsOf(ps);
    var h := Highest(v);
    if forall i :: 0 <= i < |a| ==> a[i].bet == h {
      forall j | 0 <= j < |v| && Active(v[j])
        ensures v[j].bet == h
      {
        assert ps[j] in a;
        var k :| 0 <= k < |a| && a[k] == ps[j];
      }
      assert AllActiveMatched(v);
    }
    if AllActiveMatched(v) {
      forall i | 0 <= i < |a|
        ensures a[i].bet == h
      {
        assert a[i] in ps && Active(ViewOf(a[i]));
        var j :| 0 <= j < |ps| && ps[j] == a[i];
        assert v[j] == ViewOf(ps[j]) && Active(v[j]);
      }
    }
  }

  /** `BettingRound`: the blinds and the actions of one street. */
  class BettingRound {
    const gs: GameState
    const sb: int
    const bb: int

    constructor (gs: GameState, smallBlind: int, bigBlind: int)
      ensures this.gs == gs && sb == smallBlind && bb == bigBlind
    {
      this.gs := gs;
      this.sb := smallBlind;
      this.bb := bigBlind;
    }

    /** `post_blinds`: the seat after the dealer posts the small blind and
        the next the big blind; the seat after the big blind acts and the
        big blind counts as the last aggressor. */
    method PostBlinds()
      requires gs.Valid()
      modifies gs`pot, gs`pots, gs`toAct, gs`lastAggressor, gs.players
      ensures gs.Valid()
      ensures gs.View() == Blinds(old(gs.View()), sb, bb)
      ensures gs.Chips() == old(gs.Chips()) && gs.Unlayered() == old(gs.Unlayered())
      ensures Grown(old(gs.pots), gs.pots, old(gs.pot), gs.pot)
      ensures var n := |gs.players|;
        gs.toAct == (2 % n + 1) % n && gs.lastAggressor == 2 % n
    {
      ghost var v0 := gs.View();
      var n := |gs.players|;
      var sbIdx := (gs.DealerIdx() + 1) % n;
      var bbIdx := (gs.DealerIdx() + 2) % n;
      assert sbIdx == 1 % n && bbIdx == 2 % n;
      ghost var pots0, pot0 := gs.pots, gs.pot;
      gs.CollectBet(gs.players[sbIdx], sb, sbIdx);
      ghost var pots1, pot1 := gs.pots, gs.pot;
      gs.CollectBet(gs.players[bbIdx], bb, bbIdx);
      GrownTrans(pots0, pots1, gs.pots, pot0, pot1, gs.pot);
      assert gs.View() == Blinds(v0, sb, bb);
      gs.toAct := (bbIdx + 1) % n;
      gs.lastAggressor := bbIdx;
    }

    /** `_act` for `player`, the seat to act, once the choice is made:
        fold, call the highest bet, or raise by at least the minimum; any
        other choice does nothing.  A raise makes the actor the last
        aggressor. */
    method Act(player: Player, action: Action, amt: int)
      requires gs.Valid() && player == gs.players[gs.toAct]
      modifies gs`pot, gs`pots, gs`lastAggressor, gs.players
      ensures gs.Valid()
      ensures gs.View() == ActOn(old(gs.View()), gs.toAct, action, amt, bb)
      ensures gs.pot == old(gs.pot) + (old(gs.View())[gs.toAct].stack - gs.View()[gs.toAct].stack)
      ensures gs.lastAggressor == if action.Raise? then gs.toAct else old(gs.lastAggressor)
      ensures gs.Chips() == old(gs.Chips()) && gs.Unlayered() == old(gs.Unlayered())
      ensures Grown(old(gs.pots), gs.pots, old(gs.pot), gs.pot)
      ensures action == Fold || action.Other? ==> gs.pot == old(gs.pot) && gs.pots == old(gs.pots)
    {
      if action == Fold {
        FoldSeat(player, gs.toAct);
        GrownSame(gs.pots, gs.pot);
      } else if action.Other? {
        GrownSame(gs.pots, gs.pot);
      } else {
        CallOrRaise(player, action, amt);
      }
    }

    /** A call or a raise by the seat to act: the call puts in what it
        takes to match the highest bet; the raise that call and then at
        least the minimum raise, the larger of the big blind and twice the
        highest bet less the player's own bet, and makes the actor the
        last aggressor.  `collect_bet` caps either at the stack. */
    method CallOrRaise(player: Player, action: Action, amt: int)
      requires gs.Valid() && player == gs.players[gs.toAct] && (action == Call || action.Raise?)
      modifies gs`pot, gs`pots, gs`lastAggressor, gs.players
      ensures gs.Valid()
      ensures gs.View() == ActOn(old(gs.View()), gs.toAct, action, amt, bb)
      ensures gs.pot == old(gs.pot) + (old(gs.View())[gs.toAct].stack - gs.View()[gs.toAct].stack)
      ensures gs.lastAggressor == if action.Raise? then gs.toAct else old(gs.lastAggressor)
      ensures gs.Chips() == old(gs.Chips()) && gs.Unlayered() == old(gs.Unlayered())
      ensures Grown(old(gs.pots), gs.pots, old(gs.pot), gs.pot)
    {
      ghost var v0 := gs.View();
      var t := gs.toAct;
      var highest := gs.HighestBet();
      var callAmt := highest - player.bet;
      assert callAmt == Highest(v0) - v0[t].bet;
      var chips := callAmt;
      if action.Raise? {
        var minRaise := Max(bb, highest * 2 - player.bet);
        chips := callAmt + Max(amt, minRaise);
        assert chips == RaiseTotal(Highest(v0), v0[t].bet, amt, bb);
      }
      gs.CollectBet(player, chips, t);
      ActOnCollects(v0, t, action, amt, bb, chips);
      if action.Raise? {
        gs.lastAggressor := t;
      }
    }

    /** `player.has_folded = True` for the seat to act: only its fold
        flag changes, and no chip moves. */
    method FoldSeat(player: Player, ghost t: nat)
      requires gs.Valid() && t < |gs.players| && player == gs.players[t]
      modifies player`hasFolded
      ensures gs.View() == old(gs.View())[t := old(gs.View())[t].(hasFolded := true)]
      ensures gs.Chips() == old(gs.Chips())
    {
      ghost var v0 := gs.View();
      player.hasFolded := true;
      ViewsAt(gs.View(), v0, t);
      StackSumUpdate(v0, t, ViewOf(player));
    }

    /** The body of `run` for a seat that acts: `_act` and then the two
        end conditions, one active player left or every active player on
        the highest bet. */
    method Step(player: Player, d: Decision) returns (over: Option<RoundEnd>)
      requires gs.Valid() && player == gs.players[gs.toAct]
      modifies gs`pot, gs`pots, gs`lastAggressor, gs.players
      ensures gs.Valid()
      ensures gs.View() == ActOn(old(gs.View()), gs.toAct, d.action, d.amount, bb)
      ensures gs.lastAggressor == if d.action.Raise? then gs.toAct else old(gs.lastAggressor)
      ensures gs.Chips() == old(gs.Chips())
      ensures Grown(old(gs.pots), gs.pots, old(gs.pot), gs.pot)
      ensures over == RoundOver(gs.View())
    {
      Act(player, d.action, d.amount);
      over := EndCondition();
    }

    /** The end conditions of `run`: one active player left, or every
        active player on the highest bet. */
    method EndCondition() returns (over: Option<RoundEnd>)
      requires gs.Valid()
      ensures over == RoundOver(gs.View())
    {
      var active := gs.ActivePlayers();
      ActiveCount(gs.players);
      ActiveMatched(gs.players);
      if |active| == 1 {
        return Some(OneLeft);
      }
      if forall i :: 0 <= i < |active| ==> active[i].bet == gs.HighestBet() {
        return Some(AllMatched);
      }
      return None;
    }

    /** `run`: from the seat to act, every seat that has not folded and
        has chips acts on the next decision; the round ends after an
        action that leaves one active player or every active player on the
        highest bet, and otherwise the turn passes on.  The Python loop
        spins for ever when nobody can act or the decisions run out; here
        it stops and says which.  The seats, the seat to act and the last
        aggressor it leaves are those `RunFrom` computes. */
    method Run(decisions: seq<Decision>) returns (end: RoundEnd, used: nat)
      requires gs.Valid()
      modifies gs`pot, gs`pots, gs`toAct, gs`lastAggressor, gs.players
      ensures gs.Valid() && used <= |decisions|
      ensures var r := RunFrom(old(gs.View()), old(gs.toAct), 0, decisions, 0, old(gs.lastAggressor), bb);
        end == r.end && used == r.used && gs.View() == r.seats && gs.toAct == r.toAct &&
        gs.lastAggressor == r.aggressor
      ensures gs.Chips() == old(gs.Chips())
      ensures Grown(old(gs.pots), gs.pots, old(gs.pot), gs.pot)
    {
      var n := |gs.players|;
      used := 0;
      var idle := 0;
      ghost var start := gs.toAct;
      ghost var pots0, pot0 := gs.pots, gs.pot;
      ghost var goal := RunFrom(gs.View(), gs.toAct, 0, decisions, 0, gs.lastAggressor, bb);
      GrownSame(pots0, pot0);
      while true
        invariant gs.Valid() && |gs.players| == n && 0 <= idle <= n && used <= |decisions|
        invariant gs.Chips() == old(gs.Chips())
        invariant Grown(pots0, gs.pots, pot0, gs.pot)
        invariant 0 <= start < n && gs.toAct == Around(start, idle, n)
        invariant goal == RunFrom(gs.View(), start, idle, decisions, used, gs.lastAggressor, bb)
        decreases |decisions| - used, n - idle
      {
        if idle == n {
          return NobodyCanAct, used;
        }
        ghost var pots1, pot1 := gs.pots, gs.pot;
        var stop, next, start', idle' := Turn(start, idle, decisions, used);
        GrownTrans(pots0, pots1, gs.pots, pot0, pot1, gs.pot);
        used := next;
        if stop.Some? {
          return stop.value, used;
        }
        start, idle := start', idle';
      }
    }

    /** One pass of `run`'s loop at the seat to act, `start` and `idle`
        saying how it was reached: a seat that can act takes decision `k`
        and the round ends or the turn passes on; a seat that cannot act
        is passed over; with no decision left the loop stops.  What follows
        is what `RunFrom` computes from the seats before. */
    method Turn(ghost start: nat, idle: nat, ds: seq<Decision>, k: nat)
      returns (stop: Option<RoundEnd>, next: nat, ghost start': nat, idle': nat)
      requires gs.Valid() && start < |gs.players| && idle < |gs.players| && k <= |ds|
      requires gs.toAct == Around(start, idle, |gs.players|)
      modifies gs`pot, gs`pots, gs`toAct, gs`lastAggressor, gs.players
      ensures gs.Valid() && k <= next <= |ds|
      ensures gs.Chips() == old(gs.Chips())
      ensures Grown(old(gs.pots), gs.pots, old(gs.pot), gs.pot)
      ensures var r0 := RunFrom(old(gs.View()), start, idle, ds, k, old(gs.lastAggressor), bb);
        stop.Some? ==> r0 == RoundResult(stop.value, gs.View(), gs.toAct, next, gs.lastAggressor)
      ensures stop.None? ==> (next == k + 1 && idle' == 0) || (next == k && idle' == idle + 1)
      ensures stop.None? ==> start' < |gs.players| && gs.toAct == Around(start', idle', |gs.players|)
      ensures stop.None? ==>
        RunFrom(old(gs.View()), start, idle, ds, k, old(gs.lastAggressor), bb) ==
        RunFrom(gs.View(), start', idle', ds, next, gs.lastAggressor, bb)
    {
      var player := gs.players[gs.toAct];
      assert gs.View()[gs.toAct] == ViewOf(player);
      if !player.hasFolded && player.stack > 0 {
        if k == |ds| {
          GrownSame(gs.pots, gs.pot);
          return Some(OutOfDecisions), k, start, idle;
        }
        stop, start' := ActTurn(start, idle, player, ds, k);
        next, idle' := k + 1, 0;
      } else {
        SkipSeat(start, idle, ds, k);
        GrownSame(gs.pots, gs.pot);
        next, start', idle' := k, start, idle + 1;
        stop := None;
      }
    }

    /** The seat to act cannot act: the turn passes on. */
    method SkipSeat(ghost start: nat, ghost idle: nat, ghost ds: seq<Decision>, ghost k: nat)
      requires gs.Valid() && start < |gs.players| && idle < |gs.players| && k <= |ds|
      requires gs.toAct == Around(start, idle, |gs.players|) && !CanAct(gs.View()[gs.toAct])
      modifies gs`toAct
      ensures gs.Valid() && gs.toAct == Around(start, idle + 1, |gs.players|)
      ensures gs.View() == old(gs.View()) && gs.Chips() == old(gs.Chips())
      ensures RunFrom(old(gs.View()), start, idle, ds, k, gs.lastAggressor, bb) ==
        RunFrom(gs.View(), start, idle + 1, ds, k, gs.lastAggressor, bb)
    {
      RunFromSkip(gs.View(), start, idle, ds, k, gs.lastAggressor, bb);
      gs.PassTurn();
    }

    /** The seat to act can act: it takes decision `k`, and unless that
        ends the round the turn passes on. */
    method ActTurn(ghost start: nat, ghost idle: nat, player: Player, ds: seq<Decision>, k: nat)
      returns (stop: Option<RoundEnd>, ghost start': nat)
      requires gs.Valid() && start < |gs.players| && idle < |gs.players| && k < |ds|
      requires gs.toAct == Around(start, idle, |gs.players|) && player == gs.players[gs.toAct]
      requires !player.hasFolded && player.stack > 0
      modifies gs`pot, gs`pots, gs`toAct, gs`lastAggressor, gs.players
      ensures gs.Valid()
      ensures gs.Chips() == old(gs.Chips())
      ensures Grown(old(gs.pots), gs.pots, old(gs.pot), gs.pot)
      ensures var r0 := RunFrom(old(gs.View()), start, idle, ds, k, old(gs.lastAggressor), bb);
        stop.Some? ==> r0 == RoundResult(stop.value, gs.View(), gs.toAct, k + 1, gs.lastAggressor)
      ensures stop.None? ==> start' < |gs.players| && gs.toAct == start'
      ensures stop.None? ==>
        RunFrom(old(gs.View()), start, idle, ds, k, old(gs.lastAggressor), bb) ==
        RunFrom(gs.View(), start', 0, ds, k + 1, gs.lastAggressor, bb)
    {
      ghost var v := gs.View();
      assert v[gs.toAct] == ViewOf(player);
      ghost var t, w, a := RunFromAct(v, start, idle, ds, k, gs.lastAggressor, bb);
      stop := Step(player, ds[k]);
      start' := Around(gs.toAct, 1, |gs.players|);
      if stop.None? {
        gs.PassTurn();
      }
    }
  }

  /** Passing the turn on, `(k + 1) % n`, wraps the last seat to the
      first. */
  lemma NextSeat(k: int, n: int)
    requires 0 <= k < n
    ensures (k + 1) % n == if k + 1 < n then k + 1 else 0
  {
    if k + 1 == n {
      assert (k + 1) % n == 0;
    }
  }

  // ---------------------------------------------------------------------
  // Showdown
  // ---------------------------------------------------------------------

  /** The second `showdown`: every seat still in the hand is scored on its
      hole cards and the board; each layer with a contender goes to its
      strongest contenders, shares added up per seat and then credited to
      the stacks.  The odd chips of a split go to the first winner. */
  method ShowdownPayout(gs: GameState, eval: seq<Cards.Card> -> int)
    requires gs.Valid()
    modifies gs.players
    ensures gs.View() == Credited(old(gs.View()), Payouts(old(gs.View()), gs.pots, gs.board, eval))
  {
    var n := |gs.players|;
    var v0 := gs.View();
    var inHand := InHand(v0);
    var strength := Strengths(v0, gs.board, eval);
    var deltas := Zeros(n);
    var k := 0;
    assert gs.pots[k..] == gs.pots;
    while k < |gs.pots|
      modifies {}
      invariant 0 <= k <= |gs.pots| && |deltas| == n
      invariant SidePots.Settle(deltas, gs.pots[k..], inHand, strength) == Payouts(v0, gs.pots, gs.board, eval)
    {
      assert gs.pots[k..][1..] == gs.pots[k + 1..];
      deltas := PayLayer(deltas, gs.pots[k], inHand, strength);
      k := k + 1;
    }
    gs.CreditSeats(deltas);
  }

  /** One layer of the second `showdown`: the seats still in the hand
      that the layer admits, the strongest of them, and a share each
      added to their deltas, the odd chips to the first. */
  method PayLayer(deltas: seq<int>, layer: SidePots.Layer, inHand: set<nat>, strength: seq<int>)
    returns (paid: seq<int>)
    requires |strength| == |deltas|
    ensures paid == SidePots.Award(deltas, layer, inHand, strength)
  {
    var eligible := SidePots.Contending(layer, inHand, |deltas|);
    if eligible == [] {
      SidePots.AwardShares(deltas, layer, inHand, strength, [], 0, 0, deltas);
      return deltas;
    }
    var best := SidePots.MaxStrength(eligible, strength);
    var winners := SidePots.Filter(eligible, strength, best);
    assert winners == SidePots.LayerWinners(layer, inHand, strength);
    var share := layer.amount / |winners|;
    var odd := layer.amount % |winners|;
    paid := deltas;
    var j := 0;
    while j < |winners|
      invariant 0 <= j <= |winners| && |paid| == |deltas|
      invariant SidePots.Pay(paid, winners[j..], share, if j == 0 then odd else 0) ==
        SidePots.Pay(deltas, winners, share, odd)
    {
      SidePots.PayAt(paid, winners, j, share, if j == 0 then odd else 0);
      var w := winners[j];
      paid := paid[w := paid[w] + share + (if j == 0 then odd else 0)];
      j := j + 1;
    }
    SidePots.AwardShares(deltas, layer, inHand, strength, winners, share, odd, paid);
  }
}
