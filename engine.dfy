/** `PokerEngine` of engine.py: the table state machine.  Its fields change
    in place exactly as the Python methods change them, and every method is
    proved to leave the table that the matching function of EngineSpec
    computes from the table before. */
module Engine {
  import opened Common
  import Shuffle
  import SidePots
  import opened EngineSpec

  /** The running best of `showdown` (engine.py:339-347): walk the eligible
      seats in order, restart the winner list on a stronger hand and extend
      it on an equal one. */
  method RunningBest(eligible: seq<nat>, hands: map<nat, int>, ghost strength: seq<int>) returns (winners: seq<nat>)
    requires |eligible| > 0
    requires forall i :: 0 <= i < |eligible| ==>
      (eligible[i] < |strength| && eligible[i] in hands && hands[eligible[i]] == strength[eligible[i]])
    ensures winners == SidePots.Winners(eligible, strength)
  {
    var best: Option<int> := None;
    winners := [];
    ghost var seen: seq<nat> := [];
    var j := 0;
    while j < |eligible|
      invariant 0 <= j <= |eligible| && seen == eligible[..j]
      invariant seen == [] ==> best.None? && winners == []
      invariant seen != [] ==> best == Some(SidePots.MaxStrength(seen, strength))
      invariant seen != [] ==> winners == SidePots.Winners(seen, strength)
    {
      var p := eligible[j];
      var h := hands[p];
      assert h == strength[p];
      if seen == [] {
        assert [] + [p] == [p];
        RunningBestFirst(p, strength);
      } else {
        SidePots.WinnersAppend(seen, p, strength);
        SidePots.MaxStrengthAppend(seen, p, strength);
      }
      if best.None? || h > best.value {
        best := Some(h);
        winners := [p];
      } else if h == best.value {
        winners := winners + [p];
      }
      TakeOneMore(eligible, j);
      seen := seen + [p];
      j := j + 1;
    }
    assert seen == eligible;
  }

  /** `eligible` and the running best of one layer in `showdown`: the
      contending seats in seat order, and those holding the best hand. */
  method LayerWinnersOf(layer: SidePots.Layer, hands: map<nat, int>, n: nat, ghost strength: seq<int>)
    returns (winners: seq<nat>)
    requires n == |strength|
    requires forall p :: p in hands ==> p < n && hands[p] == strength[p]
    ensures winners == SidePots.LayerWinners(layer, hands.Keys, strength)
  {
    var eligible := SidePots.Contending(layer, hands.Keys, n);
    if eligible == [] {
      return [];
    }
    winners := RunningBest(eligible, hands, strength);
  }

  /** `_compute_side_pots`: walk the contributions in ascending order;
      each amount above the last level opens a layer shared by every seat
      not yet passed. */
  method ComputeSidePots(tc: seq<int>) returns (pots: seq<SidePots.Layer>)
    ensures pots == SidePots.SidePots(tc)
  {
    var contribs := SidePots.SortedContribs(tc);
    pots := [];
    var prev := 0;
    var remaining := set e | e in contribs :: e.seat;
    ghost var remaining0 := remaining;
    ghost var whole := SidePots.EngineLoop(contribs, 0, 0, [], remaining);
    var k := 0;
    while k < |contribs|
      invariant k <= |contribs|
      invariant SidePots.EngineLoop(contribs, k, prev, pots, remaining) == whole
    {
      var e := contribs[k];
      if e.amt > prev {
        pots := pots + [SidePots.Layer((e.amt - prev) * |remaining|, remaining)];
        prev := e.amt;
      }
      remaining := remaining - {e.seat};
      k := k + 1;
    }
    SidePots.SortedContribsFacts(tc);
    assert remaining0 == SidePots.SeatsFrom(contribs, 0) by {
      forall s | s in remaining0 ensures s in SidePots.SeatsFrom(contribs, 0) {
        var e :| e in contribs && e.seat == s;
        var j :| 0 <= j < |contribs| && contribs[j] == e;
      }
    }
    assert [] + SidePots.Peel(tc, 0) == SidePots.SidePots(tc);
    SidePots.EngineLoopPeel(tc, contribs, 0, 0, []);
  }

  /** The deal loop of `new_hand`: each seat in turn takes two cards popped
      off the end of the deck. */
  method DealHoleCards(shuffled: seq<PkCard>, n: nat) returns (deck: seq<PkCard>, hole: seq<seq<PkCard>>)
    requires 2 * n <= |shuffled|
    ensures deck == shuffled[..|shuffled| - 2 * n]
    ensures hole == DealHole(shuffled, n)
  {
    deck := shuffled;
    hole := [];
    var i := 0;
    while i < n
      invariant 0 <= i <= n
      invariant deck == shuffled[..|shuffled| - 2 * i]
      invariant hole == DealHole(shuffled, i)
    {
      var c1 := deck[|deck| - 1];
      deck := deck[..|deck| - 1];
      var c2 := deck[|deck| - 1];
      deck := deck[..|deck| - 1];
      assert DealHole(shuffled, i + 1) == DealHole(shuffled, i) + [[c1, c2]];
      hole := hole + [[c1, c2]];
      i := i + 1;
    }
  }

  /** A single seat is the running best on its own. */
  lemma RunningBestFirst(p: nat, strength: seq<int>)
    requires p < |strength|
    ensures SidePots.MaxStrength([p], strength) == strength[p]
    ensures SidePots.Winners([p], strength) == [p]
  {
    assert SidePots.Filter([p][1..], strength, strength[p]) == [];
  }

  class PokerEngine {
    const numPlayers: nat
    const startingStack: int
    const sbAmt: int
    const bbAmt: int
    /** The hand evaluator (pokerkit's `StandardHighHand`), abstract. */
    const handValue: HandValue

    var stacks: seq<int>
    var button: int
    var sb: int
    var bb: int
    var deck: seq<PkCard>
    var holeCards: seq<seq<PkCard>>
    var community: seq<PkCard>
    var pot: int
    var stage: Stage
    var active: seq<bool>
    var contributions: seq<int>
    var totalContrib: seq<int>
    var allIn: seq<bool>
    var currentBet: int
    var turn: int
    var lastRaiser: Option<int>

    function Cfg(): Config
    {
      Config(numPlayers, startingStack, sbAmt, bbAmt)
    }

    /** The fields as one value. */
    function State(): Table
      reads this
    {
      Table(stacks, button, sb, bb, deck, holeCards, community, pot, stage, active,
            contributions, totalContrib, allIn, currentBet, turn, lastRaiser)
    }

    ghost predicate Valid()
      reads this
    {
      WellFormed(Cfg(), State())
    }

    /** The seat to act indexes every per-seat list. */
    predicate Seated()
      reads this
    {
      TurnSeated(State())
    }

    /** `__init__`: full stacks, no hand dealt yet. */
    constructor (numPlayers: nat, startingStack: int, sbAmt: int, bbAmt: int, handValue: HandValue)
      requires ValidConfig(Config(numPlayers, startingStack, sbAmt, bbAmt))
      ensures Cfg() == Config(numPlayers, startingStack, sbAmt, bbAmt) && this.handValue == handValue
      ensures State() == Initial(Cfg()) && Valid()
    {
      this.numPlayers := numPlayers;
      this.startingStack := startingStack;
      this.sbAmt := sbAmt;
      this.bbAmt := bbAmt;
      this.handValue := handValue;
      stacks := seq(numPlayers, _ => startingStack);
      button := -1;
      sb, bb := 0, 0;
      deck := [];
      holeCards := [];
      community := [];
      pot := 0;
      stage := NotStarted;
      active := Trues(numPlayers);
      contributions := Zeros(numPlayers);
      totalContrib := Zeros(numPlayers);
      allIn := Falses(numPlayers);
      currentBet := 0;
      turn := 0;
      lastRaiser := None;
    }

    /** `new_hand`: move the button, reset the betting state, post the
        blinds, shuffle with `rolls`, deal two cards to each seat by popping
        the deck, and give the turn to the seat after the big blind. */
    method NewHand(rolls: seq<nat>) returns (hole: seq<seq<PkCard>>)
      requires ValidConfig(Cfg()) && |stacks| == numPlayers
      modifies this
      ensures State() == NewHandSpec(Cfg(), old(State()), rolls)
      ensures hole == holeCards
      ensures Valid() && stage == Preflop
    {
      NewHandWellFormed(Cfg(), State(), rolls);
      ResetHand();
      PostBlinds();
      DealHand(rolls);
      hole := holeCards;
    }

    method ResetHand()
      requires ValidConfig(Cfg())
      modifies this
      ensures State() == EngineSpec.ResetHand(Cfg(), old(State()))
    {
      var n := numPlayers;
      var newButton := NextSeat(button, n);
      var newSb := NextSeat(newButton, n);
      var newBb := NextSeat(newSb, n);
      button, sb, bb := newButton, newSb, newBb;
      active, contributions, totalContrib, allIn := Trues(n), Zeros(n), Zeros(n), Falses(n);
      currentBet, stage, lastRaiser := bbAmt, Preflop, Some(newBb);
    }

    /** The blinds, each clamped to the stack (see the findings). */
    method PostBlinds()
      requires 0 <= sb < |stacks| && 0 <= bb < |stacks|
      requires |stacks| == |contributions| == |totalContrib| == |allIn|
      modifies this
      ensures State() == EngineSpec.PostBlinds(Cfg(), old(State()))
    {
      ghost var t := State();
      var sbPaid := PostBlind(stacks[sb], sbAmt);
      stacks := stacks[sb := stacks[sb] - sbPaid];
      var bbPaid := PostBlind(stacks[bb], bbAmt);
      stacks := stacks[bb := stacks[bb] - bbPaid];
      contributions := contributions[sb := sbPaid];
      contributions := contributions[bb := bbPaid];
      totalContrib := totalContrib[sb := sbPaid];
      totalContrib := totalContrib[bb := bbPaid];
      pot := sbPaid + bbPaid;
      ghost var t1 := State();
      assert t1 == EngineSpec.Blinded(Cfg(), t);
      if stacks[sb] == 0 {
        allIn := allIn[sb := true];
      }
      ghost var t2 := State();
      assert t2 == MarkAllIn(t1, sb);
      if stacks[bb] == 0 {
        allIn := allIn[bb := true];
      }
      assert State() == MarkAllIn(t2, bb);
    }

    /** Shuffle, deal the hole cards, clear the board, seat the first actor. */
    method DealHand(rolls: seq<nat>)
      requires ValidConfig(Cfg())
      modifies this
      ensures State() == EngineSpec.DealHand(Cfg(), old(State()), rolls)
    {
      var shuffled := Shuffle.Shuffle(StandardDeck(), rolls);
      deck, holeCards := DealHoleCards(shuffled, numPlayers);
      community := [];
      turn := NextSeat(bb, numPlayers);
    }

    /** `player_action`: reject the action, leaving every field as it was,
        or apply it to the seat to act and move on with `_next_player`. */
    method PlayerAction(tag: Tag, amount: int) returns (r: Outcome<ActionError>)
      requires Valid() && Live(stage)
      modifies this
      ensures PlayerActionSpec(Cfg(), handValue, old(State()), tag, amount).Err? ==>
        r == Fail(PlayerActionSpec(Cfg(), handValue, old(State()), tag, amount).error) && State() == old(State())
      ensures PlayerActionSpec(Cfg(), handValue, old(State()), tag, amount).Ok? ==>
        r == Pass && State() == PlayerActionSpec(Cfg(), handValue, old(State()), tag, amount).value
      ensures Valid()
    {
      ghost var t := State();
      r := ApplyAction(tag, amount);
      if r.Fail? {
        return;
      }
      ActWellFormed(Cfg(), t, tag, amount);
      NextPlayer();
    }

    /** The validation and chip movements of `player_action`, up to its call of
        `_next_player`. */
    method ApplyAction(tag: Tag, amount: int) returns (r: Outcome<ActionError>)
      requires Valid() && Live(stage)
      modifies this
      ensures ActSpec(old(State()), tag, amount).Err? ==>
        r == Fail(ActSpec(old(State()), tag, amount).error) && State() == old(State())
      ensures ActSpec(old(State()), tag, amount).Ok? ==>
        r == Pass && State() == ActSpec(old(State()), tag, amount).value
    {
      var player := turn;
      if !active[player] {
        return Fail(AlreadyFolded);
      }
      if allIn[player] {
        return Fail(AllInCannotAct);
      }
      match tag {
        case Fold =>
          active := active[player := false];
        case Check =>
          if contributions[player] != currentBet {
            return Fail(CheckFacingBet);
          }
        case Call =>
          Call();
        case Bet =>
          if currentBet != contributions[player] {
            return Fail(BetFacingBet);
          }
          if amount <= 0 {
            return Fail(BetNotPositive);
          }
          Bet(amount);
        case Raise =>
          if amount <= 0 {
            return Fail(RaiseNotPositive);
          }
          Raise(amount);
        case Other(_) =>
          return Fail(UnknownAction);
      }
      r := Pass;
    }

    /** The call: match the bet, or go all in for less. */
    method Call()
      requires Seated()
      modifies this
      ensures State() == CallSpec(old(State()))
    {
      var player := turn;
      var toCall := currentBet - contributions[player];
      var actual := Min(toCall, stacks[player]);
      PutIn(player, actual);
      CheckAllIn(player);
    }

    /** The opening bet, clamped to the stack. */
    method Bet(amount: int)
      requires Seated()
      modifies this
      ensures State() == BetSpec(old(State()), amount)
    {
      var player := turn;
      var amt := amount;
      if amt > stacks[player] {
        amt := stacks[player];
      }
      ghost var t := State();
      currentBet := contributions[player] + amt;
      assert State() == t.(currentBet := t.contributions[player] + amt);
      PutIn(player, amt);
      lastRaiser := Some(player);
      CheckAllIn(player);
    }

    /** The raise: call and add `amount`, all in when the stack is short. */
    method Raise(amount: int)
      requires Seated()
      modifies this
      ensures State() == RaiseSpec(old(State()), amount)
    {
      var player := turn;
      var toCall := currentBet - contributions[player];
      var raiseTotal := toCall + amount;
      var actual := Min(raiseTotal, stacks[player]);
      PutIn(player, actual);
      // never below the bet already standing (see the findings)
      currentBet := RaiseBet(currentBet, contributions[player]);
      lastRaiser := Some(player);
      CheckAllIn(player);
    }

    /** Seat `p` puts `x` more chips into the pot. */
    method PutIn(p: nat, x: int)
      requires p < |stacks| && p < |contributions| && p < |totalContrib|
      modifies this`stacks, this`contributions, this`totalContrib, this`pot
      ensures State() == Move(old(State()), p, x)
    {
      stacks := stacks[p := stacks[p] - x];
      contributions := contributions[p := contributions[p] + x];
      totalContrib := totalContrib[p := totalContrib[p] + x];
      pot := pot + x;
    }

    /** `if self.stacks[p] == 0: self.all_in[p] = True`. */
    method CheckAllIn(p: nat)
      requires p < |stacks| && p < |allIn|
      modifies this`allIn
      ensures State() == MarkAllIn(old(State()), p)
    {
      if stacks[p] == 0 {
        allIn := allIn[p := true];
      }
    }

    /** `_next_player`: pay a lone survivor, otherwise find the next seat
        that can act; when nobody can, deal out the board and show down;
        when the turn is back at the last raiser with every bet matched,
        close the street. */
    method NextPlayer()
      requires Valid() && Live(stage)
      modifies this
      ensures State() == NextPlayerSpec(Cfg(), handValue, old(State()))
      ensures Valid()
    {
      if CountTrue(active) == 1 {
        var winner := FirstTrue(active);
        stacks := stacks[winner := stacks[winner] + pot];
        pot := 0;
        stage := Complete;
        return;
      }
      ghost var t := State();
      var found := FindActor();
      TurnWellFormed(Cfg(), t, turn);
      if !found {
        RunOut();
        return;
      }
      var settled := AllSettled();
      if lastRaiser == Some(turn) && settled {
        EndBettingRound();
      }
    }

    /** The search of `_next_player`: step round the table at most once,
        stopping at the first seat that can act. */
    method FindActor() returns (found: bool)
      requires 0 < numPlayers && 0 <= turn < numPlayers && |active| == |allIn| == numPlayers
      modifies this
      ensures found ==> NextActor(old(State()), numPlayers, old(turn), numPlayers) == Some(turn)
      ensures !found ==>
        (NextActor(old(State()), numPlayers, old(turn), numPlayers).None? &&
         turn == Advance(old(turn), numPlayers, numPlayers))
      ensures 0 <= turn < numPlayers && State() == old(State()).(turn := turn)
    {
      ghost var t0 := State();
      var n := numPlayers;
      found := false;
      var k := 0;
      while k < n && !found
        invariant 0 <= k <= n && 0 <= turn < n
        invariant State() == t0.(turn := turn)
        invariant !found ==>
          (turn == Advance(t0.turn, n, k) && NextActor(t0, n, t0.turn, n) == NextActor(t0, n, turn, n - k))
        invariant found ==> NextActor(t0, n, t0.turn, n) == Some(turn)
        decreases n - k, !found
      {
        AdvanceStep(t0.turn, n, k);
        turn := NextSeat(turn, n);
        if active[turn] && !allIn[turn] {
          found := true;
        } else {
          k := k + 1;
        }
      }
    }

    /** Nobody can act: close every street up to the river, then show
        down. */
    method RunOut()
      requires Valid() && Live(stage)
      modifies this
      ensures WellFormed(Cfg(), FastForward(Cfg(), handValue, old(State())))
      ensures FastForward(Cfg(), handValue, old(State())).stage == River
      ensures State() == ShowdownSpec(Cfg(), handValue, FastForward(Cfg(), handValue, old(State())).(stage := Complete))
      ensures Valid()
    {
      ghost var t0 := State();
      FastForwardWellFormed(Cfg(), handValue, t0);
      while stage != River
        invariant Valid() && Live(stage)
        invariant FastForward(Cfg(), handValue, State()) == FastForward(Cfg(), handValue, t0)
        decreases StageRank(stage)
      {
        EndRoundWellFormed(Cfg(), handValue, State());
        EndBettingRound();
      }
      CompleteWellFormed(Cfg(), State());
      stage := Complete;
      ShowdownWellFormed(Cfg(), handValue, State());
      Showdown();
    }

    /** `all(not a or contributions[i] == current_bet or all_in[i] ...)`. */
    method AllSettled() returns (b: bool)
      requires |active| == |contributions| == |allIn| == numPlayers
      ensures b == Settled(State())
    {
      b := true;
      var i := 0;
      while i < numPlayers
        invariant 0 <= i <= numPlayers
        invariant b == forall j :: 0 <= j < i ==> !active[j] || contributions[j] == currentBet || allIn[j]
      {
        if !(!active[i] || contributions[i] == currentBet || allIn[i]) {
          b := false;
        }
        i := i + 1;
      }
    }

    /** `_end_betting_round`: clear the street's bets, deal the next street
        (or show down after the river) and give the turn to the seat left of
        the button. */
    method EndBettingRound()
      requires Valid()
      modifies this
      ensures State() == EndRoundSpec(Cfg(), handValue, old(State()))
      ensures Valid()
    {
      EndRoundWellFormed(Cfg(), handValue, State());
      if stage == River {
        CloseRiver();
      } else {
        NextStreet();
      }
    }

    /** The river closes: clear the bets and show down. */
    method CloseRiver()
      requires Valid() && stage == River
      modifies this
      ensures State() == EndRoundSpec(Cfg(), handValue, old(State()))
    {
      ghost var t := State();
      contributions := Zeros(numPlayers);
      currentBet := 0;
      stage := Complete;
      assert State() == t.(contributions := Zeros(numPlayers), currentBet := 0, stage := Complete);
      Showdown();
    }

    /** Any other street closes: clear the bets, deal the next street and
        reseat the turn. */
    method NextStreet()
      requires Valid() && stage != River
      modifies this
      ensures State() == EndRoundSpec(Cfg(), handValue, old(State()))
    {
      ghost var t := State();
      contributions := Zeros(numPlayers);
      currentBet := 0;
      ghost var t0 := State();
      assert t0 == t.(contributions := Zeros(numPlayers), currentBet := 0);
      ghost var street: Table;
      match stage {
        case Preflop =>
          var _ := DealFlop();
          street := State();
          stage := Flop;
          assert State() == street.(stage := Flop);
          assert EndRoundSpec(Cfg(), handValue, t) == Reseat(Cfg(), DealFlopSpec(t0).(stage := Flop));
        case Flop =>
          var _ := DealOne();
          street := State();
          stage := Turn;
          assert State() == street.(stage := Turn);
          assert EndRoundSpec(Cfg(), handValue, t) == Reseat(Cfg(), DealOneSpec(t0).(stage := Turn));
        case Turn =>
          var _ := DealOne();
          street := State();
          stage := River;
          assert State() == street.(stage := River);
          assert EndRoundSpec(Cfg(), handValue, t) == Reseat(Cfg(), DealOneSpec(t0).(stage := River));
        case _ =>
      }
      ghost var t1 := State();
      turn := NextSeat(button, numPlayers);
      lastRaiser := Some(turn);
      assert State() == Reseat(Cfg(), t1);
    }

    /** `deal_flop`: burn one card, then pop three onto the board. */
    method DealFlop() returns (board: seq<PkCard>)
      requires |deck| >= 4
      modifies this
      ensures State() == DealFlopSpec(old(State())) && board == community
    {
      ghost var d0 := deck;
      ghost var l := |deck|;
      deck := deck[..|deck| - 1];
      var flop := [];
      var j := 0;
      while j < 3
        invariant 0 <= j <= 3 && |flop| == j
        invariant deck == d0[..l - 1 - j]
        invariant forall m :: 0 <= m < j ==> flop[m] == d0[l - 2 - m]
        invariant State() == old(State()).(deck := deck)
      {
        flop := flop + [deck[|deck| - 1]];
        deck := deck[..|deck| - 1];
        j := j + 1;
      }
      assert flop == [d0[l - 2], d0[l - 3], d0[l - 4]];
      community := flop;
      board := community;
    }

    /** `deal_turn` and `deal_river` (the same steps): burn one card, then
        pop one onto the board. */
    method DealOne() returns (board: seq<PkCard>)
      requires |deck| >= 2
      modifies this
      ensures State() == DealOneSpec(old(State())) && board == community
    {
      deck := deck[..|deck| - 1];
      var c := deck[|deck| - 1];
      deck := deck[..|deck| - 1];
      community := community + [c];
      board := community;
    }

    /** `showdown`: evaluate every seat still holding cards, then pay each
        layer to its strongest contending seats. */
    method Showdown()
      requires |active| == |allIn| == |holeCards| == |stacks| == numPlayers
      modifies this
      ensures State() == ShowdownSpec(Cfg(), handValue, old(State()))
    {
      ghost var contenders := Contenders(Cfg(), handValue, State());
      ghost var strength := Strengths(Cfg(), handValue, State());
      var hands := CollectHands();
      var sidePots := ComputeSidePots(totalContrib);
      ghost var s0 := stacks;
      assert sidePots[0..] == sidePots;
      var k := 0;
      while k < |sidePots|
        invariant 0 <= k <= |sidePots| && |stacks| == numPlayers
        invariant SidePots.Settle(stacks, sidePots[k..], contenders, strength) ==
          SidePots.Settle(s0, sidePots, contenders, strength)
        invariant State() == old(State()).(stacks := stacks)
      {
        assert sidePots[k..][0] == sidePots[k] && sidePots[k..][1..] == sidePots[k + 1..];
        AwardLayer(sidePots[k], hands, strength);
        k := k + 1;
      }
      pot := 0;
    }

    /** The hands loop of `showdown`: every seat not folded (or all in)
        that the evaluator gives a hand. */
    method CollectHands() returns (hands: map<nat, int>)
      requires |active| == |allIn| == |holeCards| == numPlayers
      ensures hands.Keys == Contenders(Cfg(), handValue, State())
      ensures forall p :: p in hands ==> p < numPlayers && hands[p] == Strengths(Cfg(), handValue, State())[p]
    {
      ghost var contenders := Contenders(Cfg(), handValue, State());
      ghost var strength := Strengths(Cfg(), handValue, State());
      hands := map[];
      var i := 0;
      while i < numPlayers
        invariant 0 <= i <= numPlayers
        invariant forall p :: p in hands <==> p < i && p in contenders
        invariant forall p :: p in hands ==> p < numPlayers && hands[p] == strength[p]
      {
        if !active[i] && !allIn[i] {
          i := i + 1;
          continue;
        }
        var hand := handValue(holeCards[i], community);
        if hand.Some? {
          hands := hands[i := hand.value];
        }
        i := i + 1;
      }
      assert forall p :: p in hands.Keys <==> p in contenders;
    }

    /** One layer of `showdown`: its contending seats, their running best,
        and the share paid to each winner. */
    method AwardLayer(layer: SidePots.Layer, hands: map<nat, int>, ghost strength: seq<int>)
      requires |stacks| == |strength| == numPlayers
      requires forall p :: p in hands ==> p < numPlayers && hands[p] == strength[p]
      modifies this`stacks
      ensures stacks == SidePots.Award(old(stacks), layer, hands.Keys, strength)
    {
      var winners := LayerWinnersOf(layer, hands, numPlayers, strength);
      if winners == [] {
        SidePots.AwardShares(stacks, layer, hands.Keys, strength, winners, 0, 0, stacks);
        return;
      }
      ghost var before := stacks;
      var share, odd := layer.amount / |winners|, layer.amount % |winners|;
      PayShares(winners, share, odd);
      SidePots.AwardShares(before, layer, hands.Keys, strength, winners, share, odd, stacks);
    }

    /** `for w in winners: self.stacks[w] += share`, with the odd chips
        going to the first winner (see the findings). */
    method PayShares(winners: seq<nat>, share: int, odd: int)
      requires forall i :: 0 <= i < |winners| ==> winners[i] < |stacks|
      modifies this`stacks
      ensures stacks == SidePots.Pay(old(stacks), winners, share, odd)
    {
      var j := 0;
      while j < |winners|
        invariant 0 <= j <= |winners| && |stacks| == |old(stacks)|
        invariant SidePots.Pay(stacks, winners[j..], share, if j == 0 then odd else 0) ==
          SidePots.Pay(old(stacks), winners, share, odd)
      {
        var extra := if j == 0 then odd else 0;
        SidePots.PayAt(stacks, winners, j, share, extra);
        var p := winners[j];
        stacks := stacks[p := stacks[p] + share + extra];
        j := j + 1;
      }
      assert winners[|winners|..] == [];
    }
  }

  lemma TakeOneMore<T>(s: seq<T>, j: nat)
    requires j < |s|
    ensures s[..j + 1] == s[..j] + [s[j]]
  {
  }

  /** One more step of the walk. */
  lemma AdvanceStep(seat: int, n: nat, k: nat)
    requires n > 0
    ensures Advance(seat, n, k + 1) == NextSeat(Advance(seat, n, k), n)
    decreases k
  {
    if k > 0 {
      AdvanceStep(NextSeat(seat, n), n, k - 1);
    }
  }
}
