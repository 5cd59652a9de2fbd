/** Properties of play at the engine.py table, proved about the functions of
    EngineSpec that the `PokerEngine` class is proved to follow. */
module EngineProps {
  import opened Common
  import Shuffle
  import SidePots
  import opened EngineSpec

  // ---------------------------------------------------------------------
  // new_hand
  // ---------------------------------------------------------------------

  /** `new_hand` moves the button one seat on, puts the blinds on the next
      two seats and the first action on the seat after the big blind; the
      bet to match is the big blind, and the big blind closes the preflop
      round. */
  lemma NewHandSeats(cfg: Config, t: Table, rolls: seq<nat>)
    requires ValidConfig(cfg) && |t.stacks| == cfg.numPlayers
    ensures var n, u := cfg.numPlayers, NewHandSpec(cfg, t, rolls);
      u.button == (t.button + 1) % n && u.sb == (u.button + 1) % n && u.bb == (u.sb + 1) % n &&
      u.turn == (u.bb + 1) % n && u.sb != u.bb &&
      u.currentBet == cfg.bbAmt && u.lastRaiser == Some(u.bb) && u.stage == Preflop &&
      u.community == [] && u.active == Trues(n)
  {
    ResetSeats(cfg, t);
    var t1 := ResetHand(cfg, t);
    var t2 := PostBlinds(cfg, t1);
    assert t2.button == t1.button && t2.sb == t1.sb && t2.bb == t1.bb;
    assert t2.currentBet == t1.currentBet && t2.lastRaiser == t1.lastRaiser;
    assert t2.stage == t1.stage && t2.active == t1.active;
  }

  /** The blinds: each blind seat pays its blind or its whole stack,
      whichever is less, as its bet and its total; the pot is the two
      payments; the chips on the table are unchanged; and a blind seat left
      with nothing is all in, nobody else being all in. */
  lemma NewHandBlinds(cfg: Config, t: Table, rolls: seq<nat>)
    requires ValidConfig(cfg) && |t.stacks| == cfg.numPlayers
    ensures var n := cfg.numPlayers;
      var u := NewHandSpec(cfg, t, rolls);
      var sb := NextSeat(NextSeat(t.button, n), n);
      var bb := NextSeat(sb, n);
      var sbPaid := Min(cfg.sbAmt, t.stacks[sb]);
      var bbPaid := Min(cfg.bbAmt, t.stacks[bb]);
      u.sb == sb && u.bb == bb &&
      u.stacks == t.stacks[sb := t.stacks[sb] - sbPaid][bb := t.stacks[bb] - bbPaid] &&
      u.contributions == u.totalContrib == Zeros(n)[sb := sbPaid][bb := bbPaid] &&
      u.pot == sbPaid + bbPaid == Sum(u.totalContrib) &&
      Sum(u.stacks) + u.pot == Sum(t.stacks) &&
      forall i :: 0 <= i < n ==> (u.allIn[i] <==> (i == sb || i == bb) && u.stacks[i] == 0)
  {
    ResetSeats(cfg, t);
    var t1 := ResetHand(cfg, t);
    PostBlindsEffect(cfg, t1);
    var u := NewHandSpec(cfg, t, rolls);
    var t2 := PostBlinds(cfg, t1);
    assert u.stacks == t2.stacks && u.contributions == t2.contributions && u.pot == t2.pot;
    assert u.totalContrib == t2.totalContrib && u.allIn == t2.allIn && u.sb == t1.sb && u.bb == t1.bb;
  }

  /** Posting the blinds on a table where nothing has been put in. */
  lemma PostBlindsEffect(cfg: Config, t: Table)
    requires 0 <= t.sb < |t.stacks| && 0 <= t.bb < |t.stacks| && t.sb != t.bb
    requires |t.stacks| == |t.contributions| == |t.totalContrib| == |t.allIn|
    requires t.contributions == t.totalContrib == Zeros(|t.stacks|) && t.allIn == Falses(|t.stacks|)
    ensures var u, sb, bb := PostBlinds(cfg, t), t.sb, t.bb;
      var sbPaid := Min(cfg.sbAmt, t.stacks[sb]);
      var bbPaid := Min(cfg.bbAmt, t.stacks[bb]);
      u.stacks == t.stacks[sb := t.stacks[sb] - sbPaid][bb := t.stacks[bb] - bbPaid] &&
      u.contributions == u.totalContrib == Zeros(|t.stacks|)[sb := sbPaid][bb := bbPaid] &&
      u.pot == sbPaid + bbPaid == Sum(u.totalContrib) &&
      Sum(u.stacks) + u.pot == Sum(t.stacks) &&
      forall i :: 0 <= i < |t.stacks| ==> (u.allIn[i] <==> (i == sb || i == bb) && u.stacks[i] == 0)
  {
    var sb, bb := t.sb, t.bb;
    var sbPaid := Min(cfg.sbAmt, t.stacks[sb]);
    var bbPaid := Min(cfg.bbAmt, t.stacks[bb]);
    var s1 := t.stacks[sb := t.stacks[sb] - sbPaid];
    var s2 := s1[bb := t.stacks[bb] - bbPaid];
    PostBlindsPot(cfg, t);
    SumUpdate(t.stacks, sb, t.stacks[sb] - sbPaid);
    SumUpdate(s1, bb, t.stacks[bb] - bbPaid);
    var u := PostBlinds(cfg, t);
    assert u.stacks == s2;
    BlindsAllIn(s2, sb, bb, u.allIn);
  }

  /** The two `MarkAllIn` steps of the blinds, on a table where nobody was
      all in. */
  lemma BlindsAllIn(stacks: seq<int>, sb: nat, bb: nat, allIn: seq<bool>)
    requires sb < |stacks| && bb < |stacks|
    requires allIn == (if stacks[bb] == 0 then (if stacks[sb] == 0 then Falses(|stacks|)[sb := true]
      else Falses(|stacks|))[bb := true] else (if stacks[sb] == 0 then Falses(|stacks|)[sb := true]
      else Falses(|stacks|)))
    ensures forall i :: 0 <= i < |stacks| ==> (allIn[i] <==> (i == sb || i == bb) && stacks[i] == 0)
  {
  }

  /** With stacks and blinds not negative, the clamped blinds leave no
      stack negative. */
  lemma NewHandStacksNonNegative(cfg: Config, t: Table, rolls: seq<nat>)
    requires ValidConfig(cfg) && |t.stacks| == cfg.numPlayers
    requires cfg.sbAmt >= 0 && cfg.bbAmt >= 0
    requires forall i :: 0 <= i < |t.stacks| ==> t.stacks[i] >= 0
    ensures forall i :: 0 <= i < cfg.numPlayers ==> NewHandSpec(cfg, t, rolls).stacks[i] >= 0
  {
    NewHandBlinds(cfg, t, rolls);
  }

  /** An illustration of the finding beside NewHandBlinds, which states
      the clamp for every stack: engine.py:69-70 as written takes the
      blind in full, so a one-chip stack on the big blind of two goes to
      -1, where the clamped blind leaves it at 0 and all in. */
  lemma BlindOverdrawsAsWritten()
    ensures 1 - PostBlindAsWritten(1, 2) == -1
    ensures 1 - PostBlind(1, 2) == 0
  {
  }

  /** The 52 cards of the standard deck are distinct. */
  lemma StandardDeckDistinct()
    ensures NoDup(StandardDeck())
  {
    var d := StandardDeck();
    forall i, j | 0 <= i < j < 52 ensures d[i] != d[j] {
      assert i == 4 * (i / 4) + i % 4 && j == 4 * (j / 4) + j % 4;
    }
  }

  /** After `new_hand` the deck and the hole cards are the 52 cards, each
      once: two per seat, 52 - 2n left in the deck. */
  lemma NewHandCards(cfg: Config, t: Table, rolls: seq<nat>)
    requires ValidConfig(cfg) && |t.stacks| == cfg.numPlayers
    ensures var u := NewHandSpec(cfg, t, rolls);
      multiset(u.deck + Flatten(u.hole)) == multiset(StandardDeck()) &&
      NoDup(u.deck + Flatten(u.hole)) &&
      |u.deck| == 52 - 2 * cfg.numPlayers &&
      |u.hole| == cfg.numPlayers && forall i :: 0 <= i < cfg.numPlayers ==> |u.hole[i]| == 2
  {
    var t2 := PostBlinds(cfg, ResetHand(cfg, t));
    DealHandCards(cfg, t2, rolls);
    var u := NewHandSpec(cfg, t, rolls);
    assert u.deck + Flatten(u.hole) + u.community == u.deck + Flatten(u.hole);
    StandardDeckDistinct();
    PermutationNoDup(StandardDeck(), u.deck + Flatten(u.hole));
  }

  // ---------------------------------------------------------------------
  // player_action
  // ---------------------------------------------------------------------

  /** Every error of `player_action`, and exactly when it is raised. */
  lemma ActRejections(t: Table, tag: Tag, amount: int)
    requires TurnSeated(t)
    ensures var p, r := t.turn, ActSpec(t, tag, amount);
      (r == Err(AlreadyFolded) <==> !t.active[p]) &&
      (r == Err(AllInCannotAct) <==> t.active[p] && t.allIn[p]) &&
      (r == Err(CheckFacingBet) <==> CanAct(t, p) && tag == Check && t.contributions[p] != t.currentBet) &&
      (r == Err(BetFacingBet) <==> CanAct(t, p) && tag == Bet && t.currentBet != t.contributions[p]) &&
      (r == Err(BetNotPositive) <==>
        CanAct(t, p) && tag == Bet && t.currentBet == t.contributions[p] && amount <= 0) &&
      (r == Err(RaiseNotPositive) <==> CanAct(t, p) && tag == Raise && amount <= 0) &&
      (r == Err(UnknownAction) <==> CanAct(t, p) && tag.Other?)
  {
  }

  /** Chips moved by seat `p`: its stack loses what its bet, its total and
      the pot gain. */
  lemma MoveSums(t: Table, p: nat, x: int)
    requires p < |t.stacks| && p < |t.contributions| && p < |t.totalContrib|
    ensures var u := Move(t, p, x);
      Sum(u.stacks) + u.pot == Sum(t.stacks) + t.pot &&
      Sum(u.totalContrib) - u.pot == Sum(t.totalContrib) - t.pot
  {
    SumUpdate(t.stacks, p, t.stacks[p] - x);
    SumUpdate(t.totalContrib, p, t.totalContrib[p] + x);
  }

  /** An accepted action keeps every chip: what leaves the stacks is in
      the pot, and the pot grows with the totals put in. */
  lemma ActConserves(t: Table, tag: Tag, amount: int)
    requires TurnSeated(t)
    ensures ActSpec(t, tag, amount).Ok? ==>
      var u := ActSpec(t, tag, amount).value;
      Sum(u.stacks) + u.pot == Sum(t.stacks) + t.pot &&
      Sum(u.totalContrib) - u.pot == Sum(t.totalContrib) - t.pot
  {
    match tag
    case Call => CallConserves(t);
    case Bet => BetConserves(t, amount);
    case Raise => RaiseConserves(t, amount);
    case _ =>
  }

  lemma CallConserves(t: Table)
    requires TurnSeated(t)
    ensures var u := CallSpec(t);
      Sum(u.stacks) + u.pot == Sum(t.stacks) + t.pot &&
      Sum(u.totalContrib) - u.pot == Sum(t.totalContrib) - t.pot
  {
    var p := t.turn;
    var x := Min(t.currentBet - t.contributions[p], t.stacks[p]);
    MoveSums(t, p, x);
    var m := Move(t, p, x);
    assert CallSpec(t).stacks == m.stacks && CallSpec(t).pot == m.pot;
    assert CallSpec(t).totalContrib == m.totalContrib;
  }

  lemma BetConserves(t: Table, amount: int)
    requires TurnSeated(t)
    ensures var u := BetSpec(t, amount);
      Sum(u.stacks) + u.pot == Sum(t.stacks) + t.pot &&
      Sum(u.totalContrib) - u.pot == Sum(t.totalContrib) - t.pot
  {
    var p := t.turn;
    var amt := if amount > t.stacks[p] then t.stacks[p] else amount;
    var t0 := t.(currentBet := t.contributions[p] + amt);
    MoveSums(t0, p, amt);
    var m := Move(t0, p, amt);
    assert BetSpec(t, amount).stacks == m.stacks && BetSpec(t, amount).pot == m.pot;
    assert BetSpec(t, amount).totalContrib == m.totalContrib;
  }

  lemma RaiseConserves(t: Table, amount: int)
    requires TurnSeated(t)
    ensures var u := RaiseSpec(t, amount);
      Sum(u.stacks) + u.pot == Sum(t.stacks) + t.pot &&
      Sum(u.totalContrib) - u.pot == Sum(t.totalContrib) - t.pot
  {
    var p := t.turn;
    var x := Min(t.currentBet - t.contributions[p] + amount, t.stacks[p]);
    MoveSums(t, p, x);
    var m := Move(t, p, x);
    assert RaiseSpec(t, amount).stacks == m.stacks && RaiseSpec(t, amount).pot == m.pot;
    assert RaiseSpec(t, amount).totalContrib == m.totalContrib;
  }

  /** A fold only takes the seat out of the hand; a check changes nothing. */
  lemma FoldAndCheck(t: Table, amount: int)
    requires TurnSeated(t) && CanAct(t, t.turn)
    ensures ActSpec(t, Fold, amount) == Ok(t.(active := t.active[t.turn := false]))
    ensures t.contributions[t.turn] == t.currentBet ==> ActSpec(t, Check, amount) == Ok(t)
  {
  }

  /** A call moves `min(current_bet - contributions[p], stacks[p])` from
      the seat's stack to its bet, its total and the pot, touches no other
      seat, and leaves the seat all in exactly when its stack is empty;
      the seat then has matched the bet or is all in, with no stack below
      zero. */
  lemma CallMoves(t: Table)
    requires TurnSeated(t) && CanAct(t, t.turn)
    ensures var p, u := t.turn, CallSpec(t);
      var x := Min(t.currentBet - t.contributions[p], t.stacks[p]);
      u.stacks[p] == t.stacks[p] - x && u.contributions[p] == t.contributions[p] + x &&
      u.totalContrib[p] == t.totalContrib[p] + x && u.pot == t.pot + x &&
      (forall i :: 0 <= i < |t.stacks| && i != p ==>
        u.stacks[i] == t.stacks[i] && u.contributions[i] == t.contributions[i] &&
        u.totalContrib[i] == t.totalContrib[i] && u.allIn[i] == t.allIn[i]) &&
      (u.allIn[p] <==> u.stacks[p] == 0) &&
      u.currentBet == t.currentBet && u.lastRaiser == t.lastRaiser && u.active == t.active &&
      (t.stacks[p] >= 0 ==> u.stacks[p] >= 0 && (u.contributions[p] == t.currentBet || u.allIn[p]))
  {
  }

  /** An opening bet of `amount` (at most the stack) becomes the bet to
      match, the bettor's own bet, and the last raise. */
  lemma BetOpens(t: Table, amount: int)
    requires TurnSeated(t) && CanAct(t, t.turn)
    ensures var p, u := t.turn, BetSpec(t, amount);
      var amt := Min(amount, t.stacks[p]);
      u.currentBet == u.contributions[p] == t.contributions[p] + amt &&
      u.stacks[p] == t.stacks[p] - amt && u.pot == t.pot + amt &&
      u.lastRaiser == Some(p) && (u.allIn[p] <==> u.stacks[p] == 0)
  {
  }

  /** A raise never lowers the bet to match; with chips enough it lifts the
      bet by `amount` and the raiser's bet is the new bet; the raiser is
      the last raiser and is all in exactly when its stack is empty. */
  lemma RaiseNeverLowers(t: Table, amount: int)
    requires TurnSeated(t) && CanAct(t, t.turn) && amount > 0
    requires t.contributions[t.turn] <= t.currentBet
    ensures var p, u := t.turn, RaiseSpec(t, amount);
      u.currentBet >= t.currentBet &&
      (t.stacks[p] >= t.currentBet - t.contributions[p] + amount ==>
        u.currentBet == t.currentBet + amount && u.contributions[p] == u.currentBet) &&
      u.lastRaiser == Some(p) && (u.allIn[p] <==> u.stacks[p] == 0)
  {
  }

  /** engine.py:181 as written: an all-in raise that cannot even call
      lowers the bet to match.  Facing 20 with 15 chips, `raise 10` puts in
      15 and the bet falls to 15; the corrected rule keeps it at 20. */
  lemma ShortAllInLowersAsWritten(currentBet: int, raiserTotal: int)
    requires raiserTotal < currentBet
    ensures RaiseBetAsWritten(currentBet, raiserTotal) < currentBet
    ensures RaiseBet(currentBet, raiserTotal) == currentBet
  {
  }

  /** An illustration of ShortAllInLowersAsWritten and RaiseNeverLowers:
      facing 20 with 15 chips and nothing in, `raise 10` is capped at the
      stack, and the bet to match falls to 15 as written but stays at 20. */
  lemma ShortAllInExample()
    ensures RaiseBetAsWritten(20, 0 + Min(20 - 0 + 10, 15)) == 15
    ensures RaiseBet(20, 0 + Min(20 - 0 + 10, 15)) == 20
  {
  }

  /** test_engine.py:89-99 with three seats of 50 chips and blinds 1 and 2:
      the first actor, seat 0, raises 100 and is capped at its 50 chips. The
      rule as written and the modelled rule both make the bet to match 50,
      where the test expects it to stay at the big blind of 2. The turn then
      passes to the small blind, as the test expects. */
  lemma PartialRaiseTest(hv: HandValue, rolls: seq<nat>)
    ensures var cfg := Config(3, 50, 1, 2);
      var u := NewHandSpec(cfg, Initial(cfg), rolls);
      WellFormed(cfg, u) && u.stage == Preflop && u.turn == 0 && u.sb == 1 && u.currentBet == 2 &&
      RaiseBetAsWritten(u.currentBet, u.contributions[0] + 50) == 50 &&
      PlayerActionSpec(cfg, hv, u, Raise, 100).Ok? &&
      PlayerActionSpec(cfg, hv, u, Raise, 100).value.currentBet == 50 &&
      PlayerActionSpec(cfg, hv, u, Raise, 100).value.turn == u.sb
  {
    var cfg := Config(3, 50, 1, 2);
    var t := Initial(cfg);
    NewHandWellFormed(cfg, t, rolls);
    NewHandSeats(cfg, t, rolls);
    NewHandBlinds(cfg, t, rolls);
    var u := NewHandSpec(cfg, t, rolls);
    assert u.stacks == [50, 49, 48] && u.contributions == [0, 1, 2];
  }

  // ---------------------------------------------------------------------
  // _next_player
  // ---------------------------------------------------------------------

  /** The seat `i - seat` places on from `seat` round a table of `n`, for
      `seat < i < seat + n`: past the last seat the count starts again at
      seat 0. */
  function Wrap(i: int, n: nat): (r: int)
    requires 0 <= i < 2 * n
    ensures 0 <= r < n
  {
    if i < n then i else i - n
  }

  /** The search finds a seat that can act, and no seat it passes on the
      way can act. */
  lemma {:induction false} NextActorFound(t: Table, n: nat, seat: int, k: nat) returns (d: int)
    requires 0 < n == |t.active| == |t.allIn| && 0 <= seat < n && k <= n
    requires NextActor(t, n, seat, k).Some?
    ensures seat < d <= seat + k && NextActor(t, n, seat, k).value == Wrap(d, n)
    ensures CanAct(t, Wrap(d, n))
    ensures forall i :: seat < i < d ==> !CanAct(t, Wrap(i, n))
    decreases k
  {
    var next := NextSeat(seat, n);
    ModSmall(seat + 1 - (if seat + 1 < n then 0 else n), n);
    if CanAct(t, next) {
      d := seat + 1;
    } else if seat + 1 < n {
      d := NextActorFound(t, n, seat + 1, k - 1);
    } else {
      var d0 := NextActorFound(t, n, 0, k - 1);
      d := d0 + n;
      forall i | seat < i < d ensures !CanAct(t, Wrap(i, n)) {
        if i > n {
          assert Wrap(i, n) == Wrap(i - n, n);
        }
      }
    }
  }

  /** A search that finds nobody has passed only seats that cannot act. */
  lemma {:induction false} NextActorNone(t: Table, n: nat, seat: int, k: nat)
    requires 0 < n == |t.active| == |t.allIn| && 0 <= seat < n && k <= n
    requires NextActor(t, n, seat, k).None?
    ensures forall i :: seat < i <= seat + k ==> !CanAct(t, Wrap(i, n))
    decreases k
  {
    if k > 0 {
      var next := NextSeat(seat, n);
      ModSmall(seat + 1 - (if seat + 1 < n then 0 else n), n);
      if seat + 1 < n {
        NextActorNone(t, n, seat + 1, k - 1);
      } else {
        NextActorNone(t, n, 0, k - 1);
        forall i | seat < i <= seat + k ensures !CanAct(t, Wrap(i, n)) {
          if i > n {
            assert Wrap(i, n) == Wrap(i - n, n);
          }
        }
      }
    }
  }

  /** A search of the whole table that finds nobody means that no seat can
      act: everybody left is all in. */
  lemma NobodyCanAct(t: Table, n: nat, seat: int)
    requires 0 < n == |t.active| == |t.allIn| && 0 <= seat < n
    ensures NextActor(t, n, seat, n).None? <==> forall i :: 0 <= i < n ==> !CanAct(t, i)
  {
    if NextActor(t, n, seat, n).None? {
      NextActorNone(t, n, seat, n);
      forall i | 0 <= i < n ensures !CanAct(t, i) {
        var j := if i > seat then i else i + n;
        assert Wrap(j, n) == i;
      }
    } else {
      var d := NextActorFound(t, n, seat, n);
    }
  }

  lemma {:induction false} CountOne(s: seq<bool>, a: nat)
    requires a < |s| && s[a]
    ensures CountTrue(s) >= 1
  {
    if a > 0 {
      CountOne(s[1..], a - 1);
    }
  }

  lemma {:induction false} CountTwo(s: seq<bool>, a: nat, b: nat)
    requires a < b < |s| && s[a] && s[b]
    ensures CountTrue(s) >= 2
  {
    if a == 0 {
      CountOne(s[1..], b - 1);
    } else {
      CountTwo(s[1..], a - 1, b - 1);
    }
  }

  /** When one seat is left in after an action, that seat takes the whole
      pot and the hand is over; no chip is lost. */
  lemma FoldToOneWins(cfg: Config, hv: HandValue, t: Table)
    requires WellFormed(cfg, t) && Live(t.stage) && CountTrue(t.active) == 1
    ensures var u, w := NextPlayerSpec(cfg, hv, t), FirstTrue(t.active);
      (forall i :: 0 <= i < |t.active| ==> (t.active[i] <==> i == w)) &&
      u.stacks == t.stacks[w := t.stacks[w] + t.pot] && u.pot == 0 && u.stage == Complete &&
      Sum(u.stacks) == Sum(t.stacks) + Sum(t.totalContrib)
  {
    var w := FirstTrue(t.active);
    forall i | 0 <= i < |t.active| ensures t.active[i] <==> i == w {
      if i > w && t.active[i] {
        CountTwo(t.active, w, i);
      }
    }
    SumUpdate(t.stacks, w, t.stacks[w] + t.pot);
  }

  /** test_engine.py:47-54: heads up with 100 chips and blinds 1 and 2, the
      small blind folds its first action and the big blind ends the hand
      with 101. */
  lemma FoldHeadsUp(hv: HandValue, rolls: seq<nat>)
    ensures var cfg := Config(2, 100, 1, 2);
      var u := NewHandSpec(cfg, Initial(cfg), rolls);
      WellFormed(cfg, u) && u.stage == Preflop && u.turn == u.sb && u.bb == 0 &&
      PlayerActionSpec(cfg, hv, u, Fold, 0).Ok? &&
      PlayerActionSpec(cfg, hv, u, Fold, 0).value.stage == Complete &&
      PlayerActionSpec(cfg, hv, u, Fold, 0).value.stacks == [101, 99]
  {
    var cfg := Config(2, 100, 1, 2);
    var t := Initial(cfg);
    NewHandWellFormed(cfg, t, rolls);
    NewHandSeats(cfg, t, rolls);
    NewHandBlinds(cfg, t, rolls);
    var u := NewHandSpec(cfg, t, rolls);
    assert u.stacks == [98, 99] && u.pot == 3;
    var f := u.(active := u.active[1 := false]);
    assert f.active == [true, false];
    assert f.active[1..] == [false] && f.active[1..][1..] == [];
    assert CountTrue(f.active[1..]) == 0;
    assert CountTrue(f.active) == 1;
    assert FirstTrue(f.active) == 0;
  }

  // ---------------------------------------------------------------------
  // _end_betting_round and showdown
  // ---------------------------------------------------------------------

  /** Closing a betting street puts every bet back to zero, deals the next
      street from the deck (three cards after preflop, one after the flop and
      the turn, the board so far kept), and gives the first action and the
      closing of the round to the seat left of the button; no chip moves. */
  lemma EndRoundNextStreet(cfg: Config, hv: HandValue, t: Table)
    requires WellFormed(cfg, t) && (t.stage == Preflop || t.stage == Flop || t.stage == Turn)
    ensures var n, u := cfg.numPlayers, EndRoundSpec(cfg, hv, t);
      u.contributions == Zeros(n) && u.currentBet == 0 &&
      u.turn == (t.button + 1) % n && u.lastRaiser == Some(u.turn) &&
      u.stage == (if t.stage == Preflop then Flop else if t.stage == Flop then Turn else River) &&
      |u.community| == |t.community| + (if t.stage == Preflop then 3 else 1) &&
      (t.stage != Preflop ==> u.community[..|t.community|] == t.community) &&
      |u.deck| == |t.deck| - (if t.stage == Preflop then 4 else 2) &&
      u.stacks == t.stacks && u.pot == t.pot && u.totalContrib == t.totalContrib &&
      u.active == t.active && u.allIn == t.allIn && u.hole == t.hole
  {
  }

  /** Fast-forwarding when nobody can act only deals streets: it reaches
      the river and moves no chip. */
  lemma {:induction false} FastForwardKeeps(cfg: Config, hv: HandValue, t: Table)
    requires WellFormed(cfg, t) && Live(t.stage)
    ensures var u := FastForward(cfg, hv, t);
      u.stage == River && u.stacks == t.stacks && u.pot == t.pot &&
      u.totalContrib == t.totalContrib && u.active == t.active && u.allIn == t.allIn && u.hole == t.hole
    decreases StageRank(t.stage)
  {
    if t.stage != River {
      EndRoundNextStreet(cfg, hv, t);
      EndRoundWellFormed(cfg, hv, t);
      FastForwardKeeps(cfg, hv, EndRoundSpec(cfg, hv, t));
    }
  }

  /** The contested chips are never more than the chips in the layers. */
  lemma {:induction false} ClaimedAtMost(layers: seq<SidePots.Layer>, contenders: set<nat>, n: nat)
    requires forall k :: 0 <= k < |layers| ==> layers[k].amount > 0
    ensures 0 <= SidePots.Claimed(layers, contenders, n) <= SidePots.SumAmounts(layers)
  {
    if layers != [] {
      ClaimedAtMost(layers[1..], contenders, n);
    }
  }

  /** Showdown empties the pot into the stacks: exactly the chips of the
      contested layers are paid, never more than was put in, and all of it
      when every layer has a contender. */
  lemma ShowdownConserves(cfg: Config, hv: HandValue, t: Table)
    requires |t.active| == |t.allIn| == |t.hole| == |t.stacks| == cfg.numPlayers
    requires forall i :: 0 <= i < |t.totalContrib| ==> t.totalContrib[i] >= 0
    ensures var u, layers := ShowdownSpec(cfg, hv, t), SidePots.SidePots(t.totalContrib);
      var c, n := Contenders(cfg, hv, t), cfg.numPlayers;
      u.pot == 0 &&
      Sum(u.stacks) == Sum(t.stacks) + SidePots.Claimed(layers, c, n) &&
      Sum(t.stacks) <= Sum(u.stacks) <= Sum(t.stacks) + Sum(t.totalContrib) &&
      ((forall k :: 0 <= k < |layers| ==> SidePots.Contending(layers[k], c, n) != []) ==>
        Sum(u.stacks) == Sum(t.stacks) + Sum(t.totalContrib))
  {
    var layers := SidePots.SidePots(t.totalContrib);
    var c, n := Contenders(cfg, hv, t), cfg.numPlayers;
    SidePots.SettleSum(t.stacks, layers, c, Strengths(cfg, hv, t));
    SidePots.PeelShape(t.totalContrib, 0);
    SidePots.SidePotsSum(t.totalContrib);
    ClaimedAtMost(layers, c, n);
    if forall k :: 0 <= k < |layers| ==> SidePots.Contending(layers[k], c, n) != [] {
      SidePots.ClaimedAll(layers, c, n);
    }
  }

  /** `_next_player` moves chips only when the hand ends: while betting
      goes on the stacks, the pot and the totals are untouched; once it
      ends the pot is empty and the stacks have gained at most the pot. */
  lemma NextPlayerChips(cfg: Config, hv: HandValue, t: Table)
    requires WellFormed(cfg, t) && Live(t.stage)
    requires forall i :: 0 <= i < |t.totalContrib| ==> t.totalContrib[i] >= 0
    ensures var u := NextPlayerSpec(cfg, hv, t);
      (u.stage != Complete ==>
        u.stacks == t.stacks && u.pot == t.pot && u.totalContrib == t.totalContrib) &&
      (u.stage == Complete ==>
        u.pot == 0 && Sum(t.stacks) <= Sum(u.stacks) <= Sum(t.stacks) + t.pot)
  {
    var n := cfg.numPlayers;
    if CountTrue(t.active) == 1 {
      FoldToOneWins(cfg, hv, t);
      SumNonNegative(t.totalContrib);
    } else {
      match NextActor(t, n, t.turn, n)
      case None =>
        var t0 := t.(turn := Advance(t.turn, n, n));
        AdvanceInRange(t.turn, n, n);
        FastForwardWellFormed(cfg, hv, t0);
        FastForwardKeeps(cfg, hv, t0);
        var t1 := FastForward(cfg, hv, t0);
        ShowdownConserves(cfg, hv, t1.(stage := Complete));
      case Some(s) =>
        var t1 := t.(turn := s);
        if t.lastRaiser == Some(s) && Settled(t1) {
          NextActorInRange(t, n, t.turn, n);
          TurnWellFormed(cfg, t, s);
          if t.stage == River {
            var t2 := t1.(contributions := Zeros(n), currentBet := 0, stage := Complete);
            ShowdownConserves(cfg, hv, t2);
          } else {
            EndRoundNextStreet(cfg, hv, t1);
          }
        }
    }
  }

  lemma {:induction false} NextActorInRange(t: Table, n: nat, seat: int, k: nat)
    requires 0 < n == |t.active| == |t.allIn|
    ensures NextActor(t, n, seat, k).Some? ==> NextActor(t, n, seat, k).value < n
    decreases k
  {
    if k > 0 {
      NextActorInRange(t, n, NextSeat(seat, n), k - 1);
    }
  }
}
