/** The table of engine.py as values: one `Table` holds every field that
    `PokerEngine` changes during play, and each operation of the engine is a
    function from the table before to the table after.  The class in
    engine.dfy performs the same steps in place and is proved to agree with
    these functions; the properties of play are proved about them in
    engine_props.dfy. */
module EngineSpec {
  import opened Common
  import Shuffle
  import SidePots

  /** `stage`: None before the first hand, then the street names. */
  datatype Stage = NotStarted | Preflop | Flop | Turn | River | Complete

  /** A street on which betting takes place. */
  predicate Live(s: Stage)
  {
    s.Preflop? || s.Flop? || s.Turn? || s.River?
  }

  /** A card as `_card_to_tuple` stores it: rank 2..14, suit 0..3 for
      "c", "d", "h", "s". */
  datatype PkCard = PkCard(rank: int, suit: int)

  predicate ValidTuple(c: PkCard)
  {
    2 <= c.rank <= 14 && 0 <= c.suit < 4
  }

  /** `Deck.STANDARD`, ranks outermost, already turned into tuples. */
  function StandardDeck(): (d: seq<PkCard>)
    ensures |d| == 52
  {
    seq(52, k => PkCard(k / 4 + 2, k % 4))
  }

  const RankChars: string := "23456789TJQKA"
  const SuitChars: string := "cdhs"

  /** `_tuple_to_str`: None where a rank or suit outside the two maps
      raises `KeyError`. */
  function TupleToStr(c: PkCard): (r: Option<string>)
    ensures r.Some? <==> ValidTuple(c)
    ensures r.Some? ==> |r.value| == 2 && r.value[0] in RankChars && r.value[1] in SuitChars
  {
    if ValidTuple(c) then Some([RankChars[c.rank - 2], SuitChars[c.suit]]) else None
  }

  /** Different cards print differently, and the ace of spades prints as
      "As". */
  lemma TupleToStrInjective(a: PkCard, b: PkCard)
    requires ValidTuple(a) && ValidTuple(b) && TupleToStr(a) == TupleToStr(b)
    ensures a == b
    ensures TupleToStr(PkCard(14, 3)) == Some("As")
  {
    assert forall i, j :: 0 <= i < j < |RankChars| ==> RankChars[i] != RankChars[j];
    assert forall i, j :: 0 <= i < j < |SuitChars| ==> SuitChars[i] != SuitChars[j];
    assert TupleToStr(a).value[0] == TupleToStr(b).value[0];
    assert TupleToStr(a).value[1] == TupleToStr(b).value[1];
  }

  /** The action tags of `player_action`; anything else is `Other`. */
  datatype Tag = Fold | Check | Call | Bet | Raise | Other(name: string)

  /** The `ValueError`s `player_action` raises. */
  datatype ActionError =
    | AlreadyFolded      // "Player already folded"
    | AllInCannotAct     // "Player is all-in and cannot act"
    | CheckFacingBet     // "Cannot check when facing a bet"
    | BetFacingBet       // "Cannot bet when facing a bet"
    | BetNotPositive     // "Bet amount must be positive"
    | RaiseNotPositive   // "Raise amount must be positive"
    | UnknownAction      // "Unknown action: ..."

  /** The arguments of `PokerEngine.__init__`. */
  datatype Config = Config(numPlayers: nat, startingStack: int, sbAmt: int, bbAmt: int)

  /** Two seats at least, and few enough that two hole cards each plus
      three burns and five board cards fit in 52 cards (otherwise a
      `deck.pop()` fails). */
  predicate ValidConfig(cfg: Config)
  {
    2 <= cfg.numPlayers <= 22
  }

  /** The evaluator of a seat's hole cards with the board:
      `StandardHighHand.from_game_or_none` followed by its comparison,
      abstracted to an integer strength (larger is better, None when no
      hand can be formed). */
  type HandValue = (seq<PkCard>, seq<PkCard>) -> Option<int>

  /** Every field of `PokerEngine` that play changes. */
  datatype Table = Table(
    stacks: seq<int>,
    button: int,
    sb: int,
    bb: int,
    deck: seq<PkCard>,
    hole: seq<seq<PkCard>>,
    community: seq<PkCard>,
    pot: int,
    stage: Stage,
    active: seq<bool>,
    contributions: seq<int>,
    totalContrib: seq<int>,
    allIn: seq<bool>,
    currentBet: int,
    turn: int,
    lastRaiser: Option<int>)

  function Trues(n: nat): (r: seq<bool>)
    ensures |r| == n && forall i :: 0 <= i < n ==> r[i]
  {
    seq(n, _ => true)
  }

  function Falses(n: nat): (r: seq<bool>)
    ensures |r| == n && forall i :: 0 <= i < n ==> !r[i]
  {
    seq(n, _ => false)
  }

  /** Cards left in the deck on each street: two hole cards per seat are
      gone preflop, then burn + 3, burn + 1 and burn + 1. */
  function DeckLeft(n: nat, s: Stage): int
  {
    match s
    case Preflop => 52 - 2 * n
    case Flop => 48 - 2 * n
    case Turn => 46 - 2 * n
    case River => 44 - 2 * n
    case _ => 0
  }

  /** Board cards on each street. */
  function BoardSize(s: Stage): nat
  {
    match s
    case Flop => 3
    case Turn => 4
    case River => 5
    case _ => 0
  }

  /** The deck, the hole cards and the board are disjoint parts of the
      standard deck. */
  ghost predicate CardsFrom(deck: seq<PkCard>, hole: seq<seq<PkCard>>, community: seq<PkCard>)
  {
    multiset(deck + Flatten(hole) + community) <= multiset(StandardDeck())
  }

  /** The shape every reachable table has. */
  ghost predicate WellFormed(cfg: Config, t: Table)
  {
    var n := cfg.numPlayers;
    ValidConfig(cfg) &&
    |t.stacks| == n && |t.active| == n && |t.contributions| == n &&
    |t.totalContrib| == n && |t.allIn| == n &&
    -1 <= t.button < n &&
    (t.stage != NotStarted ==>
      0 <= t.button && 0 <= t.sb < n && 0 <= t.bb < n && 0 <= t.turn < n &&
      |t.hole| == n && (forall i :: 0 <= i < n ==> |t.hole[i]| == 2) &&
      t.lastRaiser.Some? && 0 <= t.lastRaiser.value < n &&
      CardsFrom(t.deck, t.hole, t.community)) &&
    (Live(t.stage) ==>
      t.pot == Sum(t.totalContrib) &&
      |t.deck| == DeckLeft(n, t.stage) && |t.community| == BoardSize(t.stage))
  }

  /** The table `__init__` builds. */
  function Initial(cfg: Config): Table
  {
    var n := cfg.numPlayers;
    Table(seq(n, _ => cfg.startingStack), -1, 0, 0, [], [], [], 0, NotStarted,
          Trues(n), Zeros(n), Zeros(n), Falses(n), 0, 0, None)
  }

  // ---------------------------------------------------------------------
  // new_hand
  // ---------------------------------------------------------------------

  /** engine.py:69-70 as written: the blind is taken in full, whatever the
      stack holds. */
  function PostBlindAsWritten(stack: int, amt: int): int
  {
    amt
  }

  /** The blind actually posted: at most what the stack holds, the rest
      of the stack going all in. */
  function PostBlind(stack: int, amt: int): int
  {
    Min(amt, stack)
  }

  /** Two cards per seat popped from the end of `shuffled`: seat i first
      gets the card at position |shuffled| - 1 - 2i, then the one below. */
  function DealHole(shuffled: seq<PkCard>, n: nat): (r: seq<seq<PkCard>>)
    requires 2 * n <= |shuffled|
    ensures |r| == n
  {
    seq(n, i requires 0 <= i < n => [shuffled[|shuffled| - 1 - 2 * i], shuffled[|shuffled| - 2 - 2 * i]])
  }

  /** The first part of `new_hand`: move the button and the blinds one seat
      on and clear the betting state. */
  function ResetHand(cfg: Config, t: Table): Table
    requires cfg.numPlayers > 0
  {
    var n := cfg.numPlayers;
    var button := NextSeat(t.button, n);
    var sb := NextSeat(button, n);
    var bb := NextSeat(sb, n);
    t.(button := button, sb := sb, bb := bb, active := Trues(n), contributions := Zeros(n),
       totalContrib := Zeros(n), allIn := Falses(n), currentBet := cfg.bbAmt, stage := Preflop,
       lastRaiser := Some(bb))
  }

  /** Posting the blinds: each blind leaves its stack and becomes that
      seat's contribution; a stack emptied by its blind is all in. */
  function PostBlinds(cfg: Config, t: Table): Table
    requires 0 <= t.sb < |t.stacks| && 0 <= t.bb < |t.stacks|
    requires |t.stacks| == |t.contributions| == |t.totalContrib| == |t.allIn|
  {
    MarkAllIn(MarkAllIn(Blinded(cfg, t), t.sb), t.bb)
  }

  /** The blinds moved from their stacks into the contributions and the
      pot, before the all-in marks. */
  function Blinded(cfg: Config, t: Table): (r: Table)
    requires 0 <= t.sb < |t.stacks| && 0 <= t.bb < |t.stacks|
    requires |t.stacks| == |t.contributions| == |t.totalContrib| == |t.allIn|
    ensures |r.stacks| == |r.allIn| == |t.stacks|
  {
    var sbPaid := PostBlind(t.stacks[t.sb], cfg.sbAmt);
    var stacks1 := t.stacks[t.sb := t.stacks[t.sb] - sbPaid];
    var bbPaid := PostBlind(stacks1[t.bb], cfg.bbAmt);
    t.(stacks := stacks1[t.bb := stacks1[t.bb] - bbPaid],
       contributions := t.contributions[t.sb := sbPaid][t.bb := bbPaid],
       totalContrib := t.totalContrib[t.sb := sbPaid][t.bb := bbPaid],
       pot := sbPaid + bbPaid)
  }

  /** Shuffling a fresh deck with `rolls`, dealing two cards to every seat
      from the end of it, clearing the board and seating the first actor
      after the big blind. */
  function DealHand(cfg: Config, t: Table, rolls: seq<nat>): Table
    requires 0 < cfg.numPlayers <= 22
  {
    var n := cfg.numPlayers;
    var shuffled := Shuffle.Shuffled(StandardDeck(), rolls);
    t.(deck := shuffled[..52 - 2 * n], hole := DealHole(shuffled, n), community := [],
       turn := NextSeat(t.bb, n))
  }

  /** `new_hand` with the shuffle driven by `rolls`. */
  function NewHandSpec(cfg: Config, t: Table, rolls: seq<nat>): Table
    requires ValidConfig(cfg) && |t.stacks| == cfg.numPlayers
  {
    var t1 := ResetHand(cfg, t);
    DealHand(cfg, PostBlinds(cfg, t1), rolls)
  }

  // ---------------------------------------------------------------------
  // player_action, up to the call of _next_player
  // ---------------------------------------------------------------------

  /** Seat `p` puts `x` more chips in. */
  function Move(t: Table, p: nat, x: int): Table
    requires p < |t.stacks| && p < |t.contributions| && p < |t.totalContrib|
  {
    t.(stacks := t.stacks[p := t.stacks[p] - x],
       contributions := t.contributions[p := t.contributions[p] + x],
       totalContrib := t.totalContrib[p := t.totalContrib[p] + x],
       pot := t.pot + x)
  }

  /** After chips move, a seat left with nothing is all in. */
  function MarkAllIn(t: Table, p: nat): Table
    requires p < |t.stacks| && p < |t.allIn|
  {
    if t.stacks[p] == 0 then t.(allIn := t.allIn[p := true]) else t
  }

  /** engine.py:181 as written: the bet to match becomes the raiser's
      contribution, even when an all-in for less leaves it below the bet. */
  function RaiseBetAsWritten(currentBet: int, raiserTotal: int): int
  {
    raiserTotal
  }

  /** The bet to match after a raise: the raiser's contribution when it is
      higher, otherwise unchanged. */
  function RaiseBet(currentBet: int, raiserTotal: int): int
  {
    Max(currentBet, raiserTotal)
  }

  /** The seat to act indexes every per-seat list. */
  predicate TurnSeated(t: Table)
  {
    0 <= t.turn < |t.stacks| == |t.active| == |t.contributions| == |t.totalContrib| == |t.allIn|
  }

  /** `call`: match the bet, or go all in for less. */
  function CallSpec(t: Table): Table
    requires TurnSeated(t)
  {
    var p := t.turn;
    var actual := Min(t.currentBet - t.contributions[p], t.stacks[p]);
    MarkAllIn(Move(t, p, actual), p)
  }

  /** `bet`, once it is allowed: the amount clamped to the stack becomes the
      bet to match. */
  function BetSpec(t: Table, amount: int): Table
    requires TurnSeated(t)
  {
    var p := t.turn;
    var amt := if amount > t.stacks[p] then t.stacks[p] else amount;
    var t1 := Move(t.(currentBet := t.contributions[p] + amt), p, amt);
    MarkAllIn(t1.(lastRaiser := Some(p)), p)
  }

  /** `raise`, once it is allowed: call and add `amount`, all in when the
      stack is short. */
  function RaiseSpec(t: Table, amount: int): Table
    requires TurnSeated(t)
  {
    var p := t.turn;
    var actual := Min(t.currentBet - t.contributions[p] + amount, t.stacks[p]);
    var t1 := Move(t, p, actual);
    var t2 := t1.(currentBet := RaiseBet(t.currentBet, t1.contributions[p]), lastRaiser := Some(p));
    MarkAllIn(t2, p)
  }

  /** The validation and chip movement of `player_action` for the seat to
      act, before `_next_player`. */
  function ActSpec(t: Table, tag: Tag, amount: int): Result<Table, ActionError>
    requires TurnSeated(t)
  {
    var p := t.turn;
    if !t.active[p] then Err(AlreadyFolded)
    else if t.allIn[p] then Err(AllInCannotAct)
    else match tag
      case Fold => Ok(t.(active := t.active[p := false]))
      case Check =>
        if t.contributions[p] != t.currentBet then Err(CheckFacingBet) else Ok(t)
      case Call => Ok(CallSpec(t))
      case Bet =>
        if t.currentBet != t.contributions[p] then Err(BetFacingBet)
        else if amount <= 0 then Err(BetNotPositive)
        else Ok(BetSpec(t, amount))
      case Raise =>
        if amount <= 0 then Err(RaiseNotPositive)
        else Ok(RaiseSpec(t, amount))
      case Other(_) => Err(UnknownAction)
  }

  // ---------------------------------------------------------------------
  // Dealing the board
  // ---------------------------------------------------------------------

  /** `deal_flop`: burn the last card, then pop three onto the board. */
  function DealFlopSpec(t: Table): Table
    requires |t.deck| >= 4
  {
    var l := |t.deck|;
    t.(deck := t.deck[..l - 4], community := [t.deck[l - 2], t.deck[l - 3], t.deck[l - 4]])
  }

  /** `deal_turn` and `deal_river`: burn the last card, then pop one onto
      the board. */
  function DealOneSpec(t: Table): Table
    requires |t.deck| >= 2
  {
    var l := |t.deck|;
    t.(deck := t.deck[..l - 2], community := t.community + [t.deck[l - 2]])
  }

  // ---------------------------------------------------------------------
  // showdown
  // ---------------------------------------------------------------------

  /** The seats that hold a hand at showdown: not folded (or all in) and
      given a value by the evaluator. */
  function Contenders(cfg: Config, hv: HandValue, t: Table): set<nat>
    requires |t.active| == |t.allIn| == |t.hole| == cfg.numPlayers
  {
    set i: nat | i < cfg.numPlayers && (t.active[i] || t.allIn[i]) && hv(t.hole[i], t.community).Some?
  }

  /** Each seat's hand strength (0 where it has none; such a seat never
      contends). */
  function Strengths(cfg: Config, hv: HandValue, t: Table): (r: seq<int>)
    requires |t.hole| == cfg.numPlayers
    ensures |r| == cfg.numPlayers
  {
    seq(cfg.numPlayers, i requires 0 <= i < cfg.numPlayers =>
      match hv(t.hole[i], t.community) case Some(v) => v case None => 0)
  }

  /** `showdown`: every layer of `_compute_side_pots` goes to its strongest
      contending seats, and the pot is emptied. */
  function ShowdownSpec(cfg: Config, hv: HandValue, t: Table): Table
    requires |t.active| == |t.allIn| == |t.hole| == |t.stacks| == cfg.numPlayers
  {
    var layers := SidePots.SidePots(t.totalContrib);
    t.(stacks := SidePots.Settle(t.stacks, layers, Contenders(cfg, hv, t), Strengths(cfg, hv, t)), pot := 0)
  }

  // ---------------------------------------------------------------------
  // _end_betting_round and _next_player
  // ---------------------------------------------------------------------

  /** The seat left of the button opens the next street. */
  function Reseat(cfg: Config, t: Table): Table
    requires cfg.numPlayers > 0
  {
    var first := NextSeat(t.button, cfg.numPlayers);
    t.(turn := first, lastRaiser := Some(first))
  }

  /** `_end_betting_round`. */
  function EndRoundSpec(cfg: Config, hv: HandValue, t: Table): Table
    requires WellFormed(cfg, t)
  {
    var t0 := t.(contributions := Zeros(cfg.numPlayers), currentBet := 0);
    match t.stage
    case Preflop => Reseat(cfg, DealFlopSpec(t0).(stage := Flop))
    case Flop => Reseat(cfg, DealOneSpec(t0).(stage := Turn))
    case Turn => Reseat(cfg, DealOneSpec(t0).(stage := River))
    case River => ShowdownSpec(cfg, hv, t0.(stage := Complete))
    case _ => Reseat(cfg, t0)
  }

  function StageRank(s: Stage): nat
  {
    match s
    case Preflop => 3
    case Flop => 2
    case Turn => 1
    case _ => 0
  }

  /** `while self.stage != "river": self._end_betting_round()`. */
  function FastForward(cfg: Config, hv: HandValue, t: Table): (r: Table)
    requires WellFormed(cfg, t) && Live(t.stage)
    decreases StageRank(t.stage)
  {
    if t.stage == River then t
    else
      var t1 := EndRoundSpec(cfg, hv, t);
      EndRoundWellFormed(cfg, hv, t);
      FastForward(cfg, hv, t1)
  }

  predicate CanAct(t: Table, i: nat)
    requires i < |t.active| && i < |t.allIn|
  {
    t.active[i] && !t.allIn[i]
  }

  /** `(seat + 1) % n`: the next seat round the table. */
  function NextSeat(seat: int, n: nat): (r: int)
    requires n > 0
    ensures 0 <= r < n
  {
    (seat + 1) % n
  }

  /** Where `turn = (turn + 1) % n` repeated `steps` times leaves `seat`. */
  function Advance(seat: int, n: nat, steps: nat): int
    requires n > 0
    decreases steps
  {
    if steps == 0 then seat else Advance(NextSeat(seat, n), n, steps - 1)
  }

  /** The search of `_next_player`: stepping round the table from `seat`
      at most `steps` times, the first seat reached that can act. */
  function NextActor(t: Table, n: nat, seat: int, steps: nat): Option<nat>
    requires 0 < n == |t.active| == |t.allIn|
    decreases steps
  {
    if steps == 0 then None
    else
      var next := NextSeat(seat, n);
      if CanAct(t, next) then Some(next) else NextActor(t, n, next, steps - 1)
  }

  /** Every seat still in has matched the bet or is all in. */
  predicate Settled(t: Table)
    requires |t.active| == |t.contributions| == |t.allIn|
  {
    forall i :: 0 <= i < |t.active| ==> !t.active[i] || t.contributions[i] == t.currentBet || t.allIn[i]
  }

  /** The lowest seat still in, `next(i for i, a in enumerate(active) if a)`. */
  function FirstTrue(s: seq<bool>): (r: nat)
    requires CountTrue(s) > 0
    ensures r < |s| && s[r] && forall i :: 0 <= i < r ==> !s[i]
  {
    if s[0] then 0 else FirstTrue(s[1..]) + 1
  }

  /** `_next_player`. */
  function NextPlayerSpec(cfg: Config, hv: HandValue, t: Table): Table
    requires WellFormed(cfg, t) && Live(t.stage)
  {
    if CountTrue(t.active) == 1 then
      var w := FirstTrue(t.active);
      t.(stacks := t.stacks[w := t.stacks[w] + t.pot], pot := 0, stage := Complete)
    else match NextActor(t, cfg.numPlayers, t.turn, cfg.numPlayers)
      case None =>
        var t0 := t.(turn := Advance(t.turn, cfg.numPlayers, cfg.numPlayers));
        AdvanceInRange(t.turn, cfg.numPlayers, cfg.numPlayers);
        var t1 := FastForward(cfg, hv, t0);
        FastForwardWellFormed(cfg, hv, t0);
        ShowdownSpec(cfg, hv, t1.(stage := Complete))
      case Some(s) =>
        var t1 := t.(turn := s);
        if t.lastRaiser == Some(s) && Settled(t1) then
          EndRoundSpec(cfg, hv, t1)
        else t1
  }

  /** `player_action` as a whole: rejected, or applied and followed by
      `_next_player`. */
  function PlayerActionSpec(cfg: Config, hv: HandValue, t: Table, tag: Tag, amount: int): Result<Table, ActionError>
    requires WellFormed(cfg, t) && Live(t.stage)
  {
    match ActSpec(t, tag, amount)
    case Err(e) => Err(e)
    case Ok(t1) =>
      ActWellFormed(cfg, t, tag, amount);
      Ok(NextPlayerSpec(cfg, hv, t1))
  }

  // ---------------------------------------------------------------------
  // Shape lemmas the definitions above rely on
  // ---------------------------------------------------------------------

  /** Stepping `k <= n` times from a seat wraps round at most once. */
  lemma {:induction false} AdvanceInRange(seat: int, n: nat, k: nat)
    requires 0 <= seat < n && k <= n
    ensures Advance(seat, n, k) == if seat + k < n then seat + k else seat + k - n
    decreases k
  {
    if k > 0 {
      if seat + 1 < n {
        ModSmall(seat + 1, n);
        AdvanceInRange(seat + 1, n, k - 1);
      } else {
        ModSmall(0, n);
        AdvanceInRange(0, n, k - 1);
      }
    }
  }

  lemma ModSmall(a: int, n: nat)
    requires 0 <= a < n
    ensures a % n == a && (a + n) % n == a
  {
  }

  /** Popping a burn card and three board cards off the end of `d` keeps
      the rest of `d`, `h` and the new board inside what there was. */
  lemma FlopDraw<T>(d: seq<T>, h: seq<T>, c: seq<T>)
    requires |d| >= 4
    ensures multiset(d[..|d| - 4] + h + [d[|d| - 2], d[|d| - 3], d[|d| - 4]]) <= multiset(d + h + c)
  {
    var l := |d|;
    var top := d[l - 4..];
    assert d == d[..l - 4] + top;
    assert top == [d[l - 4], d[l - 3], d[l - 2], d[l - 1]];
    assert multiset(d + h + c) == multiset(d[..l - 4]) + multiset(top) + multiset(h) + multiset(c);
  }

  /** The same for a burn card and one board card. */
  lemma OneDraw<T>(d: seq<T>, h: seq<T>, c: seq<T>)
    requires |d| >= 2
    ensures multiset(d[..|d| - 2] + h + (c + [d[|d| - 2]])) <= multiset(d + h + c)
  {
    var l := |d|;
    var top := d[l - 2..];
    assert d == d[..l - 2] + top;
    assert top == [d[l - 2], d[l - 1]];
    assert multiset(d + h + c) == multiset(d[..l - 2]) + multiset(top) + multiset(h) + multiset(c);
  }

  lemma SubMultisetTrans<T>(a: multiset<T>, b: multiset<T>, c: multiset<T>)
    requires a <= b && b <= c
    ensures a <= c
  {
  }

  /** Burning and dealing keeps every card drawn from the deck. */
  lemma DealFlopCards(t: Table)
    requires |t.deck| >= 4 && CardsFrom(t.deck, t.hole, t.community)
    ensures CardsFrom(DealFlopSpec(t).deck, t.hole, DealFlopSpec(t).community)
  {
    var u := DealFlopSpec(t);
    FlopDraw(t.deck, Flatten(t.hole), t.community);
    SubMultisetTrans(multiset(u.deck + Flatten(u.hole) + u.community),
      multiset(t.deck + Flatten(t.hole) + t.community), multiset(StandardDeck()));
  }

  lemma DealOneCards(t: Table)
    requires |t.deck| >= 2 && CardsFrom(t.deck, t.hole, t.community)
    ensures CardsFrom(DealOneSpec(t).deck, t.hole, DealOneSpec(t).community)
  {
    var u := DealOneSpec(t);
    OneDraw(t.deck, Flatten(t.hole), t.community);
    SubMultisetTrans(multiset(u.deck + Flatten(u.hole) + u.community),
      multiset(t.deck + Flatten(t.hole) + t.community), multiset(StandardDeck()));
  }

  /** A table that differs from a well-formed one only in what a new street
      changes (the board, the deck, the bets of the street and the seat to
      act) is well formed when those parts have the street's shape. */
  lemma StreetWellFormed(cfg: Config, t: Table, v: Table)
    requires WellFormed(cfg, t) && Live(t.stage) && Live(v.stage)
    requires v.stacks == t.stacks && v.button == t.button && v.sb == t.sb && v.bb == t.bb
    requires v.hole == t.hole && v.pot == t.pot && v.active == t.active
    requires v.totalContrib == t.totalContrib && v.allIn == t.allIn
    requires |v.contributions| == cfg.numPlayers
    requires 0 <= v.turn < cfg.numPlayers && v.lastRaiser == Some(v.turn)
    requires CardsFrom(v.deck, v.hole, v.community)
    requires |v.deck| == DeckLeft(cfg.numPlayers, v.stage) && |v.community| == BoardSize(v.stage)
    ensures WellFormed(cfg, v)
  {
  }

  lemma EndPreflopWellFormed(cfg: Config, t: Table)
    requires WellFormed(cfg, t) && t.stage == Preflop
    ensures WellFormed(cfg, Reseat(cfg, DealFlopSpec(t.(contributions := Zeros(cfg.numPlayers), currentBet := 0)).(stage := Flop)))
  {
    var t0 := t.(contributions := Zeros(cfg.numPlayers), currentBet := 0);
    var u := DealFlopSpec(t0);
    DealFlopCards(t0);
    var v := Reseat(cfg, u.(stage := Flop));
    assert v.deck == u.deck && v.hole == t.hole && v.community == u.community;
    StreetWellFormed(cfg, t, v);
  }

  lemma EndFlopWellFormed(cfg: Config, t: Table)
    requires WellFormed(cfg, t) && t.stage == Flop
    ensures WellFormed(cfg, Reseat(cfg, DealOneSpec(t.(contributions := Zeros(cfg.numPlayers), currentBet := 0)).(stage := Turn)))
  {
    var t0 := t.(contributions := Zeros(cfg.numPlayers), currentBet := 0);
    var u := DealOneSpec(t0);
    DealOneCards(t0);
    var v := Reseat(cfg, u.(stage := Turn));
    assert v.deck == u.deck && v.hole == t.hole && v.community == u.community;
    StreetWellFormed(cfg, t, v);
  }

  lemma EndTurnWellFormed(cfg: Config, t: Table)
    requires WellFormed(cfg, t) && t.stage == Turn
    ensures WellFormed(cfg, Reseat(cfg, DealOneSpec(t.(contributions := Zeros(cfg.numPlayers), currentBet := 0)).(stage := River)))
  {
    var t0 := t.(contributions := Zeros(cfg.numPlayers), currentBet := 0);
    var u := DealOneSpec(t0);
    DealOneCards(t0);
    var v := Reseat(cfg, u.(stage := River));
    assert v.deck == u.deck && v.hole == t.hole && v.community == u.community;
    StreetWellFormed(cfg, t, v);
  }

  lemma ShowdownWellFormed(cfg: Config, hv: HandValue, t: Table)
    requires WellFormed(cfg, t) && t.stage == Complete
    ensures WellFormed(cfg, ShowdownSpec(cfg, hv, t))
  {
  }

  lemma EndRoundWellFormed(cfg: Config, hv: HandValue, t: Table)
    requires WellFormed(cfg, t)
    ensures WellFormed(cfg, EndRoundSpec(cfg, hv, t))
    ensures Live(t.stage) && t.stage != River ==> EndRoundSpec(cfg, hv, t).stage.Flop? || EndRoundSpec(cfg, hv, t).stage.Turn? || EndRoundSpec(cfg, hv, t).stage.River?
    ensures t.stage == Preflop ==> EndRoundSpec(cfg, hv, t).stage == Flop
    ensures t.stage == Flop ==> EndRoundSpec(cfg, hv, t).stage == Turn
    ensures t.stage == Turn ==> EndRoundSpec(cfg, hv, t).stage == River
  {
    var n := cfg.numPlayers;
    var t0 := t.(contributions := Zeros(n), currentBet := 0);
    match t.stage
    case Preflop => EndPreflopWellFormed(cfg, t);
    case Flop => EndFlopWellFormed(cfg, t);
    case Turn => EndTurnWellFormed(cfg, t);
    case River => ShowdownWellFormed(cfg, hv, t0.(stage := Complete));
    case _ =>
  }

  lemma {:induction false} FastForwardWellFormed(cfg: Config, hv: HandValue, t: Table)
    requires WellFormed(cfg, t) && Live(t.stage)
    ensures WellFormed(cfg, FastForward(cfg, hv, t)) && FastForward(cfg, hv, t).stage == River
    decreases StageRank(t.stage)
  {
    if t.stage != River {
      EndRoundWellFormed(cfg, hv, t);
      FastForwardWellFormed(cfg, hv, EndRoundSpec(cfg, hv, t));
    }
  }

  /** Dealing `i` pairs off the end of `s` keeps every card: what is left
      and the hands dealt hold the cards of `s`. */
  lemma {:induction false} DealHoleMultiset(s: seq<PkCard>, i: nat)
    requires 2 * i <= |s|
    ensures multiset(s[..|s| - 2 * i] + Flatten(DealHole(s, i))) == multiset(s)
    decreases i
  {
    if i == 0 {
      assert s[..|s|] == s && DealHole(s, 0) == [];
    } else {
      DealHoleMultiset(s, i - 1);
      DealHoleKeeps(s, i);
    }
  }

  /** Seat `i - 1` dealt keeps the cards, given that the seats before it
      did. */
  lemma DealHoleKeeps(s: seq<PkCard>, i: nat)
    requires 0 < i && 2 * i <= |s|
    requires multiset(s[..|s| - 2 * (i - 1)] + Flatten(DealHole(s, i - 1))) == multiset(s)
    ensures multiset(s[..|s| - 2 * i] + Flatten(DealHole(s, i))) == multiset(s)
  {
    var l := |s|;
    var k := i - 1;
    DealHoleStep(s, k);
    var a, b := s[l - 1 - 2 * k], s[l - 2 - 2 * k];
    var pre := s[..l - 2 * (k + 1)];
    assert s[..l - 2 * k] == pre + [b, a];
    SwapTail(pre, Flatten(DealHole(s, k)), a, b);
  }

  /** The hands after one more seat: the two cards it pops. */
  lemma DealHoleStep(s: seq<PkCard>, i: nat)
    requires 2 * (i + 1) <= |s|
    ensures Flatten(DealHole(s, i + 1)) == Flatten(DealHole(s, i)) + [s[|s| - 1 - 2 * i], s[|s| - 2 - 2 * i]]
  {
    var l := |s|;
    assert DealHole(s, i + 1) == DealHole(s, i) + [[s[l - 1 - 2 * i], s[l - 2 - 2 * i]]];
    FlattenAppend(DealHole(s, i), [s[l - 1 - 2 * i], s[l - 2 - 2 * i]]);
  }

  lemma SwapTail<T>(pre: seq<T>, f: seq<T>, a: T, b: T)
    ensures multiset(pre + (f + [a, b])) == multiset(pre + [b, a] + f)
  {
    assert multiset(pre + (f + [a, b])) == multiset(pre) + multiset(f) + multiset([a, b]);
    assert multiset(pre + [b, a] + f) == multiset(pre) + multiset([b, a]) + multiset(f);
  }

  /** A new deal holds the 52 cards once each between the deck and the
      hands, with two cards per seat. */
  lemma DealHandCards(cfg: Config, t: Table, rolls: seq<nat>)
    requires 0 < cfg.numPlayers <= 22
    ensures var u := DealHand(cfg, t, rolls);
      multiset(u.deck + Flatten(u.hole) + u.community) == multiset(StandardDeck()) &&
      |u.deck| == 52 - 2 * cfg.numPlayers && u.community == [] &&
      |u.hole| == cfg.numPlayers && forall i :: 0 <= i < cfg.numPlayers ==> |u.hole[i]| == 2
  {
    var n := cfg.numPlayers;
    var shuffled := Shuffle.Shuffled(StandardDeck(), rolls);
    Shuffle.ShuffledPermutes(StandardDeck(), rolls);
    DealHoleMultiset(shuffled, n);
    var u := DealHand(cfg, t, rolls);
    assert u.deck == shuffled[..|shuffled| - 2 * n] && u.hole == DealHole(shuffled, n);
    assert u.deck + Flatten(u.hole) + u.community == u.deck + Flatten(u.hole);
  }

  /** After the blinds the pot is what the two blinds put in. */
  lemma PostBlindsPot(cfg: Config, t: Table)
    requires 0 <= t.sb < |t.stacks| && 0 <= t.bb < |t.stacks| && t.sb != t.bb
    requires |t.stacks| == |t.contributions| == |t.totalContrib| == |t.allIn|
    requires t.totalContrib == Zeros(|t.stacks|)
    ensures PostBlinds(cfg, t).pot == Sum(PostBlinds(cfg, t).totalContrib)
  {
    var sbPaid := PostBlind(t.stacks[t.sb], cfg.sbAmt);
    var stacks1 := t.stacks[t.sb := t.stacks[t.sb] - sbPaid];
    var bbPaid := PostBlind(stacks1[t.bb], cfg.bbAmt);
    var z := t.totalContrib;
    SumZeros(|t.stacks|);
    SumUpdate(z, t.sb, sbPaid);
    SumUpdate(z[t.sb := sbPaid], t.bb, bbPaid);
    assert PostBlinds(cfg, t).totalContrib == z[t.sb := sbPaid][t.bb := bbPaid];
  }

  /** The three seats after the button are distinct when there are at
      least two seats, and all in range. */
  lemma ResetSeats(cfg: Config, t: Table)
    requires ValidConfig(cfg)
    ensures var u := ResetHand(cfg, t);
      0 <= u.button < cfg.numPlayers && 0 <= u.sb < cfg.numPlayers && 0 <= u.bb < cfg.numPlayers &&
      u.sb != u.bb && u.sb == NextSeat(u.button, cfg.numPlayers) && u.bb == NextSeat(u.sb, cfg.numPlayers)
  {
    var n := cfg.numPlayers;
    var u := ResetHand(cfg, t);
    assert u.sb == (u.button + 1) % n;
    assert u.bb == (u.sb + 1) % n;
  }

  /** Dealing onto a preflop table whose seats and pot are in order gives
      a well-formed table. */
  lemma DealtWellFormed(cfg: Config, t: Table, rolls: seq<nat>)
    requires ValidConfig(cfg) && t.stage == Preflop
    requires var n := cfg.numPlayers;
      |t.stacks| == n && |t.active| == n && |t.contributions| == n &&
      |t.totalContrib| == n && |t.allIn| == n &&
      0 <= t.button < n && 0 <= t.sb < n && 0 <= t.bb < n &&
      t.lastRaiser.Some? && 0 <= t.lastRaiser.value < n && t.pot == Sum(t.totalContrib)
    ensures WellFormed(cfg, DealHand(cfg, t, rolls))
  {
    DealHandCards(cfg, t, rolls);
    var u := DealHand(cfg, t, rolls);
    assert CardsFrom(u.deck, u.hole, u.community);
  }

  /** `new_hand` leaves a well-formed preflop table. */
  lemma NewHandWellFormed(cfg: Config, t: Table, rolls: seq<nat>)
    requires ValidConfig(cfg) && |t.stacks| == cfg.numPlayers
    ensures WellFormed(cfg, NewHandSpec(cfg, t, rolls))
    ensures NewHandSpec(cfg, t, rolls).stage == Preflop
  {
    var n := cfg.numPlayers;
    var t1 := ResetHand(cfg, t);
    ResetSeats(cfg, t);
    var t2 := PostBlinds(cfg, t1);
    PostBlindsPot(cfg, t1);
    assert t2.sb == t1.sb && t2.bb == t1.bb && t2.button == t1.button && t2.stage == Preflop;
    assert |t2.stacks| == n && |t2.active| == n && |t2.contributions| == n;
    assert |t2.totalContrib| == n && |t2.allIn| == n && t2.lastRaiser == Some(t1.bb);
    DealtWellFormed(cfg, t2, rolls);
  }

  /** Handing the turn to another seat keeps the table well formed. */
  lemma TurnWellFormed(cfg: Config, t: Table, seat: int)
    requires WellFormed(cfg, t) && 0 <= seat < cfg.numPlayers
    ensures WellFormed(cfg, t.(turn := seat))
  {
  }

  /** Ending the hand keeps the table well formed. */
  lemma CompleteWellFormed(cfg: Config, t: Table)
    requires WellFormed(cfg, t) && t.stage != NotStarted
    ensures WellFormed(cfg, t.(stage := Complete))
  {
  }

  lemma ActWellFormed(cfg: Config, t: Table, tag: Tag, amount: int)
    requires WellFormed(cfg, t) && Live(t.stage)
    ensures ActSpec(t, tag, amount).Ok? ==>
      WellFormed(cfg, ActSpec(t, tag, amount).value) && ActSpec(t, tag, amount).value.stage == t.stage
  {
    if ActSpec(t, tag, amount).Ok? {
      match tag
      case Fold => BettingWellFormed(cfg, t, t.(active := t.active[t.turn := false]));
      case Check =>
      case Call => CallWellFormed(cfg, t);
      case Bet => BetWellFormed(cfg, t, amount);
      case Raise => RaiseWellFormed(cfg, t, amount);
      case Other(_) =>
    }
  }

  /** A table that differs from a well-formed live one only in what betting
      changes (stacks, bets, the pot, who is in or all in, the bet to match
      and the last raiser) is well formed when the pot still holds every
      chip put in. */
  lemma BettingWellFormed(cfg: Config, t: Table, v: Table)
    requires WellFormed(cfg, t) && Live(t.stage)
    requires v.stage == t.stage && v.button == t.button && v.sb == t.sb && v.bb == t.bb && v.turn == t.turn
    requires v.deck == t.deck && v.hole == t.hole && v.community == t.community
    requires |v.stacks| == |v.active| == |v.contributions| == |v.totalContrib| == |v.allIn| == cfg.numPlayers
    requires v.pot == Sum(v.totalContrib)
    requires v.lastRaiser.Some? && 0 <= v.lastRaiser.value < cfg.numPlayers
    ensures WellFormed(cfg, v)
  {
  }

  /** Chips moved into the pot keep it equal to the sum of what was put in. */
  lemma MovePot(t: Table, p: nat, x: int)
    requires p < |t.stacks| && p < |t.contributions| && p < |t.totalContrib|
    requires t.pot == Sum(t.totalContrib)
    ensures Move(t, p, x).pot == Sum(Move(t, p, x).totalContrib)
  {
    SumUpdate(t.totalContrib, p, t.totalContrib[p] + x);
  }

  lemma CallWellFormed(cfg: Config, t: Table)
    requires WellFormed(cfg, t) && Live(t.stage)
    ensures WellFormed(cfg, CallSpec(t)) && CallSpec(t).stage == t.stage
  {
    var p := t.turn;
    MovePot(t, p, Min(t.currentBet - t.contributions[p], t.stacks[p]));
    BettingWellFormed(cfg, t, CallSpec(t));
  }

  lemma BetWellFormed(cfg: Config, t: Table, amount: int)
    requires WellFormed(cfg, t) && Live(t.stage)
    ensures WellFormed(cfg, BetSpec(t, amount)) && BetSpec(t, amount).stage == t.stage
  {
    var p := t.turn;
    var amt := if amount > t.stacks[p] then t.stacks[p] else amount;
    MovePot(t.(currentBet := t.contributions[p] + amt), p, amt);
    BettingWellFormed(cfg, t, BetSpec(t, amount));
  }

  lemma RaiseWellFormed(cfg: Config, t: Table, amount: int)
    requires WellFormed(cfg, t) && Live(t.stage)
    ensures WellFormed(cfg, RaiseSpec(t, amount)) && RaiseSpec(t, amount).stage == t.stage
  {
    var p := t.turn;
    MovePot(t, p, Min(t.currentBet - t.contributions[p] + amount, t.stacks[p]));
    BettingWellFormed(cfg, t, RaiseSpec(t, amount));
  }
}
