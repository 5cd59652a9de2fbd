/** The card and deck values of poker_fast_eval.py: a card is a rank index
    into "23456789TJQKA" and a suit index into "hdcs"; a deck is the 52 cards
    in rank-major order, shuffled once and dealt from the front. */
module Cards {
  import opened Common
  import Shuffle

  /** RANK_STR and SUITS of poker_tutor.py. */
  const RankStr: string := "23456789TJQKA"
  const Suits: string := "hdcs"

  datatype Card = Card(rank: int, suit: int)

  predicate ValidCard(c: Card)
  {
    0 <= c.rank < 13 && 0 <= c.suit < 4
  }

  /** `str.upper` / `str.lower` on one character (ASCII letters only: no
      other character maps onto a rank or suit letter). */
  function Upper(ch: char): char
  {
    if 'a' <= ch <= 'z' then (ch as int - 32) as char else ch
  }

  function Lower(ch: char): char
  {
    if 'A' <= ch <= 'Z' then (ch as int + 32) as char else ch
  }

  /** `str.index` for one character: the first position holding `ch`, or
      None where Python raises ValueError. */
  function IndexOf(s: string, ch: char): (r: Option<nat>)
    ensures r.Some? <==> ch in s
    ensures r.Some? ==> r.value < |s| && s[r.value] == ch
    ensures r.Some? ==> forall k :: 0 <= k < r.value ==> s[k] != ch
  {
    if s == [] then None
    else if s[0] == ch then Some(0)
    else match IndexOf(s[1..], ch)
      case None => None
      case Some(k) => Some(k + 1)
  }

  /** `Card.from_str`: None where Python raises (code too short, unknown
      rank or suit letter); characters after the second are ignored. */
  function FromStr(code: string): Option<Card>
  {
    if |code| < 2 then None
    else match (IndexOf(RankStr, Upper(code[0])), IndexOf(Suits, Lower(code[1])))
      case (Some(rank), Some(suit)) => Some(Card(rank, suit))
      case _ => None
  }

  /** `Card.__str__`. */
  function ToStr(c: Card): (r: string)
    requires ValidCard(c)
    ensures |r| == 2
  {
    [RankStr[c.rank], Suits[c.suit]]
  }

  lemma RankStrDistinct()
    ensures NoDup(RankStr) && NoDup(Suits)
  {
  }

  /** The index found in a string without repeats is the position itself. */
  lemma IndexOfDistinct(s: string, k: nat)
    requires NoDup(s) && k < |s|
    ensures IndexOf(s, s[k]) == Some(k)
  {
    var r := IndexOf(s, s[k]);
    assert r.Some? && s[r.value] == s[k];
    assert r.value == k;
  }

  /** No rank letter is lower case and no suit letter upper case, so the
      case normalisation of `from_str` leaves them alone. */
  lemma LetterCases(k: nat)
    ensures k < 13 ==> Upper(RankStr[k]) == RankStr[k]
    ensures k < 4 ==> Lower(Suits[k]) == Suits[k]
  {
  }

  /** Printing a valid card and parsing the text gives the card back. */
  lemma FromStrToStr(c: Card)
    requires ValidCard(c)
    ensures FromStr(ToStr(c)) == Some(c)
  {
    RankStrDistinct();
    var code := ToStr(c);
    assert Upper(code[0]) == RankStr[c.rank];
    assert Lower(code[1]) == Suits[c.suit];
    IndexOfDistinct(RankStr, c.rank);
    IndexOfDistinct(Suits, c.suit);
  }

  /** Parsing succeeds exactly when the text has two characters whose
      upper-cased first one is a rank letter and lower-cased second one a suit
      letter; the card then prints as that normalised pair. */
  lemma ToStrFromStr(code: string)
    ensures FromStr(code).Some? <==>
      |code| >= 2 && Upper(code[0]) in RankStr && Lower(code[1]) in Suits
    ensures FromStr(code).Some? ==>
      ValidCard(FromStr(code).value) &&
      ToStr(FromStr(code).value) == [Upper(code[0]), Lower(code[1])]
  {
    if |code| >= 2 {
      var rk := IndexOf(RankStr, Upper(code[0]));
      var st := IndexOf(Suits, Lower(code[1]));
      if rk.Some? && st.Some? {
        var c := Card(rk.value, st.value);
        assert FromStr(code) == Some(c);
        assert ToStr(c)[0] == Upper(code[0]) && ToStr(c)[1] == Lower(code[1]);
      }
    }
  }

  /** Canonical codes such as "As" or "Td" come back verbatim. */
  lemma CanonicalRoundTrip(code: string)
    requires |code| == 2 && code[0] in RankStr && code[1] in Suits
    ensures FromStr(code).Some? && ToStr(FromStr(code).value) == code
  {
    var i :| 0 <= i < 13 && RankStr[i] == code[0];
    var j :| 0 <= j < 4 && Suits[j] == code[1];
    LetterCases(i);
    LetterCases(j);
    ToStrFromStr(code);
    assert code == [code[0], code[1]];
  }

  /** Every card of the deck, rank-major: index 4 * rank + suit. */
  function FullDeck(): (d: seq<Card>)
    ensures |d| == 52
  {
    seq(52, i => Card(i / 4, i % 4))
  }

  /** The fresh deck holds each of the 52 valid cards exactly once. */
  lemma FullDeckExact()
    ensures NoDup(FullDeck())
    ensures forall c :: c in FullDeck() <==> ValidCard(c)
  {
    var d := FullDeck();
    forall i, j | 0 <= i < j < 52 ensures d[i] != d[j] {
      assert i == 4 * (i / 4) + i % 4 && j == 4 * (j / 4) + j % 4;
    }
    forall c | ValidCard(c) ensures c in d {
      var k := 4 * c.rank + c.suit;
      assert k / 4 == c.rank && k % 4 == c.suit;
      assert d[k] == c;
    }
  }

  /** The printed forms of a list of cards, `{str(c) for c in cards}`. */
  function StrsOf(s: seq<Card>): set<string>
    requires forall c :: c in s ==> ValidCard(c)
  {
    set c | c in s :: ToStr(c)
  }

  /** Different valid cards print differently, so a list of distinct cards
      has as many printed forms as cards. */
  lemma {:induction false} StrsOfDistinct(s: seq<Card>)
    requires forall c :: c in s ==> ValidCard(c)
    requires NoDup(s)
    ensures |StrsOf(s)| == |s|
  {
    if s != [] {
      var rest := s[1..];
      assert NoDup(rest);
      StrsOfDistinct(rest);
      assert StrsOf(s) == {ToStr(s[0])} + StrsOf(rest);
      forall c | c in rest ensures ToStr(c) != ToStr(s[0]) {
        var k :| 0 <= k < |rest| && rest[k] == c;
        assert s[k + 1] == c && c != s[0];
        FromStrToStr(c);
        FromStrToStr(s[0]);
      }
      assert ToStr(s[0]) !in StrsOf(rest);
    }
  }

  /** Python's normalisation of the stop index in `cards[:n]`. */
  function SliceStop(n: int, len: nat): (r: nat)
    ensures r <= len
    ensures 0 <= n <= len ==> r == n
  {
    if n < 0 then (if len + n < 0 then 0 else len + n)
    else if n > len then len
    else n
  }

  /** `Deck` of poker_fast_eval.py. The generator is the draw stream given to
      the constructor. */
  class Deck {
    var cards: seq<Card>

    /** Build the 52 cards rank-major and shuffle them in place. */
    constructor (rolls: seq<nat>)
      ensures cards == Shuffle.Shuffled(FullDeck(), rolls)
      ensures multiset(cards) == multiset(FullDeck())
    {
      var shuffled := Shuffle.Shuffle(FullDeck(), rolls);
      cards := shuffled;
    }

    /** `drawn, self.cards = self.cards[:n], self.cards[n:]`. */
    method Draw(n: int) returns (drawn: seq<Card>)
      modifies this
      ensures |drawn| == SliceStop(n, |old(cards)|)
      ensures drawn + cards == old(cards)
    {
      var k := SliceStop(n, |cards|);
      drawn, cards := cards[..k], cards[k..];
    }
  }

  /** The deck-integrity scenario: drawing 52 from a freshly shuffled deck
      yields 52 cards with 52 distinct printed forms and leaves the deck
      empty. */
  method DrawFreshDeck(rolls: seq<nat>) returns (drawn: seq<Card>, left: seq<Card>)
    ensures |drawn| == 52 && left == []
    ensures NoDup(drawn) && forall c :: c in drawn <==> ValidCard(c)
    ensures |StrsOf(drawn)| == 52
  {
    var deck := new Deck(rolls);
    drawn := deck.Draw(52);
    left := deck.cards;
    FullDeckExact();
    PermutationNoDup(FullDeck(), drawn);
    forall c ensures c in drawn <==> ValidCard(c) {
      assert c in drawn <==> c in multiset(drawn);
      assert c in FullDeck() <==> c in multiset(FullDeck());
    }
    StrsOfDistinct(drawn);
  }
}
