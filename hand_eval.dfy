/** The fallback `HandEvaluator` of poker_fast_eval.py: a five-card hand is
    scored as a `(category, ranks)` tuple compared the way Python compares
    tuples and lists, and a larger hand is scored by the best of its
    five-card subsets. */
module HandEval {
  import opened Common
  import opened Cards

  /** The `(category, ranks)` tuple of `_eval5`; 9 is a straight flush and
      1 a high card. */
  datatype Score = Score(category: int, ranks: seq<int>)

  /** Python's `<` on two lists of integers: lexicographic, and a proper
      prefix is smaller. */
  predicate SeqLess(a: seq<int>, b: seq<int>)
  {
    if a == [] then b != []
    else if b == [] then false
    else a[0] < b[0] || (a[0] == b[0] && SeqLess(a[1..], b[1..]))
  }

  /** Python's `<` on `(int, list)` tuples. */
  predicate ScoreLess(a: Score, b: Score)
  {
    a.category < b.category || (a.category == b.category && SeqLess(a.ranks, b.ranks))
  }

  /** List order is a strict total order. */
  lemma {:induction false} SeqLessOrder(a: seq<int>, b: seq<int>, c: seq<int>)
    ensures !SeqLess(a, a)
    ensures SeqLess(a, b) ==> !SeqLess(b, a)
    ensures a != b ==> SeqLess(a, b) || SeqLess(b, a)
    ensures SeqLess(a, b) && SeqLess(b, c) ==> SeqLess(a, c)
    decreases |a|
  {
    if a != [] && b != [] && c != [] {
      SeqLessOrder(a[1..], b[1..], c[1..]);
      if a[0] == b[0] && a != b {
        assert a == [a[0]] + a[1..] && b == [b[0]] + b[1..];
      }
    } else if a != [] && b != [] {
      SeqLessOrder(a[1..], b[1..], []);
      if a[0] == b[0] && a != b {
        assert a == [a[0]] + a[1..] && b == [b[0]] + b[1..];
      }
    } else if a != [] {
      SeqLessOrder(a[1..], [], []);
    }
  }

  /** Tuple order is a strict total order. */
  lemma ScoreLessOrder(a: Score, b: Score, c: Score)
    ensures !ScoreLess(a, a)
    ensures ScoreLess(a, b) ==> !ScoreLess(b, a)
    ensures a != b ==> ScoreLess(a, b) || ScoreLess(b, a)
    ensures ScoreLess(a, b) && ScoreLess(b, c) ==> ScoreLess(a, c)
  {
    SeqLessOrder(a.ranks, b.ranks, c.ranks);
  }

  // ---------------------------------------------------------------------
  // Sorting, de-duplication and counting of ranks
  // ---------------------------------------------------------------------

  predicate SortedDesc(s: seq<int>)
  {
    forall i, j :: 0 <= i < j < |s| ==> s[i] >= s[j]
  }

  predicate StrictlyDesc(s: seq<int>)
  {
    forall i, j :: 0 <= i < j < |s| ==> s[i] > s[j]
  }

  function InsertDesc(x: int, s: seq<int>): seq<int>
  {
    if s == [] || x >= s[0] then [x] + s else [s[0]] + InsertDesc(x, s[1..])
  }

  /** `sorted(s, reverse=True)`. */
  function SortDesc(s: seq<int>): seq<int>
  {
    if s == [] then [] else InsertDesc(s[0], SortDesc(s[1..]))
  }

  lemma {:induction false} InsertDescFacts(x: int, s: seq<int>)
    ensures |InsertDesc(x, s)| == |s| + 1
    ensures multiset(InsertDesc(x, s)) == multiset{x} + multiset(s)
    ensures InsertDesc(x, s)[0] == (if s == [] || x >= s[0] then x else s[0])
  {
    if s != [] && x < s[0] {
      InsertDescFacts(x, s[1..]);
      assert s == [s[0]] + s[1..];
    }
  }

  lemma {:induction false} InsertDescSorted(x: int, s: seq<int>)
    requires SortedDesc(s)
    ensures SortedDesc(InsertDesc(x, s))
  {
    if s == [] || x >= s[0] {
      ConsDesc(x, s);
    } else {
      assert SortedDesc(s[1..]) by {
        forall i, j | 0 <= i < j < |s| - 1 ensures s[1..][i] >= s[1..][j] {
          assert s[1..][i] == s[i + 1] && s[1..][j] == s[j + 1];
        }
      }
      InsertDescSorted(x, s[1..]);
      InsertDescFacts(x, s[1..]);
      ConsDesc(s[0], InsertDesc(x, s[1..]));
    }
  }

  /** A head no smaller than a descending tail keeps it descending. */
  lemma ConsDesc(x: int, t: seq<int>)
    requires SortedDesc(t) && (t == [] || x >= t[0])
    ensures SortedDesc([x] + t)
  {
    var r := [x] + t;
    forall i, j | 0 <= i < j < |r| ensures r[i] >= r[j] {
      assert r[j] == t[j - 1];
      if i > 0 {
        assert r[i] == t[i - 1];
      } else {
        assert t[0] >= t[j - 1];
      }
    }
  }

  /** Sorting orders the list and keeps its elements. */
  lemma {:induction false} SortDescSorted(s: seq<int>)
    ensures SortedDesc(SortDesc(s))
    ensures multiset(SortDesc(s)) == multiset(s)
  {
    if s != [] {
      SortDescSorted(s[1..]);
      InsertDescSorted(s[0], SortDesc(s[1..]));
      InsertDescFacts(s[0], SortDesc(s[1..]));
      assert s == [s[0]] + s[1..];
    }
  }

  /** A multiset has one descending arrangement. */
  lemma {:induction false} SortedUnique(a: seq<int>, b: seq<int>)
    requires SortedDesc(a) && SortedDesc(b) && multiset(a) == multiset(b)
    ensures a == b
  {
    if a != [] {
      SortedHead(a, b);
      TailMultiset(a, b);
      SortedUnique(a[1..], b[1..]);
      assert a == [a[0]] + a[1..] && b == [b[0]] + b[1..];
    } else {
      assert |multiset(b)| == 0;
    }
  }

  /** Two descending arrangements of one multiset start alike. */
  lemma SortedHead(a: seq<int>, b: seq<int>)
    requires SortedDesc(a) && SortedDesc(b) && multiset(a) == multiset(b) && a != []
    ensures b != [] && a[0] == b[0]
  {
    assert a[0] in multiset(b);
    var i :| 0 <= i < |b| && b[i] == a[0];
    assert b[0] in multiset(a);
    var j :| 0 <= j < |a| && a[j] == b[0];
  }

  lemma TailMultiset(a: seq<int>, b: seq<int>)
    requires multiset(a) == multiset(b) && a != [] && b != [] && a[0] == b[0]
    ensures multiset(a[1..]) == multiset(b[1..])
  {
    assert a == [a[0]] + a[1..] && b == [b[0]] + b[1..];
    assert multiset(a[1..]) == multiset(a) - multiset{a[0]};
    assert multiset(b[1..]) == multiset(b) - multiset{b[0]};
  }

  /** `sorted(set(s), reverse=True)` for a list `s` already sorted
      descending: adjacent repeats removed. */
  function DedupSorted(s: seq<int>): seq<int>
  {
    if |s| <= 1 then s
    else if s[0] == s[1] then DedupSorted(s[1..])
    else [s[0]] + DedupSorted(s[1..])
  }

  lemma {:induction false} DedupSortedProps(s: seq<int>)
    requires SortedDesc(s)
    ensures StrictlyDesc(DedupSorted(s))
    ensures forall x :: x in DedupSorted(s) <==> x in s
    ensures |s| > 0 ==> |DedupSorted(s)| > 0 && DedupSorted(s)[0] == s[0]
  {
    if |s| > 1 {
      DedupSortedProps(s[1..]);
      assert s == [s[0]] + s[1..];
    }
  }

  /** `Counter(s)[x]`. */
  function Count(s: seq<int>, x: int): nat
  {
    if s == [] then 0 else (if s[0] == x then 1 else 0) + Count(s[1..], x)
  }

  /** Number of elements of `s` that lie in `xs`. */
  function CountIn(s: seq<int>, xs: set<int>): nat
  {
    if s == [] then 0 else (if s[0] in xs then 1 else 0) + CountIn(s[1..], xs)
  }

  lemma {:induction false} CountInAdd(s: seq<int>, xs: set<int>, x: int)
    requires x !in xs
    ensures CountIn(s, xs + {x}) == CountIn(s, xs) + Count(s, x)
    ensures CountIn(s, {x}) == Count(s, x)
  {
    if s != [] {
      CountInAdd(s[1..], xs, x);
    }
  }

  /** Fewer than |s| elements in `xs` leaves one outside it, and no more
      than |s| elements can lie in any set. */
  lemma {:induction false} CountInOutside(s: seq<int>, xs: set<int>)
    ensures CountIn(s, xs) <= |s|
    ensures CountIn(s, xs) < |s| ==> exists i :: 0 <= i < |s| && s[i] !in xs
  {
    if s != [] {
      CountInOutside(s[1..], xs);
      if CountIn(s, xs) < |s| && s[0] in xs {
        var i :| 0 <= i < |s[1..]| && s[1..][i] !in xs;
        assert s[i + 1] !in xs;
      }
    }
  }

  lemma {:induction false} CountPositive(s: seq<int>, x: int)
    ensures x in s <==> Count(s, x) > 0
  {
    if s != [] {
      CountPositive(s[1..], x);
      assert s == [s[0]] + s[1..];
    }
  }

  /** In a list without repeats every element is counted once. */
  lemma {:induction false} CountDistinct(s: seq<int>, x: int)
    requires StrictlyDesc(s) && x in s
    ensures Count(s, x) == 1
  {
    if s[0] == x {
      assert x !in s[1..];
      CountPositive(s[1..], x);
    } else {
      CountDistinct(s[1..], x);
    }
  }

  /** When all but one element of `s` lie in `xs`, the remaining one is a
      rank that occurs exactly once. */
  lemma LoneCard(s: seq<int>, xs: set<int>)
    requires CountIn(s, xs) + 1 == |s|
    ensures exists y :: y in s && y !in xs && Count(s, y) == 1
  {
    CountInOutside(s, xs);
    var i :| 0 <= i < |s| && s[i] !in xs;
    var y := s[i];
    CountInAdd(s, xs, y);
    CountInOutside(s, xs + {y});
    CountPositive(s, y);
  }

  /** `counts.values()` in the order of the distinct ranks. */
  function CountVals(u: seq<int>, s: seq<int>): (r: seq<int>)
    ensures |r| == |u| && forall i :: 0 <= i < |u| ==> r[i] == Count(s, u[i])
  {
    seq(|u|, i requires 0 <= i < |u| => Count(s, u[i]))
  }

  /** `[k for k, v in counts.items() if v == c]`; the counter lists ranks in
      order of first occurrence, which for a descending list is descending,
      so this is also the `sorted(..., reverse=True)` form. */
  function WithCount(u: seq<int>, s: seq<int>, c: int): (r: seq<int>)
    ensures forall x :: x in r <==> x in u && Count(s, x) == c
    ensures c in CountVals(u, s) <==> |r| > 0
  {
    if u == [] then []
    else (if Count(s, u[0]) == c then [u[0]] else []) + WithCount(u[1..], s, c)
  }

  /** The first rank with count `c` is the largest one: the `max(...)` of
      `_eval5`. */
  lemma {:induction false} WithCountFirstIsMax(u: seq<int>, s: seq<int>, c: int)
    requires StrictlyDesc(u) && |WithCount(u, s, c)| > 0
    ensures forall x :: x in u && Count(s, x) == c ==> x <= WithCount(u, s, c)[0]
  {
    if Count(s, u[0]) != c {
      WithCountFirstIsMax(u[1..], s, c);
    }
  }

  // ---------------------------------------------------------------------
  // `_eval5`
  // ---------------------------------------------------------------------

  function RanksOf(hand: seq<Card>): (r: seq<int>)
    ensures |r| == |hand| && forall i :: 0 <= i < |hand| ==> r[i] == hand[i].rank
  {
    seq(|hand|, i requires 0 <= i < |hand| => hand[i].rank)
  }

  function SuitsOf(hand: seq<Card>): set<int>
  {
    set c | c in hand :: c.suit
  }

  /** The rank indexes of A-5-4-3-2. */
  const Wheel: seq<int> := [12, 3, 2, 1, 0]

  /** `is_straight`: five distinct ranks spanning four, or the wheel. */
  predicate IsStraight(uniq: seq<int>)
  {
    |uniq| == 5 && (uniq[0] - uniq[4] == 4 || uniq == Wheel)
  }

  /** The five distinct ranks of a hand are those of the wheel. */
  predicate IsWheel(hand: seq<Card>)
  {
    DedupSorted(SortDesc(RanksOf(hand))) == Wheel
  }

  /** Facts about a hand's descending ranks and distinct ranks that every
      branch of `_eval5` relies on. */
  lemma RankFacts(hand: seq<Card>)
    ensures SortedDesc(SortDesc(RanksOf(hand)))
    ensures multiset(SortDesc(RanksOf(hand))) == multiset(RanksOf(hand))
    ensures |SortDesc(RanksOf(hand))| == |hand|
    ensures StrictlyDesc(DedupSorted(SortDesc(RanksOf(hand))))
    ensures forall x :: x in DedupSorted(SortDesc(RanksOf(hand))) <==> x in SortDesc(RanksOf(hand))
  {
    var ranks := SortDesc(RanksOf(hand));
    SortDescSorted(RanksOf(hand));
    assert |multiset(ranks)| == |multiset(RanksOf(hand))|;
    DedupSortedProps(ranks);
  }

  /** With four of a kind among five cards the fifth card is a rank counted
      once, so `max(k for k, v in counts.items() if v == 1)` exists. */
  lemma QuadKicker(ranks: seq<int>, uniq: seq<int>)
    requires |ranks| == 5 && 4 in CountVals(uniq, ranks)
    requires forall x :: x in uniq <==> x in ranks
    ensures |WithCount(uniq, ranks, 4)| > 0 && |WithCount(uniq, ranks, 1)| > 0
  {
    var q := WithCount(uniq, ranks, 4)[0];
    CountInAdd(ranks, {}, q);
    assert {} + {q} == {q};
    LoneCard(ranks, {q});
    var y :| y in ranks && y !in {q} && Count(ranks, y) == 1;
    assert y in WithCount(uniq, ranks, 1);
  }

  /** With two pairs among five cards the fifth card is a rank counted
      once. */
  lemma TwoPairKicker(ranks: seq<int>, uniq: seq<int>)
    requires |ranks| == 5 && |WithCount(uniq, ranks, 2)| >= 2 && StrictlyDesc(uniq)
    requires forall x :: x in uniq <==> x in ranks
    ensures |WithCount(uniq, ranks, 1)| > 0
  {
    var pairs := WithCount(uniq, ranks, 2);
    var p, q := pairs[0], pairs[1];
    WithCountStrict(uniq, ranks, 2);
    CountInAdd(ranks, {}, p);
    assert {} + {p} == {p};
    CountInAdd(ranks, {p}, q);
    LoneCard(ranks, {p} + {q});
    var y :| y in ranks && y !in {p} + {q} && Count(ranks, y) == 1;
    assert y in WithCount(uniq, ranks, 1);
  }

  /** Filtering a strictly descending list keeps it strictly descending. */
  lemma {:induction false} WithCountStrict(u: seq<int>, s: seq<int>, c: int)
    requires StrictlyDesc(u)
    ensures StrictlyDesc(WithCount(u, s, c))
  {
    if u != [] {
      assert StrictlyDesc(u[1..]);
      WithCountStrict(u[1..], s, c);
      var rest := WithCount(u[1..], s, c);
      if Count(s, u[0]) == c {
        forall x | x in rest ensures u[0] > x {
          HeadAbove(u, x);
        }
        ConsStrict(u[0], rest);
      }
    }
  }

  /** A head above every element of a strictly descending tail. */
  lemma ConsStrict(h: int, rest: seq<int>)
    requires StrictlyDesc(rest) && forall x :: x in rest ==> h > x
    ensures StrictlyDesc([h] + rest)
  {
    var r := [h] + rest;
    forall i, j | 0 <= i < j < |r| ensures r[i] > r[j] {
      assert r[j] == rest[j - 1] && rest[j - 1] in rest;
      if i > 0 {
        assert r[i] == rest[i - 1];
      }
    }
  }

  /** The head of a strictly descending list is above everything after it. */
  lemma HeadAbove(u: seq<int>, x: int)
    requires StrictlyDesc(u) && u != [] && x in u[1..]
    ensures u[0] > x
  {
    var k :| 0 <= k < |u[1..]| && u[1..][k] == x;
    assert u[k + 1] == x;
  }

  /** `_eval5` exactly as written: the first matching category wins, and a
      wheel keeps the ace at the head of its ranks. */
  function Eval5AsWritten(hand: seq<Card>): (r: Score)
    requires |hand| == 5
    ensures 1 <= r.category <= 9
    ensures r.category == CategoryOf(SortDesc(RanksOf(hand)), |SuitsOf(hand)| == 1)
  {
    RankFacts(hand);
    ClassifyCategory(SortDesc(RanksOf(hand)), |SuitsOf(hand)| == 1);
    Classify(SortDesc(RanksOf(hand)), |SuitsOf(hand)| == 1)
  }

  /** The category tests of `_eval5` on the descending ranks of five cards
      and whether they share one suit. */
  function Classify(ranks: seq<int>, flush: bool): (r: Score)
    requires |ranks| == 5 && SortedDesc(ranks)
    ensures 1 <= r.category <= 9
  {
    DedupSortedProps(ranks);
    var uniq := DedupSorted(ranks);
    var counts := CountVals(uniq, ranks);
    var straight := IsStraight(uniq);
    if straight && flush then Score(9, ranks)
    else if 4 in counts then
      QuadKicker(ranks, uniq);
      Score(8, [WithCount(uniq, ranks, 4)[0], WithCount(uniq, ranks, 1)[0]])
    else if multiset(counts) == multiset{2, 3} then
      assert 3 in counts && 2 in counts by {
        assert 3 in multiset(counts) && 2 in multiset(counts);
      }
      Score(7, [WithCount(uniq, ranks, 3)[0], WithCount(uniq, ranks, 2)[0]])
    else if flush then Score(6, ranks)
    else if straight then Score(5, ranks)
    else if 3 in counts then Score(4, [WithCount(uniq, ranks, 3)[0]] + WithCount(uniq, ranks, 1))
    else if |WithCount(uniq, ranks, 2)| >= 2 then
      var pairs := WithCount(uniq, ranks, 2);
      TwoPairKicker(ranks, uniq);
      Score(3, [pairs[0], pairs[1], WithCount(uniq, ranks, 1)[0]])
    else if |WithCount(uniq, ranks, 2)| == 1 then
      Score(2, [WithCount(uniq, ranks, 2)[0]] + WithCount(uniq, ranks, 1))
    else Score(1, ranks)
  }

  lemma {:induction false} DedupStrict(s: seq<int>)
    requires StrictlyDesc(s)
    ensures DedupSorted(s) == s
  {
    if |s| > 1 {
      DedupStrict(s[1..]);
      assert s == [s[0]] + s[1..];
    }
  }

  /** Five different ranks can only make a straight flush, a flush, a
      straight or a high card. */
  lemma DistinctClassify(ranks: seq<int>, flush: bool)
    requires |ranks| == 5 && StrictlyDesc(ranks)
    ensures Classify(ranks, flush) ==
      if IsStraight(ranks) && flush then Score(9, ranks)
      else if flush then Score(6, ranks)
      else if IsStraight(ranks) then Score(5, ranks)
      else Score(1, ranks)
  {
    DedupStrict(ranks);
    forall x | x in ranks ensures Count(ranks, x) == 1 {
      CountDistinct(ranks, x);
    }
    var counts := CountVals(ranks, ranks);
    assert 4 !in counts && 3 !in counts && 2 !in counts;
    assert multiset(counts) != multiset{2, 3} by { assert 2 !in multiset(counts); }
  }

  /** Some rank of `ranks` occurs exactly `c` times. */
  predicate HasKind(ranks: seq<int>, c: int)
  {
    exists x :: x in ranks && Count(ranks, x) == c
  }

  /** Two different ranks of `ranks` occur exactly twice each. */
  predicate HasTwoPairs(ranks: seq<int>)
  {
    exists x, y :: x in ranks && y in ranks && x != y && Count(ranks, x) == 2 && Count(ranks, y) == 2
  }

  /** The poker category of five ranks, from how often each rank occurs:
      straight flush 9, four of a kind 8, a three and a pair 7, flush 6,
      straight 5, three of a kind 4, two pairs 3, one pair 2, high card 1,
      tested in that order. */
  function CategoryOf(ranks: seq<int>, flush: bool): int
  {
    var straight := IsStraight(DedupSorted(ranks));
    if straight && flush then 9
    else if HasKind(ranks, 4) then 8
    else if HasKind(ranks, 3) && HasKind(ranks, 2) then 7
    else if flush then 6
    else if straight then 5
    else if HasKind(ranks, 3) then 4
    else if HasTwoPairs(ranks) then 3
    else if HasKind(ranks, 2) then 2
    else 1
  }

  /** `_eval5`'s tests on `counts.values()` decide the category that the
      multiplicities of the ranks give. */
  lemma ClassifyCategory(ranks: seq<int>, flush: bool)
    requires |ranks| == 5 && SortedDesc(ranks)
    ensures Classify(ranks, flush).category == CategoryOf(ranks, flush)
  {
    DedupSortedProps(ranks);
    var uniq := DedupSorted(ranks);
    KindListed(uniq, ranks, 4);
    KindListed(uniq, ranks, 3);
    KindListed(uniq, ranks, 2);
    FullHouseCounts(ranks, uniq);
    PairsListed(uniq, ranks);
  }

  /** A rank occurs `c` times exactly when the counter lists one with
      count `c`. */
  lemma KindListed(u: seq<int>, s: seq<int>, c: int)
    requires forall x :: x in u <==> x in s
    ensures HasKind(s, c) <==> |WithCount(u, s, c)| > 0
  {
    var r := WithCount(u, s, c);
    if HasKind(s, c) {
      var x :| x in s && Count(s, x) == c;
      assert x in r;
    }
    if |r| > 0 {
      assert r[0] in r;
    }
  }

  /** Two ranks occur twice exactly when the counter lists two ranks with
      count 2. */
  lemma PairsListed(u: seq<int>, s: seq<int>)
    requires StrictlyDesc(u) && forall x :: x in u <==> x in s
    ensures HasTwoPairs(s) <==> |WithCount(u, s, 2)| >= 2
  {
    var r := WithCount(u, s, 2);
    if HasTwoPairs(s) {
      var x, y :| x in s && y in s && x != y && Count(s, x) == 2 && Count(s, y) == 2;
      assert x in r && y in r;
      var i :| 0 <= i < |r| && r[i] == x;
      var j :| 0 <= j < |r| && r[j] == y;
      assert i != j;
    }
    if |r| >= 2 {
      WithCountStrict(u, s, 2);
      assert r[0] in r && r[1] in r && r[0] != r[1];
    }
  }

  /** Every element of `s` lies in `xs` when all `|s|` are counted. */
  lemma {:induction false} CountInAll(s: seq<int>, xs: set<int>)
    requires CountIn(s, xs) == |s|
    ensures forall x :: x in s ==> x in xs
  {
    if s != [] {
      CountInOutside(s[1..], xs);
      CountInAll(s[1..], xs);
      assert s == [s[0]] + s[1..];
    }
  }

  /** Among five cards `sorted(counts.values()) == [2, 3]` holds exactly
      when some rank occurs three times and some rank twice. */
  lemma FullHouseCounts(ranks: seq<int>, uniq: seq<int>)
    requires |ranks| == 5 && StrictlyDesc(uniq) && forall x :: x in uniq <==> x in ranks
    ensures multiset(CountVals(uniq, ranks)) == multiset{2, 3} <==>
      HasKind(ranks, 3) && HasKind(ranks, 2)
  {
    var counts := CountVals(uniq, ranks);
    if multiset(counts) == multiset{2, 3} {
      assert 3 in multiset(counts) && 2 in multiset(counts);
      var i :| 0 <= i < |counts| && counts[i] == 3;
      var j :| 0 <= j < |counts| && counts[j] == 2;
      assert uniq[i] in ranks && uniq[j] in ranks;
    }
    if HasKind(ranks, 3) && HasKind(ranks, 2) {
      var x :| x in ranks && Count(ranks, x) == 3;
      var y :| y in ranks && Count(ranks, y) == 2;
      CountInAdd(ranks, {}, x);
      assert {} + {x} == {x};
      CountInAdd(ranks, {x}, y);
      CountInAll(ranks, {x} + {y});
      TwoRanks(uniq, x, y);
      assert counts == [Count(ranks, uniq[0]), Count(ranks, uniq[1])];
      if uniq[0] == x {
        assert counts == [3, 2];
      } else {
        assert counts == [2, 3];
      }
    }
  }

  /** Three entries of a strictly descending list are three different
      values, so they cannot all be `x` or `y`. */
  lemma ThreeAbove(u: seq<int>, x: int, y: int)
    requires StrictlyDesc(u) && |u| >= 3
    ensures !(forall z :: z in u ==> z == x || z == y)
  {
    assert u[0] in u && u[1] in u && u[2] in u;
  }

  /** A strictly descending list holding two ranks and nothing else is
      those two. */
  lemma TwoRanks(u: seq<int>, x: int, y: int)
    requires StrictlyDesc(u) && x != y && x in u && y in u
    requires forall z :: z in u ==> z == x || z == y
    ensures |u| == 2 && ((u[0] == x && u[1] == y) || (u[0] == y && u[1] == x))
  {
    if |u| >= 3 {
      ThreeAbove(u, x, y);
      assert false;
    }
  }

  /** The ranks of a wheel with the ace counted low, as the five-high
      straight it is. */
  const WheelLow: seq<int> := [3, 2, 1, 0, -1]

  /** The evaluator with the wheel ranked as the lowest straight: identical
      to `_eval5` except that a wheel or steel wheel lists its ranks ace-low. */
  function Eval5(hand: seq<Card>): (r: Score)
    requires |hand| == 5
    ensures 1 <= r.category <= 9
    ensures r.category == Eval5AsWritten(hand).category
    ensures !IsWheel(hand) ==> r == Eval5AsWritten(hand)
  {
    var s := Eval5AsWritten(hand);
    if (s.category == 9 || s.category == 5) && IsWheel(hand) then Score(s.category, WheelLow)
    else s
  }

  // ---------------------------------------------------------------------
  // Properties of the five-card score
  // ---------------------------------------------------------------------

  lemma RanksOfAppend(x: seq<Card>, y: seq<Card>)
    ensures RanksOf(x + y) == RanksOf(x) + RanksOf(y)
  {
    assert |RanksOf(x + y)| == |RanksOf(x) + RanksOf(y)|;
  }

  /** Taking one card out of a hand takes its rank out of the ranks. */
  lemma RanksOfRemove(b: seq<Card>, k: nat)
    requires k < |b|
    ensures multiset(RanksOf(b)) == multiset(RanksOf(b[..k] + b[k + 1..])) + multiset{b[k].rank}
  {
    var pre, post := b[..k], b[k + 1..];
    assert b == pre + [b[k]] + post;
    RanksOfAppend(pre, [b[k]]);
    RanksOfAppend(pre + [b[k]], post);
    RanksOfAppend(pre, post);
    assert RanksOf([b[k]]) == [b[k].rank];
  }

  /** Taking the same card out of two hands holding the same cards leaves
      hands holding the same cards. */
  lemma RemoveSame(a: seq<Card>, b: seq<Card>, k: nat)
    requires multiset(a) == multiset(b) && a != [] && k < |b| && b[k] == a[0]
    ensures multiset(a[1..]) == multiset(b[..k] + b[k + 1..])
  {
    assert a == [a[0]] + a[1..];
    assert b == b[..k] + [b[k]] + b[k + 1..];
    assert multiset(a[1..]) == multiset(a) - multiset{a[0]};
    assert multiset(b[..k] + b[k + 1..]) == multiset(b) - multiset{a[0]};
  }

  lemma {:induction false} RanksOfMultiset(a: seq<Card>, b: seq<Card>)
    requires multiset(a) == multiset(b)
    ensures multiset(RanksOf(a)) == multiset(RanksOf(b))
    decreases |a|
  {
    if a == [] {
      assert |multiset(b)| == 0;
    } else {
      var k := FindCard(a, b);
      RemoveSame(a, b, k);
      RanksOfMultiset(a[1..], b[..k] + b[k + 1..]);
      RanksOfSwap(a, b, k);
    }
  }

  /** Where the first card of `a` sits in `b`. */
  lemma FindCard(a: seq<Card>, b: seq<Card>) returns (k: nat)
    requires multiset(a) == multiset(b) && a != []
    ensures k < |b| && b[k] == a[0]
  {
    assert a[0] in multiset(b);
    k :| 0 <= k < |b| && b[k] == a[0];
  }

  /** The ranks step of the induction: hands that agree once the matching
      card is taken out of each agree on their ranks. */
  lemma RanksOfSwap(a: seq<Card>, b: seq<Card>, k: nat)
    requires a != [] && k < |b| && b[k] == a[0]
    requires multiset(RanksOf(a[1..])) == multiset(RanksOf(b[..k] + b[k + 1..]))
    ensures multiset(RanksOf(a)) == multiset(RanksOf(b))
  {
    RanksOfRemove(b, k);
    RanksOfCons(a);
    assert multiset(RanksOf(a)) == multiset{a[0].rank} + multiset(RanksOf(a[1..]));
  }

  lemma RanksOfCons(a: seq<Card>)
    requires a != []
    ensures RanksOf(a) == [a[0].rank] + RanksOf(a[1..])
  {
    assert a == [a[0]] + a[1..];
    RanksOfAppend([a[0]], a[1..]);
  }

  /** The score depends on which five cards are held, not on their order. */
  lemma Eval5Permutation(a: seq<Card>, b: seq<Card>)
    requires |a| == 5 && multiset(a) == multiset(b)
    ensures |b| == 5
    ensures Eval5AsWritten(a) == Eval5AsWritten(b)
    ensures Eval5(a) == Eval5(b)
  {
    assert |multiset(a)| == |multiset(b)|;
    RanksOfMultiset(a, b);
    SortDescSorted(RanksOf(a));
    SortDescSorted(RanksOf(b));
    SortedUnique(SortDesc(RanksOf(a)), SortDesc(RanksOf(b)));
    forall c ensures c in a <==> c in b {
      assert c in a <==> c in multiset(a);
      assert c in b <==> c in multiset(b);
    }
    assert SuitsOf(a) == SuitsOf(b);
  }

  /** Every straight scores at least as high as the wheel once the wheel's
      ace counts low, and strictly higher unless it is a wheel (same for
      straight flushes). */
  lemma WheelLowestStraight(h: seq<Card>, w: seq<Card>)
    requires |h| == 5 && |w| == 5 && forall c :: c in h ==> ValidCard(c)
    requires IsWheel(w) && Eval5(w).category == Eval5(h).category
    requires Eval5(h).category == 5 || Eval5(h).category == 9
    ensures !ScoreLess(Eval5(h), Eval5(w))
    ensures !IsWheel(h) ==> ScoreLess(Eval5(w), Eval5(h))
  {
    RankFacts(h);
    var ranks := SortDesc(RanksOf(h));
    var uniq := DedupSorted(ranks);
    if !IsWheel(h) {
      assert IsStraight(uniq);
      DedupSortedProps(ranks);
      assert uniq[4] in ranks;
      assert uniq[4] in multiset(RanksOf(h));
      var i :| 0 <= i < 5 && RanksOf(h)[i] == uniq[4];
      assert h[i] in h;
      assert uniq[4] >= 0;
      assert uniq[0] == ranks[0];
      assert Eval5(h).ranks == ranks;
      assert ranks[0] >= 4;
    }
  }

  // ---------------------------------------------------------------------
  // The wheel against a king-high straight
  // ---------------------------------------------------------------------

  /** As, 5h, 4d, 3c, 2s. */
  const WheelHand: seq<Card> := [Card(12, 3), Card(3, 0), Card(2, 1), Card(1, 2), Card(0, 3)]

  /** Ks, Qh, Jd, Tc, 9s. */
  const KingHighHand: seq<Card> := [Card(11, 3), Card(10, 0), Card(9, 1), Card(8, 2), Card(7, 3)]

  lemma WheelRanks()
    ensures SortDesc(RanksOf(WheelHand)) == [12, 3, 2, 1, 0]
  {
    assert RanksOf(WheelHand) == [12, 3, 2, 1, 0];
    assert SortDesc([0]) == [0];
    assert SortDesc([1, 0]) == [1, 0];
    assert SortDesc([2, 1, 0]) == [2, 1, 0];
    assert SortDesc([3, 2, 1, 0]) == [3, 2, 1, 0];
  }

  lemma WheelSuits()
    ensures SuitsOf(WheelHand) == {0, 1, 2, 3}
  {
    assert WheelHand[0] in WheelHand && WheelHand[1] in WheelHand;
    assert WheelHand[2] in WheelHand && WheelHand[3] in WheelHand;
  }

  /** Five ranks listed in falling order are strictly descending. */
  lemma FiveDesc(a: int, b: int, c: int, d: int, e: int)
    requires a > b > c > d > e
    ensures StrictlyDesc([a, b, c, d, e]) && SortedDesc([a, b, c, d, e])
  {
    var s := [a, b, c, d, e];
    forall i, j | 0 <= i < j < 5 ensures s[i] > s[j] {
      assert s[i] >= s[j - 1] >= s[j] by {
        if i < j - 1 {
          FiveDescStep(s, i, j - 1);
        }
      }
    }
  }

  lemma FiveDescStep(s: seq<int>, i: nat, j: nat)
    requires |s| == 5 && forall k :: 0 <= k < 4 ==> s[k] > s[k + 1]
    requires i <= j < 5
    ensures s[i] >= s[j]
    decreases j - i
  {
    if i < j {
      FiveDescStep(s, i + 1, j);
    }
  }

  lemma WheelHandClassify()
    ensures SortedDesc([12, 3, 2, 1, 0])
    ensures Eval5AsWritten(WheelHand) == Classify([12, 3, 2, 1, 0], false)
  {
    FiveDesc(12, 3, 2, 1, 0);
    WheelRanks();
    WheelSuits();
    assert |SuitsOf(WheelHand)| == 4;
  }

  lemma WheelClassify()
    ensures StrictlyDesc([12, 3, 2, 1, 0])
    ensures Classify([12, 3, 2, 1, 0], false) == Score(5, [12, 3, 2, 1, 0])
  {
    var ranks := [12, 3, 2, 1, 0];
    FiveDesc(12, 3, 2, 1, 0);
    assert IsStraight(ranks) by { assert ranks == Wheel; }
    DistinctClassify(ranks, false);
  }
  lemma WheelHandIsWheel()
    ensures IsWheel(WheelHand)
  {
    WheelRanks();
    DedupStrict([12, 3, 2, 1, 0]);
  }

  lemma WheelScore()
    ensures Eval5AsWritten(WheelHand) == Score(5, [12, 3, 2, 1, 0])
    ensures IsWheel(WheelHand)
  {
    WheelHandClassify();
    WheelClassify();
    WheelHandIsWheel();
  }

  lemma KingHighRanks()
    ensures SortDesc(RanksOf(KingHighHand)) == [11, 10, 9, 8, 7]
  {
    assert RanksOf(KingHighHand) == [11, 10, 9, 8, 7];
    assert SortDesc([7]) == [7];
    assert SortDesc([8, 7]) == [8, 7];
    assert SortDesc([9, 8, 7]) == [9, 8, 7];
    assert SortDesc([10, 9, 8, 7]) == [10, 9, 8, 7];
  }

  lemma KingHighSuits()
    ensures SuitsOf(KingHighHand) == {0, 1, 2, 3}
  {
    assert KingHighHand[0] in KingHighHand && KingHighHand[1] in KingHighHand;
    assert KingHighHand[2] in KingHighHand && KingHighHand[3] in KingHighHand;
  }

  lemma KingHighScore()
    ensures Eval5AsWritten(KingHighHand) == Score(5, [11, 10, 9, 8, 7])
    ensures !IsWheel(KingHighHand)
  {
    var ranks := [11, 10, 9, 8, 7];
    FiveDesc(11, 10, 9, 8, 7);
    KingHighRanks();
    KingHighSuits();
    DedupStrict(ranks);
    DistinctClassify(ranks, false);
  }

  /** As written, the wheel outscores the king-high straight. */
  lemma WheelBeatsKingHighAsWritten()
    ensures ScoreLess(Eval5AsWritten(KingHighHand), Eval5AsWritten(WheelHand))
  {
    WheelScore();
    KingHighScore();
  }

  /** With the ace counted low, the king-high straight wins. */
  lemma KingHighBeatsWheel()
    ensures Eval5(WheelHand) == Score(5, WheelLow)
    ensures ScoreLess(Eval5(WheelHand), Eval5(KingHighHand))
  {
    WheelScore();
    KingHighScore();
  }

  // ---------------------------------------------------------------------
  // `evaluate`: the best five-card subset
  // ---------------------------------------------------------------------

  function PrependAll<T>(x: T, cs: seq<seq<T>>): (r: seq<seq<T>>)
    ensures |r| == |cs| && forall i :: 0 <= i < |cs| ==> r[i] == [x] + cs[i]
  {
    seq(|cs|, i requires 0 <= i < |cs| => [x] + cs[i])
  }

  /** `itertools.combinations(s, k)`, in its order. */
  function Combinations<T>(s: seq<T>, k: nat): seq<seq<T>>
    decreases |s|
  {
    if k == 0 then [[]]
    else if |s| < k then []
    else PrependAll(s[0], Combinations(s[1..], k - 1)) + Combinations(s[1..], k)
  }

  /** `c` picks some of the elements of `s`, keeping their order. */
  predicate IsSubseq<T(==)>(c: seq<T>, s: seq<T>)
    decreases |s|
  {
    if c == [] then true
    else if s == [] then false
    else (c[0] == s[0] && IsSubseq(c[1..], s[1..])) || IsSubseq(c, s[1..])
  }

  lemma {:induction false} SubseqLength<T>(c: seq<T>, s: seq<T>)
    requires IsSubseq(c, s)
    ensures |c| <= |s|
    decreases |s|
  {
    if c != [] {
      if c[0] == s[0] && IsSubseq(c[1..], s[1..]) {
        SubseqLength(c[1..], s[1..]);
      } else {
        SubseqLength(c, s[1..]);
      }
    }
  }

  /** The combinations are exactly the order-preserving selections of `k`
      elements. */
  lemma {:induction false} CombinationsExact<T>(s: seq<T>, k: nat, c: seq<T>)
    ensures c in Combinations(s, k) <==> |c| == k && IsSubseq(c, s)
    decreases |s|
  {
    if k == 0 {
      assert c in Combinations(s, k) <==> c == [];
    } else if |s| < k {
      if IsSubseq(c, s) {
        SubseqLength(c, s);
      }
    } else {
      var left := PrependAll(s[0], Combinations(s[1..], k - 1));
      var right := Combinations(s[1..], k);
      CombinationsExact(s[1..], k, c);
      if c != [] {
        CombinationsExact(s[1..], k - 1, c[1..]);
        if c in left {
          var i :| 0 <= i < |left| && left[i] == c;
          assert c[1..] == Combinations(s[1..], k - 1)[i];
        }
        if c[0] == s[0] && c[1..] in Combinations(s[1..], k - 1) {
          var i :| 0 <= i < |Combinations(s[1..], k - 1)| && Combinations(s[1..], k - 1)[i] == c[1..];
          assert left[i] == c;
        }
      } else {
        assert c !in left;
      }
      assert Combinations(s, k) == left + right;
    }
  }

  /** A list of at least five cards has a five-card combination. */
  lemma {:induction false} CombinationsNonEmpty<T>(s: seq<T>, k: nat)
    requires k <= |s|
    ensures |Combinations(s, k)| > 0
    decreases |s|
  {
    if k > 0 {
      CombinationsNonEmpty(s[1..], k - 1);
    }
  }

  /** A hand of exactly five cards is its only combination. */
  lemma {:induction false} CombinationsWhole<T>(s: seq<T>)
    ensures Combinations(s, |s|) == [s]
    decreases |s|
  {
    if |s| > 0 {
      CombinationsWhole(s[1..]);
      assert Combinations(s[1..], |s|) == [];
      assert [s[0]] + s[1..] == s;
    }
  }

  /** The scores of the five-card combinations, in order. */
  function ScoresOf(combos: seq<seq<Card>>): (r: seq<Score>)
    requires forall c :: c in combos ==> |c| == 5
    ensures |r| == |combos| && forall i :: 0 <= i < |combos| ==> r[i] == Eval5(combos[i])
  {
    seq(|combos|, i requires 0 <= i < |combos| => Eval5(combos[i]))
  }

  /** The running best of the loop in `evaluate`: start from `best` and take
      each later score that is strictly greater. */
  function BestFrom(scores: seq<Score>, best: Score): Score
  {
    if scores == [] then best
    else BestFrom(scores[1..], if ScoreLess(best, scores[0]) then scores[0] else best)
  }

  /** `evaluate(cards)`: `(0, [])` when there is no five-card subset,
      otherwise the first maximal score. */
  function Best(cards: seq<Card>): Score
  {
    CombinationsLength(cards);
    BestFrom(ScoresOf(Combinations(cards, 5)), Score(0, []))
  }

  lemma CombinationsLength(cards: seq<Card>)
    ensures forall c :: c in Combinations(cards, 5) ==> |c| == 5
  {
    forall c | c in Combinations(cards, 5) ensures |c| == 5 {
      CombinationsExact(cards, 5, c);
    }
  }

  /** One step of the running best, at position `i`. */
  lemma BestFromAt(scores: seq<Score>, i: nat, best: Score)
    requires i < |scores|
    ensures BestFrom(scores[i..], best) ==
      BestFrom(scores[i + 1..], if ScoreLess(best, scores[i]) then scores[i] else best)
  {
    assert scores[i..][1..] == scores[i + 1..];
  }

  /** The running best is the start value or one of the scores, and no
      score is greater. */
  lemma {:induction false} BestFromIsMax(scores: seq<Score>, best: Score)
    ensures BestFrom(scores, best) == best || BestFrom(scores, best) in scores
    ensures !ScoreLess(BestFrom(scores, best), best)
    ensures forall s :: s in scores ==> !ScoreLess(BestFrom(scores, best), s)
  {
    if scores != [] {
      var next := if ScoreLess(best, scores[0]) then scores[0] else best;
      BestFromIsMax(scores[1..], next);
      var r := BestFrom(scores, best);
      assert r == BestFrom(scores[1..], next);
      ScoreLessOrder(r, next, best);
      ScoreLessOrder(r, best, next);
      ScoreLessOrder(r, next, scores[0]);
      ScoreLessOrder(best, scores[0], best);
      ScoreLessOrder(r, scores[0], next);
      forall s | s in scores ensures !ScoreLess(r, s) {
        if s != scores[0] {
          assert s in scores[1..];
        }
      }
      if r != next {
        assert r in scores[1..];
      }
    } else {
      ScoreLessOrder(best, best, best);
    }
  }

  /** `evaluate` yields `(0, [])` without a five-card subset, and
      otherwise the score of some five-card subset that no other five-card
      subset beats. */
  lemma BestIsMax(cards: seq<Card>)
    ensures |cards| < 5 ==> Best(cards) == Score(0, [])
    ensures |cards| >= 5 ==> exists c :: IsSubseq(c, cards) && |c| == 5 && Best(cards) == Eval5(c)
    ensures forall c :: IsSubseq(c, cards) && |c| == 5 ==> !ScoreLess(Best(cards), Eval5(c))
  {
    BestBeatsAll(cards);
    if |cards| < 5 {
      BestShort(cards);
    } else {
      BestAttained(cards);
    }
  }

  lemma BestShort(cards: seq<Card>)
    requires |cards| < 5
    ensures Best(cards) == Score(0, [])
  {
    assert Combinations(cards, 5) == [];
  }

  lemma BestBeatsAll(cards: seq<Card>)
    ensures forall c :: IsSubseq(c, cards) && |c| == 5 ==> !ScoreLess(Best(cards), Eval5(c))
  {
    var combos := Combinations(cards, 5);
    CombinationsLength(cards);
    var scores := ScoresOf(combos);
    var best := Best(cards);
    BestFromIsMax(scores, Score(0, []));
    forall c | IsSubseq(c, cards) && |c| == 5 ensures !ScoreLess(best, Eval5(c)) {
      CombinationsExact(cards, 5, c);
      var k :| 0 <= k < |combos| && combos[k] == c;
      assert scores[k] in scores;
    }
  }

  lemma BestAttained(cards: seq<Card>)
    requires |cards| >= 5
    ensures exists c :: IsSubseq(c, cards) && |c| == 5 && Best(cards) == Eval5(c)
  {
    var combos := Combinations(cards, 5);
    CombinationsLength(cards);
    var scores := ScoresOf(combos);
    CombinationsNonEmpty(cards, 5);
    assert ScoreLess(Score(0, []), scores[0]);
    var k := BestFromWitness(scores, Score(0, []));
    CombinationsExact(cards, 5, combos[k]);
    assert IsSubseq(combos[k], cards) && |combos[k]| == 5 && Best(cards) == Eval5(combos[k]);
  }

  /** Once the first score beats the start value, the running best is one
      of the scores. */
  lemma BestFromWitness(scores: seq<Score>, start: Score) returns (k: nat)
    requires scores != [] && ScoreLess(start, scores[0])
    ensures k < |scores| && BestFrom(scores, start) == scores[k]
  {
    var best := BestFrom(scores, start);
    BestFromIsMax(scores, start);
    assert scores[0] in scores;
    ScoreLessOrder(best, start, scores[0]);
    k :| 0 <= k < |scores| && scores[k] == best;
  }

  /** `HandEvaluator.evaluate`: the loop keeping the best score over
      `itertools.combinations(cards, 5)`. */
  method Evaluate(cards: seq<Card>) returns (best: Score)
    ensures best == Best(cards)
    ensures |cards| < 5 ==> best == Score(0, [])
    ensures |cards| >= 5 ==> exists c :: IsSubseq(c, cards) && |c| == 5 && best == Eval5(c)
    ensures forall c :: IsSubseq(c, cards) && |c| == 5 ==> !ScoreLess(best, Eval5(c))
  {
    var combos := Combinations(cards, 5);
    CombinationsLength(cards);
    ghost var scores := ScoresOf(combos);
    best := Score(0, []);
    var i := 0;
    while i < |combos|
      invariant 0 <= i <= |combos|
      invariant BestFrom(scores[i..], best) == Best(cards)
    {
      var score := Eval5(combos[i]);
      BestFromAt(scores, i, best);
      if ScoreLess(best, score) {
        best := score;
      }
      i := i + 1;
    }
    assert scores[i..] == [];
    BestIsMax(cards);
  }
}
