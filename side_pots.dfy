/** Pot layering ("side pots") and the splitting of a layer among its
    winners, as both generations of the table do it: engine.py
    (`_compute_side_pots`, `showdown`) and poker_tutor.py (`build_side_pots`,
    the second `showdown`).

    The reference definition peels one contribution level at a time: the
    next layer lies between the previous level and the smallest total above
    it, and every seat whose total reaches that level pays into it. */
module SidePots {
  import opened Common

  /** A pot layer: its chips and the seats that may win it (`Pot` of
      poker_tutor.py, the `{"amount", "players"}` record of engine.py). */
  datatype Layer = Layer(amount: int, eligible: set<nat>)

  function Init<T>(s: seq<T>): seq<T>
    requires |s| > 0
  {
    s[..|s| - 1]
  }

  function Last<T>(s: seq<T>): T
    requires |s| > 0
  {
    s[|s| - 1]
  }

  /** Number of seats whose total exceeds `prev`. */
  function CountAbove(tc: seq<int>, prev: int): nat
  {
    if tc == [] then 0 else (if tc[0] > prev then 1 else 0) + CountAbove(tc[1..], prev)
  }

  lemma {:induction false} CountAboveZero(tc: seq<int>, prev: int)
    ensures CountAbove(tc, prev) == 0 <==> forall i :: 0 <= i < |tc| ==> tc[i] <= prev
  {
    if tc != [] {
      CountAboveZero(tc[1..], prev);
      assert forall i :: 1 <= i < |tc| ==> tc[i] == tc[1..][i - 1];
    }
  }

  /** Raising the threshold to a total that occurs drops at least that
      seat. */
  lemma {:induction false} CountAboveDrops(tc: seq<int>, prev: int, next: int)
    requires prev < next
    ensures CountAbove(tc, next) <= CountAbove(tc, prev)
    ensures next in tc ==> CountAbove(tc, next) < CountAbove(tc, prev)
  {
    if tc != [] {
      CountAboveDrops(tc[1..], prev, next);
      assert tc == [tc[0]] + tc[1..];
    }
  }

  /** The smallest total above `prev`. */
  function MinAbove(tc: seq<int>, prev: int): (r: int)
    requires CountAbove(tc, prev) > 0
    ensures r > prev && r in tc
    ensures forall i :: 0 <= i < |tc| && tc[i] > prev ==> tc[i] >= r
  {
    CountAboveZero(tc[1..], prev);
    assert forall i :: 1 <= i < |tc| ==> tc[i] == tc[1..][i - 1];
    if CountAbove(tc[1..], prev) == 0 then tc[0]
    else
      var m := MinAbove(tc[1..], prev);
      if tc[0] > prev && tc[0] < m then tc[0] else m
  }

  /** The seats whose total reaches `level`. */
  function Eligible(tc: seq<int>, level: int): set<nat>
  {
    set i: nat | i < |tc| && tc[i] >= level
  }

  /** The seats whose total exceeds `prev`. */
  function Above(tc: seq<int>, prev: int): set<nat>
  {
    set i: nat | i < |tc| && tc[i] > prev
  }

  /** Number of seats whose total reaches `level`. */
  function CountAtLeast(tc: seq<int>, level: int): nat
  {
    if tc == [] then 0 else CountAtLeast(Init(tc), level) + (if Last(tc) >= level then 1 else 0)
  }

  lemma {:induction false} EligibleCard(tc: seq<int>, level: int)
    ensures |Eligible(tc, level)| == CountAtLeast(tc, level)
  {
    if tc != [] {
      var n := |tc| - 1;
      EligibleCard(Init(tc), level);
      if Last(tc) >= level {
        assert Eligible(tc, level) == Eligible(Init(tc), level) + {n};
        assert n !in Eligible(Init(tc), level);
      } else {
        assert Eligible(tc, level) == Eligible(Init(tc), level);
      }
    }
  }

  /** The chips the seats put in above `prev`: the sum of
      `max(total - prev, 0)`. */
  function Excess(tc: seq<int>, prev: int): int
  {
    if tc == [] then 0 else Excess(Init(tc), prev) + (if Last(tc) > prev then Last(tc) - prev else 0)
  }

  /** No total above `prev` means nothing above it. */
  lemma {:induction false} ExcessNone(tc: seq<int>, prev: int)
    requires forall i :: 0 <= i < |tc| ==> tc[i] <= prev
    ensures Excess(tc, prev) == 0
  {
    if tc != [] {
      ExcessNone(Init(tc), prev);
    }
  }

  /** The chips above `prev` are one layer up to `next` from every seat that
      reaches it, plus the chips above `next`. */
  lemma {:induction false} ExcessStep(tc: seq<int>, prev: int, next: int)
    requires prev < next
    requires forall i :: 0 <= i < |tc| && tc[i] > prev ==> tc[i] >= next
    ensures Excess(tc, prev) == (next - prev) * CountAtLeast(tc, next) + Excess(tc, next)
  {
    if tc != [] {
      ExcessStep(Init(tc), prev, next);
      var c := CountAtLeast(Init(tc), next);
      if Last(tc) >= next {
        assert (next - prev) * (c + 1) == (next - prev) * c + (next - prev);
      }
    }
  }

  lemma {:induction false} ExcessZero(tc: seq<int>)
    requires forall i :: 0 <= i < |tc| ==> tc[i] >= 0
    ensures Excess(tc, 0) == Sum(tc)
  {
    if tc != [] {
      ExcessZero(Init(tc));
      assert tc == Init(tc) + [Last(tc)];
      SumAppend(Init(tc), [Last(tc)]);
      assert Sum([Last(tc)]) == Last(tc);
    }
  }

  /** The layers above `prev`, lowest first. */
  function Peel(tc: seq<int>, prev: int): seq<Layer>
    decreases CountAbove(tc, prev)
  {
    if CountAbove(tc, prev) == 0 then []
    else
      var next := MinAbove(tc, prev);
      CountAboveDrops(tc, prev, next);
      [Layer((next - prev) * |Eligible(tc, next)|, Eligible(tc, next))] + Peel(tc, next)
  }

  /** The contribution levels above `prev`, ascending without repeats:
      `sorted(set(totals))` over the totals above `prev`. */
  function Levels(tc: seq<int>, prev: int): seq<int>
    decreases CountAbove(tc, prev)
  {
    if CountAbove(tc, prev) == 0 then []
    else
      var next := MinAbove(tc, prev);
      CountAboveDrops(tc, prev, next);
      [next] + Levels(tc, next)
  }

  /** The side pots of a hand whose seats put in `tc` in total. */
  function SidePots(tc: seq<int>): seq<Layer>
  {
    Peel(tc, 0)
  }

  /** The positive contribution levels, ascending (the `levels` of
      `build_side_pots`). */
  function PotLevels(tc: seq<int>): seq<int>
  {
    Levels(tc, 0)
  }

  function SumAmounts(layers: seq<Layer>): int
  {
    if layers == [] then 0 else layers[0].amount + SumAmounts(layers[1..])
  }

  predicate StrictlyAscending(s: seq<int>)
  {
    forall i, j :: 0 <= i < j < |s| ==> s[i] < s[j]
  }

  /** The levels are the distinct totals above `prev`, in ascending order. */
  lemma {:induction false} LevelsExact(tc: seq<int>, prev: int)
    ensures StrictlyAscending(Levels(tc, prev))
    ensures forall k :: 0 <= k < |Levels(tc, prev)| ==> Levels(tc, prev)[k] > prev
    ensures forall x :: x in Levels(tc, prev) <==> x in tc && x > prev
    decreases CountAbove(tc, prev)
  {
    CountAboveZero(tc, prev);
    if CountAbove(tc, prev) > 0 {
      var next := MinAbove(tc, prev);
      CountAboveDrops(tc, prev, next);
      LevelsExact(tc, next);
      var rest := Levels(tc, next);
      assert Levels(tc, prev) == [next] + rest;
      forall x | x in tc && x > prev ensures x in Levels(tc, prev) {
        var i :| 0 <= i < |tc| && tc[i] == x;
      }
    }
  }

  /** Layer k lies between level k-1 (or `prev`) and level k and is paid
      by every seat reaching level k. */
  lemma {:induction false} PeelLevels(tc: seq<int>, prev: int)
    ensures |Peel(tc, prev)| == |Levels(tc, prev)|
    ensures forall k :: 0 <= k < |Levels(tc, prev)| ==>
      var level := Levels(tc, prev)[k];
      var below := if k == 0 then prev else Levels(tc, prev)[k - 1];
      Peel(tc, prev)[k] == Layer((level - below) * |Eligible(tc, level)|, Eligible(tc, level))
    decreases CountAbove(tc, prev)
  {
    if CountAbove(tc, prev) > 0 {
      var next := MinAbove(tc, prev);
      CountAboveDrops(tc, prev, next);
      PeelLevels(tc, next);
      var p, l := Peel(tc, prev), Levels(tc, prev);
      var p', l' := Peel(tc, next), Levels(tc, next);
      assert p == [Layer((next - prev) * |Eligible(tc, next)|, Eligible(tc, next))] + p';
      assert l == [next] + l';
      forall k | 0 < k < |l|
        ensures p[k] == Layer((l[k] - l[k - 1]) * |Eligible(tc, l[k])|, Eligible(tc, l[k]))
      {
        assert p[k] == p'[k - 1] && l[k] == l'[k - 1];
        assert l[k - 1] == if k == 1 then next else l'[k - 2];
      }
    }
  }

  /** There is a layer per positive level, and layer `k` is the chips
      between level `k - 1` (or nothing) and level `k` from every seat
      reaching level `k`, as `build_side_pots` makes it. */
  lemma LayerAt(tc: seq<int>, k: nat, below: int, e: set<nat>)
    requires k < |PotLevels(tc)|
    requires below == if k == 0 then 0 else PotLevels(tc)[k - 1]
    requires e == Eligible(tc, PotLevels(tc)[k])
    ensures |SidePots(tc)| == |PotLevels(tc)|
    ensures SidePots(tc)[k] == Layer((PotLevels(tc)[k] - below) * |e|, e)
  {
    PeelLevels(tc, 0);
  }

  /** Every level is positive, and there are as many layers as levels. */
  lemma LevelsPositive(tc: seq<int>)
    ensures |SidePots(tc)| == |PotLevels(tc)|
    ensures forall k :: 0 <= k < |PotLevels(tc)| ==> PotLevels(tc)[k] > 0
  {
    LevelsExact(tc, 0);
    PeelLevels(tc, 0);
  }

  /** No layer is empty, the first is shared by every seat above `prev`,
      and each layer's seats are a strict subset of the previous one's. */
  lemma {:induction false} PeelShape(tc: seq<int>, prev: int)
    ensures forall k :: 0 <= k < |Peel(tc, prev)| ==>
      Peel(tc, prev)[k].amount > 0 && Peel(tc, prev)[k].eligible != {}
    ensures |Peel(tc, prev)| > 0 ==> Peel(tc, prev)[0].eligible == Above(tc, prev)
    ensures forall k :: 0 < k < |Peel(tc, prev)| ==>
      Peel(tc, prev)[k].eligible < Peel(tc, prev)[k - 1].eligible
    decreases CountAbove(tc, prev)
  {
    if CountAbove(tc, prev) > 0 {
      var next := MinAbove(tc, prev);
      CountAboveDrops(tc, prev, next);
      PeelShape(tc, next);
      var e := Eligible(tc, next);
      assert e == Above(tc, prev);
      var i :| 0 <= i < |tc| && tc[i] == next;
      assert i in e && i !in Above(tc, next);
      assert |e| > 0;
      PosMul(next - prev, |e|);
      var rest := Peel(tc, next);
      assert Peel(tc, prev) == [Layer((next - prev) * |e|, e)] + rest;
      if |rest| > 0 {
        assert rest[0].eligible == Above(tc, next);
        assert Above(tc, next) < e;
      }
    }
  }

  lemma PosMul(a: int, b: int)
    requires a > 0 && b > 0
    ensures a * b > 0
  {
  }

  /** The layers hold exactly the chips put in above `prev`. */
  lemma {:induction false} PeelSum(tc: seq<int>, prev: int)
    ensures SumAmounts(Peel(tc, prev)) == Excess(tc, prev)
    decreases CountAbove(tc, prev)
  {
    CountAboveZero(tc, prev);
    if CountAbove(tc, prev) == 0 {
      ExcessNone(tc, prev);
    } else {
      var next := MinAbove(tc, prev);
      CountAboveDrops(tc, prev, next);
      PeelSum(tc, next);
      ExcessStep(tc, prev, next);
      EligibleCard(tc, next);
    }
  }

  /** Side pots conserve chips: their amounts add up to everything put in. */
  lemma SidePotsSum(tc: seq<int>)
    requires forall i :: 0 <= i < |tc| ==> tc[i] >= 0
    ensures SumAmounts(SidePots(tc)) == Sum(tc)
  {
    PeelSum(tc, 0);
    ExcessZero(tc);
  }

  /** Nothing put in, no layers. */
  lemma SidePotsEmpty(tc: seq<int>)
    ensures SidePots(tc) == [] <==> forall i :: 0 <= i < |tc| ==> tc[i] <= 0
  {
    CountAboveZero(tc, 0);
  }

  /** Totals 98, 199 and 202 make layers of 294, 202 and 3 chips. */
  lemma ThreeWaySidePots()
    ensures SidePots([98, 199, 202]) ==
      [Layer(294, {0, 1, 2}), Layer(202, {1, 2}), Layer(3, {2})]
  {
    var tc := [98, 199, 202];
    CountAboveZero(tc, 202);
    assert MinAbove(tc, 0) == 98;
    assert MinAbove(tc, 98) == 199;
    assert MinAbove(tc, 199) == 202;
    assert Eligible(tc, 98) == {0, 1, 2};
    assert Eligible(tc, 199) == {1, 2};
    assert Eligible(tc, 202) == {2};
    assert Peel(tc, 202) == [];
  }

  // ---------------------------------------------------------------------
  // The engine's peeling over sorted (amount, seat) entries
  // ---------------------------------------------------------------------

  /** `(amt, i)` of `_compute_side_pots`. */
  datatype Entry = Entry(amt: int, seat: nat)

  /** Python's `<=` on `(amt, i)` tuples. */
  predicate EntryLeq(a: Entry, b: Entry)
  {
    a.amt < b.amt || (a.amt == b.amt && a.seat <= b.seat)
  }

  /** `[(amt, i) for i, amt in enumerate(tc) if amt > 0]`, from seat `from`. */
  function EntriesFrom(tc: seq<int>, from: nat): seq<Entry>
    requires from <= |tc|
    decreases |tc| - from
  {
    if from == |tc| then []
    else (if tc[from] > 0 then [Entry(tc[from], from)] else []) + EntriesFrom(tc, from + 1)
  }

  lemma {:induction false} EntriesFromFacts(tc: seq<int>, from: nat)
    requires from <= |tc|
    ensures forall e :: e in EntriesFrom(tc, from) <==>
      from <= e.seat < |tc| && tc[e.seat] > 0 && e.amt == tc[e.seat]
    ensures NoDup(EntriesFrom(tc, from))
    decreases |tc| - from
  {
    if from < |tc| {
      EntriesFromFacts(tc, from + 1);
    }
  }

  function InsertEntry(e: Entry, s: seq<Entry>): seq<Entry>
  {
    if s == [] || EntryLeq(e, s[0]) then [e] + s else [s[0]] + InsertEntry(e, s[1..])
  }

  /** `contribs.sort()`. */
  function SortEntries(s: seq<Entry>): seq<Entry>
  {
    if s == [] then [] else InsertEntry(s[0], SortEntries(s[1..]))
  }

  predicate AmtSorted(s: seq<Entry>)
  {
    forall i, j :: 0 <= i < j < |s| ==> s[i].amt <= s[j].amt
  }

  lemma {:induction false} InsertEntryFacts(e: Entry, s: seq<Entry>)
    ensures |InsertEntry(e, s)| == |s| + 1
    ensures multiset(InsertEntry(e, s)) == multiset{e} + multiset(s)
  {
    if s != [] && !EntryLeq(e, s[0]) {
      InsertEntryFacts(e, s[1..]);
      assert s == [s[0]] + s[1..];
    }
  }

  /** The inserted entry or the old first entry comes first. */
  lemma InsertEntryHead(e: Entry, s: seq<Entry>)
    ensures InsertEntry(e, s) != []
    ensures InsertEntry(e, s)[0] == (if s == [] || EntryLeq(e, s[0]) then e else s[0])
  {
  }

  /** Putting an entry no larger than the first in front keeps the order. */
  lemma ConsSorted(x: Entry, t: seq<Entry>)
    requires AmtSorted(t) && (t == [] || x.amt <= t[0].amt)
    ensures AmtSorted([x] + t)
  {
    var r := [x] + t;
    forall i, j | 0 <= i < j < |r| ensures r[i].amt <= r[j].amt {
      assert r[j] == t[j - 1];
      if i > 0 {
        assert r[i] == t[i - 1];
      }
    }
  }

  lemma {:induction false} InsertEntrySorted(e: Entry, s: seq<Entry>)
    requires AmtSorted(s)
    ensures AmtSorted(InsertEntry(e, s))
  {
    if s == [] || EntryLeq(e, s[0]) {
      ConsSorted(e, s);
    } else {
      var t := InsertEntry(e, s[1..]);
      assert AmtSorted(s[1..]) by {
        forall i, j | 0 <= i < j < |s[1..]| ensures s[1..][i].amt <= s[1..][j].amt {
          assert s[1..][i] == s[i + 1] && s[1..][j] == s[j + 1];
        }
      }
      InsertEntrySorted(e, s[1..]);
      InsertEntryHead(e, s[1..]);
      assert s[1..] != [] ==> s[0].amt <= s[1].amt;
      ConsSorted(s[0], t);
    }
  }

  lemma {:induction false} SortEntriesFacts(s: seq<Entry>)
    ensures AmtSorted(SortEntries(s))
    ensures multiset(SortEntries(s)) == multiset(s)
  {
    if s != [] {
      SortEntriesFacts(s[1..]);
      InsertEntrySorted(s[0], SortEntries(s[1..]));
      InsertEntryFacts(s[0], SortEntries(s[1..]));
      assert s == [s[0]] + s[1..];
    }
  }

  /** The sorted contributions of `_compute_side_pots`. */
  function SortedContribs(tc: seq<int>): seq<Entry>
  {
    SortEntries(EntriesFrom(tc, 0))
  }

  /** Sorted by amount, one entry `(tc[i], i)` for each seat that put
      something in, and no seat twice. */
  ghost predicate ContribsOf(tc: seq<int>, c: seq<Entry>)
  {
    AmtSorted(c) &&
    (forall e :: e in c <==> e.seat < |tc| && tc[e.seat] > 0 && e.amt == tc[e.seat]) &&
    (forall i, j :: 0 <= i < j < |c| ==> c[i].seat != c[j].seat)
  }

  lemma SortedContribsFacts(tc: seq<int>)
    ensures ContribsOf(tc, SortedContribs(tc))
  {
    var es := EntriesFrom(tc, 0);
    var c := SortedContribs(tc);
    EntriesFromFacts(tc, 0);
    SortEntriesFacts(es);
    PermutationNoDup(es, c);
    forall e ensures e in c <==> e in es {
      assert e in c <==> e in multiset(c);
      assert e in es <==> e in multiset(es);
    }
    forall i, j | 0 <= i < j < |c| ensures c[i].seat != c[j].seat {
      assert c[i] in c && c[j] in c;
      assert c[i] != c[j];
    }
  }

  /** The seats of the entries from position k on (the `remaining` set). */
  function SeatsFrom(c: seq<Entry>, k: nat): set<nat>
  {
    set j | k <= j < |c| :: c[j].seat
  }

  /** What the engine's loop knows before entry `k`: `prev` is the amount of
      the previous entry (0 before the first). */
  ghost predicate PeelState(tc: seq<int>, c: seq<Entry>, k: nat, prev: int)
  {
    ContribsOf(tc, c) && k <= |c| &&
    (k == 0 ==> prev == 0) && (k > 0 ==> prev == c[k - 1].amt)
  }

  lemma PrevNonNegative(tc: seq<int>, c: seq<Entry>, k: nat, prev: int)
    requires PeelState(tc, c, k, prev)
    ensures prev >= 0
  {
    if k > 0 {
      assert c[k - 1] in c;
    }
  }

  /** The entry of a seat above `prev` has not been passed yet. */
  lemma EntryAhead(tc: seq<int>, c: seq<Entry>, k: nat, prev: int, i: nat)
    requires PeelState(tc, c, k, prev) && i < |tc| && tc[i] > prev
    ensures exists j :: k <= j < |c| && c[j] == Entry(tc[i], i)
  {
    PrevNonNegative(tc, c, k, prev);
    assert Entry(tc[i], i) in c;
    var j :| 0 <= j < |c| && c[j] == Entry(tc[i], i);
    assert forall m :: 0 <= m < k ==> c[m].amt <= prev;
  }

  /** An entry at or after position k is at least the amount of entry k. */
  lemma EntryNotBelow(tc: seq<int>, c: seq<Entry>, k: nat, j: nat)
    requires ContribsOf(tc, c) && k <= j < |c|
    ensures c[j].amt >= c[k].amt && c[j].seat < |tc| && tc[c[j].seat] == c[j].amt
  {
    assert c[j] in c;
  }

  /** At an entry above `prev`, the next level is that entry's amount. */
  lemma PeelStepLevel(tc: seq<int>, c: seq<Entry>, k: nat, prev: int)
    requires PeelState(tc, c, k, prev) && k < |c| && c[k].amt > prev
    ensures CountAbove(tc, prev) > 0 && MinAbove(tc, prev) == c[k].amt
  {
    EntryNotBelow(tc, c, k, k);
    CountAboveZero(tc, prev);
    forall i | 0 <= i < |tc| && tc[i] > prev ensures tc[i] >= c[k].amt {
      EntryAhead(tc, c, k, prev, i);
      var j :| k <= j < |c| && c[j] == Entry(tc[i], i);
      EntryNotBelow(tc, c, k, j);
    }
  }

  /** At an entry above `prev`, the seats still in are exactly those whose
      total reaches that entry's amount. */
  lemma PeelStepSeats(tc: seq<int>, c: seq<Entry>, k: nat, prev: int)
    requires PeelState(tc, c, k, prev) && k < |c| && c[k].amt > prev
    ensures SeatsFrom(c, k) == Eligible(tc, c[k].amt)
  {
    forall s: nat | s in Eligible(tc, c[k].amt) ensures s in SeatsFrom(c, k) {
      EntryAhead(tc, c, k, prev, s);
      var j :| k <= j < |c| && c[j] == Entry(tc[s], s);
      assert c[j].seat == s;
    }
    forall s | s in SeatsFrom(c, k) ensures s in Eligible(tc, c[k].amt) {
      var j :| k <= j < |c| && c[j].seat == s;
      EntryNotBelow(tc, c, k, j);
    }
  }

  /** An entry never lies below the previous one. */
  lemma PeelStepSame(tc: seq<int>, c: seq<Entry>, k: nat, prev: int)
    requires PeelState(tc, c, k, prev) && k < |c|
    ensures c[k].amt >= prev
  {
    assert c[k] in c;
  }

  /** Passing an entry equal to `prev` keeps the loop's state. */
  lemma PeelStatePass(tc: seq<int>, c: seq<Entry>, k: nat, prev: int)
    requires PeelState(tc, c, k, prev) && k < |c| && c[k].amt <= prev
    ensures PeelState(tc, c, k + 1, prev)
  {
    PeelStepSame(tc, c, k, prev);
  }

  /** Passing an entry above `prev` moves `prev` up to its amount. */
  lemma PeelStateOpen(tc: seq<int>, c: seq<Entry>, k: nat, prev: int)
    requires PeelState(tc, c, k, prev) && k < |c|
    ensures PeelState(tc, c, k + 1, c[k].amt)
  {
  }

  /** Removing the seat of entry k leaves the seats of the later entries. */
  lemma SeatsFromNext(tc: seq<int>, c: seq<Entry>, k: nat)
    requires ContribsOf(tc, c) && k < |c|
    ensures SeatsFrom(c, k) - {c[k].seat} == SeatsFrom(c, k + 1)
  {
  }

  /** An entry above `prev` opens the next layer of `Peel`, shared by the
      seats not yet passed. */
  lemma PeelStepOpen(tc: seq<int>, c: seq<Entry>, k: nat, prev: int)
    requires PeelState(tc, c, k, prev) && k < |c| && c[k].amt > prev
    ensures Peel(tc, prev) ==
      [Layer((c[k].amt - prev) * |SeatsFrom(c, k)|, SeatsFrom(c, k))] + Peel(tc, c[k].amt)
  {
    PeelStepLevel(tc, c, k, prev);
    PeelStepSeats(tc, c, k, prev);
  }

  /** The engine loop's invariant survives an entry above `prev`: `pots`,
      then the layer that entry opens, then the layers above it, is still the
      whole of `SidePots`. */
  lemma PeelAdvance(tc: seq<int>, c: seq<Entry>, k: nat, prev: int, pots: seq<Layer>)
    requires PeelState(tc, c, k, prev) && k < |c| && c[k].amt > prev
    requires pots + Peel(tc, prev) == SidePots(tc)
    ensures pots + [Layer((c[k].amt - prev) * |SeatsFrom(c, k)|, SeatsFrom(c, k))] + Peel(tc, c[k].amt) == SidePots(tc)
  {
    PeelStepOpen(tc, c, k, prev);
    var layer := Layer((c[k].amt - prev) * |SeatsFrom(c, k)|, SeatsFrom(c, k));
    assert pots + [layer] + Peel(tc, c[k].amt) == pots + ([layer] + Peel(tc, c[k].amt));
  }

  /** After the last entry no total lies above `prev`. */
  lemma PeelStepDone(tc: seq<int>, c: seq<Entry>, prev: int)
    requires PeelState(tc, c, |c|, prev)
    ensures Peel(tc, prev) == []
  {
    CountAboveZero(tc, prev);
    forall i | 0 <= i < |tc| ensures tc[i] <= prev {
      if tc[i] > prev {
        EntryAhead(tc, c, |c|, prev, i);
      }
    }
  }

  /** The rest of the engine's loop from entry `k` on, given the loop's
      variables at that point, as a value: the layers it will have built. */
  function EngineLoop(c: seq<Entry>, k: nat, prev: int, pots: seq<Layer>, remaining: set<nat>): seq<Layer>
    decreases |c| - k
  {
    if k >= |c| then pots
    else
      var e := c[k];
      if e.amt > prev then
        EngineLoop(c, k + 1, e.amt, pots + [Layer((e.amt - prev) * |remaining|, remaining)], remaining - {e.seat})
      else
        EngineLoop(c, k + 1, prev, pots, remaining - {e.seat})
  }

  /** Run from any state the invariant allows, the engine's loop finishes
      the side pots. */
  lemma {:induction false} EngineLoopPeel(tc: seq<int>, c: seq<Entry>, k: nat, prev: int, pots: seq<Layer>)
    requires PeelState(tc, c, k, prev)
    requires pots + Peel(tc, prev) == SidePots(tc)
    ensures EngineLoop(c, k, prev, pots, SeatsFrom(c, k)) == SidePots(tc)
    decreases |c| - k, 1
  {
    if k >= |c| {
      PeelStepDone(tc, c, prev);
      assert pots + [] == pots;
    } else if c[k].amt > prev {
      EngineLoopPeelOpen(tc, c, k, prev, pots);
    } else {
      EngineLoopPeelPass(tc, c, k, prev, pots);
    }
  }

  lemma {:induction false} EngineLoopPeelOpen(tc: seq<int>, c: seq<Entry>, k: nat, prev: int, pots: seq<Layer>)
    requires PeelState(tc, c, k, prev) && k < |c| && c[k].amt > prev
    requires pots + Peel(tc, prev) == SidePots(tc)
    ensures EngineLoop(c, k, prev, pots, SeatsFrom(c, k)) == SidePots(tc)
    decreases |c| - k, 0
  {
    var seats := SeatsFrom(c, k);
    SeatsFromNext(tc, c, k);
    PeelAdvance(tc, c, k, prev, pots);
    PeelStateOpen(tc, c, k, prev);
    var layer := Layer((c[k].amt - prev) * |seats|, seats);
    EngineLoopPeel(tc, c, k + 1, c[k].amt, pots + [layer]);
    EngineLoopOpen(c, k, prev, pots, seats, SeatsFrom(c, k + 1), SidePots(tc));
  }

  lemma {:induction false} EngineLoopPeelPass(tc: seq<int>, c: seq<Entry>, k: nat, prev: int, pots: seq<Layer>)
    requires PeelState(tc, c, k, prev) && k < |c| && c[k].amt <= prev
    requires pots + Peel(tc, prev) == SidePots(tc)
    ensures EngineLoop(c, k, prev, pots, SeatsFrom(c, k)) == SidePots(tc)
    decreases |c| - k, 0
  {
    var seats := SeatsFrom(c, k);
    SeatsFromNext(tc, c, k);
    PeelStatePass(tc, c, k, prev);
    EngineLoopPeel(tc, c, k + 1, prev, pots);
    EngineLoopPass(c, k, prev, pots, seats, SeatsFrom(c, k + 1), SidePots(tc));
  }

  /** The loop's step at an entry above `prev`. */
  lemma EngineLoopOpen(c: seq<Entry>, k: nat, prev: int, pots: seq<Layer>, seats: set<nat>, next: set<nat>, all: seq<Layer>)
    requires k < |c| && c[k].amt > prev && seats - {c[k].seat} == next
    requires EngineLoop(c, k + 1, c[k].amt, pots + [Layer((c[k].amt - prev) * |seats|, seats)], next) == all
    ensures EngineLoop(c, k, prev, pots, seats) == all
  {
  }

  /** The loop's step at an entry equal to `prev`. */
  lemma EngineLoopPass(c: seq<Entry>, k: nat, prev: int, pots: seq<Layer>, seats: set<nat>, next: set<nat>, all: seq<Layer>)
    requires k < |c| && c[k].amt <= prev && seats - {c[k].seat} == next
    requires EngineLoop(c, k + 1, prev, pots, next) == all
    ensures EngineLoop(c, k, prev, pots, seats) == all
  {
  }

  // ---------------------------------------------------------------------
  // Winners of a layer and the split
  // ---------------------------------------------------------------------

  /** The seats below `n` that may win `layer` and still hold a hand, in
      seat order (`[p for p in pot["players"] if p in hands]`). */
  function Contending(layer: Layer, contenders: set<nat>, n: nat): (r: seq<nat>)
    ensures forall i :: 0 <= i < |r| ==> r[i] < n
    ensures forall x :: x in r <==> x < n && x in layer.eligible && x in contenders
    ensures StrictlyAscendingNat(r)
  {
    if n == 0 then []
    else
      var rest := Contending(layer, contenders, n - 1);
      if n - 1 in layer.eligible && n - 1 in contenders then rest + [n - 1] else rest
  }

  predicate StrictlyAscendingNat(s: seq<nat>)
  {
    forall i, j :: 0 <= i < j < |s| ==> s[i] < s[j]
  }

  /** The best strength among `seats`. */
  function MaxStrength(seats: seq<nat>, strength: seq<int>): (r: int)
    requires |seats| > 0 && forall i :: 0 <= i < |seats| ==> seats[i] < |strength|
    ensures forall i :: 0 <= i < |seats| ==> strength[seats[i]] <= r
    ensures exists i :: 0 <= i < |seats| && strength[seats[i]] == r
  {
    if |seats| == 1 then strength[seats[0]]
    else
      var m := MaxStrength(seats[1..], strength);
      assert forall i :: 1 <= i < |seats| ==> seats[i] == seats[1..][i - 1];
      if strength[seats[0]] >= m then strength[seats[0]] else m
  }

  /** The seats of `seats` holding the best strength, in order
      (`[i for i in eligible if evals[i] == best_score]`). */
  function Winners(seats: seq<nat>, strength: seq<int>): (r: seq<nat>)
    requires forall i :: 0 <= i < |seats| ==> seats[i] < |strength|
    ensures forall x :: x in r ==> x in seats
    ensures forall i :: 0 <= i < |r| ==> r[i] < |strength|
  {
    if seats == [] then [] else
    var best := MaxStrength(seats, strength);
    Filter(seats, strength, best)
  }

  function Filter(seats: seq<nat>, strength: seq<int>, best: int): (r: seq<nat>)
    requires forall i :: 0 <= i < |seats| ==> seats[i] < |strength|
    ensures forall x :: x in r <==> x in seats && strength[x] == best
    ensures forall i :: 0 <= i < |r| ==> r[i] < |strength|
  {
    if seats == [] then []
    else (if strength[seats[0]] == best then [seats[0]] else []) + Filter(seats[1..], strength, best)
  }

  lemma {:induction false} FilterAscending(seats: seq<nat>, strength: seq<int>, best: int)
    requires forall i :: 0 <= i < |seats| ==> seats[i] < |strength|
    requires StrictlyAscendingNat(seats)
    ensures StrictlyAscendingNat(Filter(seats, strength, best))
  {
    if seats != [] {
      FilterAscending(seats[1..], strength, best);
      var rest := Filter(seats[1..], strength, best);
      forall k | 0 <= k < |rest| ensures seats[0] < rest[k] {
        assert rest[k] in seats[1..];
      }
    }
  }

  /** A seat wins a contested layer exactly when nobody contending has a
      stronger hand; there is always a winner, and none appears twice. */
  lemma WinnersExact(seats: seq<nat>, strength: seq<int>)
    requires |seats| > 0 && forall i :: 0 <= i < |seats| ==> seats[i] < |strength|
    requires StrictlyAscendingNat(seats)
    ensures forall x :: x in Winners(seats, strength) <==>
      x in seats && forall y :: y in seats ==> strength[y] <= strength[x]
    ensures |Winners(seats, strength)| > 0
    ensures NoDup(Winners(seats, strength))
  {
    WinnersMembers(seats, strength);
    WinnersNoDup(seats, strength);
  }

  lemma WinnersMembers(seats: seq<nat>, strength: seq<int>)
    requires |seats| > 0 && forall i :: 0 <= i < |seats| ==> seats[i] < |strength|
    ensures forall x :: x in Winners(seats, strength) <==>
      x in seats && forall y :: y in seats ==> strength[y] <= strength[x]
    ensures |Winners(seats, strength)| > 0
  {
    var best := MaxStrength(seats, strength);
    var i :| 0 <= i < |seats| && strength[seats[i]] == best;
    assert seats[i] in Winners(seats, strength);
    forall x | x in seats && forall y :: y in seats ==> strength[y] <= strength[x]
      ensures x in Winners(seats, strength)
    {
      var k :| 0 <= k < |seats| && seats[k] == x;
      assert seats[i] in seats;
    }
    forall x | x in Winners(seats, strength) ensures forall y :: y in seats ==> strength[y] <= strength[x] {
      forall y | y in seats ensures strength[y] <= strength[x] {
        var k :| 0 <= k < |seats| && seats[k] == y;
      }
    }
  }

  lemma WinnersNoDup(seats: seq<nat>, strength: seq<int>)
    requires |seats| > 0 && forall i :: 0 <= i < |seats| ==> seats[i] < |strength|
    requires StrictlyAscendingNat(seats)
    ensures NoDup(Winners(seats, strength))
  {
    FilterAscending(seats, strength, MaxStrength(seats, strength));
  }

  /** The best strength grows with each seat added at the end. */
  lemma {:induction false} MaxStrengthAppend(seats: seq<nat>, x: nat, strength: seq<int>)
    requires |seats| > 0 && forall i :: 0 <= i < |seats| ==> seats[i] < |strength|
    requires x < |strength|
    ensures MaxStrength(seats + [x], strength) == Max(MaxStrength(seats, strength), strength[x])
  {
    if |seats| > 1 {
      assert (seats + [x])[1..] == seats[1..] + [x];
      MaxStrengthAppend(seats[1..], x, strength);
    } else {
      assert (seats + [x])[1..] == [x];
    }
  }

  lemma {:induction false} FilterAppend(seats: seq<nat>, x: nat, strength: seq<int>, best: int)
    requires forall i :: 0 <= i < |seats| ==> seats[i] < |strength|
    requires x < |strength|
    ensures Filter(seats + [x], strength, best) ==
      Filter(seats, strength, best) + (if strength[x] == best then [x] else [])
  {
    var t := if strength[x] == best then [x] else [];
    if seats == [] {
      assert [] + [x] == [x];
    } else {
      var h := if strength[seats[0]] == best then [seats[0]] else [];
      var s := seats + [x];
      assert s[0] == seats[0] && s[1..] == seats[1..] + [x];
      assert Filter(s, strength, best) == h + Filter(seats[1..] + [x], strength, best);
      FilterAppend(seats[1..], x, strength, best);
      AppendAssoc(h, Filter(seats[1..], strength, best), t);
    }
  }

  lemma {:induction false} FilterBelow(seats: seq<nat>, strength: seq<int>, best: int)
    requires forall i :: 0 <= i < |seats| ==> seats[i] < |strength| && strength[seats[i]] < best
    ensures Filter(seats, strength, best) == []
  {
    if seats != [] {
      FilterBelow(seats[1..], strength, best);
    }
  }

  /** One more seat at the end: a stronger hand takes over alone, an equal
      one joins the winners, a weaker one changes nothing (the running best
      of engine.py:341-347). */
  lemma WinnersAppend(seats: seq<nat>, x: nat, strength: seq<int>)
    requires |seats| > 0 && forall i :: 0 <= i < |seats| ==> seats[i] < |strength|
    requires x < |strength|
    ensures var m := MaxStrength(seats, strength);
      Winners(seats + [x], strength) ==
        if strength[x] > m then [x]
        else if strength[x] == m then Winners(seats, strength) + [x]
        else Winners(seats, strength)
  {
    var m := MaxStrength(seats, strength);
    MaxStrengthAppend(seats, x, strength);
    FilterAppend(seats, x, strength, Max(m, strength[x]));
    if strength[x] > m {
      FilterBelow(seats, strength, strength[x]);
    }
  }

  /** `for w in winners: stacks[w] += share`, the first winner also
      receiving `odd` (zero as written). */
  function Pay(stacks: seq<int>, winners: seq<nat>, share: int, odd: int): (r: seq<int>)
    requires forall i :: 0 <= i < |winners| ==> winners[i] < |stacks|
    ensures |r| == |stacks|
    decreases |winners|
  {
    if winners == [] then stacks
    else Pay(stacks[winners[0] := stacks[winners[0]] + share + odd], winners[1..], share, 0)
  }

  /** The payment loop one winner further on. */
  lemma PayAt(stacks: seq<int>, winners: seq<nat>, j: nat, share: int, odd: int)
    requires j < |winners| && forall i :: 0 <= i < |winners| ==> winners[i] < |stacks|
    ensures Pay(stacks, winners[j..], share, odd) ==
      Pay(stacks[winners[j] := stacks[winners[j]] + share + odd], winners[j + 1..], share, 0)
  {
    assert winners[j..][0] == winners[j] && winners[j..][1..] == winners[j + 1..];
  }

  /** Each listed winner gains `share`, the first one `odd` more, everyone
      else is untouched, and the table gains `share` per winner plus
      `odd`. */
  lemma {:induction false} PayFacts(stacks: seq<int>, winners: seq<nat>, share: int, odd: int)
    requires |winners| > 0 && forall i :: 0 <= i < |winners| ==> winners[i] < |stacks|
    requires NoDup(winners)
    ensures forall i :: 0 <= i < |stacks| ==>
      Pay(stacks, winners, share, odd)[i] ==
        stacks[i] + (if i in winners then share else 0) + (if i == winners[0] then odd else 0)
    ensures Sum(Pay(stacks, winners, share, odd)) == Sum(stacks) + share * |winners| + odd
    decreases |winners|
  {
    var w := winners[0];
    var next := stacks[w := stacks[w] + share + odd];
    var rest := winners[1..];
    assert NoDup(rest);
    assert w !in rest;
    SumUpdate(stacks, w, stacks[w] + share + odd);
    MulSucc(share, |rest|);
    if rest == [] {
      forall i | 0 <= i < |stacks| ensures Pay(stacks, winners, share, odd)[i]
        == stacks[i] + (if i in winners then share else 0) + (if i == w then odd else 0) {
        assert i in winners <==> i == w;
      }
    } else {
      PayFacts(next, rest, share, 0);
      forall i | 0 <= i < |stacks| ensures Pay(stacks, winners, share, odd)[i]
        == stacks[i] + (if i in winners then share else 0) + (if i == w then odd else 0) {
        assert i in winners <==> i == w || i in rest;
      }
    }
  }

  lemma MulSucc(a: int, n: nat)
    ensures a * (n + 1) == a + a * n
  {
  }

  /** engine.py:348 and poker_tutor.py:538 as written: every winner gets
      `amount // len(winners)` and the remainder is dropped. */
  function SplitAsWritten(stacks: seq<int>, amount: int, winners: seq<nat>): (r: seq<int>)
    requires |winners| > 0 && forall i :: 0 <= i < |winners| ==> winners[i] < |stacks|
    ensures |r| == |stacks|
  {
    Pay(stacks, winners, amount / |winners|, 0)
  }

  /** The split with the odd chips kept: every winner gets the floor share
      and the first winner in seat order also gets the remainder. */
  function Split(stacks: seq<int>, amount: int, winners: seq<nat>): (r: seq<int>)
    requires |winners| > 0 && forall i :: 0 <= i < |winners| ==> winners[i] < |stacks|
    ensures |r| == |stacks|
  {
    Pay(stacks, winners, amount / |winners|, amount % |winners|)
  }

  /** As written, a split loses `amount % len(winners)` chips. */
  lemma SplitAsWrittenLoses(stacks: seq<int>, amount: int, winners: seq<nat>)
    requires |winners| > 0 && forall i :: 0 <= i < |winners| ==> winners[i] < |stacks|
    requires NoDup(winners)
    ensures Sum(SplitAsWritten(stacks, amount, winners)) == Sum(stacks) + amount - amount % |winners|
  {
    var n := |winners|;
    var q := amount / n;
    PayFacts(stacks, winners, q, 0);
    DivMod(amount, n);
  }

  /** Python's floor division and remainder of an amount by a head count. */
  lemma DivMod(amount: int, n: nat)
    requires n > 0
    ensures (amount / n) * n + amount % n == amount
  {
  }

  /** Three chips split two ways: one chip disappears. */
  lemma OddChipDropped()
    ensures SplitAsWritten([0, 0], 3, [0, 1]) == [1, 1]
    ensures Sum(SplitAsWritten([0, 0], 3, [0, 1])) == Sum([0, 0]) + 3 - 1
  {
    assert NoDup([0, 1]);
    SplitAsWrittenLoses([0, 0], 3, [0, 1]);
  }

  /** The corrected split hands out the whole layer: winners differ by at
      most the remainder, which goes to the first of them, and everyone
      else is untouched. */
  lemma SplitFacts(stacks: seq<int>, amount: int, winners: seq<nat>)
    requires |winners| > 0 && forall i :: 0 <= i < |winners| ==> winners[i] < |stacks|
    requires NoDup(winners)
    ensures Sum(Split(stacks, amount, winners)) == Sum(stacks) + amount
    ensures forall i :: 0 <= i < |stacks| ==>
      Split(stacks, amount, winners)[i] == stacks[i]
        + (if i in winners then amount / |winners| else 0)
        + (if i == winners[0] then amount % |winners| else 0)
  {
    var q, r := amount / |winners|, amount % |winners|;
    PayFacts(stacks, winners, q, r);
    DivMod(amount, |winners|);
  }

  /** The winners of one layer: the contending seats with the strongest
      hand, in seat order; there is one whenever somebody contends. */
  function LayerWinners(layer: Layer, contenders: set<nat>, strength: seq<int>): (w: seq<nat>)
    ensures forall i :: 0 <= i < |w| ==> w[i] < |strength|
    ensures |w| > 0 <==> Contending(layer, contenders, |strength|) != []
  {
    var seats := Contending(layer, contenders, |strength|);
    if seats == [] then []
    else
      WinnersExact(seats, strength);
      Winners(seats, strength)
  }

  /** The winners of a layer are exactly its contending seats that no other
      contending seat beats, each listed once. */
  lemma LayerWinnersExact(layer: Layer, contenders: set<nat>, strength: seq<int>)
    ensures NoDup(LayerWinners(layer, contenders, strength))
    ensures forall x :: x in LayerWinners(layer, contenders, strength) <==>
      x in Contending(layer, contenders, |strength|) &&
      forall y :: y in Contending(layer, contenders, |strength|) ==> strength[y] <= strength[x]
  {
    var seats := Contending(layer, contenders, |strength|);
    if seats != [] {
      WinnersExact(seats, strength);
    }
  }

  /** One layer paid out: split among its winners, or left alone when
      nobody contends it. */
  function Award(stacks: seq<int>, layer: Layer, contenders: set<nat>, strength: seq<int>): (r: seq<int>)
    requires |strength| == |stacks|
    ensures |r| == |stacks|
  {
    var w := LayerWinners(layer, contenders, strength);
    if w == [] then stacks else Split(stacks, layer.amount, w)
  }

  /** The bridge from the payment loops of engine.py:348-350 and
      poker_tutor.py:538-540 to `Award`: a contested layer pays `share` to
      each winner and `odd` more to the first; an uncontested one pays
      nothing. */
  lemma AwardShares(stacks: seq<int>, layer: Layer, contenders: set<nat>, strength: seq<int>,
                    winners: seq<nat>, share: int, odd: int, paid: seq<int>)
    requires |strength| == |stacks| && winners == LayerWinners(layer, contenders, strength)
    requires winners == [] ==> paid == stacks
    requires winners != [] ==>
      (share == layer.amount / |winners| && odd == layer.amount % |winners| &&
       paid == Pay(stacks, winners, share, odd))
    ensures Award(stacks, layer, contenders, strength) == paid
  {
  }

  /** The payout of every contested layer in turn, each to the strongest
      contending seats. */
  function Settle(stacks: seq<int>, layers: seq<Layer>, contenders: set<nat>, strength: seq<int>): (r: seq<int>)
    requires |strength| == |stacks|
    ensures |r| == |stacks|
    decreases |layers|
  {
    if layers == [] then stacks
    else Settle(Award(stacks, layers[0], contenders, strength), layers[1..], contenders, strength)
  }

  /** The chips of the layers that somebody contends. */
  function Claimed(layers: seq<Layer>, contenders: set<nat>, n: nat): int
  {
    if layers == [] then 0
    else
      var here := if Contending(layers[0], contenders, n) == [] then 0 else layers[0].amount;
      here + Claimed(layers[1..], contenders, n)
  }

  /** Settling adds exactly the contested chips to the table. */
  lemma {:induction false} SettleSum(stacks: seq<int>, layers: seq<Layer>, contenders: set<nat>, strength: seq<int>)
    requires |strength| == |stacks|
    ensures Sum(Settle(stacks, layers, contenders, strength)) == Sum(stacks) + Claimed(layers, contenders, |stacks|)
    decreases |layers|
  {
    if layers != [] {
      var w := LayerWinners(layers[0], contenders, strength);
      if w != [] {
        LayerWinnersExact(layers[0], contenders, strength);
        SplitFacts(stacks, layers[0].amount, w);
        SettleSum(Split(stacks, layers[0].amount, w), layers[1..], contenders, strength);
      } else {
        SettleSum(stacks, layers[1..], contenders, strength);
      }
    }
  }

  /** Every layer with a contender is claimed in full. */
  lemma {:induction false} ClaimedAll(layers: seq<Layer>, contenders: set<nat>, n: nat)
    requires forall k :: 0 <= k < |layers| ==> Contending(layers[k], contenders, n) != []
    ensures Claimed(layers, contenders, n) == SumAmounts(layers)
  {
    if layers != [] {
      ClaimedAll(layers[1..], contenders, n);
    }
  }
}
