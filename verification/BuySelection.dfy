/** Choosing and weighting the BUY signals of a session, and the order of forced exits. */
module BuySelection {
  import Numbers
  import opened EngineTypes

  // --- Sorting by score, highest first --------------------------------------------------------

  /** The position after every leading signal that scores at least v. */
  function Slot(s: seq<Signal>, v: real): (k: nat)
    ensures k <= |s|
  {
    if s == [] || s[|s| - 1].score >= v then |s| else Slot(s[..|s| - 1], v)
  }

  function InsertByScore(s: seq<Signal>, x: Signal): seq<Signal> {
    s[..Slot(s, x.score)] + [x] + s[Slot(s, x.score)..]
  }

  /** sorted(..., key=score, reverse=True), which keeps ties in their original order. */
  function SortByScore(s: seq<Signal>): seq<Signal> {
    if s == [] then [] else InsertByScore(SortByScore(s[..|s| - 1]), s[|s| - 1])
  }

  ghost predicate Descending(s: seq<Signal>) {
    forall i, j | 0 <= i < j < |s| :: s[i].score >= s[j].score
  }

  function WithScore(s: seq<Signal>, v: real): seq<Signal> {
    if s == [] then []
    else WithScore(s[..|s| - 1], v) + (if s[|s| - 1].score == v then [s[|s| - 1]] else [])
  }

  lemma {:induction false} WithScoreConcat(s: seq<Signal>, t: seq<Signal>, v: real)
    ensures WithScore(s + t, v) == WithScore(s, v) + WithScore(t, v)
  {
    if t == [] {
      assert s + t == s;
    } else {
      var k := |t| - 1;
      assert (s + t)[..|s + t| - 1] == s + t[..k];
      WithScoreConcat(s, t[..k], v);
    }
  }

  lemma {:induction false} SlotSplits(s: seq<Signal>, v: real)
    requires Descending(s)
    ensures forall i | 0 <= i < Slot(s, v) :: s[i].score >= v
    ensures forall i | Slot(s, v) <= i < |s| :: s[i].score < v
  {
    if s != [] && s[|s| - 1].score < v {
      SlotSplits(s[..|s| - 1], v);
      assert forall i | 0 <= i < |s| - 1 :: s[i] == s[..|s| - 1][i];
    }
  }

  lemma {:induction false} NoneBelow(s: seq<Signal>, v: real)
    requires forall i | 0 <= i < |s| :: s[i].score < v
    ensures WithScore(s, v) == []
  {
    if s != [] {
      NoneBelow(s[..|s| - 1], v);
    }
  }

  lemma InsertByScoreSorts(s: seq<Signal>, x: Signal)
    requires Descending(s)
    ensures Descending(InsertByScore(s, x))
    ensures multiset(InsertByScore(s, x)) == multiset(s) + multiset{x}
  {
    SlotSplits(s, x.score);
    var k := Slot(s, x.score);
    assert s == s[..k] + s[k..];
  }

  /** x goes behind the signals of its own score. */
  lemma InsertByScoreIsStable(s: seq<Signal>, x: Signal, v: real)
    requires Descending(s)
    ensures WithScore(InsertByScore(s, x), v) == WithScore(s, v) + WithScore([x], v)
  {
    SlotSplits(s, x.score);
    var k := Slot(s, x.score);
    assert s == s[..k] + s[k..];
    WithScoreConcat(s[..k], s[k..], v);
    WithScoreConcat(s[..k], [x], v);
    WithScoreConcat(s[..k] + [x], s[k..], v);
    if x.score == v {
      NoneBelow(s[k..], v);
    }
  }

  /** The result is a descending rearrangement in which equal scores keep their order. */
  lemma {:induction false} SortByScoreIsStableSort(s: seq<Signal>)
    ensures Descending(SortByScore(s))
    ensures multiset(SortByScore(s)) == multiset(s)
    ensures forall v :: WithScore(SortByScore(s), v) == WithScore(s, v)
  {
    if s != [] {
      var front, last := s[..|s| - 1], s[|s| - 1];
      assert s == front + [last];
      SortByScoreIsStableSort(front);
      InsertByScoreSorts(SortByScore(front), last);
      forall v
        ensures WithScore(SortByScore(s), v) == WithScore(s, v)
      {
        InsertByScoreIsStable(SortByScore(front), last, v);
        WithScoreConcat(front, [last], v);
      }
    }
  }

  // --- The best signals of distinct codes -----------------------------------------------------

  predicate HasCode(s: seq<Signal>, c: Code) {
    exists i | 0 <= i < |s| :: s[i].code == c
  }

  /** One signal per code, first come first served, and no more than max of them. */
  function Chosen(s: seq<Signal>, max: int): seq<Signal> {
    if s == [] then []
    else
      var before, x := Chosen(s[..|s| - 1], max), s[|s| - 1];
      if |before| >= max || HasCode(before, x.code) then before else before + [x]
  }

  ghost predicate DistinctCodes(s: seq<Signal>) {
    forall i, j | 0 <= i < j < |s| :: s[i].code != s[j].code
  }

  lemma {:induction false} ChosenAreDistinct(s: seq<Signal>, max: int)
    requires max >= 0
    ensures var b := Chosen(s, max);
            DistinctCodes(b) && |b| <= max && forall x | x in b :: x in s
  {
    if s != [] {
      ChosenAreDistinct(s[..|s| - 1], max);
      assert s == s[..|s| - 1] + [s[|s| - 1]];
    }
  }

  /** x lost only to a better signal of its code, or to max signals at least as good. */
  ghost predicate Outranked(b: seq<Signal>, x: Signal, max: int) {
    || (exists i | 0 <= i < |b| :: b[i].code == x.code && b[i].score >= x.score)
    || (|b| >= max && forall i | 0 <= i < |b| :: b[i].score >= x.score)
  }

  /** Every signal of a descending batch is chosen or outranked, so the choice is the best signal of
      each of the best codes. */
  lemma {:induction false} ChosenAreTheBest(s: seq<Signal>, max: int, j: nat)
    requires Descending(s) && j < |s| && max >= 0
    ensures Outranked(Chosen(s, max), s[j], max)
  {
    var k := |s| - 1;
    var before, b := Chosen(s[..k], max), Chosen(s, max);
    ChosenAreDistinct(s[..k], max);
    assert forall i | 0 <= i < |before| :: before[i] == b[i];
    if j < k {
      ChosenAreTheBest(s[..k], max, j);
      assert s[..k][j] == s[j];
    } else {
      assert forall y | y in s[..k] :: y.score >= s[k].score;
      assert forall i | 0 <= i < |before| :: before[i] in s[..k];
      if |before| < max && !HasCode(before, s[k].code) {
        assert b[|b| - 1] == s[k];
      }
    }
  }

  /** A chosen signal is the first of its code. */
  lemma {:induction false} ChosenAreFirst(s: seq<Signal>, max: int, i: nat) returns (j: nat)
    requires i < |Chosen(s, max)|
    ensures j < |s| && s[j] == Chosen(s, max)[i] && forall k | 0 <= k < j :: s[k].code != s[j].code
  {
    var k := |s| - 1;
    var before := Chosen(s[..k], max);
    if i < |before| {
      j := ChosenAreFirst(s[..k], max, i);
      assert forall x | 0 <= x < k :: s[..k][x] == s[x];
    } else {
      j := k;
      assert |before| < max && !HasCode(before, s[k].code);
      forall x | 0 <= x < k
        ensures s[x].code != s[k].code
      {
        ChosenCovers(s[..k], max, x);
        assert s[..k][x] == s[x];
      }
    }
  }

  /** While there is room, every code of the batch is chosen. */
  lemma {:induction false} ChosenCovers(s: seq<Signal>, max: int, x: nat)
    requires x < |s| && |Chosen(s, max)| < max
    ensures HasCode(Chosen(s, max), s[x].code)
  {
    var k := |s| - 1;
    var before, b := Chosen(s[..k], max), Chosen(s, max);
    assert forall i | 0 <= i < |before| :: before[i] == b[i];
    if x < k {
      ChosenCovers(s[..k], max, x);
      assert s[..k][x] == s[x];
      var i :| 0 <= i < |before| && before[i].code == s[x].code;
      assert b[i].code == s[x].code;
    } else if HasCode(before, s[k].code) {
      var i :| 0 <= i < |before| && before[i].code == s[k].code;
      assert b[i].code == s[k].code;
    } else {
      assert b[|b| - 1] == s[k];
    }
  }

  lemma {:induction false} ChosenDescend(s: seq<Signal>, max: int)
    requires Descending(s) && max >= 0
    ensures Descending(Chosen(s, max))
  {
    if s != [] {
      var k := |s| - 1;
      var before := Chosen(s[..k], max);
      ChosenDescend(s[..k], max);
      ChosenAreDistinct(s[..k], max);
      assert forall y | y in s[..k] :: y.score >= s[k].score;
      assert forall i | 0 <= i < |before| :: before[i] in s[..k];
    }
  }

  // --- Target weights --------------------------------------------------------------------------

  function Total(ws: seq<real>): real {
    if ws == [] then 0.0 else Total(ws[..|ws| - 1]) + ws[|ws| - 1]
  }

  function Clipped(ss: seq<Signal>): seq<real> {
    seq(|ss|, i requires 0 <= i < |ss| => Numbers.MaxR(ss[i].weight, 0.0))
  }

  function Scaled(ws: seq<real>, total: real): (scaled: seq<real>)
    requires total > 0.0
    ensures |scaled| == |ws|
  {
    seq(|ws|, i requires 0 <= i < |ws| => ws[i] / total)
  }

  const WEIGHT_TOLERANCE := 1.000001

  function TargetWeights(ss: seq<Signal>): (ws: seq<real>)
    ensures |ws| == |ss|
  {
    if ss == [] then []
    else
      var ws := Clipped(ss);
      var total := Total(ws);
      if total <= 0.0 then seq(|ss|, _ => 1.0 / |ss| as real)
      else if total > WEIGHT_TOLERANCE then Scaled(ws, total)
      else ws
  }

  lemma {:induction false} TotalScaled(ws: seq<real>, total: real)
    requires total > 0.0
    ensures Total(Scaled(ws, total)) * total == Total(ws)
  {
    if ws != [] {
      var k := |ws| - 1;
      TotalScaled(ws[..k], total);
      assert Scaled(ws, total)[..k] == Scaled(ws[..k], total);
      Numbers.DivMul(ws[k], total);
    }
  }

  lemma {:induction false} TotalEqual(n: nat, w: real)
    ensures Total(seq(n, _ => w)) == n as real * w
  {
    if n > 0 {
      TotalEqual(n - 1, w);
      assert seq(n, _ => w)[..n - 1] == seq(n - 1, _ => w);
    }
  }

  lemma {:induction false} TotalNonneg(ws: seq<real>)
    requires forall i | 0 <= i < |ws| :: ws[i] >= 0.0
    ensures Total(ws) >= 0.0
    ensures Total(ws) == 0.0 ==> forall i | 0 <= i < |ws| :: ws[i] == 0.0
  {
    if ws != [] {
      TotalNonneg(ws[..|ws| - 1]);
      assert forall i | 0 <= i < |ws| - 1 :: ws[i] == ws[..|ws| - 1][i];
    }
  }

  /** When a signal asks for a positive weight, the requests are granted if they add up to at most 1.000001, and
      otherwise divided by their sum, so that they add up to 1. */
  lemma TargetWeightsAreProportional(ss: seq<Signal>)
    requires exists i | 0 <= i < |ss| :: ss[i].weight > 0.0
    ensures var ws, asked := TargetWeights(ss), Total(Clipped(ss));
            && asked > 0.0 && (forall i | 0 <= i < |ws| :: ws[i] >= 0.0)
            && (asked <= 1.000001 ==> Total(ws) == asked
                                      && forall i | 0 <= i < |ws| :: ws[i] == Numbers.MaxR(ss[i].weight, 0.0))
            && (asked > 1.000001 ==> Total(ws) == 1.0
                                     && forall i | 0 <= i < |ws| :: ws[i] * asked == Numbers.MaxR(ss[i].weight, 0.0))
  {
    hide Total, Scaled;
    var asked, ws := Clipped(ss), TargetWeights(ss);
    TotalNonneg(asked);
    var i :| 0 <= i < |ss| && ss[i].weight > 0.0;
    assert asked[i] > 0.0;
    if Total(asked) > WEIGHT_TOLERANCE {
      ScaledWeights(asked, Total(asked));
      assert forall i | 0 <= i < |ws| :: ws[i] * Total(asked) == asked[i];
    } else {
      assert ws == asked;
    }
  }

  /** When no signal asks for a positive weight, all share equally. */
  lemma TargetWeightsAreEqual(ss: seq<Signal>)
    requires ss != [] && forall i | 0 <= i < |ss| :: ss[i].weight <= 0.0
    ensures var ws := TargetWeights(ss);
            && Total(ws) == 1.0
            && forall i | 0 <= i < |ws| :: ws[i] == 1.0 / |ss| as real > 0.0
  {
    var n := |ss|;
    assert Clipped(ss) == seq(n, _ => 0.0);
    TotalEqual(n, 0.0);
    TotalEqual(n, 1.0 / n as real);
    Numbers.DivMul(1.0, n as real);
  }

  lemma ScaledWeights(asked: seq<real>, total: real)
    requires total > 0.0 && total == Total(asked) && forall i | 0 <= i < |asked| :: asked[i] >= 0.0
    ensures var ws := Scaled(asked, total);
            Total(ws) == 1.0 && forall i | 0 <= i < |ws| :: ws[i] >= 0.0 && ws[i] * total == asked[i]
  {
    hide Total, Scaled;
    var ws := Scaled(asked, total);
    TotalScaled(asked, total);
    OneFactor(Total(ws), total);
    forall i | 0 <= i < |ws|
      ensures ws[i] >= 0.0 && ws[i] * total == asked[i]
    {
      ScaledAt(asked, total, i);
    }
  }

  lemma ScaledAt(asked: seq<real>, total: real, i: nat)
    requires total > 0.0 && i < |asked| && asked[i] >= 0.0
    ensures Scaled(asked, total)[i] >= 0.0 && Scaled(asked, total)[i] * total == asked[i]
  {
    Share(asked[i], total);
  }

  lemma Share(x: real, total: real)
    requires x >= 0.0 && total > 0.0
    ensures x / total >= 0.0 && x / total * total == x
  {
    Numbers.DivMul(x, total);
    Numbers.DivLe(x, total, 0.0);
  }

  lemma OneFactor(x: real, total: real)
    requires total > 0.0 && x * total == total
    ensures x == 1.0
  {
    Numbers.DivMul(total, total);
    assert (x - 1.0) * total == 0.0;
  }

  /** The weight of a code in a batch, 0 when the batch omits it. */
  function WeightOf(ss: seq<Signal>, ws: seq<real>, c: Code): real
    requires |ss| == |ws|
  {
    if ss == [] then 0.0
    else if ss[|ss| - 1].code == c then ws[|ws| - 1]
    else WeightOf(ss[..|ss| - 1], ws[..|ws| - 1], c)
  }

  lemma {:induction false} WeightOfMember(ss: seq<Signal>, ws: seq<real>, i: nat)
    requires |ss| == |ws| && i < |ss| && DistinctCodes(ss)
    ensures WeightOf(ss, ws, ss[i].code) == ws[i]
  {
    if i < |ss| - 1 {
      WeightOfMember(ss[..|ss| - 1], ws[..|ws| - 1], i);
    }
  }

  lemma {:induction false} WeightOfStranger(ss: seq<Signal>, ws: seq<real>, c: Code)
    requires |ss| == |ws| && !HasCode(ss, c)
    ensures WeightOf(ss, ws, c) == 0.0
  {
    if ss != [] {
      var k := |ss| - 1;
      assert ss[k].code != c;
      assert !HasCode(ss[..k], c) by {
        assert forall i | 0 <= i < k :: ss[..k][i] == ss[i];
      }
      WeightOfStranger(ss[..k], ws[..k], c);
    }
  }

  // --- Sorting codes ---------------------------------------------------------------------------

  function CodeSlot(s: seq<Code>, c: Code): (k: nat)
    ensures k <= |s|
  {
    if s == [] || s[|s| - 1] <= c then |s| else CodeSlot(s[..|s| - 1], c)
  }

  function InsertCode(s: seq<Code>, c: Code): seq<Code> {
    s[..CodeSlot(s, c)] + [c] + s[CodeSlot(s, c)..]
  }

  function SortCodes(s: seq<Code>): seq<Code> {
    if s == [] then [] else InsertCode(SortCodes(s[..|s| - 1]), s[|s| - 1])
  }

  ghost predicate Ascending(s: seq<Code>) {
    forall i, j | 0 <= i < j < |s| :: s[i] <= s[j]
  }

  lemma {:induction false} CodeSlotSplits(s: seq<Code>, c: Code)
    requires Ascending(s)
    ensures forall i | 0 <= i < CodeSlot(s, c) :: s[i] <= c
    ensures forall i | CodeSlot(s, c) <= i < |s| :: s[i] > c
  {
    if s != [] && s[|s| - 1] > c {
      CodeSlotSplits(s[..|s| - 1], c);
      assert forall i | 0 <= i < |s| - 1 :: s[i] == s[..|s| - 1][i];
    }
  }

  lemma InsertCodeSorts(s: seq<Code>, c: Code)
    requires Ascending(s)
    ensures Ascending(InsertCode(s, c))
    ensures multiset(InsertCode(s, c)) == multiset(s) + multiset{c}
  {
    CodeSlotSplits(s, c);
    var k := CodeSlot(s, c);
    assert s == s[..k] + s[k..];
  }

  lemma {:induction false} SortCodesSorts(s: seq<Code>)
    ensures Ascending(SortCodes(s))
    ensures multiset(SortCodes(s)) == multiset(s)
  {
    if s != [] {
      var front, last := s[..|s| - 1], s[|s| - 1];
      assert s == front + [last];
      SortCodesSorts(front);
      InsertCodeSorts(SortCodes(front), last);
    }
  }

  lemma SortCodesMembers(s: seq<Code>)
    ensures forall c :: c in SortCodes(s) <==> c in s
  {
    SortCodesSorts(s);
    forall c
      ensures c in SortCodes(s) <==> c in s
    {
      assert c in SortCodes(s) <==> c in multiset(SortCodes(s));
      assert c in s <==> c in multiset(s);
    }
  }
}
