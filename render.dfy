/** What one `updateSums` call leaves behind, on values: the ranks with
    their sums recomputed, and the text of every rank-sum span after
    `renderRankSum` for each rank and `renderTotalSum` for the tree.

    Spans are keyed by the identity of the label element that holds them;
    a map entry stands for the `.wt-rank-sum` span inside that element. */
module Render {
  import opened Wrappers
  import opened Text
  import opened Units
  import opened Ranks
  import opened Summary

  /** `SHOW_TOTAL_AT_TOP`. */
  const ShowTotalAtTop: bool := true

  /** A rank with the sums of its elements under `seen`. */
  function WithSums(r: Rank, seen: map<string, Costs>): (w: Rank) {
    r.(rpSum := SumRp(r.items, seen), slSum := SumSl(r.items, seen))
  }

  /** The outer loop of `updateSums`, on values: every rank's sums
      recomputed, nothing else about the ranks changed. */
  function Summed(ranks: seq<Rank>, seen: map<string, Costs>): (rs: seq<Rank>)
    ensures SumsCurrent(rs, seen) && SameRanks(rs, ranks)
  {
    seq(|ranks|, k requires 0 <= k < |ranks| => WithSums(ranks[k], seen))
  }

  /** Two rank lists that differ at most in their sums. */
  ghost predicate SameRanks(a: seq<Rank>, b: seq<Rank>) {
    |a| == |b| &&
    forall k :: 0 <= k < |a| ==>
      a[k].labelEl == b[k].labelEl && a[k].rankRows == b[k].rankRows && a[k].items == b[k].items
  }

  lemma SameRanksTrans(a: seq<Rank>, b: seq<Rank>, c: seq<Rank>)
    requires SameRanks(a, b) && SameRanks(b, c)
    ensures SameRanks(a, c)
  {
  }

  /** Recomputing sums forgets the sums there were before. */
  lemma SummedSame(a: seq<Rank>, b: seq<Rank>, seen: map<string, Costs>)
    requires SameRanks(a, b)
    ensures Summed(a, seen) == Summed(b, seen)
  {
    var x, y := Summed(a, seen), Summed(b, seen);
    forall k | 0 <= k < |x|
      ensures x[k] == y[k]
    {
      assert x[k] == WithSums(a[k], seen) && y[k] == WithSums(b[k], seen);
    }
  }

  /** With current sums, summing again changes nothing. */
  lemma SummedCurrent(ranks: seq<Rank>, seen: map<string, Costs>)
    requires SumsCurrent(ranks, seen)
    ensures Summed(ranks, seen) == ranks
  {
    var x := Summed(ranks, seen);
    forall k | 0 <= k < |x|
      ensures x[k] == ranks[k]
    {
      assert x[k] == WithSums(ranks[k], seen);
    }
  }

  /** The identities of the label elements of `ranks`. */
  function LabelEids(ranks: seq<Rank>): (e: set<nat>) {
    if ranks == [] then {}
    else
      var r := ranks[|ranks| - 1];
      LabelEids(ranks[..|ranks| - 1]) + if r.labelEl.Some? then {r.labelEl.value.eid} else {}
  }

  lemma {:induction false} LabelEidIn(ranks: seq<Rank>, k: nat)
    requires k < |ranks| && ranks[k].labelEl.Some?
    ensures ranks[k].labelEl.value.eid in LabelEids(ranks)
  {
    if k < |ranks| - 1 {
      LabelEidIn(ranks[..|ranks| - 1], k);
    }
  }

  lemma {:induction false} LabelEidsSame(a: seq<Rank>, b: seq<Rank>)
    requires SameRanks(a, b)
    ensures LabelEids(a) == LabelEids(b)
  {
    if a != [] {
      var n := |a| - 1;
      assert SameRanks(a[..n], b[..n]) by {
        forall k | 0 <= k < n
          ensures a[..n][k] == a[k] && b[..n][k] == b[k]
        {
        }
      }
      LabelEidsSame(a[..n], b[..n]);
    }
  }

  /** No two ranks share a label element. */
  ghost predicate DistinctLabels(ranks: seq<Rank>) {
    forall i, j :: 0 <= i < j < |ranks| && ranks[i].labelEl.Some? && ranks[j].labelEl.Some? ==>
      ranks[i].labelEl.value.eid != ranks[j].labelEl.value.eid
  }

  /** `renderRankSum` for each rank in order: a rank with a label element
      gets the span text of its sums; a rank without one is skipped. */
  function RankSpans(spans: map<nat, string>, ranks: seq<Rank>, fmt: nat -> string): (m: map<nat, string>)
    ensures m.Keys == spans.Keys + LabelEids(ranks)
    ensures forall e :: e in spans && e !in LabelEids(ranks) ==> m[e] == spans[e]
  {
    if ranks == [] then spans
    else
      var m := RankSpans(spans, ranks[..|ranks| - 1], fmt);
      var r := ranks[|ranks| - 1];
      if r.labelEl.Some? then m[r.labelEl.value.eid := RankSumText(fmt, r.rpSum, r.slSum)] else m
  }

  /** Replacing the `i`-th rank and rendering up to it is rendering the
      ranks before it and then the new one. */
  lemma RankSpansStep(spans: map<nat, string>, before: seq<Rank>, i: nat, r: Rank, fmt: nat -> string)
    requires i < |before|
    ensures RankSpans(spans, before[i := r][..i + 1], fmt) ==
      var m := RankSpans(spans, before[..i], fmt);
      if r.labelEl.Some? then m[r.labelEl.value.eid := RankSumText(fmt, r.rpSum, r.slSum)] else m
  {
    var after := before[i := r][..i + 1];
    assert after[..i] == before[..i] && after[i] == r;
  }

  /** With distinct label elements, every labelled rank's span shows that
      rank's own sums. */
  lemma {:induction false} RankSpanOf(spans: map<nat, string>, ranks: seq<Rank>, fmt: nat -> string, k: nat)
    requires DistinctLabels(ranks) && k < |ranks| && ranks[k].labelEl.Some?
    ensures ranks[k].labelEl.value.eid in RankSpans(spans, ranks, fmt)
    ensures RankSpans(spans, ranks, fmt)[ranks[k].labelEl.value.eid] == RankSumText(fmt, ranks[k].rpSum, ranks[k].slSum)
  {
    LabelEidIn(ranks, k);
    var n := |ranks| - 1;
    if k < n {
      assert DistinctLabels(ranks[..n]) by {
        forall i, j | 0 <= i < j < n
          ensures ranks[..n][i] == ranks[i] && ranks[..n][j] == ranks[j]
        {
        }
      }
      assert ranks[..n][k] == ranks[k];
      RankSpanOf(spans, ranks[..n], fmt, k);
    }
  }

  /** Two span maps that agree everywhere except possibly at `x`. */
  ghost predicate AgreeOutside(a: map<nat, string>, b: map<nat, string>, x: set<nat>) {
    && (forall e :: e !in x ==> (e in a <==> e in b))
    && (forall e :: e !in x && e in a ==> a[e] == b[e])
  }

  lemma AgreeTrans(a: map<nat, string>, b: map<nat, string>, c: map<nat, string>, x: set<nat>)
    requires AgreeOutside(a, b, x) && AgreeOutside(b, c, x)
    ensures AgreeOutside(a, c, x)
  {
  }

  /** The spans of labelled ranks are overwritten, so what they held
      before does not matter. */
  lemma {:induction false} RankSpansForget(a: map<nat, string>, b: map<nat, string>, ranks: seq<Rank>, fmt: nat -> string, x: set<nat>)
    requires AgreeOutside(a, b, x)
    ensures AgreeOutside(RankSpans(a, ranks, fmt), RankSpans(b, ranks, fmt), x - LabelEids(ranks))
  {
    if ranks != [] {
      RankSpansForget(a, b, ranks[..|ranks| - 1], fmt, x);
    }
  }

  /** The first rank whose label element sits in the first grid column:
      the one whose span `renderTotalSum` finds. */
  function RankOneFrom(ranks: seq<Rank>, from: nat): (r: Option<nat>)
    requires from <= |ranks|
    ensures r.Some? ==> from <= r.value < |ranks| && InFirstColumn(ranks[r.value])
    ensures forall k :: from <= k < |ranks| && (r.None? || k < r.value) ==> !InFirstColumn(ranks[k])
    decreases |ranks| - from
  {
    if from == |ranks| then None
    else if InFirstColumn(ranks[from]) then Some(from)
    else RankOneFrom(ranks, from + 1)
  }

  predicate InFirstColumn(r: Rank) {
    r.labelEl.Some? && r.labelEl.value.inFirstColumn
  }

  function RankOne(ranks: seq<Rank>): (o: Option<nat>) {
    RankOneFrom(ranks, 0)
  }

  lemma {:induction false} RankOneFromSame(a: seq<Rank>, b: seq<Rank>, from: nat)
    requires SameRanks(a, b) && from <= |a|
    ensures RankOneFrom(a, from) == RankOneFrom(b, from)
    decreases |a| - from
  {
    if from < |a| {
      RankOneFromSame(a, b, from + 1);
    }
  }

  /** `renderTotalSum` on the spans `m`: when there is a header row and the
      rank-1 span exists, the total of the ranks' sums is written into it by
      the case-insensitive test and the case-sensitive replace. */
  function WithTotal(m: map<nat, string>, ranks: seq<Rank>, fmt: nat -> string, hasHeaderRow: bool): (t: map<nat, string>) {
    if ShowTotalAtTop && hasHeaderRow && RankOne(ranks).Some? && ranks[RankOne(ranks).value].labelEl.value.eid in m then
      var e := ranks[RankOne(ranks).value].labelEl.value.eid;
      m[e := Rewrite(m[e], TotalText(fmt, TotalRp(ranks), TotalSl(ranks)))]
    else m
  }

  /** Every span after one `updateSums` call, given the spans before it and
      the ranks with their new sums: each rank's span reset to its sums,
      then the total written into the rank-1 span. */
  function Rendered(spans: map<nat, string>, ranks: seq<Rank>, fmt: nat -> string, hasHeaderRow: bool): (m: map<nat, string>) {
    WithTotal(RankSpans(spans, ranks, fmt), ranks, fmt, hasHeaderRow)
  }

  /** Rendering touches only the spans of the ranks' label elements, and
      gives each of them a text. */
  lemma RenderedOutside(spans: map<nat, string>, ranks: seq<Rank>, fmt: nat -> string, hasHeaderRow: bool)
    ensures AgreeOutside(Rendered(spans, ranks, fmt, hasHeaderRow), spans, LabelEids(ranks))
    ensures Rendered(spans, ranks, fmt, hasHeaderRow).Keys == spans.Keys + LabelEids(ranks)
  {
    if ShowTotalAtTop && hasHeaderRow && RankOne(ranks).Some? {
      LabelEidIn(ranks, RankOne(ranks).value);
    }
  }

  /** What the spans held before a render does not matter to the result,
      apart from spans outside the ranks' label elements. */
  lemma RenderedForget(a: map<nat, string>, b: map<nat, string>, ranks: seq<Rank>, fmt: nat -> string, hasHeaderRow: bool)
    requires AgreeOutside(a, b, LabelEids(ranks))
    ensures Rendered(a, ranks, fmt, hasHeaderRow) == Rendered(b, ranks, fmt, hasHeaderRow)
  {
    RankSpansForget(a, b, ranks, fmt, LabelEids(ranks));
    var ma, mb := RankSpans(a, ranks, fmt), RankSpans(b, ranks, fmt);
    assert ma.Keys == mb.Keys;
    assert forall e :: e in ma ==> ma[e] == mb[e];
    assert ma == mb;
  }

  /** Rendering twice with the same ranks gives what rendering once gives:
      each render first resets every rank span, the rank-1 span included,
      so the rank-1 rewrite never sees its own earlier output. */
  lemma RenderedTwice(spans: map<nat, string>, ranks: seq<Rank>, fmt: nat -> string, hasHeaderRow: bool)
    ensures Rendered(Rendered(spans, ranks, fmt, hasHeaderRow), ranks, fmt, hasHeaderRow)
         == Rendered(spans, ranks, fmt, hasHeaderRow)
  {
    RenderedOutside(spans, ranks, fmt, hasHeaderRow);
    RenderedForget(Rendered(spans, ranks, fmt, hasHeaderRow), spans, ranks, fmt, hasHeaderRow);
  }

  /** `updateSums` run twice with the same `seen` leaves the same ranks
      and the same span texts as running it once. */
  lemma UpdateSumsTwice(spans: map<nat, string>, ranks: seq<Rank>, seen: map<string, Costs>, fmt: nat -> string, hasHeaderRow: bool)
    ensures var once := Summed(ranks, seen);
            && Summed(once, seen) == once
            && Rendered(Rendered(spans, once, fmt, hasHeaderRow), Summed(once, seen), fmt, hasHeaderRow)
               == Rendered(spans, once, fmt, hasHeaderRow)
  {
    var once := Summed(ranks, seen);
    SummedCurrent(once, seen);
    RenderedTwice(spans, once, fmt, hasHeaderRow);
  }

  /** Without a header row no total is written: the spans are the rank
      sums alone. */
  lemma RenderedWithoutHeader(spans: map<nat, string>, ranks: seq<Rank>, fmt: nat -> string, k: nat)
    requires DistinctLabels(ranks) && k < |ranks| && ranks[k].labelEl.Some?
    ensures ranks[k].labelEl.value.eid in Rendered(spans, ranks, fmt, false)
    ensures Rendered(spans, ranks, fmt, false)[ranks[k].labelEl.value.eid]
         == RankSumText(fmt, ranks[k].rpSum, ranks[k].slSum)
  {
    RankSpanOf(spans, ranks, fmt, k);
  }

  /** With a header row, the rank-1 span shows its own sums collapsed, then
      the total over every element of every rank; every other labelled
      rank shows its own sums. */
  lemma RenderedRankOne(spans: map<nat, string>, ranks: seq<Rank>, seen: map<string, Costs>, fmt: nat -> string, k: nat)
    requires DashFreeNumbers(fmt) && DistinctLabels(ranks) && SumsCurrent(ranks, seen)
    requires k < |ranks| && ranks[k].labelEl.Some?
    ensures var m := Rendered(spans, ranks, fmt, true);
            var e := ranks[k].labelEl.value.eid;
            && e in m
            && (RankOne(ranks) == Some(k) ==>
                  m[e] == Collapse(RankSumText(fmt, ranks[k].rpSum, ranks[k].slSum))
                          + TotalText(fmt, SumRp(AllItems(ranks), seen), SumSl(AllItems(ranks), seen)))
            && (RankOne(ranks) != Some(k) ==> m[e] == RankSumText(fmt, ranks[k].rpSum, ranks[k].slSum))
  {
    RankSpanOf(spans, ranks, fmt, k);
    TotalOfAllItems(ranks, seen);
    var r1 := RankOne(ranks);
    if r1.Some? {
      var i := r1.value;
      RankSpanOf(spans, ranks, fmt, i);
      RankOneText(fmt, ranks[i].rpSum, ranks[i].slSum, TotalRp(ranks), TotalSl(ranks));
      if i != k {
        assert ranks[i].labelEl.value.eid != ranks[k].labelEl.value.eid by {
          if i < k {
          } else {
          }
        }
      }
    }
  }
}
