/** The arithmetic of `updateSums`, the total `reduce`, and the texts the
    tree shows: the badge, the rank sum and the rank-1 "Total Cost" rewrite.

    `fmt` (`toLocaleString`) is a parameter: any function from numbers to
    text. */
module Summary {
  import opened Wrappers
  import opened Text
  import opened Units
  import opened Ranks

  /** What an item element contributes: the `seen` record of its id, or
      nothing when it has no id or the id has not been seen yet. */
  function ItemCosts(el: ItemEl, seen: map<string, Costs>): (o: Option<Costs>) {
    var id := UnitId(el);
    if id.Some? && id.value in seen then Some(seen[id.value]) else None
  }

  function ItemRp(el: ItemEl, seen: map<string, Costs>): (n: nat) {
    match ItemCosts(el, seen)
    case None => 0
    case Some(c) => c.rp
  }

  function ItemSl(el: ItemEl, seen: map<string, Costs>): (n: nat) {
    match ItemCosts(el, seen)
    case None => 0
    case Some(c) => c.sl
  }

  /** The research points of `items`, element by element. */
  function SumRp(items: seq<ItemEl>, seen: map<string, Costs>): (n: nat) {
    if items == [] then 0 else SumRp(items[..|items| - 1], seen) + ItemRp(items[|items| - 1], seen)
  }

  /** The silver lions of `items`, element by element. */
  function SumSl(items: seq<ItemEl>, seen: map<string, Costs>): (n: nat) {
    if items == [] then 0 else SumSl(items[..|items| - 1], seen) + ItemSl(items[|items| - 1], seen)
  }

  lemma {:induction false} SumAppend(a: seq<ItemEl>, b: seq<ItemEl>, seen: map<string, Costs>)
    ensures SumRp(a + b, seen) == SumRp(a, seen) + SumRp(b, seen)
    ensures SumSl(a + b, seen) == SumSl(a, seen) + SumSl(b, seen)
    decreases |b|
  {
    if b == [] {
      assert a + b == a;
    } else {
      assert (a + b)[..|a + b| - 1] == a + b[..|b| - 1];
      SumAppend(a, b[..|b| - 1], seen);
    }
  }

  /** Elements without an id, or whose id is not in `seen` yet, add 0. */
  lemma {:induction false} SumUnresolved(items: seq<ItemEl>, seen: map<string, Costs>)
    requires forall i :: 0 <= i < |items| ==> ItemCosts(items[i], seen).None?
    ensures SumRp(items, seen) == 0 && SumSl(items, seen) == 0
  {
    if items != [] {
      SumUnresolved(items[..|items| - 1], seen);
    }
  }

  /** A unit that appears under several elements counts once per element. */
  lemma {:induction false} SumRepeated(items: seq<ItemEl>, seen: map<string, Costs>, id: string)
    requires id in seen
    requires forall i :: 0 <= i < |items| ==> UnitId(items[i]) == Some(id)
    ensures SumRp(items, seen) == |items| * seen[id].rp
    ensures SumSl(items, seen) == |items| * seen[id].sl
  {
    if items != [] {
      SumRepeated(items[..|items| - 1], seen, id);
    }
  }

  /** The inner loop of `updateSums`: the sums of one rank's elements. */
  method RankSums(items: seq<ItemEl>, seen: map<string, Costs>) returns (rp: nat, sl: nat)
    ensures rp == SumRp(items, seen) && sl == SumSl(items, seen)
  {
    rp, sl := 0, 0;
    for i := 0 to |items|
      invariant rp == SumRp(items[..i], seen) && sl == SumSl(items[..i], seen)
    {
      assert items[..i + 1][..i] == items[..i];
      var el := items[i];
      var id := UnitId(el);
      var c := if id.Some? && id.value in seen then Some(seen[id.value]) else None;
      if c.Some? {
        rp := rp + c.value.rp;
        sl := sl + c.value.sl;
      }
    }
    assert items[..|items|] == items;
  }

  /** `ranks.reduce((a, r) => a + (r.rpSum || 0), 0)`. */
  function TotalRp(ranks: seq<Rank>): (n: nat) {
    if ranks == [] then 0 else TotalRp(ranks[..|ranks| - 1]) + ranks[|ranks| - 1].rpSum
  }

  /** `ranks.reduce((a, r) => a + (r.slSum || 0), 0)`. */
  function TotalSl(ranks: seq<Rank>): (n: nat) {
    if ranks == [] then 0 else TotalSl(ranks[..|ranks| - 1]) + ranks[|ranks| - 1].slSum
  }

  /** The item elements of all ranks, rank by rank. */
  function AllItems(ranks: seq<Rank>): (s: seq<ItemEl>) {
    if ranks == [] then [] else AllItems(ranks[..|ranks| - 1]) + ranks[|ranks| - 1].items
  }

  /** Every rank's sums are those of its elements under `seen`. */
  ghost predicate SumsCurrent(ranks: seq<Rank>, seen: map<string, Costs>) {
    forall k :: 0 <= k < |ranks| ==>
      ranks[k].rpSum == SumRp(ranks[k].items, seen) && ranks[k].slSum == SumSl(ranks[k].items, seen)
  }

  /** With current sums, the total is the sum over every element of every
      rank. */
  lemma {:induction false} TotalOfAllItems(ranks: seq<Rank>, seen: map<string, Costs>)
    requires SumsCurrent(ranks, seen)
    ensures TotalRp(ranks) == SumRp(AllItems(ranks), seen)
    ensures TotalSl(ranks) == SumSl(AllItems(ranks), seen)
  {
    if ranks != [] {
      var n := |ranks| - 1;
      assert SumsCurrent(ranks[..n], seen) by {
        forall k | 0 <= k < n
          ensures ranks[..n][k].rpSum == SumRp(ranks[..n][k].items, seen)
          ensures ranks[..n][k].slSum == SumSl(ranks[..n][k].items, seen)
        {
          assert ranks[..n][k] == ranks[k];
        }
      }
      TotalOfAllItems(ranks[..n], seen);
      SumAppend(AllItems(ranks[..n]), ranks[n].items, seen);
    }
  }

  /** The pill text `RP ${fmt(rp)} | SL ${fmt(sl)}`. */
  function BadgeText(fmt: nat -> string, rp: nat, sl: nat): (s: string) {
    "RP " + fmt(rp) + " | SL " + fmt(sl)
  }

  /** The rank-sum span text `— RP ${fmt(rpSum)} • SL ${fmt(slSum)}`. */
  function RankSumText(fmt: nat -> string, rp: nat, sl: nat): (s: string) {
    "— RP " + fmt(rp) + " • SL " + fmt(sl)
  }

  /** The total text ` — Total Cost: RP ${fmt(rp)} • SL ${fmt(sl)}`. */
  function TotalText(fmt: nat -> string, rp: nat, sl: nat): (s: string) {
    " — Total Cost: RP " + fmt(rp) + " • SL " + fmt(sl)
  }

  const TotalWords: string := "Total Cost:"

  /** Case folding of a regular expression with the `i` flag and without
      the `u` flag, restricted to what can meet the ASCII letters of the
      marker: only `A`-`Z` and `a`-`z` fold onto each other. */
  function Fold(c: char): (f: char) {
    if 'A' <= c <= 'Z' then (c as int + 32) as char else c
  }

  /** The first index at or after `j` that is not whitespace (or the end). */
  function SkipWs(s: string, j: nat): (k: nat)
    requires j <= |s|
    ensures j <= k <= |s|
    ensures k == |s| || !IsWs(s[k])
    ensures forall m :: j <= m < k ==> IsWs(s[m])
    decreases |s| - j
  {
    if j < |s| && IsWs(s[j]) then SkipWs(s, j + 1) else j
  }

  /** `Total Cost:` stands at `k`, compared exactly or case-insensitively. */
  predicate WordsAt(s: string, k: nat, ci: bool) {
    k + |TotalWords| <= |s| &&
    forall m :: 0 <= m < |TotalWords| ==>
      if ci then Fold(s[k + m]) == Fold(TotalWords[m]) else s[k + m] == TotalWords[m]
  }

  /** `—\s*Total Cost:` matches at `i`. As `T` is not whitespace, `\s*` can
      only match the whole whitespace run after the dash. */
  predicate MarkerAt(s: string, i: nat, ci: bool)
    requires i < |s|
  {
    s[i] == '—' && WordsAt(s, SkipWs(s, i + 1), ci)
  }

  /** The leftmost match of the marker at or after `from`. */
  function FindMarker(s: string, from: nat, ci: bool): (r: Option<nat>)
    requires from <= |s|
    ensures r.Some? ==> from <= r.value < |s| && MarkerAt(s, r.value, ci)
    ensures forall i :: from <= i < |s| && (r.None? || i < r.value) ==> !MarkerAt(s, i, ci)
    decreases |s| - from
  {
    if from == |s| then None
    else if MarkerAt(s, from, ci) then Some(from)
    else FindMarker(s, from + 1, ci)
  }

  /** The rank-1 rewrite: the text with whitespace runs collapsed, then the
      case-insensitive test for the marker, then either the case-sensitive
      replacement from the first marker to the end, or an append. After
      collapsing there is no line terminator left, so `.*$` always reaches
      the end of the text. */
  function Rewrite(current: string, total: string): (s: string) {
    var c := Collapse(current);
    if FindMarker(c, 0, true).Some? then
      match FindMarker(c, 0, false)
      case Some(i) => c[..i] + total
      case None => c
    else c + total
  }

  lemma MarkerCaseInsensitive(s: string, i: nat)
    requires i < |s| && MarkerAt(s, i, false)
    ensures MarkerAt(s, i, true)
  {
  }

  /** Without a marker, in any letter case, the total is appended to the
      collapsed text. */
  lemma RewriteAppends(current: string, total: string)
    requires forall i :: 0 <= i < |Collapse(current)| ==> !MarkerAt(Collapse(current), i, true)
    ensures Rewrite(current, total) == Collapse(current) + total
  {
  }

  /** With a marker, everything from the first one to the end is replaced by
      the total, and the collapsed text before it is kept. */
  lemma RewriteReplaces(current: string, total: string, i: nat)
    requires i < |Collapse(current)| && MarkerAt(Collapse(current), i, false)
    requires forall j :: 0 <= j < i ==> !MarkerAt(Collapse(current), j, false)
    ensures Rewrite(current, total) == Collapse(current)[..i] + total
  {
    var c := Collapse(current);
    MarkerCaseInsensitive(c, i);
    var r := FindMarker(c, 0, false);
    assert r == Some(i) by {
      if r.None? || r.value != i {
        assert false;
      }
    }
  }

  /** The test ignores letter case but the replacement does not: a marker
      found only in another letter case leaves the collapsed text as it is,
      without the total. */
  lemma RewriteCaseMismatch(current: string, total: string, i: nat)
    requires i < |Collapse(current)| && MarkerAt(Collapse(current), i, true)
    requires forall j :: 0 <= j < |Collapse(current)| ==> !MarkerAt(Collapse(current), j, false)
    ensures Rewrite(current, total) == Collapse(current)
  {
  }

  predicate NoDash(s: string) {
    forall k :: 0 <= k < |s| ==> s[k] != '—'
  }

  lemma NoDashJoin(a: string, b: string)
    requires NoDash(a) && NoDash(b)
    ensures NoDash(a + b)
  {
  }

  /** The formatted numbers contain no em dash. */
  ghost predicate DashFreeNumbers(fmt: nat -> string) {
    forall n: nat :: NoDash(fmt(n))
  }

  lemma RankTailNoDash(fmt: nat -> string, rp: nat, sl: nat)
    requires DashFreeNumbers(fmt)
    ensures NoDash("P " + fmt(rp) + " • SL " + fmt(sl))
  {
    NoDashJoin("P ", fmt(rp));
    NoDashJoin("P " + fmt(rp), " • SL ");
    NoDashJoin("P " + fmt(rp) + " • SL ", fmt(sl));
  }

  /** The rank-sum text after collapsing: its leading dash, a space, `R`,
      then no other dash. */
  lemma CollapsedRankSum(fmt: nat -> string, rp: nat, sl: nat) returns (ct: string)
    requires DashFreeNumbers(fmt)
    ensures Collapse(RankSumText(fmt, rp, sl)) == ['—'] + ([' '] + (['R'] + ct)) && NoDash(ct)
  {
    var tail := "P " + fmt(rp) + " • SL " + fmt(sl);
    RankTailNoDash(fmt, rp, sl);
    var x3 := ['R'] + tail;
    var x2 := [' '] + x3;
    var x1 := ['—'] + x2;
    assert RankSumText(fmt, rp, sl) == x1;
    ct := Collapse(tail);
    CollapseConsVisible('R', tail);
    CollapseConsSpace(x3);
    CollapseConsVisible('—', x2);
    CollapseKeepsOut(tail, '—');
  }

  /** The collapsed rank-sum text holds no marker in any letter case: its
      only dash is the leading one, followed by `RP`. */
  lemma RankSumHasNoMarker(fmt: nat -> string, rp: nat, sl: nat)
    requires DashFreeNumbers(fmt)
    ensures var c := Collapse(RankSumText(fmt, rp, sl));
            forall i :: 0 <= i < |c| ==> !MarkerAt(c, i, true)
  {
    var ct := CollapsedRankSum(fmt, rp, sl);
    var c := Collapse(RankSumText(fmt, rp, sl));
    forall i | 0 <= i < |c|
      ensures !MarkerAt(c, i, true)
    {
      if i == 0 {
        assert SkipWs(c, 1) == 2;
        assert Fold(c[2]) != Fold(TotalWords[0]);
      } else if i >= 3 {
        assert c[i] == ct[i - 3];
      }
    }
  }

  /** What `updateSums` leaves in the rank-1 span: `renderRankSum` has just
      reset it to the rank-sum text, which never holds a marker, so the
      total is appended to it. */
  lemma RankOneText(fmt: nat -> string, rp: nat, sl: nat, totalRp: nat, totalSl: nat)
    requires DashFreeNumbers(fmt)
    ensures Rewrite(RankSumText(fmt, rp, sl), TotalText(fmt, totalRp, totalSl))
         == Collapse(RankSumText(fmt, rp, sl)) + TotalText(fmt, totalRp, totalSl)
  {
    RankSumHasNoMarker(fmt, rp, sl);
    RewriteAppends(RankSumText(fmt, rp, sl), TotalText(fmt, totalRp, totalSl));
  }

  /** The formatted numbers are non-empty and hold neither whitespace nor
      an em dash, as digit groups do. */
  ghost predicate PlainNumbers(fmt: nat -> string) {
    forall n: nat :: fmt(n) != [] && NoDash(fmt(n)) && forall k :: 0 <= k < |fmt(n)| ==> !IsWs(fmt(n)[k])
  }

  lemma PlainCollapsed(f: string)
    requires forall k :: 0 <= k < |f| ==> !IsWs(f[k])
    ensures Collapsed(f)
  {
  }

  /** The rank-sum text with plain numbers: collapsed, a dash then ` R`,
      no other dash, and a visible last character. */
  lemma RankSumShape(fmt: nat -> string, rp: nat, sl: nat)
    requires PlainNumbers(fmt)
    ensures RankSumShaped(RankSumText(fmt, rp, sl))
  {
    var f1, f2 := fmt(rp), fmt(sl);
    RankSumCollapsed(f1, f2);
    var p := RankSumText(fmt, rp, sl);
    assert p[1..] == " RP " + f1 + " • SL " + f2;
    NoDashJoin(" RP ", f1);
    NoDashJoin(" RP " + f1, " • SL ");
    NoDashJoin(" RP " + f1 + " • SL ", f2);
  }

  lemma RankSumCollapsed(f1: string, f2: string)
    requires f1 != [] && forall k :: 0 <= k < |f1| ==> !IsWs(f1[k])
    requires f2 != [] && forall k :: 0 <= k < |f2| ==> !IsWs(f2[k])
    ensures Collapsed("— RP " + f1 + " • SL " + f2)
  {
    PlainCollapsed(f1);
    PlainCollapsed(f2);
    RankSumHeadCollapsed();
    CollapsedJoin("— RP ", f1);
    CollapsedJoin("— RP " + f1, " • SL ");
    CollapsedJoin("— RP " + f1 + " • SL ", f2);
  }

  lemma RankSumHeadCollapsed()
    ensures Collapsed("— RP ") && Collapsed(" • SL ")
  {
  }

  lemma TotalHeadCollapsed()
    ensures Collapsed(" — Total Cost: RP ")
  {
  }

  /** The total text with plain numbers: collapsed, and ` — Total Cost:`
      followed by the rest of the text. */
  lemma TotalShape(fmt: nat -> string, rp: nat, sl: nat) returns (u: string)
    requires PlainNumbers(fmt)
    ensures TotalText(fmt, rp, sl) == " — " + TotalWords + u
    ensures Collapsed(TotalText(fmt, rp, sl))
  {
    var f1, f2 := fmt(rp), fmt(sl);
    u := " RP " + f1 + " • SL " + f2;
    TotalSplit(f1, f2);
    TotalCollapsed(f1, f2);
  }

  lemma TotalSplit(f1: string, f2: string)
    ensures " — Total Cost: RP " + f1 + " • SL " + f2 == " — " + TotalWords + (" RP " + f1 + " • SL " + f2)
  {
    assert " — Total Cost: RP " == " — " + TotalWords + " RP ";
  }

  lemma TotalCollapsed(f1: string, f2: string)
    requires f1 != []
    requires forall k :: 0 <= k < |f1| ==> !IsWs(f1[k])
    requires forall k :: 0 <= k < |f2| ==> !IsWs(f2[k])
    ensures Collapsed(" — Total Cost: RP " + f1 + " • SL " + f2)
  {
    PlainCollapsed(f1);
    PlainCollapsed(f2);
    var h := " — Total Cost: RP ";
    TotalHeadCollapsed();
    RankSumHeadCollapsed();
    CollapsedJoin(h, f1);
    CollapsedJoin(h + f1, " • SL ");
    CollapsedJoin(h + f1 + " • SL ", f2);
  }

  /** A rank-sum shaped text: collapsed, `— R` in front, no other dash and a
      visible last character. */
  ghost predicate RankSumShaped(p: string) {
    && |p| > 3 && Collapsed(p) && p[0] == '—' && p[1] == ' ' && p[2] == 'R'
    && NoDash(p[1..]) && !IsWs(p[|p| - 1])
  }

  /** A total shaped text: collapsed, with ` — Total Cost:` in front. */
  ghost predicate TotalShaped(t: string) {
    Collapsed(t) && exists u :: t == " — " + TotalWords + u
  }

  /** The marker in `p + t` is the one that `t` brings, right after its
      leading space, in either letter case. */
  lemma FirstMarker(p: string, t: string)
    requires RankSumShaped(p) && TotalShaped(t)
    ensures |p| + 1 < |p + t| && MarkerAt(p + t, |p| + 1, false)
    ensures forall j :: 0 <= j < |p| + 1 ==> !MarkerAt(p + t, j, false)
    ensures t != [] && t[0] == ' '
  {
    var u :| t == " — " + TotalWords + u;
    var s := p + t;
    var i := |p| + 1;
    assert s[i] == '—' && s[i + 1] == ' ' && s[i + 2] == 'T';
    assert SkipWs(s, i + 1) == i + 2;
    forall m | 0 <= m < |TotalWords|
      ensures s[i + 2 + m] == TotalWords[m]
    {
      assert s[i + 2 + m] == t[3 + m];
    }
    forall j | 0 <= j < i
      ensures !MarkerAt(s, j, false)
    {
      if j == 0 {
        assert SkipWs(s, 1) == 2;
        assert s[2] != TotalWords[0];
      } else if j < |p| {
        assert s[j] == p[1..][j - 1];
      }
    }
  }

  /** Rewriting a rank-sum text that already carries the total replaces
      from the dash on and keeps the space before it, so one more space
      appears. */
  lemma RewriteCarried(p: string, t: string)
    requires RankSumShaped(p) && TotalShaped(t)
    ensures Rewrite(p + t, t) == p + " " + t
  {
    CarriedCollapsed(p, t);
    FirstMarker(p, t);
    RewriteReplaces(p + t, t, |p| + 1);
    KeepsSpace(p, t);
  }

  lemma KeepsSpace(p: string, t: string)
    requires t != [] && t[0] == ' '
    ensures (p + t)[..|p| + 1] == p + " "
  {
  }

  lemma CarriedCollapsed(p: string, t: string)
    requires RankSumShaped(p) && TotalShaped(t)
    ensures Collapse(p + t) == p + t
  {
    CollapsedJoin(p, t);
    CollapseFixed(p + t);
  }

  /** The doubled space before the total collapses back to one. */
  lemma CollapseSpaced(p: string, t: string)
    requires Collapsed(p) && p != [] && !IsWs(p[|p| - 1])
    requires Collapsed(t) && t != [] && t[0] == ' '
    ensures Collapse(p + " " + t) == p + t
  {
    assert p + " " + t == p + (" " + t);
    CollapseKeepsPrefix(p, " " + t);
    CollapseSpaceSpace(t);
  }

  /** Re-applying the rewrite to its own output is not a no-op: the
      replacement keeps the space before the old marker and the total
      brings one more, so one extra space appears once, after which the
      text no longer changes. */
  lemma RewriteSettles(p: string, t: string)
    requires RankSumShaped(p) && TotalShaped(t)
    ensures Rewrite(p + t, t) == p + " " + t
    ensures Rewrite(p + " " + t, t) == p + " " + t
  {
    RewriteCarried(p, t);
    FirstMarker(p, t);
    CollapseSpaced(p, t);
    RewriteReplaces(p + " " + t, t, |p| + 1);
    KeepsSpace(p, t);
  }

  /** The rank-1 span text, rewritten a second time with the same totals,
      gains a space before the dash; a third time it stays as it is. */
  lemma RankOneReapplied(fmt: nat -> string, rp: nat, sl: nat, totalRp: nat, totalSl: nat)
    requires PlainNumbers(fmt)
    ensures var p, t := RankSumText(fmt, rp, sl), TotalText(fmt, totalRp, totalSl);
            && Rewrite(p + t, t) == p + " " + t != p + t
            && Rewrite(p + " " + t, t) == p + " " + t
  {
    var p, t := RankSumText(fmt, rp, sl), TotalText(fmt, totalRp, totalSl);
    RankSumShape(fmt, rp, sl);
    var u := TotalShape(fmt, totalRp, totalSl);
    RewriteSettles(p, t);
    assert |p + " " + t| != |p + t|;
  }
}
