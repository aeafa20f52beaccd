/** `collectRanks`: the rank groups of a tech tree, each with its label, its
    rank rows and the unit items counted for it.

    The rows are the elements matched by the row selector, in document
    order. Each is tagged by the test the source applies first: a row with
    the header class is a `Header` (whatever other classes it has), a row
    with the rank class but not the header class is a `RankRow`, and any
    other matched row is `Other`. */
module Ranks {
  import opened Wrappers
  import opened Text
  import opened Units

  /** A `.wt-tree_r-header_label` element: its identity, its text, and
      whether it lies inside a `grid-column: 1 / 3` cell (where the rank-1
      total is written). */
  datatype LabelEl = LabelEl(eid: nat, text: string, inFirstColumn: bool)

  /** A rank row, seen through the three places `collectRanks` looks for its
      left part: the `.wt-tree_item`s, in document order, under the first
      `.wt-tree_rank-instance` inside a `grid-column: 1 / 3` cell (absent
      when there is none), under the first one inside a `td[colspan="2"]`,
      and under the row itself. */
  datatype RankRowEl = RankRowEl(gridItems: Option<seq<ItemEl>>, tdItems: Option<seq<ItemEl>>, rowItems: seq<ItemEl>)

  datatype Row = Header(labelEl: Option<LabelEl>) | RankRow(el: RankRowEl) | Other

  /** One rank group: `{ label, labelEl, rankRowEls, itemEls, rpSum, slSum }`.
      The label is a function of the label element's text as it read when
      the header was met, so it is computed from `labelEl` on demand. */
  datatype Rank = Rank(labelEl: Option<LabelEl>, rankRows: seq<RankRowEl>, items: seq<ItemEl>, rpSum: nat, slSum: nat)
  {
    /** `(labelEl?.textContent || '').trim().replace(/\s+/g, ' ')`. */
    function Label(): (s: string) {
      NormalLabel(if labelEl.Some? then labelEl.value.text else "")
    }
  }

  /** The group a header opens. */
  function NewRank(l: Option<LabelEl>): (r: Rank)
    ensures r.labelEl == l && r.rankRows == [] && r.items == [] && r.rpSum == 0 && r.slSum == 0
  {
    Rank(l, [], [], 0, 0)
  }

  /** A group's label has single spaces between words and none at either
      end, and keeps every visible character of the header text. */
  lemma NewRankLabel(l: Option<LabelEl>)
    ensures var t := NewRank(l).Label();
            Collapsed(t) && (t == [] || (t[0] != ' ' && t[|t| - 1] != ' '))
    ensures l.Some? ==> Visible(NewRank(l).Label()) == Visible(l.value.text)
  {
    LabelShape(if l.Some? then l.value.text else "");
  }

  /** The groups after the first pass over `rows`: a header opens a group,
      a rank row joins the latest group (and is dropped when there is none
      yet), anything else is ignored. */
  function GroupRows(rows: seq<Row>): (rs: seq<Rank>)
    ensures forall k :: 0 <= k < |rs| ==> rs[k].items == [] && rs[k].rpSum == 0 && rs[k].slSum == 0
  {
    if rows == [] then []
    else
      var init := GroupRows(rows[..|rows| - 1]);
      match rows[|rows| - 1]
      case Header(l) => init + [NewRank(l)]
      case RankRow(el) =>
        if init == [] then init
        else
          var last := init[|init| - 1];
          init[..|init| - 1] + [last.(rankRows := last.rankRows + [el])]
      case Other => init
  }

  predicate NoHeader(rows: seq<Row>) {
    forall i :: 0 <= i < |rows| ==> !rows[i].Header?
  }

  /** The rank rows among `rows`, in order. */
  function RankRowsOf(rows: seq<Row>): (s: seq<RankRowEl>) {
    if rows == [] then []
    else RankRowsOf(rows[..|rows| - 1]) + (if rows[|rows| - 1].RankRow? then [rows[|rows| - 1].el] else [])
  }

  function HeaderCount(rows: seq<Row>): (n: nat) {
    if rows == [] then 0
    else HeaderCount(rows[..|rows| - 1]) + (if rows[|rows| - 1].Header? then 1 else 0)
  }

  /** Rows before the first header form no group: their rank rows are dropped. */
  lemma {:induction false} GroupRowsNoHeader(rows: seq<Row>)
    requires NoHeader(rows)
    ensures GroupRows(rows) == []
  {
    if rows != [] {
      GroupRowsNoHeader(rows[..|rows| - 1]);
    }
  }

  /** The rank row carried by a single row, if any. */
  function RowRankRows(r: Row): (s: seq<RankRowEl>) {
    if r.RankRow? then [r.el] else []
  }

  /** A row that is not a header extends the latest group, if there is one. */
  lemma GroupRowsStep(rows: seq<Row>, r: Row)
    requires !r.Header? && GroupRows(rows) != []
    ensures var g := GroupRows(rows);
            GroupRows(rows + [r]) == g[..|g| - 1] + [g[|g| - 1].(rankRows := g[|g| - 1].rankRows + RowRankRows(r))]
  {
    var rows' := rows + [r];
    assert rows'[..|rows'| - 1] == rows;
    assert rows'[|rows'| - 1] == r;
    var g := GroupRows(rows);
    var last := g[|g| - 1];
    assert g == g[..|g| - 1] + [last];
    if !r.RankRow? {
      assert last.(rankRows := last.rankRows + RowRankRows(r)) == last;
    }
  }

  lemma RankRowsOfStep(seg: seq<Row>, r: Row)
    ensures RankRowsOf(seg + [r]) == RankRowsOf(seg) + RowRankRows(r)
  {
    assert (seg + [r])[..|seg + [r]| - 1] == seg;
  }

  /** A header followed by rows without a header forms one group, holding
      exactly the rank rows among them, placed after the groups before it. */
  lemma {:induction false} GroupRowsSegment(pre: seq<Row>, l: Option<LabelEl>, seg: seq<Row>)
    requires NoHeader(seg)
    ensures GroupRows(pre + [Header(l)] + seg) == GroupRows(pre) + [NewRank(l).(rankRows := RankRowsOf(seg))]
    decreases |seg|
  {
    if seg == [] {
      assert pre + [Header(l)] + seg == pre + [Header(l)];
      assert (pre + [Header(l)])[..|pre| ] == pre;
    } else {
      var n := |seg| - 1;
      var front := pre + [Header(l)] + seg[..n];
      GroupRowsSegment(pre, l, seg[..n]);
      GroupRowsStep(front, seg[n]);
      RankRowsOfStep(seg[..n], seg[n]);
      assert front + [seg[n]] == pre + [Header(l)] + seg;
      assert seg[..n] + [seg[n]] == seg;
      var g := GroupRows(front);
      assert g[..|g| - 1] == GroupRows(pre);
    }
  }

  /** One group per header row. */
  lemma {:induction false} GroupCount(rows: seq<Row>)
    ensures |GroupRows(rows)| == HeaderCount(rows)
  {
    if rows != [] {
      GroupCount(rows[..|rows| - 1]);
    }
  }

  /** The container whose items are taken: the first of the grid-column
      instance, the `td` instance and the row itself that exists. */
  function LeftItems(rr: RankRowEl): (items: seq<ItemEl>)
    ensures rr.gridItems.Some? ==> items == rr.gridItems.value
    ensures rr.gridItems.None? && rr.tdItems.Some? ==> items == rr.tdItems.value
    ensures rr.gridItems.None? && rr.tdItems.None? ==> items == rr.rowItems
  {
    if rr.gridItems.Some? then rr.gridItems.value
    else if rr.tdItems.Some? then rr.tdItems.value
    else rr.rowItems
  }

  /** The filter test: an item outside any `.wt-tree_group` is kept, an item
      inside one only when it is that group's first `.wt-tree_item`.
      `firstOf` maps each group to the element id of its first item. */
  predicate Kept(el: ItemEl, firstOf: map<nat, nat>) {
    el.group.None? || (el.group.value in firstOf && firstOf[el.group.value] == el.eid)
  }

  /** `Array.from(left.querySelectorAll('.wt-tree_item')).filter(...)`. */
  function KeepFirsts(items: seq<ItemEl>, firstOf: map<nat, nat>): (r: seq<ItemEl>)
    ensures forall x :: x in r <==> x in items && Kept(x, firstOf)
  {
    if items == [] then []
    else KeepFirsts(items[..|items| - 1], firstOf) + (if Kept(items[|items| - 1], firstOf) then [items[|items| - 1]] else [])
  }

  /** The filter keeps document order: it acts on each part of a sequence
      separately. */
  lemma {:induction false} KeepFirstsAppend(a: seq<ItemEl>, b: seq<ItemEl>, firstOf: map<nat, nat>)
    ensures KeepFirsts(a + b, firstOf) == KeepFirsts(a, firstOf) + KeepFirsts(b, firstOf)
    decreases |b|
  {
    if b == [] {
      assert a + b == a;
    } else {
      assert (a + b)[..|a + b| - 1] == a + b[..|b| - 1];
      KeepFirstsAppend(a, b[..|b| - 1], firstOf);
    }
  }

  predicate DistinctIds(items: seq<ItemEl>) {
    forall i, j :: 0 <= i < j < |items| ==> items[i].eid != items[j].eid
  }

  /** Among items that are distinct elements, at most one per group is kept. */
  lemma OnePerGroup(items: seq<ItemEl>, firstOf: map<nat, nat>, x: ItemEl, y: ItemEl)
    requires DistinctIds(items)
    requires x in KeepFirsts(items, firstOf) && y in KeepFirsts(items, firstOf)
    requires x.group.Some? && x.group == y.group
    ensures x == y
  {
    var i :| 0 <= i < |items| && items[i] == x;
    var j :| 0 <= j < |items| && items[j] == y;
    assert x.eid == y.eid;
    if i < j || j < i {
      assert false;
    }
  }

  /** The items a group collects: the kept items of each rank row's left
      part, rank row by rank row. */
  function RankItems(rrs: seq<RankRowEl>, firstOf: map<nat, nat>): (s: seq<ItemEl>) {
    if rrs == [] then []
    else RankItems(rrs[..|rrs| - 1], firstOf) + KeepFirsts(LeftItems(rrs[|rrs| - 1]), firstOf)
  }

  /** Every collected item is a kept item of one of the group's rank rows. */
  lemma {:induction false} RankItemsFrom(rrs: seq<RankRowEl>, firstOf: map<nat, nat>, x: ItemEl)
    requires x in RankItems(rrs, firstOf)
    ensures Kept(x, firstOf) && exists k :: 0 <= k < |rrs| && x in LeftItems(rrs[k])
  {
    var n := |rrs| - 1;
    if x in RankItems(rrs[..n], firstOf) {
      RankItemsFrom(rrs[..n], firstOf, x);
      var k :| 0 <= k < n && x in LeftItems(rrs[..n][k]);
      assert rrs[..n][k] == rrs[k];
    } else {
      assert x in LeftItems(rrs[n]);
    }
  }

  /** The group with its items filled in. */
  function Filled(r: Rank, firstOf: map<nat, nat>): (f: Rank) {
    r.(items := RankItems(r.rankRows, firstOf))
  }

  /** The first loop of `collectRanks`: a header opens a group and makes it
      the current one; a rank row is pushed onto the current group, if any. */
  method GroupPass(rows: seq<Row>) returns (result: seq<Rank>)
    ensures result == GroupRows(rows)
  {
    result := [];
    var current: Option<nat> := None;
    for i := 0 to |rows|
      invariant result == GroupRows(rows[..i])
      invariant current == if result == [] then None else Some(|result| - 1)
    {
      assert rows[..i + 1][..i] == rows[..i];
      match rows[i]
      case Header(l) =>
        result := result + [NewRank(l)];
        current := Some(|result| - 1);
      case RankRow(el) =>
        if current.Some? {
          var r := result[current.value];
          result := result[current.value := r.(rankRows := r.rankRows + [el])];
        }
      case Other =>
    }
    assert rows[..|rows|] == rows;
  }

  /** The inner loop of the second pass: the kept items of each rank row,
      pushed rank row by rank row. */
  method GatherItems(rrs: seq<RankRowEl>, firstOf: map<nat, nat>) returns (items: seq<ItemEl>)
    ensures items == RankItems(rrs, firstOf)
  {
    items := [];
    for j := 0 to |rrs|
      invariant items == RankItems(rrs[..j], firstOf)
    {
      assert rrs[..j + 1][..j] == rrs[..j];
      var left := LeftItems(rrs[j]);
      items := items + KeepFirsts(left, firstOf);
    }
    assert rrs[..|rrs|] == rrs;
  }

  /** `collectRanks`: one pass that opens a group per header and files each
      rank row under the current group, then a pass that gathers each
      group's items. */
  method CollectRanks(rows: seq<Row>, firstOf: map<nat, nat>) returns (result: seq<Rank>)
    ensures |result| == |GroupRows(rows)|
    ensures forall k :: 0 <= k < |result| ==> result[k] == Filled(GroupRows(rows)[k], firstOf)
  {
    result := GroupPass(rows);
    ghost var groups := result;
    for k := 0 to |result|
      invariant |result| == |groups|
      invariant forall m :: 0 <= m < k ==> result[m] == Filled(groups[m], firstOf)
      invariant forall m :: k <= m < |result| ==> result[m] == groups[m]
    {
      var r := result[k];
      var items := GatherItems(r.rankRows, firstOf);
      result := result[k := r.(items := r.items + items)];
    }
  }
}
