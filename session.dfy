/** `processTree`: the state one tree's closure keeps (its ranks and the
    `seen` map), the badges and rank-sum spans it writes, the pass over the
    tree's elements, `updateSums` and the `onDone` callback it hands to the
    fetch queue.

    The cache is the queue's store: `cacheGet` reads it, the queue's
    `cacheSet` writes it. A cache read is a plain lookup here; nothing runs
    while it is awaited. */
module Session {
  import opened Wrappers
  import opened Units
  import opened Ranks
  import opened Summary
  import opened Render
  import opened Queue

  /** What `cacheGet` yields for an element: the stored record of its unit,
      if it has an id and the cache holds one. */
  function Cached(el: ItemEl, store: map<string, Costs>): (c: Option<Costs>)
    ensures c.Some? ==> UnitId(el).Some? && Key(UnitId(el).value) in store && c.value == store[Key(UnitId(el).value)]
    ensures c.None? && UnitId(el).Some? ==> Key(UnitId(el).value) !in store
  {
    var id := UnitId(el);
    if id.Some? && Key(id.value) in store then Some(store[Key(id.value)]) else None
  }

  /** `seen` after one element: its unit's cached record, if any. */
  function SeenStep(seen: map<string, Costs>, el: ItemEl, store: map<string, Costs>): (m: map<string, Costs>) {
    match Cached(el, store)
    case Some(c) => seen[UnitId(el).value := c]
    case None => seen
  }

  /** `seen` after the pass over `items`. */
  function SeenAfter(seen: map<string, Costs>, items: seq<ItemEl>, store: map<string, Costs>): (m: map<string, Costs>) {
    if items == [] then seen
    else SeenStep(SeenAfter(seen, items[..|items| - 1], store), items[|items| - 1], store)
  }

  /** The pill of an element with an id: its cached record, or zeros while
      the fetch is pending. */
  function FirstBadge(el: ItemEl, store: map<string, Costs>, fmt: nat -> string): (s: string) {
    match Cached(el, store)
    case Some(c) => BadgeText(fmt, c.rp, c.sl)
    case None => BadgeText(fmt, 0, 0)
  }

  /** The badges after one element; an element without an id is skipped. */
  function BadgeStep(badges: map<nat, string>, el: ItemEl, store: map<string, Costs>, fmt: nat -> string): (m: map<nat, string>) {
    if UnitId(el).Some? then badges[el.eid := FirstBadge(el, store, fmt)] else badges
  }

  /** The badges after the pass over `items`. */
  function BadgesAfter(badges: map<nat, string>, items: seq<ItemEl>, store: map<string, Costs>, fmt: nat -> string): (m: map<nat, string>) {
    if items == [] then badges
    else BadgeStep(BadgesAfter(badges, items[..|items| - 1], store, fmt), items[|items| - 1], store, fmt)
  }

  /** The job one element enqueues: one when its unit has an id and is not
      cached. */
  function MissOf(el: ItemEl, store: map<string, Costs>): (s: seq<Job>) {
    if UnitId(el).Some? && Cached(el, store).None? then [Job(UnitId(el).value, el.eid)] else []
  }

  /** The jobs the pass enqueues, in element order, repeated units
      included. */
  function Misses(items: seq<ItemEl>, store: map<string, Costs>): (s: seq<Job>) {
    if items == [] then []
    else Misses(items[..|items| - 1], store) + MissOf(items[|items| - 1], store)
  }

  /** Every cached unit of the tree ends up in `seen` with its cached
      record, and nothing else enters `seen`. */
  lemma {:induction false} SeenAfterCached(seen: map<string, Costs>, items: seq<ItemEl>, store: map<string, Costs>)
    ensures forall k :: 0 <= k < |items| && Cached(items[k], store).Some? ==>
              UnitId(items[k]).value in SeenAfter(seen, items, store) &&
              SeenAfter(seen, items, store)[UnitId(items[k]).value] == store[Key(UnitId(items[k]).value)]
    ensures forall id :: id in SeenAfter(seen, items, store) ==>
              (id in seen && SeenAfter(seen, items, store)[id] == seen[id]) ||
              (Key(id) in store && SeenAfter(seen, items, store)[id] == store[Key(id)])
  {
    if items != [] {
      var n := |items| - 1;
      SeenAfterCached(seen, items[..n], store);
      forall k | 0 <= k < n
        ensures items[..n][k] == items[k]
      {
      }
    }
  }

  /** Each job is for an element of the tree whose unit is not cached, and
      every such element has its job, at the place of the element. */
  lemma {:induction false} MissesExact(items: seq<ItemEl>, store: map<string, Costs>)
    ensures forall j :: j in Misses(items, store) ==> Key(j.unitId) !in store && j.unitId != []
    ensures forall k :: 0 <= k < |items| && UnitId(items[k]).Some? && Key(UnitId(items[k]).value) !in store ==>
              Job(UnitId(items[k]).value, items[k].eid) in Misses(items, store)
  {
    if items != [] {
      var n := |items| - 1;
      MissesExact(items[..n], store);
      forall k | 0 <= k < n
        ensures items[..n][k] == items[k]
      {
      }
    }
  }

  /** With distinct element identities, every element with an id shows its
      cached record, or zeros when it was not cached. */
  lemma {:induction false} BadgesAfterShown(badges: map<nat, string>, items: seq<ItemEl>, store: map<string, Costs>, fmt: nat -> string, k: nat)
    requires k < |items| && UnitId(items[k]).Some?
    requires forall j :: k < j < |items| ==> items[j].eid != items[k].eid
    ensures items[k].eid in BadgesAfter(badges, items, store, fmt)
    ensures BadgesAfter(badges, items, store, fmt)[items[k].eid] ==
              if Key(UnitId(items[k]).value) in store
              then BadgeText(fmt, store[Key(UnitId(items[k]).value)].rp, store[Key(UnitId(items[k]).value)].sl)
              else BadgeText(fmt, 0, 0)
  {
    BadgesAfterFirst(badges, items, store, fmt, k);
    FirstBadgeIs(items[k], store, fmt);
  }

  lemma {:induction false} BadgesAfterFirst(badges: map<nat, string>, items: seq<ItemEl>, store: map<string, Costs>, fmt: nat -> string, k: nat)
    requires k < |items| && UnitId(items[k]).Some?
    requires forall j :: k < j < |items| ==> items[j].eid != items[k].eid
    ensures items[k].eid in BadgesAfter(badges, items, store, fmt)
    ensures BadgesAfter(badges, items, store, fmt)[items[k].eid] == FirstBadge(items[k], store, fmt)
  {
    var n := |items| - 1;
    if k < n {
      assert items[..n][k] == items[k];
      BadgesAfterFirst(badges, items[..n], store, fmt, k);
    }
  }

  lemma FirstBadgeIs(el: ItemEl, store: map<string, Costs>, fmt: nat -> string)
    requires UnitId(el).Some?
    ensures FirstBadge(el, store, fmt) ==
              if Key(UnitId(el).value) in store
              then BadgeText(fmt, store[Key(UnitId(el).value)].rp, store[Key(UnitId(el).value)].sl)
              else BadgeText(fmt, 0, 0)
  {
  }

  /** The state of one `processTree` call. */
  class TreeSession {
    /** The number format (`toLocaleString`). */
    const fmt: nat -> string
    /** Whether the tree has a `.wt-tree_header` row. */
    const hasHeaderRow: bool
    /** The shared fetch queue, whose store is the cache. */
    const queue: FetchQueue
    var ranks: seq<Rank>
    var seen: map<string, Costs>
    /** Pill texts, by element identity. */
    var badges: map<nat, string>
    /** Rank-sum span texts, by label element identity. */
    var spans: map<nat, string>

    /** Every rank's sums are those of its elements under `seen`, and the
        queue is consistent. */
    ghost predicate Valid()
      reads this, queue
    {
      SumsCurrent(ranks, seen) && queue.Valid()
    }

    /** The start of `processTree`: `collectRanks`, an empty `seen`. The
        pills and spans already in the document are `badges` and `spans`. */
    constructor (rows: seq<Row>, firstOf: map<nat, nat>, fmt: nat -> string, hasHeaderRow: bool,
                 queue: FetchQueue, badges: map<nat, string>, spans: map<nat, string>)
      requires queue.Valid()
      ensures Valid()
      ensures this.fmt == fmt && this.hasHeaderRow == hasHeaderRow && this.queue == queue
      ensures |ranks| == |GroupRows(rows)|
      ensures forall k :: 0 <= k < |ranks| ==> ranks[k] == Filled(GroupRows(rows)[k], firstOf)
      ensures seen == map[] && this.badges == badges && this.spans == spans
    {
      var rs := CollectRanks(rows, firstOf);
      this.fmt, this.hasHeaderRow, this.queue := fmt, hasHeaderRow, queue;
      ranks, seen := rs, map[];
      this.badges, this.spans := badges, spans;
      new;
      forall k | 0 <= k < |ranks|
        ensures ranks[k].rpSum == SumRp(ranks[k].items, seen) && ranks[k].slSum == SumSl(ranks[k].items, seen)
      {
        SumUnresolved(ranks[k].items, seen);
      }
    }

    /** `updateSums`: every rank's sums recomputed from `seen` and its span
        reset, then the rank-1 total rewritten. */
    method UpdateSums()
      requires queue.Valid()
      modifies this
      ensures Valid()
      ensures ranks == Summed(old(ranks), seen)
      ensures spans == Rendered(old(spans), ranks, fmt, hasHeaderRow)
      ensures seen == old(seen) && badges == old(badges)
    {
      SumRanks();
      RenderTotalSum();
    }

    /** The loop of `updateSums` over the ranks: the sums of each rank's
        elements, then `renderRankSum`. */
    method SumRanks()
      modifies this
      ensures ranks == Summed(old(ranks), seen)
      ensures spans == RankSpans(old(spans), ranks, fmt)
      ensures seen == old(seen) && badges == old(badges)
    {
      ghost var rs0, spans0 := ranks, spans;
      for i := 0 to |ranks|
        invariant |ranks| == |rs0| && seen == old(seen) && badges == old(badges)
        invariant forall k :: 0 <= k < i ==> ranks[k] == WithSums(rs0[k], seen)
        invariant forall k :: i <= k < |ranks| ==> ranks[k] == rs0[k]
        invariant spans == RankSpans(spans0, ranks[..i], fmt)
      {
        var r := ranks[i];
        var rp, sl := RankSums(r.items, seen);
        RankSpansStep(spans0, ranks, i, r.(rpSum := rp, slSum := sl), fmt);
        ranks := ranks[i := r.(rpSum := rp, slSum := sl)];
        if r.labelEl.Some? {
          spans := spans[r.labelEl.value.eid := RankSumText(fmt, rp, sl)];
        }
      }
      assert ranks == Summed(rs0, seen);
      assert ranks[..|ranks|] == ranks;
    }

    /** `renderTotalSum`: the two `reduce` totals and the rank-1 rewrite. */
    method RenderTotalSum()
      modifies this
      ensures spans == WithTotal(old(spans), ranks, fmt, hasHeaderRow)
      ensures ranks == old(ranks) && seen == old(seen) && badges == old(badges)
    {
      if !ShowTotalAtTop || !hasHeaderRow {
        return;
      }
      var rp := TotalRp(ranks);
      var sl := TotalSl(ranks);
      var one := RankOne(ranks);
      if one.Some? && ranks[one.value].labelEl.value.eid in spans {
        var e := ranks[one.value].labelEl.value.eid;
        spans := spans[e := Rewrite(spans[e], TotalText(fmt, rp, sl))];
      }
    }

    /** The pass of `processTree` over every element of every rank, then the
        final `updateSums`. A cached unit is recorded in `seen`, shown, and
        the sums are redone; any other unit with an id shows zeros and is
        enqueued with this session's `onDone`. */
    method ProcessTree()
      requires Valid()
      modifies this, queue
      ensures Valid()
      ensures seen == SeenAfter(old(seen), AllItems(old(ranks)), old(queue.store))
      ensures badges == BadgesAfter(old(badges), AllItems(old(ranks)), old(queue.store), fmt)
      ensures ranks == Summed(old(ranks), seen)
      ensures spans == Rendered(old(spans), ranks, fmt, hasHeaderRow)
      ensures queue.Pending() == old(queue.Pending()) + Misses(AllItems(old(ranks)), old(queue.store))
      ensures queue.Valid() && queue.store == old(queue.store) && queue.log == old(queue.log)
    {
      ghost var rs, spans0 := ranks, spans;
      Pass();
      ghost var sp, prev := spans, ranks;
      UpdateSums();
      SameRanksTrans(ranks, prev, rs);
      LabelEidsSame(ranks, rs);
      RenderedForget(sp, spans0, ranks, fmt, hasHeaderRow);
      SummedSame(prev, rs, seen);
    }

    /** The loops of the pass over every element of every rank, before the
        final `updateSums`. */
    method Pass()
      requires Valid()
      modifies this, queue
      ensures Valid() && SameRanks(ranks, old(ranks))
      ensures seen == SeenAfter(old(seen), AllItems(old(ranks)), old(queue.store))
      ensures badges == BadgesAfter(old(badges), AllItems(old(ranks)), old(queue.store), fmt)
      ensures queue.Pending() == old(queue.Pending()) + Misses(AllItems(old(ranks)), old(queue.store))
      ensures queue.store == old(queue.store) && queue.log == old(queue.log)
      ensures AgreeOutside(spans, old(spans), LabelEids(old(ranks)))
    {
      var rs := ranks;
      ghost var store := queue.store;
      ghost var pending0 := queue.Pending();
      ghost var seen0, badges0, spans0 := seen, badges, spans;
      for i := 0 to |rs|
        invariant Valid() && SameRanks(ranks, rs)
        invariant queue.store == store && queue.log == old(queue.log)
        invariant seen == SeenAfter(seen0, AllItems(rs[..i]), store)
        invariant badges == BadgesAfter(badges0, AllItems(rs[..i]), store, fmt)
        invariant queue.Pending() == pending0 + Misses(AllItems(rs[..i]), store)
        invariant AgreeOutside(spans, spans0, LabelEids(rs))
      {
        ghost var s1, b1, p1, sp, prev := seen, badges, queue.Pending(), spans, ranks;
        VisitAll(rs[i].items);
        SpansKept(spans, sp, spans0, ranks, prev, rs);
        RankPassStep(rs, i, store, fmt, seen0, badges0, pending0, s1, b1, p1, seen, badges, queue.Pending());
      }
      assert rs[..|rs|] == rs;
    }

    /** The inner loop of the pass: the elements of one rank, in order. */
    method VisitAll(items: seq<ItemEl>)
      requires Valid()
      modifies this, queue
      ensures Valid() && SameRanks(ranks, old(ranks))
      ensures seen == SeenAfter(old(seen), items, old(queue.store))
      ensures badges == BadgesAfter(old(badges), items, old(queue.store), fmt)
      ensures queue.Pending() == old(queue.Pending()) + Misses(items, old(queue.store))
      ensures queue.store == old(queue.store) && queue.log == old(queue.log)
      ensures AgreeOutside(spans, old(spans), LabelEids(old(ranks)))
    {
      ghost var rs, store, pending0 := ranks, queue.store, queue.Pending();
      ghost var seen0, badges0, spans0 := seen, badges, spans;
      for j := 0 to |items|
        invariant Valid() && SameRanks(ranks, rs)
        invariant queue.store == store && queue.log == old(queue.log)
        invariant seen == SeenAfter(seen0, items[..j], store)
        invariant badges == BadgesAfter(badges0, items[..j], store, fmt)
        invariant queue.Pending() == pending0 + Misses(items[..j], store)
        invariant AgreeOutside(spans, spans0, LabelEids(rs))
      {
        PassStep(items, j);
        ghost var sp, prev, p1 := spans, ranks, queue.Pending();
        Visit(items[j]);
        SpansKept(spans, sp, spans0, ranks, prev, rs);
        assert p1 + MissOf(items[j], store) == pending0 + (Misses(items[..j], store) + MissOf(items[j], store));
      }
      assert items[..|items|] == items;
    }

    /** One element of the pass: skipped without an id; when cached, its
        record goes into `seen` and onto its pill and the sums are redone;
        otherwise its pill shows zeros and a job is enqueued. */
    method Visit(el: ItemEl)
      requires Valid()
      modifies this, queue
      ensures Valid() && SameRanks(ranks, old(ranks))
      ensures seen == SeenStep(old(seen), el, old(queue.store))
      ensures badges == BadgeStep(old(badges), el, old(queue.store), fmt)
      ensures queue.Pending() == old(queue.Pending()) + MissOf(el, old(queue.store))
      ensures queue.store == old(queue.store) && queue.log == old(queue.log)
      ensures AgreeOutside(spans, old(spans), LabelEids(old(ranks)))
      ensures Cached(el, old(queue.store)).Some? ==>
                ranks == Summed(old(ranks), seen) && spans == Rendered(old(spans), ranks, fmt, hasHeaderRow)
      ensures Cached(el, old(queue.store)).None? ==> ranks == old(ranks) && spans == old(spans)
    {
      var id := UnitId(el);
      if id.None? {
        return;
      }
      if Key(id.value) in queue.store {
        var cached := queue.store[Key(id.value)];
        seen := seen[id.value := cached];
        badges := badges[el.eid := BadgeText(fmt, cached.rp, cached.sl)];
        ghost var sp, prev := spans, ranks;
        UpdateSums();
        LabelEidsSame(ranks, prev);
        RenderedOutside(sp, ranks, fmt, hasHeaderRow);
      } else {
        badges := badges[el.eid := BadgeText(fmt, 0, 0)];
        queue.Enqueue(Job(id.value, el.eid));
      }
    }

    /** The `onDone` closure: the record goes into `seen` and onto the
        element's pill, and the sums are redone. */
    method OnDone(job: Job, costs: Costs)
      requires queue.Valid()
      modifies this
      ensures Valid()
      ensures seen == old(seen)[job.unitId := costs]
      ensures badges == old(badges)[job.el := BadgeText(fmt, costs.rp, costs.sl)]
      ensures ranks == Summed(old(ranks), seen)
      ensures spans == Rendered(old(spans), ranks, fmt, hasHeaderRow)
    {
      seen := seen[job.unitId := costs];
      badges := badges[job.el := BadgeText(fmt, costs.rp, costs.sl)];
      UpdateSums();
    }

    /** The request in flight settles: the queue writes the cache on
        success, then calls this session's `onDone` with the record, or
        with zeros on failure. */
    method RequestSettled(outcome: FetchOutcome)
      requires Valid() && queue.inFlight.Some?
      modifies this, queue
      ensures Valid() && queue.running && queue.inFlight == None && queue.jobs == old(queue.jobs)
      ensures queue.log == old(queue.log) + JobEvents(old(queue.inFlight).value, outcome)
      ensures queue.store == if outcome.Loaded? then old(queue.store)[Key(old(queue.inFlight).value.unitId) := OutcomeCosts(outcome)]
                             else old(queue.store)
      ensures seen == old(seen)[old(queue.inFlight).value.unitId := OutcomeCosts(outcome)]
      ensures badges == old(badges)[old(queue.inFlight).value.el := BadgeText(fmt, OutcomeCosts(outcome).rp, OutcomeCosts(outcome).sl)]
      ensures ranks == Summed(old(ranks), seen)
      ensures spans == Rendered(old(spans), ranks, fmt, hasHeaderRow)
    {
      var job := queue.inFlight.value;
      queue.Complete(outcome);
      OnDone(job, OutcomeCosts(outcome));
    }
  }

  /** One element further in the pass: the folds over the elements seen so
      far take one step. */
  lemma PassStep(items: seq<ItemEl>, j: nat)
    requires j < |items|
    ensures items[..j + 1][..j] == items[..j] && items[..j + 1][j] == items[j]
  {
  }

  /** The bookkeeping of one rank of the pass: its elements extend the
      pass over the ranks before it. */
  lemma RankPassStep(rs: seq<Rank>, i: nat, store: map<string, Costs>, fmt: nat -> string,
                     seen0: map<string, Costs>, badges0: map<nat, string>, pending0: seq<Job>,
                     s1: map<string, Costs>, b1: map<nat, string>, p1: seq<Job>,
                     s2: map<string, Costs>, b2: map<nat, string>, p2: seq<Job>)
    requires i < |rs|
    requires s1 == SeenAfter(seen0, AllItems(rs[..i]), store)
    requires b1 == BadgesAfter(badges0, AllItems(rs[..i]), store, fmt)
    requires p1 == pending0 + Misses(AllItems(rs[..i]), store)
    requires s2 == SeenAfter(s1, rs[i].items, store)
    requires b2 == BadgesAfter(b1, rs[i].items, store, fmt)
    requires p2 == p1 + Misses(rs[i].items, store)
    ensures s2 == SeenAfter(seen0, AllItems(rs[..i + 1]), store)
    ensures b2 == BadgesAfter(badges0, AllItems(rs[..i + 1]), store, fmt)
    ensures p2 == pending0 + Misses(AllItems(rs[..i + 1]), store)
  {
    SeenRankStep(rs, i, store, seen0);
    BadgesRankStep(rs, i, store, fmt, badges0);
    MissesRankStep(rs, i, store, pending0);
  }

  lemma SeenRankStep(rs: seq<Rank>, i: nat, store: map<string, Costs>, seen0: map<string, Costs>)
    requires i < |rs|
    ensures SeenAfter(SeenAfter(seen0, AllItems(rs[..i]), store), rs[i].items, store)
         == SeenAfter(seen0, AllItems(rs[..i + 1]), store)
  {
    AllItemsStep(rs, i);
    SeenAfterAppend(seen0, AllItems(rs[..i]), rs[i].items, store);
  }

  lemma BadgesRankStep(rs: seq<Rank>, i: nat, store: map<string, Costs>, fmt: nat -> string, badges0: map<nat, string>)
    requires i < |rs|
    ensures BadgesAfter(BadgesAfter(badges0, AllItems(rs[..i]), store, fmt), rs[i].items, store, fmt)
         == BadgesAfter(badges0, AllItems(rs[..i + 1]), store, fmt)
  {
    AllItemsStep(rs, i);
    BadgesAfterAppend(badges0, AllItems(rs[..i]), rs[i].items, store, fmt);
  }

  lemma MissesRankStep(rs: seq<Rank>, i: nat, store: map<string, Costs>, pending0: seq<Job>)
    requires i < |rs|
    ensures pending0 + Misses(AllItems(rs[..i]), store) + Misses(rs[i].items, store)
         == pending0 + Misses(AllItems(rs[..i + 1]), store)
  {
    var done, items := AllItems(rs[..i]), rs[i].items;
    AllItemsStep(rs, i);
    MissesAppend(done, items, store);
    ConcatAssoc(pending0, Misses(done, store), Misses(items, store));
  }

  lemma ConcatAssoc<T>(a: seq<T>, b: seq<T>, c: seq<T>)
    ensures a + b + c == a + (b + c)
  {
  }

  lemma AllItemsStep(rs: seq<Rank>, i: nat)
    requires i < |rs|
    ensures AllItems(rs[..i + 1]) == AllItems(rs[..i]) + rs[i].items
  {
    assert rs[..i + 1][..i] == rs[..i];
  }

  /** The pass over two runs of elements is the pass over the first and
      then over the second. */
  lemma {:induction false} SeenAfterAppend(seen: map<string, Costs>, a: seq<ItemEl>, b: seq<ItemEl>, store: map<string, Costs>)
    ensures SeenAfter(seen, a + b, store) == SeenAfter(SeenAfter(seen, a, store), b, store)
    decreases |b|
  {
    if b == [] {
      assert a + b == a;
    } else {
      assert (a + b)[..|a + b| - 1] == a + b[..|b| - 1];
      SeenAfterAppend(seen, a, b[..|b| - 1], store);
    }
  }

  lemma {:induction false} BadgesAfterAppend(badges: map<nat, string>, a: seq<ItemEl>, b: seq<ItemEl>, store: map<string, Costs>, fmt: nat -> string)
    ensures BadgesAfter(badges, a + b, store, fmt) == BadgesAfter(BadgesAfter(badges, a, store, fmt), b, store, fmt)
    decreases |b|
  {
    if b == [] {
      assert a + b == a;
    } else {
      assert (a + b)[..|a + b| - 1] == a + b[..|b| - 1];
      BadgesAfterAppend(badges, a, b[..|b| - 1], store, fmt);
    }
  }

  lemma {:induction false} MissesAppend(a: seq<ItemEl>, b: seq<ItemEl>, store: map<string, Costs>)
    ensures Misses(a + b, store) == Misses(a, store) + Misses(b, store)
    decreases |b|
  {
    if b == [] {
      assert a + b == a;
    } else {
      assert (a + b)[..|a + b| - 1] == a + b[..|b| - 1];
      MissesAppend(a, b[..|b| - 1], store);
    }
  }

  /** After one element of the pass, the spans still agree with those
      before the pass outside the label elements, and the ranks differ from
      the ranks before the pass at most in their sums. */
  lemma SpansKept(spans: map<nat, string>, sp: map<nat, string>, spans0: map<nat, string>,
                  ranks: seq<Rank>, prev: seq<Rank>, rs: seq<Rank>)
    requires AgreeOutside(sp, spans0, LabelEids(rs)) && SameRanks(prev, rs)
    requires AgreeOutside(spans, sp, LabelEids(prev)) && SameRanks(ranks, prev)
    ensures AgreeOutside(spans, spans0, LabelEids(rs)) && SameRanks(ranks, rs)
  {
    SameRanksTrans(ranks, prev, rs);
    LabelEidsSame(prev, rs);
    AgreeTrans(spans, sp, spans0, LabelEids(rs));
  }

  /** Two ranks of one element each: `u1` is cached at 100 RP / 50 SL, `u2`
      is not. The pass records `u1` and enqueues one job for `u2`; once
      that job's callback brings 200 RP / 75 SL the totals are 300 RP and
      125 SL. */
  lemma TwoRanksScenario(store: map<string, Costs>, c1: Costs, c2: Costs)
    requires store == map[Key("u1") := c1] && c1.rp == 100 && c1.sl == 50 && c2.rp == 200 && c2.sl == 75
    ensures var ranks := [NewRank(None).(items := [ItemEl(1, Some("u1"), None, None)]),
                          NewRank(None).(items := [ItemEl(2, Some("u2"), None, None)])];
            var items := AllItems(ranks);
            && items == [ItemEl(1, Some("u1"), None, None), ItemEl(2, Some("u2"), None, None)]
            && SeenAfter(map[], items, store) == map["u1" := c1]
            && Misses(items, store) == [Job("u2", 2)]
            && TotalRp(Summed(ranks, map["u1" := c1]["u2" := c2])) == 300
            && TotalSl(Summed(ranks, map["u1" := c1]["u2" := c2])) == 125
  {
    var e1, e2 := ItemEl(1, Some("u1"), None, None), ItemEl(2, Some("u2"), None, None);
    var ranks := [NewRank(None).(items := [e1]), NewRank(None).(items := [e2])];
    assert ranks[..1][..0] == [];
    assert AllItems(ranks[..1]) == [e1];
    assert AllItems(ranks) == [e1, e2];
    assert [e1, e2][..1] == [e1] && [e1][..0] == [];
    assert Key("u2") != Key("u1") by {
      assert Key("u2")[|KeyPrefix|..] == "u2";
    }
    assert Cached(e1, store) == Some(c1);
    assert Cached(e2, store) == None;
    assert Misses([e1], store) == [];
    assert SeenAfter(map[], [e1], store) == map["u1" := c1];
    var seen := map["u1" := c1]["u2" := c2];
    OneElement(e1, seen, c1);
    OneElement(e2, seen, c2);
    var r := Summed(ranks, seen);
    assert r[0] == WithSums(ranks[0], seen) && r[1] == WithSums(ranks[1], seen);
    assert r[..1][..0] == [] && r[..1][0] == r[0];
    assert r[0].rpSum == 100 && r[0].slSum == 50;
    assert TotalRp(r[..1]) == 100;
    assert TotalSl(r[..1]) == TotalSl(r[..1][..0]) + r[..1][0].slSum == 50;
  }

  lemma OneElement(el: ItemEl, seen: map<string, Costs>, c: Costs)
    requires el.unitAttr.Some? && el.unitAttr.value != [] && el.unitAttr.value in seen && seen[el.unitAttr.value] == c
    ensures SumRp([el], seen) == c.rp && SumSl([el], seen) == c.sl
  {
    assert [el][..0] == [];
  }
}
