/** Unit identifiers, cost records and the parse of a unit page
    (`getUnitIdFromItem`, the cache key, the label fold of `fetchUnitCosts`). */
module Units {
  import opened Wrappers
  import opened Text

  /** `KEY_PREFIX`: the namespace of every cache entry. */
  const KeyPrefix: string := "wt_cost_v1:"

  /** A cost record `{ rp, sl, ts }`: research points, silver lions and the
      clock reading taken when it was made. */
  datatype Costs = Costs(rp: nat, sl: nat, ts: int)

  /** The cache key of a unit, `KEY_PREFIX + unitId`. */
  function Key(unitId: string): (k: string)
    ensures |k| == |KeyPrefix| + |unitId|
    ensures k[..|KeyPrefix|] == KeyPrefix && k[|KeyPrefix|..] == unitId
  {
    KeyPrefix + unitId
  }

  /** Two units never share a cache entry. */
  lemma KeyInjective(a: string, b: string)
    requires Key(a) == Key(b)
    ensures a == b
  {
    assert a == Key(a)[|KeyPrefix|..];
  }

  /** A `.wt-tree_item` element: its identity in the document, its
      `data-unit-id` attribute, the `href` of its `.wt-tree_item-link`
      descendant (absent when there is no such link or attribute) and the
      closest enclosing `.wt-tree_group`, if any. */
  datatype ItemEl = ItemEl(eid: nat, unitAttr: Option<string>, href: Option<string>, group: Option<nat>)

  /** `getUnitIdFromItem`: a non-empty `data-unit-id`, or else the non-empty
      last `/`-segment of the link; an empty string counts as absent. */
  function UnitId(el: ItemEl): (id: Option<string>)
    ensures id.Some? ==> id.value != []
    ensures id.Some? ==> id == el.unitAttr || (el.href.Some? && id.value == LastSegment(el.href.value))
    ensures (el.unitAttr.Some? && el.unitAttr.value != []) ==> id == el.unitAttr
  {
    if el.unitAttr.Some? && el.unitAttr.value != [] then el.unitAttr
    else if el.href.Some? && LastSegment(el.href.value) != [] then Some(LastSegment(el.href.value))
    else None
  }

  /** Without a usable attribute, the id is the unit name at the end of the
      link path `…/unit/<id>`. */
  lemma UnitIdFromLink(eid: nat, attr: Option<string>, base: string, id: string, g: Option<nat>)
    requires attr == None || attr == Some([])
    requires id != [] && forall i :: 0 <= i < |id| ==> id[i] != '/'
    ensures UnitId(ItemEl(eid, attr, Some(base + "/" + id), g)) == Some(id)
  {
    LastSegmentOfPath(base, id);
  }

  /** A link that ends in `/` (or is empty) gives no id. */
  lemma UnitIdAbsent(el: ItemEl)
    requires el.unitAttr == None || el.unitAttr == Some([])
    requires el.href == None || el.href == Some([]) || el.href.value[|el.href.value| - 1] == '/'
    ensures UnitId(el) == None
  {
  }

  /** One `.game-unit_card-info_item` of a unit page: the text of its title
      element and of its value `div`, each absent when the element is. */
  datatype InfoItem = InfoItem(title: Option<string>, value: Option<string>)

  const ResearchLabel: string := "Research"
  const PurchaseLabel: string := "Purchase"

  /** The trimmed title equals `name` exactly. */
  predicate TitleIs(it: InfoItem, name: string) {
    it.title.Some? && Trim(it.title.value) == name
  }

  /** `valueDiv?.textContent || ''`. */
  function ValueText(it: InfoItem): (s: string) {
    match it.value
    case None => ""
    case Some(v) => v
  }

  /** What the fold leaves in the variable for `name`: 0 at the start,
      overwritten by every item titled `name`. */
  function LabelValue(items: seq<InfoItem>, name: string): (n: nat) {
    if items == [] then 0
    else if TitleIs(items[|items| - 1], name) then ToInt(Some(ValueText(items[|items| - 1])))
    else LabelValue(items[..|items| - 1], name)
  }

  /** A label that no item carries leaves 0. */
  lemma {:induction false} LabelValueMissing(items: seq<InfoItem>, name: string)
    requires forall i :: 0 <= i < |items| ==> !TitleIs(items[i], name)
    ensures LabelValue(items, name) == 0
  {
    if items != [] {
      LabelValueMissing(items[..|items| - 1], name);
    }
  }

  /** When several items carry the label, the last one wins. */
  lemma {:induction false} LabelValueLastWins(items: seq<InfoItem>, name: string, k: nat)
    requires k < |items| && TitleIs(items[k], name)
    requires forall j :: k < j < |items| ==> !TitleIs(items[j], name)
    ensures LabelValue(items, name) == ToInt(Some(ValueText(items[k])))
  {
    if k < |items| - 1 {
      LabelValueLastWins(items[..|items| - 1], name, k);
    }
  }

  /** The record a successfully loaded page yields at clock reading `now`. */
  function PageCosts(items: seq<InfoItem>, now: int): (c: Costs)
    ensures c.ts == now
  {
    Costs(LabelValue(items, ResearchLabel), LabelValue(items, PurchaseLabel), now)
  }

  /** The loop of `fetchUnitCosts` over the info items of a loaded page. */
  method ParseCosts(items: seq<InfoItem>, now: int) returns (c: Costs)
    ensures c == PageCosts(items, now)
  {
    var rp, sl := 0, 0;
    for i := 0 to |items|
      invariant rp == LabelValue(items[..i], ResearchLabel)
      invariant sl == LabelValue(items[..i], PurchaseLabel)
    {
      var it := items[i];
      var title := if it.title.Some? then Some(Trim(it.title.value)) else None;
      var valTxt := ValueText(it);
      if title == Some(ResearchLabel) {
        rp := ToInt(Some(valTxt));
      }
      if title == Some(PurchaseLabel) {
        sl := ToInt(Some(valTxt));
      }
      assert items[..i + 1][..i] == items[..i];
    }
    assert items[..|items|] == items;
    c := Costs(rp, sl, now);
  }
}
