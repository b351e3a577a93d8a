// Where a full leaf is cut, and why both halves always fit a page.
module BTreeFill {
  import opened PageImage
  import opened Wrappers
  import opened BTreeModel

  // The largest leaf item there is: an inline payload of `MAX_INLINE` bytes.
  const MAX_ITEM_COST: nat := LEAF_HEADER + MAX_INLINE + SLOT_SIZE

  lemma {:induction false} TotalCostSplit(items: seq<Item>, s: nat)
    requires s <= |items|
    ensures TotalCost(items) == TotalCost(items[..s]) + TotalCost(items[s..])
  {
    assert items == items[..s] + items[s..];
    TotalLenAppend(items[..s], items[s..]);
  }

  lemma {:induction false} TotalCostStep(items: seq<Item>, i: nat)
    requires i < |items|
    ensures TotalCost(items[..i + 1]) == TotalCost(items[..i]) + ItemCost(|items[i]|)
  {
    assert items[..i + 1] == items[..i] + [items[i]];
    TotalLenAppend(items[..i], [items[i]]);
    TotalLenOne(items[i]);
  }

  ghost predicate SmallItems(items: seq<Item>) {
    forall i :: 0 <= i < |items| ==> ItemCost(|items[i]|) <= MAX_ITEM_COST
  }

  // The fallback for a cut that would leave one side empty.
  function InsideOrHalf(s: nat, n: nat): nat {
    if s == 0 || s >= n then n / 2 else s
  }

  // The half-cost cut: whatever a page held plus one more item splits into two pages.
  method ChooseSplit(items: seq<Item>) returns (s: nat)
    requires |items| >= 2
    ensures 1 <= s < |items|
    ensures SmallItems(items) && TotalCost(items) <= CAPACITY + MAX_ITEM_COST ==>
            TotalCost(items[..s]) <= CAPACITY && TotalCost(items[s..]) <= CAPACITY
  {
    var total := 0;
    for i := 0 to |items|
      invariant total == TotalCost(items[..i])
    {
      TotalCostStep(items, i);
      total := total + ItemCost(|items[i]|);
    }
    assert items[..|items|] == items;
    s := 0;
    var running := 0;
    var i := 0;
    while i < |items|
      invariant 0 <= i <= |items|
      invariant running == TotalCost(items[..i])
      invariant s == 0 && (i > 0 ==> 2 * running < total)
    {
      TotalCostStep(items, i);
      running := running + ItemCost(|items[i]|);
      if running * 2 >= total {
        s := if i > 1 then i else 1;
        CutFits(items, i, s);
        break;
      }
      i := i + 1;
    }
    s := InsideOrHalf(s, |items|);
  }

  // The item that crosses the half-way mark goes right, unless it is the very first.
  lemma {:induction false} CutFits(items: seq<Item>, i: nat, s: nat)
    requires |items| >= 2 && i < |items| && s == if i > 1 then i else 1
    requires i > 0 ==> 2 * TotalCost(items[..i]) < TotalCost(items)
    requires 2 * TotalCost(items[..i + 1]) >= TotalCost(items)
    ensures 1 <= s < |items|
    ensures SmallItems(items) && TotalCost(items) <= CAPACITY + MAX_ITEM_COST ==>
            TotalCost(items[..s]) <= CAPACITY && TotalCost(items[s..]) <= CAPACITY
  {
    TotalCostStep(items, i);
    TotalCostSplit(items, s);
    if i == 0 {
      assert items[..0] == [];
    }
  }

  // `fill_leaf` and `fill_internal`: a fresh page holding `items`, or nothing if they overflow it.
  method FillPage(kind: PageKind, extra: PageId, items: seq<Item>) returns (r: Option<Image>)
    requires HasSlots(kind)
    ensures r.Some? <==> TotalCost(items) <= CAPACITY
    ensures r.Some? ==> r.value == Slotted(kind, extra, items, PAGE_SIZE - TotalLen(items)) && WellFormed(r.value)
  {
    var fresh_ := SetExtra(Blank(kind), extra);
    for i := 0 to |items|
      invariant TotalCost(items[..i]) <= CAPACITY
      invariant fresh_ == Slotted(kind, extra, items[..i], PAGE_SIZE - TotalLen(items[..i]))
    {
      TotalCostStep(items, i);
      var inserted := Insert(fresh_, i, items[i]);
      assert InsertAt(items[..i], i, items[i]) == items[..i + 1];
      if inserted.None? {
        TotalCostSplit(items, i + 1);
        return None;
      }
      fresh_ := inserted.value;
    }
    assert items[..|items|] == items;
    return Some(fresh_);
  }
}
