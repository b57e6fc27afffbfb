/**
 * The smart context selector, `selectSmartContextItems`
 * (src/lib/utils/valueContext.ts): given a price catalogue and an amount x,
 * choose up to five items whose prices give x a sense of scale.
 *
 * The selector first keeps the priced items that pass the optional
 * predicate and sorts them by (price, label). If |x| reaches the highest
 * price it returns the five most expensive items, dearest first. Otherwise
 * it fills five slots by fixed price bands around |x|, never taking an id
 * twice, tops up from the remaining items closest to |x|, and returns the
 * picks sorted by (price, label).
 *
 * `SmartSelection` is the specification; `SelectSmartContextItems` follows
 * the source step by step (a `Picker` object holding `picked` and `used`,
 * reassigned slot variables, a fill loop with `break`) and is proved equal
 * to it.
 */
module Selector {
  import opened Wrappers
  import opened Types
  import opened Lists

  /** The number of items the selector aims for. */
  const MaxPicks: nat := 5

  function Min(a: int, b: int): int {
    if a <= b then a else b
  }

  // ---------------------------------------------------------------------
  // Comparators
  // ---------------------------------------------------------------------

  /** `(a.usd - b.usd) || a.label.localeCompare(b.label)`. */
  function ByPrice(c: CostItem): Key {
    Key(c.usd, 0.0, c.name)
  }

  /** `(b.usd - a.usd) || a.label.localeCompare(b.label)`: dearest first. */
  function ByPriceDesc(c: CostItem): Key {
    Key(-c.usd, 0.0, c.name)
  }

  /**
   * `(|a.usd - target| - |b.usd - target|) || (a.usd - b.usd) ||
   * a.label.localeCompare(b.label)`: closest to the target first.
   */
  function ByDistance(target: real, c: CostItem): Key {
    Key(Abs(c.usd - target), c.usd, c.name)
  }

  // ---------------------------------------------------------------------
  // Eligible items
  // ---------------------------------------------------------------------

  /** `Number.isFinite(c.usd) && c.usd > 0` (every real is finite). */
  predicate Priced(c: CostItem) {
    c.usd > 0.0
  }

  /** The items that survive both filters, in catalogue order. */
  function Eligible(costs: seq<CostItem>, pred: Option<CostItem -> bool>): (r: seq<CostItem>)
    ensures |r| <= |costs|
    ensures forall c :: c in r <==> c in costs && c.usd > 0.0 && (pred.Some? ==> pred.value(c))
  {
    var priced := Filter(costs, Priced);
    if pred.Some? then Filter(priced, pred.value) else priced
  }

  /** `s` sorted by (price, label): the same items, cheapest first. */
  function CheapestFirst(s: seq<CostItem>): (r: seq<CostItem>)
    ensures |r| == |s| && multiset(r) == multiset(s)
    ensures forall c :: c in r <==> c in s
    ensures SortedBy(r, ByPrice)
  {
    SortByKeySorted(s, ByPrice);
    assert forall c :: c in SortByKey(s, ByPrice) <==> c in s by {
      forall c ensures c in SortByKey(s, ByPrice) <==> c in s {
        SortByKeyMembers(s, ByPrice, c);
      }
    }
    SortByKey(s, ByPrice)
  }

  /** The eligible items after `items.sort(...)`. */
  function SortedEligible(costs: seq<CostItem>, pred: Option<CostItem -> bool>): (r: seq<CostItem>)
    ensures |r| == |Eligible(costs, pred)| && multiset(r) == multiset(Eligible(costs, pred))
    ensures forall c :: c in r <==> c in Eligible(costs, pred)
    ensures SortedBy(r, ByPrice)
  {
    CheapestFirst(Eligible(costs, pred))
  }

  // ---------------------------------------------------------------------
  // Picks and `take`
  // ---------------------------------------------------------------------

  /** The selector's working state: the `picked` array and the `used` id set. */
  datatype Picks = Picks(picked: seq<CostItem>, used: set<string>)

  /** The ids occurring in `s`. */
  function Ids(s: seq<CostItem>): (r: set<string>)
    ensures forall id :: id in r <==> exists c :: c in s && c.id == id
  {
    if s == [] then {}
    else
      assert forall c :: c in s <==> c == s[0] || c in s[1..];
      {s[0].id} + Ids(s[1..])
  }

  predicate DistinctIds(s: seq<CostItem>) {
    forall i, j :: 0 <= i < j < |s| ==> s[i].id != s[j].id
  }

  /** `used` holds exactly the ids of `picked`, and no id was picked twice. */
  predicate WellFormed(st: Picks) {
    st.used == Ids(st.picked) && DistinctIds(st.picked)
  }

  /**
   * `take(c)`: appends a present item whose id is not yet used and records
   * its id; anything else leaves the state alone. It keeps the state
   * well formed, so no id is ever picked twice.
   */
  function AfterTake(st: Picks, c: Option<CostItem>): (r: Picks)
    ensures WellFormed(st) ==> WellFormed(r)
    ensures st.picked <= r.picked && |r.picked| <= |st.picked| + 1
    ensures forall x :: x in r.picked ==> x in st.picked || (c.Some? && x == c.value)
    ensures c.Some? ==> c.value.id in r.used
    ensures |r.picked| == |st.picked| + 1 <==> c.Some? && c.value.id !in st.used
  {
    if c.Some? && c.value.id !in st.used then
      Picks(st.picked + [c.value], st.used + {c.value.id})
    else st
  }

  /** `pool()`: the not-yet-used items, in `items` order. */
  function Pool(items: seq<CostItem>, used: set<string>): (r: seq<CostItem>)
    ensures |r| <= |items|
    ensures forall c :: c in r <==> c in items && c.id !in used
  {
    if items == [] then []
    else (if items[0].id !in used then [items[0]] else []) + Pool(items[1..], used)
  }

  // ---------------------------------------------------------------------
  // The pickers
  // ---------------------------------------------------------------------

  /** `s.filter(c => c.usd >= lo && c.usd <= hi)`. */
  function InBand(s: seq<CostItem>, lo: real, hi: real): (r: seq<CostItem>)
    ensures forall c :: c in r <==> c in s && lo <= c.usd <= hi
  {
    Filter(s, (c: CostItem) => c.usd >= lo && c.usd <= hi)
  }

  /** `s.filter(c => c.usd >= lo)`. */
  function AtLeast(s: seq<CostItem>, lo: real): (r: seq<CostItem>)
    ensures forall c :: c in r <==> c in s && c.usd >= lo
  {
    Filter(s, (c: CostItem) => c.usd >= lo)
  }

  /** `s` sorted by distance to the target, then price, then label. */
  function NearestFirst(s: seq<CostItem>, target: real): (r: seq<CostItem>)
    ensures |r| == |s| && multiset(r) == multiset(s)
    ensures forall c :: c in r <==> c in s
    ensures SortedBy(r, c => ByDistance(target, c))
  {
    SortByKeySorted(s, c => ByDistance(target, c));
    assert forall c :: c in SortByKey(s, c => ByDistance(target, c)) <==> c in s by {
      forall c ensures c in SortByKey(s, c => ByDistance(target, c)) <==> c in s {
        SortByKeyMembers(s, c => ByDistance(target, c), c);
      }
    }
    SortByKey(s, c => ByDistance(target, c))
  }

  /** The head of `NearestFirst(s, target)`: an item of `s` nearest the target. */
  function Nearest(s: seq<CostItem>, target: real): (r: CostItem)
    requires s != []
    ensures r in s
    ensures forall c :: c in s ==> KeyLeq(ByDistance(target, r), ByDistance(target, c))
  {
    SortFirst(s, c => ByDistance(target, c))
  }

  /**
   * `pickClosestInRange(min, max, target)`: among the pool items priced in
   * [lo, hi], the one closest to the target, ties going to the lower price
   * and then the lower label; none when the band is empty.
   */
  function PickClosestInRange(pool: seq<CostItem>, lo: real, hi: real, target: real): (r: Option<CostItem>)
    ensures r.None? <==> forall c :: c in pool ==> !(lo <= c.usd <= hi)
    ensures r.Some? ==> r.value in pool && lo <= r.value.usd <= hi
    ensures r.Some? ==> forall c :: c in pool && lo <= c.usd <= hi ==>
      KeyLeq(ByDistance(target, r.value), ByDistance(target, c))
  {
    var candidates := InBand(pool, lo, hi);
    if candidates == [] then None else Some(Nearest(candidates, target))
  }

  /** `pickMinAbove(min)`: the cheapest pool item priced at least `lo`. */
  function PickMinAbove(pool: seq<CostItem>, lo: real): (r: Option<CostItem>)
    ensures r.None? <==> forall c :: c in pool ==> c.usd < lo
    ensures r.Some? ==> r.value in pool && r.value.usd >= lo
    ensures r.Some? ==> forall c :: c in pool && c.usd >= lo ==> KeyLeq(ByPrice(r.value), ByPrice(c))
  {
    var candidates := AtLeast(pool, lo);
    if candidates == [] then None else Some(SortFirst(candidates, ByPrice))
  }

  /** `pickMaxAbove(min)`: the dearest pool item priced at least `lo`. */
  function PickMaxAbove(pool: seq<CostItem>, lo: real): (r: Option<CostItem>)
    ensures r.None? <==> forall c :: c in pool ==> c.usd < lo
    ensures r.Some? ==> r.value in pool && r.value.usd >= lo
    ensures r.Some? ==> forall c :: c in pool && c.usd >= lo ==> KeyLeq(ByPriceDesc(r.value), ByPriceDesc(c))
  {
    var candidates := AtLeast(pool, lo);
    if candidates == [] then None else Some(SortFirst(candidates, ByPriceDesc))
  }

  /**
   * Slot 4: the cheapest item priced at least a/2; when there is none, the
   * last item of the pool, and nothing when the pool is empty.
   */
  function Slot4(pool: seq<CostItem>, a: real): (r: Option<CostItem>)
    ensures (exists c :: c in pool && c.usd >= 0.5 * a) ==>
      r.Some? && r.value in pool && r.value.usd >= 0.5 * a
      && forall c :: c in pool && c.usd >= 0.5 * a ==> KeyLeq(ByPrice(r.value), ByPrice(c))
    ensures (forall c :: c in pool ==> c.usd < 0.5 * a) ==>
      r == if pool == [] then None else Some(pool[|pool| - 1])
  {
    var s4 := PickMinAbove(pool, 0.5 * a);
    if s4.Some? then s4
    else if pool == [] then None
    else Some(pool[|pool| - 1])
  }

  /** In a pool sorted by price, the slot-4 fallback is the dearest item. */
  lemma Slot4FallbackIsDearest(pool: seq<CostItem>, a: real)
    requires SortedBy(pool, ByPrice) && pool != []
    requires forall c :: c in pool ==> c.usd < 0.5 * a
    ensures Slot4(pool, a).Some?
    ensures forall c :: c in pool ==> c.usd <= Slot4(pool, a).value.usd
  {
    forall c | c in pool ensures c.usd <= pool[|pool| - 1].usd {
      var j :| 0 <= j < |pool| && pool[j] == c;
      if j < |pool| - 1 {
        assert KeyLeq(ByPrice(pool[j]), ByPrice(pool[|pool| - 1]));
      }
    }
  }

  /** `Math.max(absX * 10, 10000)`: the most a slot-5 item should cost. */
  function MaxReasonable(a: real): (cap: real)
    ensures cap >= 10.0 * a && cap >= 10000.0
    ensures cap == 10.0 * a || cap == 10000.0
  {
    if a * 10.0 >= 10000.0 then a * 10.0 else 10000.0
  }

  /**
   * The first part of slot 5: the dearest item priced at least a/10, swapped
   * for the dearest item within [a/10, cap] when it is over the cap and such
   * an item exists.
   */
  function CappedTop(pool: seq<CostItem>, a: real): (r: Option<CostItem>)
    ensures r.None? <==> forall c :: c in pool ==> c.usd < 0.1 * a
    ensures r.Some? ==> r.value in pool && r.value.usd >= 0.1 * a
  {
    var cap := MaxReasonable(a);
    var top := PickMaxAbove(pool, 0.1 * a);
    if top.Some? && top.value.usd > cap then
      var underCap := InBand(pool, 0.1 * a, cap);
      if underCap != [] then Some(SortFirst(underCap, ByPriceDesc)) else top
    else top
  }

  /**
   * Slot 5: the dearest item priced at least a/10, but if that one costs
   * more than the cap, the dearest item within [a/10, cap] instead, when one
   * exists; with nothing priced at least a/10, the item closest to 2a.
   */
  function Slot5(pool: seq<CostItem>, a: real): (r: Option<CostItem>)
    ensures r.None? <==> pool == []
    ensures r.Some? ==> r.value in pool
  {
    var s5 := CappedTop(pool, a);
    if s5.Some? then s5
    else if pool == [] then None
    else Some(Nearest(pool, a * 2.0))
  }

  /** The slot-5 rules, stated over the pool. */
  lemma Slot5Rules(pool: seq<CostItem>, a: real)
    // something within [a/10, cap]: the dearest item of that band
    ensures (exists c :: c in pool && 0.1 * a <= c.usd <= MaxReasonable(a)) ==>
      var r := Slot5(pool, a);
      r.Some? && 0.1 * a <= r.value.usd <= MaxReasonable(a)
      && forall c :: c in pool && 0.1 * a <= c.usd <= MaxReasonable(a) ==>
           KeyLeq(ByPriceDesc(r.value), ByPriceDesc(c))
    // everything from a/10 up is over the cap: the dearest item is kept
    ensures ((exists c :: c in pool && c.usd >= 0.1 * a)
         && (forall c :: c in pool && c.usd >= 0.1 * a ==> c.usd > MaxReasonable(a))) ==>
      var r := Slot5(pool, a);
      r.Some? && r.value.usd > MaxReasonable(a)
      && forall c :: c in pool && c.usd >= 0.1 * a ==> KeyLeq(ByPriceDesc(r.value), ByPriceDesc(c))
    // nothing from a/10 up: the item closest to 2a
    ensures (forall c :: c in pool ==> c.usd < 0.1 * a) && pool != [] ==>
      var r := Slot5(pool, a);
      r.Some? && forall c :: c in pool ==> KeyLeq(ByDistance(a * 2.0, r.value), ByDistance(a * 2.0, c))
  {
  }

  // ---------------------------------------------------------------------
  // The selection
  // ---------------------------------------------------------------------

  /** Every pick is one of `items`, and the state is well formed. */
  predicate PicksFrom(items: seq<CostItem>, st: Picks) {
    WellFormed(st) && forall c :: c in st.picked ==> c in items
  }

  /** Taking a pool item (or nothing) keeps the picks drawn from `items`. */
  lemma TakeFromPool(items: seq<CostItem>, st: Picks, c: Option<CostItem>)
    requires PicksFrom(items, st)
    requires c.Some? ==> c.value in Pool(items, st.used)
    ensures PicksFrom(items, AfterTake(st, c))
    ensures st.picked <= AfterTake(st, c).picked
    ensures |AfterTake(st, c).picked| <= |st.picked| + 1
  {
  }

  /** Slot 1: `take(cheapest)`. */
  function AfterSlot1(items: seq<CostItem>): (r: Picks)
    requires items != []
    ensures PicksFrom(items, r)
    ensures r.picked == [items[0]] && r.used == {items[0].id}
  {
    AfterTake(Picks([], {}), Some(items[0]))
  }

  /** Slot 2: the item closest to 0.3a in [0.1a, 0.5a]. */
  function AfterSlot2(items: seq<CostItem>, a: real): (r: Picks)
    requires items != []
    ensures PicksFrom(items, r) && 1 <= |r.picked| <= 2
    ensures AfterSlot1(items).picked <= r.picked
  {
    var p1 := AfterSlot1(items);
    TakeFromPool(items, p1, PickClosestInRange(Pool(items, p1.used), 0.1 * a, 0.5 * a, 0.3 * a));
    AfterTake(p1, PickClosestInRange(Pool(items, p1.used), 0.1 * a, 0.5 * a, 0.3 * a))
  }

  /** Slot 3: the item closest to a in [0.5a, 1.5a]. */
  function AfterSlot3(items: seq<CostItem>, a: real): (r: Picks)
    requires items != []
    ensures PicksFrom(items, r) && 1 <= |r.picked| <= 3
    ensures AfterSlot2(items, a).picked <= r.picked
  {
    var p2 := AfterSlot2(items, a);
    TakeFromPool(items, p2, PickClosestInRange(Pool(items, p2.used), 0.5 * a, 1.5 * a, a));
    AfterTake(p2, PickClosestInRange(Pool(items, p2.used), 0.5 * a, 1.5 * a, a))
  }

  /** Slot 4. */
  function AfterSlot4(items: seq<CostItem>, a: real): (r: Picks)
    requires items != []
    ensures PicksFrom(items, r) && 1 <= |r.picked| <= 4
    ensures AfterSlot3(items, a).picked <= r.picked
  {
    var p3 := AfterSlot3(items, a);
    TakeFromPool(items, p3, Slot4(Pool(items, p3.used), a));
    AfterTake(p3, Slot4(Pool(items, p3.used), a))
  }

  /**
   * The five slot takes: the cheapest item, the closest to 0.3a in
   * [0.1a, 0.5a], the closest to a in [0.5a, 1.5a], slot 4 and slot 5.
   */
  function Slots(items: seq<CostItem>, a: real): (r: Picks)
    requires items != []
    ensures PicksFrom(items, r) && 1 <= |r.picked| <= MaxPicks
    ensures AfterSlot3(items, a).picked <= r.picked
  {
    var p4 := AfterSlot4(items, a);
    TakeFromPool(items, p4, Slot5(Pool(items, p4.used), a));
    AfterTake(p4, Slot5(Pool(items, p4.used), a))
  }

  /**
   * The fill loop: takes the remaining items in order and stops as soon as
   * five are picked. Started below five, it never goes past five.
   */
  function Fill(remaining: seq<CostItem>, st: Picks): (r: Picks)
    ensures WellFormed(st) ==> WellFormed(r)
    ensures st.picked <= r.picked
    ensures |st.picked| < MaxPicks ==> |r.picked| <= MaxPicks
    ensures forall x :: x in r.picked ==> x in st.picked || x in remaining
    decreases |remaining|
  {
    if remaining == [] then st
    else
      var next := AfterTake(st, Some(remaining[0]));
      if |next.picked| == MaxPicks then next else Fill(remaining[1..], next)
  }

  /** The picks of the main branch: the slots, topped up by distance to a. */
  function MainPicks(items: seq<CostItem>, a: real): (r: Picks)
    requires items != []
    ensures PicksFrom(items, r) && 1 <= |r.picked| <= MaxPicks
    ensures Slots(items, a).picked <= r.picked
  {
    var slots := Slots(items, a);
    if |slots.picked| < MaxPicks then
      FillFromItems(items, slots, a);
      Fill(NearestFirst(Pool(items, slots.used), a), slots)
    else slots
  }

  /** Topping up from the pool keeps the picks drawn from `items`. */
  lemma FillFromItems(items: seq<CostItem>, st: Picks, a: real)
    requires PicksFrom(items, st)
    ensures PicksFrom(items, Fill(NearestFirst(Pool(items, st.used), a), st))
  {
    var remaining := NearestFirst(Pool(items, st.used), a);
    forall c | c in Fill(remaining, st).picked ensures c in items {
      if c !in st.picked {
        assert c in Pool(items, st.used);
      }
    }
  }

  /** `items.slice(-5).reverse()`: the last five items, last first. */
  function DearestFirst(items: seq<CostItem>): (r: seq<CostItem>)
    ensures |r| == Min(MaxPicks, |items|)
    ensures forall i :: 0 <= i < |r| ==> r[i] == items[|items| - 1 - i]
  {
    ReversedTail(items, MaxPicks)
  }

  /** |x| reaches the highest eligible price. */
  predicate OverrideApplies(costs: seq<CostItem>, x: real, pred: Option<CostItem -> bool>) {
    var items := SortedEligible(costs, pred);
    items != [] && Abs(x) >= items[|items| - 1].usd
  }

  /**
   * What `selectSmartContextItems(costs, x, {predicate})` returns: at most
   * five items. `SelectionBounds` shows they are eligible and that there
   * are none exactly when nothing is eligible.
   */
  function SmartSelection(costs: seq<CostItem>, x: real, pred: Option<CostItem -> bool>): (r: seq<CostItem>)
    ensures |r| <= MaxPicks
  {
    var items := SortedEligible(costs, pred);
    if items == [] then []
    else if Abs(x) >= items[|items| - 1].usd then DearestFirst(items)
    else CheapestFirst(MainPicks(items, Abs(x)).picked)
  }

  // ---------------------------------------------------------------------
  // The imperative selector
  // ---------------------------------------------------------------------

  /** The `picked` array and `used` set the source's `take` closure updates. */
  class Picker {
    var picked: seq<CostItem>
    var used: set<string>

    function State(): Picks
      reads this
    {
      Picks(picked, used)
    }

    ghost predicate Valid()
      reads this
    {
      WellFormed(State())
    }

    constructor()
      ensures picked == [] && used == {}
      ensures Valid()
    {
      picked := [];
      used := {};
    }

    /** `take(c)`. */
    method Take(c: Option<CostItem>)
      modifies this
      ensures State() == AfterTake(old(State()), c)
      ensures old(Valid()) ==> Valid()
    {
      if c.Some? && c.value.id !in used {
        used := used + {c.value.id};
        picked := picked + [c.value];
      }
    }
  }

  /** Slot 4 with its fallback, as the source reassigns `s4`. */
  method ChooseSlot4(pool: seq<CostItem>, absX: real) returns (s4: Option<CostItem>)
    ensures s4 == Slot4(pool, absX)
  {
    s4 := PickMinAbove(pool, 0.5 * absX);
    if s4.None? {
      var r := pool;
      s4 := if r == [] then None else Some(r[|r| - 1]);
    }
  }

  /** The first two assignments to `s5`: the dearest item, capped. */
  method ChooseCappedTop(pool: seq<CostItem>, absX: real) returns (s5: Option<CostItem>)
    ensures s5 == CappedTop(pool, absX)
  {
    var maxReasonable := MaxReasonable(absX);
    s5 := PickMaxAbove(pool, 0.1 * absX);
    if s5.Some? && s5.value.usd > maxReasonable {
      var candidates := InBand(pool, 0.1 * absX, maxReasonable);
      if |candidates| > 0 {
        s5 := Some(SortFirst(candidates, ByPriceDesc));
      }
    }
  }

  /** Slot 5 with the cap and the fallback, as the source reassigns `s5`. */
  method ChooseSlot5(pool: seq<CostItem>, absX: real) returns (s5: Option<CostItem>)
    ensures s5 == Slot5(pool, absX)
  {
    s5 := ChooseCappedTop(pool, absX);
    if s5.None? && pool != [] {
      s5 := Some(Nearest(pool, absX * 2.0));
    }
  }

  /** The fill loop: take the remaining items in order until five are picked. */
  method FillUp(p: Picker, remaining: seq<CostItem>)
    requires |p.picked| < MaxPicks
    modifies p
    ensures p.State() == Fill(remaining, old(p.State()))
  {
    ghost var goal := Fill(remaining, p.State());
    var i := 0;
    while i < |remaining|
      invariant 0 <= i <= |remaining|
      invariant |p.picked| < MaxPicks
      invariant Fill(remaining[i..], p.State()) == goal
      decreases |remaining| - i
    {
      assert remaining[i..][1..] == remaining[i + 1..];
      p.Take(Some(remaining[i]));
      i := i + 1;
      if |p.picked| == MaxPicks {
        break;
      }
    }
  }

  /** Below the highest eligible price, the selection is the sorted main picks. */
  lemma MainBranch(costs: seq<CostItem>, x: real, pred: Option<CostItem -> bool>)
    requires SortedEligible(costs, pred) != [] && !OverrideApplies(costs, x, pred)
    ensures SmartSelection(costs, x, pred) == CheapestFirst(MainPicks(SortedEligible(costs, pred), Abs(x)).picked)
  {
  }

  /** At or above the highest eligible price, the selection is every eligible item, dearest first. */
  lemma OverrideBranch(costs: seq<CostItem>, x: real, pred: Option<CostItem -> bool>)
    requires OverrideApplies(costs, x, pred)
    ensures SmartSelection(costs, x, pred) == DearestFirst(SortedEligible(costs, pred))
  {
  }

  /** The first three takes: the cheapest item, then the slot-2 and slot-3 bands. */
  method TakeBands(p: Picker, items: seq<CostItem>, absX: real)
    requires items != [] && p.State() == Picks([], {})
    modifies p
    ensures p.State() == AfterSlot3(items, absX)
  {
    p.Take(Some(items[0]));
    assert p.State() == AfterSlot1(items);
    p.Take(PickClosestInRange(Pool(items, p.used), 0.1 * absX, 0.5 * absX, 0.3 * absX));
    assert p.State() == AfterSlot2(items, absX);
    p.Take(PickClosestInRange(Pool(items, p.used), 0.5 * absX, 1.5 * absX, absX));
  }

  /** The five slot takes. */
  method TakeSlots(p: Picker, items: seq<CostItem>, absX: real)
    requires items != [] && p.State() == Picks([], {})
    modifies p
    ensures p.State() == Slots(items, absX)
  {
    TakeBands(p, items, absX);
    var s4 := ChooseSlot4(Pool(items, p.used), absX);
    p.Take(s4);
    assert p.State() == AfterSlot4(items, absX);
    var s5 := ChooseSlot5(Pool(items, p.used), absX);
    p.Take(s5);
  }

  lemma MainPicksOf(items: seq<CostItem>, a: real, slots: Picks)
    requires items != [] && slots == Slots(items, a)
    ensures MainPicks(items, a) ==
      if |slots.picked| < MaxPicks then Fill(NearestFirst(Pool(items, slots.used), a), slots) else slots
  {
  }

  /** The main branch: the five slot takes, then the fill loop. */
  method PickMain(items: seq<CostItem>, absX: real) returns (picked: seq<CostItem>)
    requires items != []
    ensures picked == MainPicks(items, absX).picked
  {
    var p := new Picker();
    TakeSlots(p, items, absX);
    ghost var slots := p.State();
    if |p.picked| < MaxPicks {
      var remaining := NearestFirst(Pool(items, p.used), absX);
      FillUp(p, remaining);
      assert p.State() == Fill(NearestFirst(Pool(items, slots.used), absX), slots);
    }
    MainPicksOf(items, absX, slots);
    picked := p.picked;
  }

  /** `costs.filter(c => c.usd > 0)`, then the predicate, then the sort by (price, label). */
  method SortEligible(costs: seq<CostItem>, pred: Option<CostItem -> bool>) returns (items: seq<CostItem>)
    ensures items == SortedEligible(costs, pred)
  {
    items := Filter(costs, Priced);
    if pred.Some? {
      items := Filter(items, pred.value);
    }
    assert items == Eligible(costs, pred);
    items := CheapestFirst(items);
  }

  /** `selectSmartContextItems`, step by step. */
  method SelectSmartContextItems(costs: seq<CostItem>, x: real, pred: Option<CostItem -> bool>)
    returns (r: seq<CostItem>)
    ensures r == SmartSelection(costs, x, pred)
  {
    var items := SortEligible(costs, pred);
    if |items| == 0 {
      return [];
    }
    var absX := Abs(x);
    if absX >= items[|items| - 1].usd {
      OverrideBranch(costs, x, pred);
      return DearestFirst(items);
    }
    var picked := PickMain(items, absX);
    r := CheapestFirst(picked);
    MainBranch(costs, x, pred);
  }

  // ---------------------------------------------------------------------
  // Distinct ids and counting
  // ---------------------------------------------------------------------

  /** Dropping the head keeps ids distinct. */
  lemma DistinctTail(s: seq<CostItem>)
    requires s != [] && DistinctIds(s)
    ensures DistinctIds(s[1..])
  {
    var t := s[1..];
    forall i, j | 0 <= i < j < |t| ensures t[i].id != t[j].id {
      assert t[i] == s[i + 1] && t[j] == s[j + 1];
    }
  }

  /** A head whose id is new keeps ids distinct, and only such a head does. */
  lemma DistinctCons(x: CostItem, t: seq<CostItem>)
    ensures DistinctIds([x] + t) <==> DistinctIds(t) && x.id !in Ids(t)
  {
    var s := [x] + t;
    assert s[1..] == t;
    if DistinctIds(s) {
      DistinctTail(s);
      forall c | c in t ensures c.id != x.id {
        var k :| 0 <= k < |t| && t[k] == c;
        assert s[k + 1] == c && s[0] == x;
      }
    }
    if DistinctIds(t) && x.id !in Ids(t) {
      forall i, j | 0 <= i < j < |s| ensures s[i].id != s[j].id {
        assert s[j] == t[j - 1];
        if i == 0 {
          assert t[j - 1] in t;
        } else {
          assert s[i] == t[i - 1];
        }
      }
    }
  }

  /** A sequence has as many ids as elements exactly when its ids are distinct. */
  lemma {:induction false} IdsCard(s: seq<CostItem>)
    ensures |Ids(s)| <= |s|
    ensures |Ids(s)| == |s| <==> DistinctIds(s)
  {
    if s != [] {
      var x, t := s[0], s[1..];
      IdsCard(t);
      assert s == [x] + t;
      DistinctCons(x, t);
      IdsCons(x, t);
      assert |Ids(s)| == |Ids(t)| + (if x.id in Ids(t) then 0 else 1);
      assert DistinctIds(s) <==> DistinctIds(t) && x.id !in Ids(t);
    }
  }

  /** Adding an item adds its id, when it is new, to the id set. */
  lemma IdsCons(x: CostItem, t: seq<CostItem>)
    ensures |Ids([x] + t)| == |Ids(t)| + (if x.id in Ids(t) then 0 else 1)
  {
    assert ([x] + t)[1..] == t;
    var ids := Ids(t);
    assert Ids([x] + t) == {x.id} + ids;
    if x.id in ids {
      assert {x.id} + ids == ids;
    } else {
      assert ({x.id} + ids) - {x.id} == ids;
    }
  }

  /** Reordering keeps ids distinct. */
  lemma PermutationDistinct(s: seq<CostItem>, t: seq<CostItem>)
    requires multiset(s) == multiset(t) && DistinctIds(s)
    ensures DistinctIds(t)
  {
    IdsCard(s);
    IdsCard(t);
    assert |s| == |multiset(s)| == |multiset(t)| == |t|;
    forall id ensures id in Ids(s) <==> id in Ids(t) {
      if id in Ids(s) {
        var c :| c in s && c.id == id;
        assert c in multiset(t);
      }
      if id in Ids(t) {
        var c :| c in t && c.id == id;
        assert c in multiset(s);
      }
    }
    assert Ids(s) == Ids(t);
  }

  /** The pool of a sequence with distinct ids has distinct ids. */
  lemma {:induction false} PoolDistinct(items: seq<CostItem>, used: set<string>)
    requires DistinctIds(items)
    ensures DistinctIds(Pool(items, used))
  {
    if items != [] {
      var t := items[1..];
      DistinctTail(items);
      PoolDistinct(t, used);
      if items[0].id !in used {
        assert items == [items[0]] + t;
        DistinctCons(items[0], t);
        assert items[0].id !in Ids(Pool(t, used));
        DistinctCons(items[0], Pool(t, used));
      }
    }
  }

  /** The pool's ids are the item ids not yet used. */
  lemma PoolIds(items: seq<CostItem>, used: set<string>)
    ensures Ids(Pool(items, used)) == Ids(items) - used
  {
    forall id | id in Ids(items) - used ensures id in Ids(Pool(items, used)) {
      var c :| c in items && c.id == id;
      assert c in Pool(items, used);
    }
  }

  /** Picks drawn from `items` use only ids of `items`. */
  lemma UsedIdsWithin(items: seq<CostItem>, st: Picks)
    requires PicksFrom(items, st)
    ensures st.used <= Ids(items)
  {
    forall id | id in st.used ensures id in Ids(items) {
      var c :| c in st.picked && c.id == id;
      assert c in items;
    }
  }

  lemma CardDifference(a: set<string>, b: set<string>)
    requires b <= a
    ensures |a - b| == |a| - |b|
  {
    assert a == (a - b) + b;
    assert (a - b) * b == {};
  }

  /**
   * With distinct ids, the pool holds exactly the items not yet picked, so
   * picked and pool together account for every item once.
   */
  lemma PoolCount(items: seq<CostItem>, st: Picks)
    requires DistinctIds(items) && PicksFrom(items, st)
    ensures |Pool(items, st.used)| + |st.picked| == |items|
  {
    PoolDistinct(items, st.used);
    IdsCard(items);
    IdsCard(Pool(items, st.used));
    IdsCard(st.picked);
    PoolIds(items, st.used);
    UsedIdsWithin(items, st);
    CardDifference(Ids(items), st.used);
  }

  /**
   * Topping up from items with fresh, distinct ids adds one item per step
   * until five are picked or the items run out.
   */
  lemma {:induction false} FillCount(remaining: seq<CostItem>, st: Picks)
    requires WellFormed(st) && |st.picked| < MaxPicks && DistinctIds(remaining)
    requires forall c :: c in remaining ==> c.id !in st.used
    ensures |Fill(remaining, st).picked| == Min(MaxPicks, |st.picked| + |remaining|)
    decreases |remaining|
  {
    if remaining != [] {
      var next := AfterTake(st, Some(remaining[0]));
      if |next.picked| < MaxPicks {
        var t := remaining[1..];
        assert remaining == [remaining[0]] + t;
        DistinctCons(remaining[0], t);
        assert next.used == st.used + {remaining[0].id};
        FillCount(t, next);
      }
    }
  }

  /** The nearest-first pool has distinct ids, none of them used. */
  lemma RemainingFresh(items: seq<CostItem>, used: set<string>, a: real)
    requires DistinctIds(items)
    ensures DistinctIds(NearestFirst(Pool(items, used), a))
    ensures forall c :: c in NearestFirst(Pool(items, used), a) ==> c.id !in used
  {
    PoolDistinct(items, used);
    PermutationDistinct(Pool(items, used), NearestFirst(Pool(items, used), a));
  }

  /** Topping up a short selection from the whole pool reaches min(5, #items). */
  lemma FillFromPool(items: seq<CostItem>, st: Picks, a: real)
    requires DistinctIds(items) && PicksFrom(items, st) && |st.picked| < MaxPicks
    ensures |Fill(NearestFirst(Pool(items, st.used), a), st).picked| == Min(MaxPicks, |items|)
  {
    PoolCount(items, st);
    RemainingFresh(items, st.used, a);
    FillCount(NearestFirst(Pool(items, st.used), a), st);
  }

  /** Five slot picks are kept as they are, and the items number at least five. */
  lemma FullSlotsCount(items: seq<CostItem>, a: real)
    requires items != [] && DistinctIds(items) && |Slots(items, a).picked| == MaxPicks
    ensures |MainPicks(items, a).picked| == Min(MaxPicks, |items|)
  {
    var slots := Slots(items, a);
    MainPicksOf(items, a, slots);
    PoolCount(items, slots);
  }

  /** Fewer than five slot picks are topped up to min(5, #items). */
  lemma ShortSlotsCount(items: seq<CostItem>, a: real)
    requires items != [] && DistinctIds(items) && |Slots(items, a).picked| < MaxPicks
    ensures |MainPicks(items, a).picked| == Min(MaxPicks, |items|)
  {
    var slots := Slots(items, a);
    MainPicksOf(items, a, slots);
    FillFromPool(items, slots, a);
  }

  /** With distinct ids, the main branch picks min(5, #items) items. */
  lemma MainCount(items: seq<CostItem>, a: real)
    requires items != [] && DistinctIds(items)
    ensures |MainPicks(items, a).picked| == Min(MaxPicks, |items|)
  {
    if |Slots(items, a).picked| < MaxPicks {
      ShortSlotsCount(items, a);
    } else {
      FullSlotsCount(items, a);
    }
  }

  // ---------------------------------------------------------------------
  // Properties of the selection
  // ---------------------------------------------------------------------

  /**
   * Only eligible items are returned, at most five of them, and the result
   * is empty exactly when no item is eligible.
   */
  lemma SelectionBounds(costs: seq<CostItem>, x: real, pred: Option<CostItem -> bool>)
    ensures var r := SmartSelection(costs, x, pred);
      && |r| <= MaxPicks
      && (forall c :: c in r ==> c in costs && c.usd > 0.0 && (pred.Some? ==> pred.value(c)))
      && (r == [] <==> Eligible(costs, pred) == [])
  {
    var r := SmartSelection(costs, x, pred);
    forall c | c in r ensures c in Eligible(costs, pred) {
      SelectedIsEligible(costs, x, pred, c);
    }
    SelectionNonEmpty(costs, x, pred);
  }

  /** Every selected item is eligible. */
  lemma SelectedIsEligible(costs: seq<CostItem>, x: real, pred: Option<CostItem -> bool>, c: CostItem)
    requires c in SmartSelection(costs, x, pred)
    ensures c in SortedEligible(costs, pred)
  {
    var items := SortedEligible(costs, pred);
    if OverrideApplies(costs, x, pred) {
      OverrideBranch(costs, x, pred);
      DearestFromItems(items, c);
    } else {
      MainBranch(costs, x, pred);
      MainPickFromItems(items, Abs(x), c);
    }
  }

  lemma DearestFromItems(items: seq<CostItem>, c: CostItem)
    requires c in DearestFirst(items)
    ensures c in items
  {
    var r := DearestFirst(items);
    var i :| 0 <= i < |r| && r[i] == c;
    assert r[i] == items[|items| - 1 - i];
  }

  lemma MainPickFromItems(items: seq<CostItem>, a: real, c: CostItem)
    requires items != [] && c in CheapestFirst(MainPicks(items, a).picked)
    ensures c in items
  {
    assert c in MainPicks(items, a).picked;
  }

  /** Something is selected exactly when something is eligible. */
  lemma SelectionNonEmpty(costs: seq<CostItem>, x: real, pred: Option<CostItem -> bool>)
    ensures SmartSelection(costs, x, pred) == [] <==> SortedEligible(costs, pred) == []
  {
    var items := SortedEligible(costs, pred);
    if items == [] {
      assert SmartSelection(costs, x, pred) == [];
    } else if OverrideApplies(costs, x, pred) {
      OverrideBranch(costs, x, pred);
      assert |DearestFirst(items)| >= 1;
    } else {
      MainBranch(costs, x, pred);
      assert |CheapestFirst(MainPicks(items, Abs(x)).picked)| >= 1;
    }
  }

  /** The override branch is taken exactly when |x| reaches every eligible price. */
  lemma OverrideCondition(costs: seq<CostItem>, x: real, pred: Option<CostItem -> bool>)
    ensures OverrideApplies(costs, x, pred) <==>
      Eligible(costs, pred) != [] && forall c :: c in Eligible(costs, pred) ==> c.usd <= Abs(x)
  {
    var items := SortedEligible(costs, pred);
    if items != [] {
      var last := items[|items| - 1];
      forall c | c in items ensures c.usd <= last.usd {
        var j :| 0 <= j < |items| && items[j] == c;
        if j < |items| - 1 {
          assert KeyLeq(ByPrice(items[j]), ByPrice(last));
        }
      }
    }
  }

  /**
   * In the override branch the result is the most expensive min(5, n)
   * eligible items, dearest first: every eligible item left out comes no
   * later in (price, label) order than the last one returned.
   */
  lemma OverrideResult(costs: seq<CostItem>, x: real, pred: Option<CostItem -> bool>)
    requires OverrideApplies(costs, x, pred)
    ensures var r := SmartSelection(costs, x, pred);
      && |r| == Min(MaxPicks, |Eligible(costs, pred)|)
      && (forall i, j :: 0 <= i < j < |r| ==> KeyLeq(ByPrice(r[j]), ByPrice(r[i])))
      && (forall c :: c in Eligible(costs, pred) ==> c in r || KeyLeq(ByPrice(c), ByPrice(r[|r| - 1])))
  {
    DearestFirstShape(SortedEligible(costs, pred));
  }

  /** Of a price-sorted sequence, `DearestFirst` keeps the tail, dearest first. */
  lemma DearestFirstShape(items: seq<CostItem>)
    requires items != [] && SortedBy(items, ByPrice)
    ensures var r := DearestFirst(items);
      && (forall i, j :: 0 <= i < j < |r| ==> KeyLeq(ByPrice(r[j]), ByPrice(r[i])))
      && (forall c :: c in items ==> c in r || KeyLeq(ByPrice(c), ByPrice(r[|r| - 1])))
  {
    SortedReverseTailDescending(items, ByPrice, MaxPicks);
    forall c | c in items ensures c in DearestFirst(items) || KeyLeq(ByPrice(c), ByPrice(DearestFirst(items)[|DearestFirst(items)| - 1])) {
      var k :| 0 <= k < |items| && items[k] == c;
      SortedTailCovers(items, ByPrice, MaxPicks, k);
    }
  }

  /** Only |x| matters: a loss selects the same items as the equal gain. */
  lemma SignIndependent(costs: seq<CostItem>, x: real, pred: Option<CostItem -> bool>)
    ensures SmartSelection(costs, -x, pred) == SmartSelection(costs, x, pred)
  {
    assert Abs(-x) == Abs(x);
  }

  /**
   * In the main branch the result is sorted by (price, label), repeats no
   * id, and starts with an item of the lowest eligible price.
   */
  lemma MainBranchOrder(costs: seq<CostItem>, x: real, pred: Option<CostItem -> bool>)
    requires Eligible(costs, pred) != [] && !OverrideApplies(costs, x, pred)
    ensures var r := SmartSelection(costs, x, pred);
      && r != []
      && SortedBy(r, ByPrice)
      && DistinctIds(r)
      && r[0] in Eligible(costs, pred)
      && forall c :: c in Eligible(costs, pred) ==> r[0].usd <= c.usd
  {
    var items := SortedEligible(costs, pred);
    MainBranch(costs, x, pred);
    var picked := MainPicks(items, Abs(x)).picked;
    FirstPickKept(items, Abs(x));
    CheapestFirstOrder(items, picked);
    forall c | c in Eligible(costs, pred) ensures items[0].usd <= c.usd {
      SortedHeadLeast(items, c);
    }
  }

  /** The cheapest item is picked first and stays first. */
  lemma FirstPickKept(items: seq<CostItem>, a: real)
    requires items != []
    ensures MainPicks(items, a).picked[0] == items[0]
  {
    assert AfterSlot1(items).picked <= AfterSlot2(items, a).picked;
    assert AfterSlot2(items, a).picked <= AfterSlot3(items, a).picked;
    assert AfterSlot3(items, a).picked <= Slots(items, a).picked;
    assert Slots(items, a).picked <= MainPicks(items, a).picked;
  }

  /** In a list sorted by price, the head is priced lowest. */
  lemma SortedHeadLeast(items: seq<CostItem>, c: CostItem)
    requires SortedBy(items, ByPrice) && c in items
    ensures items[0].usd <= c.usd
  {
    var k :| 0 <= k < |items| && items[k] == c;
    if k > 0 {
      assert KeyLeq(ByPrice(items[0]), ByPrice(items[k]));
    }
  }

  /**
   * Re-sorting picks drawn from `items` that include its head: the result is
   * sorted, repeats no id, and starts at or below the head's price.
   */
  lemma CheapestFirstOrder(items: seq<CostItem>, picked: seq<CostItem>)
    requires items != [] && picked != [] && picked[0] == items[0]
    requires forall c :: c in picked ==> c in items
    requires DistinctIds(picked)
    ensures var r := CheapestFirst(picked);
      && r != [] && SortedBy(r, ByPrice) && DistinctIds(r)
      && r[0] in items && r[0].usd <= items[0].usd
  {
    var r := CheapestFirst(picked);
    PermutationDistinct(picked, r);
    assert items[0] in r;
    var j :| 0 <= j < |r| && r[j] == items[0];
    if j > 0 {
      assert KeyLeq(ByPrice(r[0]), ByPrice(r[j]));
    }
  }

  /**
   * When the eligible items have distinct ids, the selection has exactly
   * min(5, n) items, n being the number of eligible items.
   */
  lemma SelectionCount(costs: seq<CostItem>, x: real, pred: Option<CostItem -> bool>)
    requires DistinctIds(Eligible(costs, pred))
    ensures |SmartSelection(costs, x, pred)| == Min(MaxPicks, |Eligible(costs, pred)|)
  {
    var items := SortedEligible(costs, pred);
    if items != [] && !OverrideApplies(costs, x, pred) {
      PermutationDistinct(Eligible(costs, pred), items);
      MainBranch(costs, x, pred);
      MainCount(items, Abs(x));
    }
  }

  /** Later takes and the fill only append: the second pick stays second. */
  lemma Slot2Kept(items: seq<CostItem>, a: real)
    requires items != [] && |AfterSlot2(items, a).picked| == 2
    ensures |MainPicks(items, a).picked| >= 2
    ensures MainPicks(items, a).picked[1] == AfterSlot2(items, a).picked[1]
  {
    assert AfterSlot2(items, a).picked <= AfterSlot3(items, a).picked;
    assert AfterSlot3(items, a).picked <= Slots(items, a).picked;
    assert Slots(items, a).picked <= MainPicks(items, a).picked;
  }

  /** Later takes and the fill only append: the third pick stays third. */
  lemma Slot3Kept(items: seq<CostItem>, a: real)
    requires items != [] && |AfterSlot3(items, a).picked| == 3
    ensures |MainPicks(items, a).picked| >= 3
    ensures MainPicks(items, a).picked[2] == AfterSlot3(items, a).picked[2]
  {
    assert AfterSlot3(items, a).picked <= Slots(items, a).picked;
    assert Slots(items, a).picked <= MainPicks(items, a).picked;
  }

  /** The slot-2 take, when some other item lies in [0.1a, 0.5a]. */
  lemma Slot2Rule(items: seq<CostItem>, a: real, c: CostItem)
    requires items != []
    requires c in items && c.id != items[0].id && 0.1 * a <= c.usd <= 0.5 * a
    ensures var p := AfterSlot2(items, a).picked;
      && |p| == 2 && p[1] in items && p[1].id != items[0].id
      && 0.1 * a <= p[1].usd <= 0.5 * a
      && forall d :: d in items && d.id != items[0].id && 0.1 * a <= d.usd <= 0.5 * a ==>
           KeyLeq(ByDistance(0.3 * a, p[1]), ByDistance(0.3 * a, d))
  {
    BandTake(items, AfterSlot1(items), 0.1 * a, 0.5 * a, 0.3 * a, c);
  }

  /**
   * Slot 2: when some item other than the cheapest lies in [0.1a, 0.5a],
   * the second pick is the one of them closest to 0.3a.
   */
  lemma SecondPick(items: seq<CostItem>, a: real)
    requires items != []
    requires exists c :: c in items && c.id != items[0].id && 0.1 * a <= c.usd <= 0.5 * a
    ensures var p := MainPicks(items, a).picked;
      && |p| >= 2 && p[1] in items && p[1].id != items[0].id
      && 0.1 * a <= p[1].usd <= 0.5 * a
      && forall c :: c in items && c.id != items[0].id && 0.1 * a <= c.usd <= 0.5 * a ==>
           KeyLeq(ByDistance(0.3 * a, p[1]), ByDistance(0.3 * a, c))
  {
    var c :| c in items && c.id != items[0].id && 0.1 * a <= c.usd <= 0.5 * a;
    Slot2Rule(items, a, c);
    Slot2Kept(items, a);
  }

  /**
   * A band take: when an unused item lies in [lo, hi], the take appends the
   * unused item of that band closest to the target.
   */
  lemma BandTake(items: seq<CostItem>, st: Picks, lo: real, hi: real, target: real, c: CostItem)
    requires c in items && c.id !in st.used && lo <= c.usd <= hi
    ensures var r := AfterTake(st, PickClosestInRange(Pool(items, st.used), lo, hi, target));
      var n := |st.picked|;
      && |r.picked| == n + 1 && r.picked[n] in items && r.picked[n].id !in st.used
      && lo <= r.picked[n].usd <= hi
      && forall d :: d in items && d.id !in st.used && lo <= d.usd <= hi ==>
           KeyLeq(ByDistance(target, r.picked[n]), ByDistance(target, d))
  {
    assert c in Pool(items, st.used);
  }

  /** With two picks, the used ids are exactly theirs. */
  lemma TwoUsed(st: Picks, id: string)
    requires WellFormed(st) && |st.picked| == 2
    ensures id in st.used <==> id == st.picked[0].id || id == st.picked[1].id
  {
    if id in st.used {
      var x :| x in st.picked && x.id == id;
    }
    assert st.picked[0] in st.picked && st.picked[1] in st.picked;
  }

  /** The slot-3 take, after a slot-2 pick, when an unused item lies in [0.5a, 1.5a]. */
  lemma Slot3Rule(items: seq<CostItem>, a: real, c: CostItem)
    requires items != [] && |AfterSlot2(items, a).picked| == 2
    requires var p := AfterSlot2(items, a).picked;
      c in items && c.id != p[0].id && c.id != p[1].id && 0.5 * a <= c.usd <= 1.5 * a
    ensures var p := AfterSlot3(items, a).picked;
      && |p| == 3 && p[2] in items && p[2].id != p[0].id && p[2].id != p[1].id
      && 0.5 * a <= p[2].usd <= 1.5 * a
      && forall d :: d in items && d.id != p[0].id && d.id != p[1].id && 0.5 * a <= d.usd <= 1.5 * a ==>
           KeyLeq(ByDistance(a, p[2]), ByDistance(a, d))
  {
    var p2 := AfterSlot2(items, a);
    TwoUsed(p2, c.id);
    BandTake(items, p2, 0.5 * a, 1.5 * a, a, c);
    var p := AfterSlot3(items, a).picked;
    assert p[..2] == p2.picked;
    TwoUsed(p2, p[2].id);
    forall d | d in items && d.id != p[0].id && d.id != p[1].id && 0.5 * a <= d.usd <= 1.5 * a
      ensures KeyLeq(ByDistance(a, p[2]), ByDistance(a, d))
    {
      TwoUsed(p2, d.id);
    }
  }

  /**
   * Slot 3: after a slot-2 pick, if some item with neither picked id lies in
   * [0.5a, 1.5a], the third pick is the one of them closest to a.
   */
  lemma ThirdPick(items: seq<CostItem>, a: real)
    requires items != []
    requires exists c :: c in items && c.id != items[0].id && 0.1 * a <= c.usd <= 0.5 * a
    ensures var p := MainPicks(items, a).picked;
      |p| >= 2 &&
      ((exists c :: c in items && c.id != p[0].id && c.id != p[1].id && 0.5 * a <= c.usd <= 1.5 * a) ==>
        && |p| >= 3 && p[2] in items && p[2].id != p[0].id && p[2].id != p[1].id
        && 0.5 * a <= p[2].usd <= 1.5 * a
        && forall c :: c in items && c.id != p[0].id && c.id != p[1].id && 0.5 * a <= c.usd <= 1.5 * a ==>
             KeyLeq(ByDistance(a, p[2]), ByDistance(a, c)))
  {
    var c2 :| c2 in items && c2.id != items[0].id && 0.1 * a <= c2.usd <= 0.5 * a;
    Slot2Rule(items, a, c2);
    Slot2Kept(items, a);
    var p := MainPicks(items, a).picked;
    if exists c :: c in items && c.id != p[0].id && c.id != p[1].id && 0.5 * a <= c.usd <= 1.5 * a {
      var c :| c in items && c.id != p[0].id && c.id != p[1].id && 0.5 * a <= c.usd <= 1.5 * a;
      Slot3Rule(items, a, c);
      Slot3Kept(items, a);
    }
  }
}
