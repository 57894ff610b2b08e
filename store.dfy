/**
 * The order engine's store: the ingredient catalog, orders with their plates,
 * the active-order pointer, the per-ingredient cooking-method selections, the
 * tip jar and the last scoring outcome, with one method per store action.
 */
module OrderStore {
  import opened Cooking
  import opened Scoring

  datatype Option<T> = None | Some(value: T)

  /** A catalog entry (its display name plays no part in any computation). */
  datatype Ingredient = Ingredient(id: string, base: Nutrition)

  /** One ingredient on a plate, with its nutrition under the method it was cooked by. */
  datatype PlateEntry = PlateEntry(ingredient: Ingredient, cooked: Nutrition)

  /** A customer; only the identifier and the goal matter to the engine. */
  datatype Customer = Customer(id: string, goal: map<Field, real>)

  datatype Order = Order(id: string, customer: Customer, plate: seq<PlateEntry>,
                         fulfilled: bool, plateNutrition: Nutrition)

  datatype Outcome = Success | Fail

  /** The fixed, read-only ingredient catalog. */
  const Catalog: seq<Ingredient> := [
    Ingredient("chicken", Nutrition(25.0, 0.0, 3.0, 0.0, 2.0)),
    Ingredient("rice", Nutrition(2.0, 28.0, 0.0, 0.0, 1.0)),
    Ingredient("carrot", Nutrition(1.0, 6.0, 0.0, 3.0, 8.0)),
    Ingredient("sugar", Nutrition(0.0, 0.0, 0.0, 10.0, 0.0))
  ]

  /** Catalog identifiers are distinct and every base record is non-negative. */
  lemma CatalogWellFormed()
    ensures forall i, j :: 0 <= i < j < |Catalog| ==> Catalog[i].id != Catalog[j].id
    ensures forall i :: 0 <= i < |Catalog| ==> NonNegative(Catalog[i].base)
  {
  }

  /** The first catalog entry with the given identifier (`ingredients.find`). */
  function FindIngredient(catalog: seq<Ingredient>, id: string): (r: Option<Ingredient>)
    ensures r.Some? ==> r.value in catalog && r.value.id == id
    ensures r.None? <==> forall i :: 0 <= i < |catalog| ==> catalog[i].id != id
  {
    if catalog == [] then None
    else if catalog[0].id == id then Some(catalog[0])
    else FindIngredient(catalog[1..], id)
  }

  // ---------------------------------------------------------------------------
  // Plates

  /**
   * The plate's nutrition total: the fold, from the left, of the elementwise
   * sum over the entries' cooked nutrition, starting from all zeros.
   */
  function PlateSum(plate: seq<PlateEntry>): Nutrition
  {
    if plate == [] then Zero
    else Add(PlateSum(plate[..|plate| - 1]), plate[|plate| - 1].cooked)
  }

  /** One field's total over a plate, summed from the front: the per-field reading of the plate total. */
  function FieldTotal(plate: seq<PlateEntry>, f: Field): real
  {
    if plate == [] then 0.0 else plate[0].cooked.Get(f) + FieldTotal(plate[1..], f)
  }

  /** Appending an entry adds its value to a field's total. */
  lemma {:induction false} FieldTotalSnoc(plate: seq<PlateEntry>, e: PlateEntry, f: Field)
    ensures FieldTotal(plate + [e], f) == FieldTotal(plate, f) + e.cooked.Get(f)
    decreases |plate|
  {
    if plate != [] {
      assert (plate + [e])[1..] == plate[1..] + [e];
      FieldTotalSnoc(plate[1..], e, f);
    }
  }

  /**
   * The plate total is elementwise: each field of the accumulated record is
   * the sum of that field over the plate's entries.
   */
  lemma {:induction false} PlateSumIsFieldTotal(plate: seq<PlateEntry>, f: Field)
    ensures PlateSum(plate).Get(f) == FieldTotal(plate, f)
    decreases |plate|
  {
    if plate != [] {
      var front := plate[..|plate| - 1];
      PlateSumIsFieldTotal(front, f);
      assert front + [plate[|plate| - 1]] == plate;
      FieldTotalSnoc(front, plate[|plate| - 1], f);
    }
  }

  /** The total of two plates laid end to end is the sum of their totals. */
  lemma {:induction false} PlateSumConcat(p: seq<PlateEntry>, q: seq<PlateEntry>)
    ensures PlateSum(p + q) == Add(PlateSum(p), PlateSum(q))
    decreases |q|
  {
    if q == [] {
      assert p + q == p;
    } else {
      var front := q[..|q| - 1];
      assert (p + q)[..|p + q| - 1] == p + front;
      PlateSumConcat(p, front);
    }
  }

  /** A plate of non-negative entries has a non-negative total. */
  lemma {:induction false} PlateSumNonNegative(plate: seq<PlateEntry>)
    requires forall e :: e in plate ==> NonNegative(e.cooked)
    ensures NonNegative(PlateSum(plate))
    decreases |plate|
  {
    if plate != [] {
      var front := plate[..|plate| - 1];
      assert forall e :: e in front ==> e in plate;
      PlateSumNonNegative(front);
    }
  }

  /** The plate-sum `reduce`: an accumulator updated in place, entry by entry. */
  method SumPlate(plate: seq<PlateEntry>) returns (acc: Nutrition)
    ensures acc == PlateSum(plate)
  {
    acc := Zero;
    for i := 0 to |plate|
      invariant acc == PlateSum(plate[..i])
    {
      assert plate[..i + 1][..i] == plate[..i];
      acc := Add(acc, plate[i].cooked);
    }
    assert plate[..|plate|] == plate;
  }

  /**
   * `plate.filter((_, i) => i !== idx)`: drop the entry at position `idx`;
   * an index outside the plate drops nothing.
   */
  function Without<T>(s: seq<T>, idx: int): (r: seq<T>)
    ensures 0 <= idx < |s| ==> |r| == |s| - 1
    ensures 0 <= idx < |s| ==> forall j :: 0 <= j < |r| ==> r[j] == s[if j < idx then j else j + 1]
    ensures !(0 <= idx < |s|) ==> r == s
  {
    if 0 <= idx < |s| then s[..idx] + s[idx + 1..] else s
  }

  /** Adding `c` before or after `b` gives the same record. */
  lemma AddSwap(a: Nutrition, b: Nutrition, c: Nutrition)
    ensures Add(Add(a, b), c) == Add(Add(a, c), b)
  {
  }

  /** Splitting a plate at any position splits its total. */
  lemma PlateSumSplit(plate: seq<PlateEntry>, k: nat)
    requires k <= |plate|
    ensures PlateSum(plate) == Add(PlateSum(plate[..k]), PlateSum(plate[k..]))
  {
    assert plate[..k] + plate[k..] == plate;
    PlateSumConcat(plate[..k], plate[k..]);
  }

  /** Dropping an entry lowers the plate total by exactly that entry's nutrition. */
  lemma PlateSumWithout(plate: seq<PlateEntry>, idx: int)
    requires 0 <= idx < |plate|
    ensures Add(PlateSum(Without(plate, idx)), plate[idx].cooked) == PlateSum(plate)
  {
    var before, after := plate[..idx], plate[idx + 1..];
    PlateSumSplit(plate, idx + 1);
    assert plate[..idx + 1][..idx] == before;
    PlateSumConcat(before, after);
    AddSwap(PlateSum(before), PlateSum(after), plate[idx].cooked);
  }

  // ---------------------------------------------------------------------------
  // Orders

  /** The order the active pointer designates (`order.id === activeOrderId`). */
  predicate IsActive(o: Order, active: Option<string>)
  {
    active == Some(o.id)
  }

  /** An order whose plate total matches its plate and whose goal a caller could produce. */
  ghost predicate WellFormed(o: Order)
  {
    && o.id == o.customer.id
    && o.plateNutrition == PlateSum(o.plate)
    && TargetsPositive(o.customer.goal)
    && forall e :: e in o.plate ==> NonNegative(e.cooked)
  }

  /** The order with one more entry at the end of its plate, its total recomputed. */
  function WithEntry(o: Order, e: PlateEntry): (r: Order)
    ensures r.plate == o.plate + [e] && r.plateNutrition == PlateSum(r.plate)
    ensures r.id == o.id && r.customer == o.customer && r.fulfilled == o.fulfilled
  {
    var plate := o.plate + [e];
    o.(plate := plate, plateNutrition := PlateSum(plate))
  }

  /** Appending an entry raises a consistent total by exactly that entry's nutrition. */
  lemma WithEntryTotal(o: Order, e: PlateEntry)
    requires o.plateNutrition == PlateSum(o.plate)
    ensures WithEntry(o, e).plateNutrition == Add(o.plateNutrition, e.cooked)
  {
  }

  /** Appending a non-negative entry keeps an order well formed. */
  lemma WithEntryWellFormed(o: Order, e: PlateEntry)
    requires WellFormed(o) && NonNegative(e.cooked)
    ensures WellFormed(WithEntry(o, e))
  {
  }

  /** The order with the entry at `idx` dropped, its total recomputed. */
  function WithoutEntry(o: Order, idx: int): (r: Order)
    ensures r.plate == Without(o.plate, idx) && r.plateNutrition == PlateSum(r.plate)
    ensures r.id == o.id && r.customer == o.customer && r.fulfilled == o.fulfilled
  {
    var plate := Without(o.plate, idx);
    o.(plate := plate, plateNutrition := PlateSum(plate))
  }

  /**
   * Removing by a valid index lowers a consistent total by exactly that
   * entry's nutrition; any other index leaves a consistent order as it was.
   */
  lemma WithoutEntryTotal(o: Order, idx: int)
    requires o.plateNutrition == PlateSum(o.plate)
    ensures 0 <= idx < |o.plate| ==> Add(WithoutEntry(o, idx).plateNutrition, o.plate[idx].cooked) == o.plateNutrition
    ensures !(0 <= idx < |o.plate|) ==> WithoutEntry(o, idx) == o
  {
    if 0 <= idx < |o.plate| {
      PlateSumWithout(o.plate, idx);
    }
  }

  /** Dropping an entry keeps an order well formed. */
  lemma WithoutEntryWellFormed(o: Order, idx: int)
    requires WellFormed(o)
    ensures WellFormed(WithoutEntry(o, idx))
  {
  }

  /**
   * `orders.filter((o) => o.id !== id)`: exactly the orders with another
   * identifier, in their original relative order.
   */
  function WithoutId(orders: seq<Order>, id: string): (r: seq<Order>)
    ensures |r| <= |orders|
    ensures forall o :: o in r <==> o in orders && o.id != id
    ensures (forall o :: o in orders ==> o.id != id) ==> r == orders
  {
    if orders == [] then []
    else
      assert forall o :: o in orders <==> o == orders[0] || o in orders[1..];
      if orders[0].id == id then WithoutId(orders[1..], id)
      else [orders[0]] + WithoutId(orders[1..], id)
  }

  /** Filtering distributes over concatenation, so relative order is kept. */
  lemma {:induction false} WithoutIdConcat(a: seq<Order>, b: seq<Order>, id: string)
    ensures WithoutId(a + b, id) == WithoutId(a, id) + WithoutId(b, id)
    decreases |a|
  {
    if a == [] {
      assert a + b == b;
    } else {
      assert (a + b)[1..] == a[1..] + b;
      WithoutIdConcat(a[1..], b, id);
    }
  }

  /**
   * The first order left after removing `id` is the first order, in list
   * order, whose identifier is not `id`.
   */
  lemma {:induction false} WithoutIdFirst(orders: seq<Order>, id: string, k: nat)
    requires k < |orders| && orders[k].id != id
    requires forall j :: 0 <= j < k ==> orders[j].id == id
    ensures WithoutId(orders, id) != [] && WithoutId(orders, id)[0] == orders[k]
    decreases k
  {
    if k > 0 {
      WithoutIdFirst(orders[1..], id, k - 1);
    }
  }

  /** The index of the first order the active pointer designates (`orders.find`). */
  function FindActive(orders: seq<Order>, active: Option<string>): (k: Option<nat>)
    ensures k.Some? ==> k.value < |orders| && IsActive(orders[k.value], active)
    ensures k.Some? ==> forall j :: 0 <= j < k.value ==> !IsActive(orders[j], active)
    ensures k.None? <==> forall j :: 0 <= j < |orders| ==> !IsActive(orders[j], active)
  {
    if orders == [] then None
    else if IsActive(orders[0], active) then Some(0)
    else
      match FindActive(orders[1..], active)
      case None => None
      case Some(k) => Some(k + 1)
  }

  /** The tip an order earns with its current plate. */
  function OrderTip(o: Order): (tip: int)
    requires TargetsPositive(o.customer.goal)
    ensures tip == 0 || 10 <= tip <= 25
  {
    Tip(o.customer.goal, o.plateNutrition.ToMap())
  }

  /**
   * The last scoring outcome: nothing recorded, or a tip that is 0 or from 10
   * to 25 with `Success` exactly when the tip is positive.
   */
  predicate ResultRecorded(lastTip: Option<int>, lastResult: Option<Outcome>)
  {
    || (lastTip.None? && lastResult.None?)
    || (&& lastTip.Some? && lastResult.Some?
        && (lastTip.value == 0 || 10 <= lastTip.value <= 25)
        && (lastResult.value == Success <==> lastTip.value > 0))
  }

  /**
   * The `orders.map` of `handleAddToPlate`: every order the active pointer
   * designates gets the entry appended and its total recomputed by the
   * plate-sum loop; every other order is passed through.
   */
  method AppendToActive(current: seq<Order>, active: Option<string>, entry: PlateEntry)
    returns (updated: seq<Order>)
    ensures |updated| == |current|
    ensures forall j :: 0 <= j < |current| ==>
              updated[j] == if IsActive(current[j], active) then WithEntry(current[j], entry) else current[j]
  {
    updated := [];
    for i := 0 to |current|
      invariant |updated| == i
      invariant forall j :: 0 <= j < i ==>
                  updated[j] == if IsActive(current[j], active) then WithEntry(current[j], entry) else current[j]
    {
      var order := current[i];
      if Some(order.id) == active {
        var plate := order.plate + [entry];
        var total := SumPlate(plate);
        order := order.(plate := plate, plateNutrition := total);
      }
      updated := updated + [order];
    }
  }

  /**
   * The `orders.map` of `removeFromPlate`: every order the active pointer
   * designates loses the entry at `idx` and has its total recomputed by the
   * plate-sum loop; every other order is passed through.
   */
  method DropFromActive(current: seq<Order>, active: Option<string>, idx: int)
    returns (updated: seq<Order>)
    ensures |updated| == |current|
    ensures forall j :: 0 <= j < |current| ==>
              updated[j] == if IsActive(current[j], active) then WithoutEntry(current[j], idx) else current[j]
  {
    updated := [];
    for i := 0 to |current|
      invariant |updated| == i
      invariant forall j :: 0 <= j < i ==>
                  updated[j] == if IsActive(current[j], active) then WithoutEntry(current[j], idx) else current[j]
    {
      var order := current[i];
      if Some(order.id) == active {
        var plate := Without(order.plate, idx);
        var total := SumPlate(plate);
        order := order.(plate := plate, plateNutrition := total);
      }
      updated := updated + [order];
    }
  }

  /** The `orders.map` of `finishOrder`: designated orders become fulfilled, nothing else changes. */
  function MarkFulfilled(current: seq<Order>, active: Option<string>): (updated: seq<Order>)
    ensures |updated| == |current|
    ensures forall j :: 0 <= j < |current| ==> updated[j].fulfilled == (current[j].fulfilled || IsActive(current[j], active))
    ensures forall j :: 0 <= j < |current| ==> updated[j].(fulfilled := current[j].fulfilled) == current[j]
  {
    seq(|current|, i requires 0 <= i < |current| =>
          if IsActive(current[i], active) then current[i].(fulfilled := true) else current[i])
  }

  // ---------------------------------------------------------------------------
  // The store

  class Store {
    var orders: seq<Order>
    var activeOrderId: Option<string>
    var methods: map<string, string>
    var tipJar: int
    var lastTip: Option<int>
    var lastResult: Option<Outcome>

    /** The store invariant: consistent plate totals, a non-negative jar, a coherent last result. */
    ghost predicate Valid()
      reads this
    {
      && tipJar >= 0
      && (forall i :: 0 <= i < |orders| ==> WellFormed(orders[i]))
      && ResultRecorded(lastTip, lastResult)
    }

    /** The active pointer is unset or names an order in the list. */
    ghost predicate ActiveIsListed()
      reads this
    {
      activeOrderId.Some? ==> exists o :: o in orders && o.id == activeOrderId.value
    }

    constructor ()
      ensures Valid()
      ensures orders == [] && activeOrderId == None && methods == map[]
      ensures tipJar == 0 && lastTip == None && lastResult == None
    {
      orders := [];
      activeOrderId := None;
      methods := map[];
      tipJar := 0;
      lastTip := None;
      lastResult := None;
    }

    /** Point at an order; the identifier is not checked against the list. */
    method SetActiveOrderId(id: string)
      requires Valid()
      modifies this
      ensures Valid()
      ensures activeOrderId == Some(id)
      ensures orders == old(orders) && methods == old(methods) && tipJar == old(tipJar)
      ensures lastTip == old(lastTip) && lastResult == old(lastResult)
    {
      activeOrderId := Some(id);
    }

    /**
     * Append a fresh order for the customer (empty plate, not fulfilled, zero
     * total), make it active and clear the method selections.
     */
    method AddOrder(customer: Customer)
      requires Valid()
      requires TargetsPositive(customer.goal)
      modifies this
      ensures Valid() && ActiveIsListed()
      ensures orders == old(orders) + [Order(customer.id, customer, [], false, Zero)]
      ensures activeOrderId == Some(customer.id) && methods == map[]
      ensures tipJar == old(tipJar) && lastTip == old(lastTip) && lastResult == old(lastResult)
    {
      var order := Order(customer.id, customer, [], false, Zero);
      orders := orders + [order];
      activeOrderId := Some(customer.id);
      methods := map[];
      assert orders[|orders| - 1] == order;
    }

    /**
     * Drop every order with the identifier.  If it was the active one, the
     * first remaining order becomes active, or none if no order is left.
     */
    method RemoveOrder(id: string)
      requires Valid()
      modifies this
      ensures Valid()
      ensures orders == WithoutId(old(orders), id)
      ensures old(activeOrderId) == Some(id) ==>
                activeOrderId == if orders == [] then None else Some(orders[0].id)
      ensures old(activeOrderId) != Some(id) ==> activeOrderId == old(activeOrderId)
      ensures old(ActiveIsListed()) ==> ActiveIsListed()
      ensures methods == old(methods) && tipJar == old(tipJar)
      ensures lastTip == old(lastTip) && lastResult == old(lastResult)
    {
      var current := orders;
      var filtered := WithoutId(current, id);
      if activeOrderId == Some(id) {
        activeOrderId := if |filtered| > 0 then Some(filtered[0].id) else None;
        if |filtered| > 0 {
          assert filtered[0] in filtered;
        }
      } else if activeOrderId.Some? && old(ActiveIsListed()) {
        var o :| o in current && o.id == activeOrderId.value;
        assert o in filtered;
      }
      orders := filtered;
      forall i | 0 <= i < |orders|
        ensures WellFormed(orders[i])
      {
        assert orders[i] in current;
        var j :| 0 <= j < |current| && current[j] == orders[i];
      }
    }

    /**
     * Cook the catalog ingredient by the method and append it to the plate of
     * every order the active pointer designates, recomputing each such
     * plate's total; other orders are untouched.
     */
    method HandleAddToPlate(ingredientId: string, how: string)
      requires Valid()
      requires FindIngredient(Catalog, ingredientId).Some?
      modifies this
      ensures Valid()
      ensures |orders| == |old(orders)|
      ensures forall i :: 0 <= i < |orders| ==> (old(orders)[i].fulfilled ==> orders[i].fulfilled)
      ensures forall i :: 0 <= i < |orders| ==>
                orders[i] == if IsActive(old(orders)[i], activeOrderId)
                             then WithEntry(old(orders)[i], Prepared(ingredientId, how))
                             else old(orders)[i]
      ensures activeOrderId == old(activeOrderId) && methods == old(methods) && tipJar == old(tipJar)
      ensures lastTip == old(lastTip) && lastResult == old(lastResult)
    {
      var entry := Prepared(ingredientId, how);
      var current := orders;
      orders := AppendToActive(current, activeOrderId, entry);
      forall i | 0 <= i < |orders|
        ensures WellFormed(orders[i])
      {
        assert WellFormed(current[i]);
        if IsActive(current[i], activeOrderId) {
          WithEntryWellFormed(current[i], entry);
        }
      }
    }

    /**
     * Drop the entry at `idx` from the plate of every order the active
     * pointer designates, recomputing each such plate's total; an index
     * outside the plate drops nothing.
     */
    method RemoveFromPlate(idx: int)
      requires Valid()
      modifies this
      ensures Valid()
      ensures |orders| == |old(orders)|
      ensures forall i :: 0 <= i < |orders| ==> (old(orders)[i].fulfilled ==> orders[i].fulfilled)
      ensures forall i :: 0 <= i < |orders| ==>
                orders[i] == if IsActive(old(orders)[i], activeOrderId)
                             then WithoutEntry(old(orders)[i], idx)
                             else old(orders)[i]
      ensures activeOrderId == old(activeOrderId) && methods == old(methods) && tipJar == old(tipJar)
      ensures lastTip == old(lastTip) && lastResult == old(lastResult)
    {
      var current := orders;
      orders := DropFromActive(current, activeOrderId, idx);
      forall i | 0 <= i < |orders|
        ensures WellFormed(orders[i])
      {
        assert WellFormed(current[i]);
        if IsActive(current[i], activeOrderId) {
          WithoutEntryWellFormed(current[i], idx);
        }
      }
    }

    /**
     * Score the first order the active pointer designates.  With no such
     * order nothing changes.  Otherwise every designated order becomes
     * fulfilled, a positive tip goes into the jar, and the tip and its
     * outcome are recorded.
     */
    method FinishOrder()
      requires Valid()
      modifies this
      ensures Valid()
      ensures tipJar >= old(tipJar)
      ensures |orders| == |old(orders)|
      ensures forall i :: 0 <= i < |orders| ==> (old(orders)[i].fulfilled ==> orders[i].fulfilled)
      ensures activeOrderId == old(activeOrderId) && methods == old(methods)
      ensures FindActive(old(orders), activeOrderId).None? ==>
                && orders == old(orders) && tipJar == old(tipJar)
                && lastTip == old(lastTip) && lastResult == old(lastResult)
      ensures FindActive(old(orders), activeOrderId).Some? ==>
                var tip := OrderTip(old(orders)[FindActive(old(orders), activeOrderId).value]);
                && orders == MarkFulfilled(old(orders), activeOrderId)
                && tipJar == (if tip > 0 then old(tipJar) + tip else old(tipJar))
                && lastTip == Some(tip)
                && lastResult == Some(if tip > 0 then Success else Fail)
    {
      var found := FindActive(orders, activeOrderId);
      if found.None? {
        return;
      }
      var order := orders[found.value];
      var tip := CalculateTip(order.customer.goal, order.plateNutrition.ToMap());
      var current := orders;
      orders := MarkFulfilled(current, activeOrderId);
      tipJar := if tip > 0 then tipJar + tip else tipJar;
      lastTip := Some(if tip > 0 then tip else 0);
      lastResult := Some(if tip > 0 then Success else Fail);
      forall i | 0 <= i < |orders|
        ensures WellFormed(orders[i])
      {
        assert WellFormed(current[i]);
      }
    }

    /** Record the method chosen for one ingredient; no other selection changes. */
    method SetMethod(ingredientId: string, how: string)
      requires Valid()
      modifies this
      ensures Valid()
      ensures ingredientId in methods && methods[ingredientId] == how
      ensures forall k :: k != ingredientId ==> (k in methods <==> k in old(methods))
      ensures forall k :: k != ingredientId && k in methods ==> methods[k] == old(methods)[k]
      ensures orders == old(orders) && activeOrderId == old(activeOrderId) && tipJar == old(tipJar)
      ensures lastTip == old(lastTip) && lastResult == old(lastResult)
    {
      methods := methods[ingredientId := how];
    }

    /** Clear the last outcome. */
    method ResetResult()
      requires Valid()
      modifies this
      ensures Valid()
      ensures lastTip == None && lastResult == None
      ensures orders == old(orders) && activeOrderId == old(activeOrderId)
      ensures methods == old(methods) && tipJar == old(tipJar)
    {
      lastTip := None;
      lastResult := None;
    }
  }

  /** The plate entry `handleAddToPlate` builds: the catalog ingredient and its cooked nutrition. */
  function Prepared(ingredientId: string, how: string): (e: PlateEntry)
    requires FindIngredient(Catalog, ingredientId).Some?
    ensures e.ingredient in Catalog && e.ingredient.id == ingredientId
    ensures e.cooked == Cook(e.ingredient.base, how)
    ensures NonNegative(e.cooked)
  {
    CatalogWellFormed();
    var ingredient := FindIngredient(Catalog, ingredientId).value;
    PlateEntry(ingredient, Cook(ingredient.base, how))
  }
}
