# Vitagame order engine in Dafny

This project models the order, plate and scoring engine of the Vitagame
cooking game (`src/store/useStore.ts`) and proves properties about it. In the
game, a customer arrives with a nutrition goal. The player cooks catalog
ingredients with a method (raw, boil, fry, bake), puts them on the customer's
plate and finishes the order. The plate's nutrition total is then scored
against the goal, and a tip from 10 to 25 goes into the tip jar, or the order
fails with tip 0.

The model has three modules, one per concern of the store file:

- `Cooking` (`cooking.dfy`) holds the five nutrition fields and the `Nutrition` record. It also holds the elementwise sum and the `cookNutrition` transform.
- `Scoring` (`scoring.dfy`) holds `calculateTip` in two forms:
  - `Tip`, an order-free specification over the goal's key set.
  - `CalculateTip`, the imperative loop with its `allMet` flag, percent sum, count and early `break`, proved equal to `Tip`.
- `OrderStore` (`store.dfy`) holds the catalog and the order and plate entities. It also holds the plate-sum `reduce` and the `Store` class. The class has the six state fields and one method per store action, each with `modifies this` and the store invariant `Valid()`.

Numbers are `real`. `Math.round(x)` is `Floor(x + 0.5)`, which agrees with
JavaScript for the non-negative arguments that arise here. A goal is a
`map<Field, real>` whose missing keys are absent. The plate handed to scoring
is the order's total seen as a map (`Nutrition.ToMap`), and a missing key
reads as 0, like `plate[key] ?? 0`.

Preconditions stand for what the code or its caller guarantees:

- `handleAddToPlate` needs an ingredient identifier that is in the catalog, because the code dereferences the `find` result with `!`.
- Scoring needs every non-sugar goal target to be positive. This rules out the `0 / 0` of `want / got`.
- The goal generator in `src/App.tsx` always produces such goals (`Scoring.GeneratedGoalIsValid`). `AddOrder` requires it of the customer it receives, so every stored order can be scored.

`finishOrder` does not guard against a repeat call. Each call on the active
order scores it again and adds a positive tip to the jar again, so
`FinishOrder` has no idempotence contract; only the UI hides the button once
the order is fulfilled (src/App.tsx:202).

Orders may share an identifier, as in the code. Actions that act on "the
active order" act on every order with the active identifier, and
`finishOrder` scores the first of them.

## Model

| member | source | states |
|---|---|---|
| Cooking.Cook | src/store/useStore.ts:59-80 | Cooking never changes protein, carbs or sugar. Fry adds exactly 5 to fat and nothing else does. Vitamins are scaled by the method's retention factor and never rise when non-negative. Raw and any unrecognised method return the base record unchanged. Non-negative records stay non-negative. |
| Cooking.VitaminRetention | src/store/useStore.ts:61-78 | The vitamin factor is in (0, 1], and it is 1 for every method other than boil, fry and bake. |
| Cooking.Add | src/store/useStore.ts:186-191 | One reduce step: every field of the result is the sum of the two records' fields. |
| Cooking.Nutrition.ToMap | src/store/useStore.ts:225 | The total seen as a string-keyed record holds all five keys, each with that field's value. |
| Scoring.GeneratedGoalIsValid | src/App.tsx:16-30 | A generated goal (1 or 2 keys, sugar 0, other targets whole numbers from 10 to 39) has only positive non-sugar targets. |
| Scoring.Achieved | src/store/useStore.ts:88-97 | No contract of its own: the plate's value for a field, 0 when the key is missing (`?? 0` at line 97). `Scoring.Tip` states what it means for the result: a missing field counts as 0. |
| Scoring.Met | src/store/useStore.ts:87-101 | No contract of its own: sugar is met when the plate holds none, and any other field when the plate reaches the target. `Scoring.Tip` states it as the zero-tip condition in both directions. |
| Scoring.FieldScore | src/store/useStore.ts:102 | No contract of its own: `min(1, want / got)`. `Scoring.Score` states its range (0, 1] and when it is exactly 1. |
| Scoring.Score | src/store/useStore.ts:87-102 | The term of a met field lies in (0, 1]. It is exactly 1 when the field is sugar or the plate hits the target exactly. |
| Scoring.ScoreSumInsert | src/store/useStore.ts:86-105 | Adding one key to the visited set adds exactly that key's term, so the percent sum does not depend on the order the keys are visited in. |
| Scoring.ScoreSumBounds | src/store/useStore.ts:86-105 | Over met fields the percent sum lies between 0 and the number of fields, is positive when any field is visited, and equals that number exactly when every term is 1. |
| Scoring.Round | src/store/useStore.ts:108 | No contract of its own: `Math.round` as `Floor(x + 0.5)`. `Scoring.PayoutBounds` and `Scoring.TipProteinCases` state its effect (round(17.5) = 18). |
| Scoring.Payout | src/store/useStore.ts:107-108 | No contract of its own: `round(10 + 15 * total / count)`, with a count of 0 read as 1. `Scoring.PayoutBounds` states its range [10, 25] and its value 25 at a perfect average. |
| Scoring.PayoutBounds | src/store/useStore.ts:106-108 | For an average in [0, 1] the rounded payout lies in [10, 25], and a perfect average pays 25. |
| Scoring.Tip | src/store/useStore.ts:82-109 | The tip is 0 exactly when the goal has sugar and the plate holds some, or some non-sugar target exceeds the achieved value (missing counts as 0). Otherwise it lies in [10, 25]. |
| Scoring.TipExactMatch | src/store/useStore.ts:102-108 | A non-empty sugar-free goal matched exactly on every field tips 25. |
| Scoring.TipProteinCases | src/store/useStore.ts:96-108 | Goal protein 20 tips 25 for achieved 20, 18 for achieved 40, and 0 for achieved 10. |
| Scoring.TipSugarCases | src/store/useStore.ts:87-94 | Goal sugar 0 tips 25 for a sugar-free plate and 0 for any plate with sugar. |
| Scoring.CalculateTip | src/store/useStore.ts:82-109 | The loop returns `Tip` of its inputs whatever order it visits the goal keys in, breaking out with 0 on the first unmet field. |
| OrderStore.CatalogWellFormed | src/store/useStore.ts:113-134 | Catalog identifiers are distinct and every base record is non-negative. |
| OrderStore.FindIngredient | src/store/useStore.ts:168 | The lookup returns a catalog entry with the requested identifier, and finds nothing exactly when no entry has it. |
| OrderStore.Prepared | src/store/useStore.ts:168-169 | The entry put on the plate is the catalog ingredient with that identifier and its cooked nutrition, which is non-negative. |
| OrderStore.PlateSum | src/store/useStore.ts:183-193 | No contract of its own: the `reduce` fold from the all-zero record, one `Add` per entry. `OrderStore.PlateSumIsFieldTotal` states that each field is the sum of that field over the entries, and `OrderStore.SumPlate` that the accumulator loop computes it. |
| OrderStore.PlateSumIsFieldTotal | src/store/useStore.ts:183-193 | Each field of the folded plate total is the sum of that field over the plate's entries. |
| OrderStore.PlateSumConcat | src/store/useStore.ts:183-193 | The total of two plates laid end to end is the sum of their totals. |
| OrderStore.PlateSumNonNegative | src/store/useStore.ts:183-193 | A plate of non-negative entries has a non-negative total. |
| OrderStore.SumPlate | src/store/useStore.ts:185-193 | The accumulator loop computes the plate total `PlateSum`. |
| OrderStore.Without | src/store/useStore.ts:205 | An in-range index removes exactly that entry and keeps the rest in order. Any other index changes nothing. |
| OrderStore.PlateSumWithout | src/store/useStore.ts:206-216 | Dropping an entry lowers the plate total by exactly that entry's nutrition. |
| OrderStore.WithEntry | src/store/useStore.ts:173-194 | Adding grows the plate by one entry at the end, with a recomputed total. Identifier, customer and fulfilled flag are kept. |
| OrderStore.WithEntryTotal | src/store/useStore.ts:175-193 | The recomputed total equals the previous total plus the new entry's nutrition. |
| OrderStore.WithEntryWellFormed | src/store/useStore.ts:171-196 | Adding a non-negative entry keeps an order's total consistent with its plate. |
| OrderStore.WithoutEntry | src/store/useStore.ts:203-217 | Removing filters the plate by index and recomputes the total. Identifier, customer and fulfilled flag are kept. |
| OrderStore.WithoutEntryTotal | src/store/useStore.ts:205-216 | An in-range removal lowers the total by the removed entry's nutrition. An out-of-range index leaves a consistent order exactly as it was. |
| OrderStore.WithoutEntryWellFormed | src/store/useStore.ts:203-217 | Removing keeps an order's total consistent with its plate. |
| OrderStore.WithoutId | src/store/useStore.ts:159 | The filter keeps exactly the orders with another identifier, and keeps the list unchanged when none has it. |
| OrderStore.WithoutIdConcat | src/store/useStore.ts:159 | The filter distributes over concatenation, so the remaining orders keep their relative order. |
| OrderStore.WithoutIdFirst | src/store/useStore.ts:159-163 | The first remaining order is the first order, in list order, with another identifier. |
| OrderStore.FindActive | src/store/useStore.ts:223 | The lookup returns the first order with the active identifier, or nothing exactly when no order has it. |
| OrderStore.OrderTip | src/store/useStore.ts:225 | An order's tip is 0 or in [10, 25]. |
| OrderStore.AppendToActive | src/store/useStore.ts:171-196 | The map gives every active order the new entry with its total recomputed by the accumulator loop, and passes every other order through. |
| OrderStore.DropFromActive | src/store/useStore.ts:201-219 | The map removes the entry at the index from every active order's plate, recomputing its total, and passes every other order through. |
| OrderStore.MarkFulfilled | src/store/useStore.ts:227-229 | Active orders become fulfilled. No other field or order changes, and no fulfilled flag is cleared. |
| OrderStore.Store.constructor | src/store/useStore.ts:135-140 | The initial state: no orders, nothing active, no method selections, an empty jar and no last result. |
| OrderStore.Store.SetActiveOrderId | src/store/useStore.ts:141 | Only the active pointer changes. It is set to the given identifier, which is not checked against the list. |
| OrderStore.Store.AddOrder | src/store/useStore.ts:142-156 | Appends exactly one order with the customer's identifier, an empty plate, not fulfilled, and a zero total. Earlier orders are unchanged and in place. The new order becomes active and the method selections are cleared. |
| OrderStore.Store.RemoveOrder | src/store/useStore.ts:157-165 | Keeps exactly the orders with another identifier, in order. Removing the active identifier moves the pointer to the first remaining order, or to none. Otherwise the pointer is unchanged, and a pointer that named a listed order still does. |
| OrderStore.Store.HandleAddToPlate | src/store/useStore.ts:166-198 | Every active order gets the cooked catalog entry appended, with a total equal to the sum over its plate. All other orders and fields are unchanged and no order loses its fulfilled flag. |
| OrderStore.Store.RemoveFromPlate | src/store/useStore.ts:199-220 | Every active order loses the entry at the index (none when the index is out of range), with its total recomputed. All other orders and fields are unchanged. |
| OrderStore.Store.FinishOrder | src/store/useStore.ts:221-234 | With no active order nothing changes. Otherwise the first active order is scored: active orders become fulfilled, and the jar grows by the tip exactly when it is positive. The last tip is recorded, with success exactly when it is positive. The jar never decreases. |
| OrderStore.Store.SetMethod | src/store/useStore.ts:235-238 | Only the given ingredient's method selection changes. |
| OrderStore.Store.ResetResult | src/store/useStore.ts:239 | The last tip and result become unset and nothing else changes, so a second call leaves the state as the first left it. |

Every store method requires and ensures `Valid()`, which has three parts:

- The jar is non-negative.
- Every order's total equals `PlateSum` of its plate, its entries are non-negative and its goal has positive non-sugar targets.
- The last tip and result are both unset, or the tip is 0 or in [10, 25] with success exactly when it is positive.

## Left out

- Rendering in `src/App.tsx` (React hooks, cards, buttons, selects, icons) is presentation only.
- The "Next Customer" handler in `src/App.tsx` is UI glue and is not part of this model.
- `randomizeGoal` and `randomCustomer` draw on `Math.random`. Only the shape of the goals they produce is kept, as `Scoring.GeneratedGoal`.
- The `create`/`set` state-container machinery is left out. Each action assigns the class fields directly.
- IEEE-754 rounding, NaN and infinities are not modelled. Arithmetic is over `real`. The `|| 0` of the reduce step only matters for NaN or missing values, which cannot arise from the catalog.
- The unused `customers` field, display strings (ingredient `name`, customer `name` and `description`) and the `method` field stored on plate entries take part in no computation and are dropped.
- OrderStore.Store.AddOrder: requires the customer's goal to have positive non-sugar targets, which the code does not check. The game's goal generator always satisfies it, and it keeps `finishOrder` clear of `0 / 0`.
- OrderStore.Store.RemoveFromPlate: the index is an integer. A fractional JavaScript number, which equals no position and so drops nothing, is not modelled.
- Cooking.Cook: the method is any string, matching the unchecked cast at the call site. Only boil, fry and bake are distinguished; raw and any other string fall to the default branch.
- Scoring.CalculateTip: the visiting order of a `for...in` loop is a nondeterministic choice, so the result is proved for every order rather than for the engine's insertion order.
