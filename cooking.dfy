/**
 * Nutrition vectors and the cooking transform of the order engine.
 *
 * A nutrition record has five numeric fields; amounts are modelled as `real`
 * (the store code computes in IEEE doubles, whose rounding is not modelled).
 */
module Cooking {

  /** The five nutrition fields, in the order the `Nutrition` type declares them. */
  datatype Field = Protein | Carbs | Fat | Sugar | Vitamins

  /** A full nutrition record: every field present. */
  datatype Nutrition = Nutrition(protein: real, carbs: real, fat: real, sugar: real, vitamins: real)
  {
    /** The value of one field, as `record[key]` reads it. */
    function Get(f: Field): real
    {
      match f
      case Protein => protein
      case Carbs => carbs
      case Fat => fat
      case Sugar => sugar
      case Vitamins => vitamins
    }

    /** The record seen as a string-keyed dictionary: it holds all five keys. */
    function ToMap(): (m: map<Field, real>)
      ensures forall f :: f in m && m[f] == Get(f)
    {
      var m := map[Protein := protein, Carbs := carbs, Fat := fat, Sugar := sugar, Vitamins := vitamins];
      assert forall f :: f in m && m[f] == Get(f) by {
        forall f ensures f in m && m[f] == Get(f) {
          if f == Protein {} else if f == Carbs {} else if f == Fat {} else if f == Sugar {} else {}
        }
      }
      m
    }
  }

  /** The all-zero record a fresh order and the plate sum start from. */
  const Zero := Nutrition(0.0, 0.0, 0.0, 0.0, 0.0)

  /** Field-by-field sum of two records (one step of the plate-sum accumulator). */
  function Add(a: Nutrition, b: Nutrition): (r: Nutrition)
    ensures forall f :: r.Get(f) == a.Get(f) + b.Get(f)
  {
    Nutrition(a.protein + b.protein, a.carbs + b.carbs, a.fat + b.fat,
              a.sugar + b.sugar, a.vitamins + b.vitamins)
  }

  /** Every field is at least zero. */
  predicate NonNegative(n: Nutrition)
  {
    n.protein >= 0.0 && n.carbs >= 0.0 && n.fat >= 0.0 && n.sugar >= 0.0 && n.vitamins >= 0.0
  }

  /** Fraction of vitamins kept by a cooking method; any unrecognised method keeps all. */
  function VitaminRetention(how: string): (k: real)
    ensures 0.0 < k <= 1.0
    ensures how !in {"boil", "fry", "bake"} ==> k == 1.0
  {
    if how == "boil" then 0.7
    else if how == "fry" then 0.8
    else if how == "bake" then 0.9
    else 1.0
  }

  /**
   * The cooked nutrition of an ingredient: `boil`, `fry` and `bake` scale the
   * vitamins, `fry` also adds 5 to fat, and every other method string (`raw`
   * and anything unrecognised) falls to the default branch and returns the
   * base record unchanged.
   */
  function Cook(base: Nutrition, how: string): (r: Nutrition)
    ensures r.protein == base.protein && r.carbs == base.carbs && r.sugar == base.sugar
    ensures how !in {"boil", "fry", "bake"} ==> r == base
    ensures r.fat == if how == "fry" then base.fat + 5.0 else base.fat
    ensures r.vitamins == base.vitamins * VitaminRetention(how)
    ensures base.vitamins >= 0.0 ==> 0.0 <= r.vitamins <= base.vitamins
    ensures NonNegative(base) ==> NonNegative(r)
  {
    if how == "boil" then base.(vitamins := base.vitamins * 0.7)
    else if how == "fry" then base.(fat := base.fat + 5.0, vitamins := base.vitamins * 0.8)
    else if how == "bake" then base.(vitamins := base.vitamins * 0.9)
    else base
  }
}
