/**
 * The nutrition normaliser that runs on every parsed recipe: it derives missing
 * nutrition blocks from the ones present and defaults `tags`, never replacing a
 * block that is already there. Arithmetic is exact (`real`), `Math.round` is
 * `Floor(x + 1/2)`.
 */
module Normalizer {
  import opened Wrappers
  import opened RecipeModel

  /** `Math.round(x)`: the nearest integer, halves rounded up. */
  function Round(x: real): (n: int)
    ensures x - 0.5 < n as real <= x + 0.5
  {
    (x + 0.5).Floor
  }

  /** `Math.round(x * 10) / 10`: rounded to one decimal place. */
  function RoundTenth(x: real): (y: real)
    ensures x - 0.05 < y <= x + 0.05
    ensures OnTenth(y)
  {
    Round(x * 10.0) as real / 10.0
  }

  /** `x` has at most one decimal place. */
  predicate OnTenth(x: real) {
    (x * 10.0).Floor as real == x * 10.0
  }

  /** `d` is `exact` rounded the way the source rounds: calories to a whole number, macros to tenths. */
  predicate RoundedFrom(d: Nutrition, exact: Nutrition) {
    && exact.calories - 0.5 < d.calories <= exact.calories + 0.5 && d.calories.Floor as real == d.calories
    && exact.proteins - 0.05 < d.proteins <= exact.proteins + 0.05 && OnTenth(d.proteins)
    && exact.fats - 0.05 < d.fats <= exact.fats + 0.05 && OnTenth(d.fats)
    && exact.carbs - 0.05 < d.carbs <= exact.carbs + 0.05 && OnTenth(d.carbs)
  }

  /** `recipe.totalWeight || 1000`: a missing or zero weight counts as one kilogram. */
  function WeightOrDefault(w: Option<real>): (g: real)
    ensures g != 0.0
  {
    if TruthyNumber(w) then w.value else 1000.0
  }

  /** Per-100 g values of a dish of `weight` grams from its whole-dish values (api.js:157-162). */
  function Per100gFromTotal(total: Nutrition, weight: real): (d: Nutrition)
    requires weight != 0.0
    ensures RoundedFrom(d, Nutrition(total.calories / weight * 100.0, total.proteins / weight * 100.0,
                                     total.fats / weight * 100.0, total.carbs / weight * 100.0))
  {
    Nutrition(Round(total.calories / weight * 100.0) as real,
              RoundTenth(total.proteins / weight * 100.0),
              RoundTenth(total.fats / weight * 100.0),
              RoundTenth(total.carbs / weight * 100.0))
  }

  /** Per-serving values from the whole-dish values (api.js:167-172). */
  function PerServingFromTotal(total: Nutrition, servings: real): (d: Nutrition)
    requires servings != 0.0
    ensures RoundedFrom(d, Nutrition(total.calories / servings, total.proteins / servings,
                                     total.fats / servings, total.carbs / servings))
  {
    Nutrition(Round(total.calories / servings) as real,
              RoundTenth(total.proteins / servings),
              RoundTenth(total.fats / servings),
              RoundTenth(total.carbs / servings))
  }

  /** Whole-dish values of a dish of `weight` grams from its per-100 g values (api.js:178-183). */
  function TotalFromPer100g(per100g: Nutrition, weight: real): (d: Nutrition)
    ensures RoundedFrom(d, Nutrition(per100g.calories / 100.0 * weight, per100g.proteins / 100.0 * weight,
                                     per100g.fats / 100.0 * weight, per100g.carbs / 100.0 * weight))
  {
    Nutrition(Round(per100g.calories / 100.0 * weight) as real,
              RoundTenth(per100g.proteins / 100.0 * weight),
              RoundTenth(per100g.fats / 100.0 * weight),
              RoundTenth(per100g.carbs / 100.0 * weight))
  }

  /** The rule "no per-100 g block but a whole-dish block" applies. */
  predicate Per100gRuleFires(r: Recipe) {
    r.nutritionPer100g.None? && r.nutrition.Some?
  }

  /** The rule "no per-serving block, a whole-dish block and a non-zero serving count" applies. */
  predicate PerServingRuleFires(r: Recipe) {
    r.nutritionPerServing.None? && r.nutrition.Some? && TruthyNumber(r.servings)
  }

  /** The rule "no whole-dish block but a per-100 g block" applies. */
  predicate TotalRuleFires(r: Recipe) {
    r.nutrition.None? && r.nutritionPer100g.Some?
  }

  /** api.js:155-163 */
  function DerivePer100g(r: Recipe): Recipe {
    if Per100gRuleFires(r) then
      r.(nutritionPer100g := Some(Per100gFromTotal(r.nutrition.value, WeightOrDefault(r.totalWeight))))
    else r
  }

  /** api.js:166-173 */
  function DerivePerServing(r: Recipe): Recipe {
    if PerServingRuleFires(r) then
      r.(nutritionPerServing := Some(PerServingFromTotal(r.nutrition.value, r.servings.value)))
    else r
  }

  /** api.js:176-184 */
  function DeriveTotal(r: Recipe): Recipe {
    if TotalRuleFires(r) then
      r.(nutrition := Some(TotalFromPer100g(r.nutritionPer100g.value, WeightOrDefault(r.totalWeight))))
    else r
  }

  /** api.js:187-189: a missing or non-array `tags` becomes `[]`. */
  function DefaultTags(r: Recipe): Recipe {
    if r.tags.None? then r.(tags := Some([])) else r
  }

  /** Every property the normaliser does not touch is the same in `a` and `b`. */
  predicate SameDescription(a: Recipe, b: Recipe) {
    && a.dishName == b.dishName && a.servings == b.servings && a.totalWeight == b.totalWeight
    && a.difficulty == b.difficulty && a.cookingTime == b.cookingTime
    && a.ingredients == b.ingredients && a.instructions == b.instructions
  }

  /** A block or tag list that `r` has is still there, unchanged, in `n`. */
  predicate NoOverwrite(r: Recipe, n: Recipe) {
    && (r.nutritionPer100g.Some? ==> n.nutritionPer100g == r.nutritionPer100g)
    && (r.nutritionPerServing.Some? ==> n.nutritionPerServing == r.nutritionPerServing)
    && (r.nutrition.Some? ==> n.nutrition == r.nutrition)
    && (r.tags.Some? ==> n.tags == r.tags)
  }

  /** The normaliser of recipe analysis: four guarded assignments in order (api.js:155-189). */
  function NormalizeAnalysis(r: Recipe): (n: Recipe)
    ensures SameDescription(r, n) && NoOverwrite(r, n) && n.tags.Some?
    ensures r.tags.None? ==> n.tags == Some([])
    ensures Per100gRuleFires(r) ==>
      n.nutritionPer100g == Some(Per100gFromTotal(r.nutrition.value, WeightOrDefault(r.totalWeight)))
    ensures PerServingRuleFires(r) ==>
      n.nutritionPerServing == Some(PerServingFromTotal(r.nutrition.value, r.servings.value))
    ensures r.nutritionPerServing.None? && !PerServingRuleFires(r) ==> n.nutritionPerServing.None?
    ensures TotalRuleFires(r) ==>
      n.nutrition == Some(TotalFromPer100g(r.nutritionPer100g.value, WeightOrDefault(r.totalWeight)))
    ensures r.nutrition.None? && r.nutritionPer100g.None? ==> n.nutrition.None? && n.nutritionPer100g.None?
  {
    DefaultTags(DeriveTotal(DerivePerServing(DerivePer100g(r))))
  }

  /** The normaliser applied to each generated recipe: no whole-dish rule (api.js:349-372). */
  function NormalizeGenerated(r: Recipe): (n: Recipe)
    ensures SameDescription(r, n) && NoOverwrite(r, n) && n.tags.Some?
    ensures r.tags.None? ==> n.tags == Some([])
    ensures n.nutrition == r.nutrition
    ensures Per100gRuleFires(r) ==>
      n.nutritionPer100g == Some(Per100gFromTotal(r.nutrition.value, WeightOrDefault(r.totalWeight)))
    ensures r.nutritionPer100g.None? && !Per100gRuleFires(r) ==> n.nutritionPer100g.None?
    ensures PerServingRuleFires(r) ==>
      n.nutritionPerServing == Some(PerServingFromTotal(r.nutrition.value, r.servings.value))
    ensures r.nutritionPerServing.None? && !PerServingRuleFires(r) ==> n.nutritionPerServing.None?
  {
    DefaultTags(DerivePerServing(DerivePer100g(r)))
  }

  /** The per-100 g rule and the whole-dish rule never both fire in one normalisation. */
  lemma RulesExclusive(r: Recipe)
    ensures !(Per100gRuleFires(r) && TotalRuleFires(DerivePerServing(DerivePer100g(r))))
    ensures TotalRuleFires(DerivePerServing(DerivePer100g(r))) ==> TotalRuleFires(r)
  {
  }

  /** After one pass no rule fires any more, unless a whole-dish block was just derived next to a serving count. */
  lemma {:induction false} NormalizeAnalysisStable(r: Recipe)
    requires !(TotalRuleFires(r) && r.nutritionPerServing.None? && TruthyNumber(r.servings))
    ensures NormalizeAnalysis(NormalizeAnalysis(r)) == NormalizeAnalysis(r)
  {
    var n := NormalizeAnalysis(r);
    assert !Per100gRuleFires(n) && !TotalRuleFires(n) && !PerServingRuleFires(n);
    assert DerivePerServing(DerivePer100g(n)) == n;
  }

  /**
   * Normalisation is not idempotent: a recipe with only a per-100 g block and a
   * serving count gains its per-serving block on a second pass only.
   */
  lemma {:induction false} NormalizeAnalysisSecondPass(r: Recipe)
    requires TotalRuleFires(r) && r.nutritionPerServing.None? && TruthyNumber(r.servings)
    ensures NormalizeAnalysis(r).nutritionPerServing.None?
    ensures NormalizeAnalysis(NormalizeAnalysis(r)).nutritionPerServing.Some?
  {
    var n := NormalizeAnalysis(r);
    assert PerServingRuleFires(n);
  }

  /** Normalising a generated recipe twice is normalising it once. */
  lemma {:induction false} NormalizeGeneratedIdempotent(r: Recipe)
    ensures NormalizeGenerated(NormalizeGenerated(r)) == NormalizeGenerated(r)
  {
    var n := NormalizeGenerated(r);
    assert !Per100gRuleFires(n) && !PerServingRuleFires(n);
    assert DerivePerServing(DerivePer100g(n)) == n;
  }

  /**
   * The per-serving rule reads the whole-dish block before the whole-dish rule can
   * derive it: a recipe that has only a per-100 g block keeps no per-serving block.
   */
  lemma PerServingNotFromDerivedTotal(r: Recipe)
    requires r.nutrition.None? && r.nutritionPer100g.Some? && r.nutritionPerServing.None?
    ensures NormalizeAnalysis(r).nutrition.Some?
    ensures NormalizeAnalysis(r).nutritionPerServing.None?
  {
  }

  /** A 200 g omelette of 300 kcal for one serving: 150 kcal per 100 g and 300 kcal per serving. */
  lemma OmeletteExample()
    ensures var n := NormalizeAnalysis(Recipe(Some("Омлет"), Some(1.0), Some(200.0), None, None, None,
                                              None, None, Some(Nutrition(300.0, 20.0, 20.0, 2.0)), Some([]), None));
            && n.nutritionPer100g == Some(Nutrition(150.0, 10.0, 10.0, 1.0))
            && n.nutritionPerServing == Some(Nutrition(300.0, 20.0, 20.0, 2.0))
            && n.tags == Some([])
  {
  }

  /** The object `JSON.parse` returned, which the normaliser updates in place. */
  class ParsedRecipe {
    var data: Recipe

    constructor(data: Recipe)
      ensures this.data == data
    {
      this.data := data;
    }

    /** The guarded assignments of api.js:155-189, one after the other. */
    method NormalizeForAnalysis()
      modifies this
      ensures data == NormalizeAnalysis(old(data))
    {
      if data.nutritionPer100g.None? && data.nutrition.Some? {
        var weight := WeightOrDefault(data.totalWeight);
        data := data.(nutritionPer100g := Some(Per100gFromTotal(data.nutrition.value, weight)));
      }
      if data.nutritionPerServing.None? && data.nutrition.Some? && TruthyNumber(data.servings) {
        data := data.(nutritionPerServing := Some(PerServingFromTotal(data.nutrition.value, data.servings.value)));
      }
      if data.nutrition.None? && data.nutritionPer100g.Some? {
        var weight := WeightOrDefault(data.totalWeight);
        data := data.(nutrition := Some(TotalFromPer100g(data.nutritionPer100g.value, weight)));
      }
      if data.tags.None? {
        data := data.(tags := Some([]));
      }
    }

    /** The body of the `map` callback of api.js:347-375. */
    method NormalizeForGeneration()
      modifies this
      ensures data == NormalizeGenerated(old(data))
    {
      if data.nutritionPer100g.None? && data.nutrition.Some? {
        var weight := WeightOrDefault(data.totalWeight);
        data := data.(nutritionPer100g := Some(Per100gFromTotal(data.nutrition.value, weight)));
      }
      if data.nutritionPerServing.None? && data.nutrition.Some? && TruthyNumber(data.servings) {
        data := data.(nutritionPerServing := Some(PerServingFromTotal(data.nutrition.value, data.servings.value)));
      }
      if data.tags.None? {
        data := data.(tags := Some([]));
      }
    }
  }
}
