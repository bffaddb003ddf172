/**
 * The browser's `localStorage` as the app uses it: two keys, `savedRecipes` and
 * `shoppingCart`, each holding a JSON array, and the handlers that read, change and
 * write them back. Clocks and random ids are parameters.
 */
module LocalStore {
  import opened Wrappers
  import opened Text
  import opened Seqs
  import opened RecipeModel
  import opened RecipeStore
  import opened CartSpec

  /** What a storage key holds: nothing, a value `JSON.parse` rejects, or a parsed array. */
  datatype Slot<T> = Absent | Corrupt | Stored(value: T)

  /** What a save handler tells the user. */
  datatype SaveNotice = NoRecipe | RecipeNotFound | AlreadySaved | SavedNow

  /** What a single add to the cart tells the user. */
  datatype CartNotice = Ignored | AlreadyInCart | Added | IngredientNotFound

  /** What a bulk add tells the user. */
  datatype BulkNotice = NothingToAdd | AllPresent | AddedCount(count: nat) | VitaNotFound | VitaUnchanged | VitaReported(count: nat)

  /** `getSavedRecipes` / `getCart`: the stored array, or `[]` when the key is missing or unreadable. */
  function Read<T>(slot: Slot<seq<T>>): (s: seq<T>)
    ensures slot.Stored? ==> s == slot.value
    ensures !slot.Stored? ==> s == []
  {
    if slot.Stored? then slot.value else []
  }

  /** `order` lists the keys of `counts` in first-use order, and `counts` holds each tag's uses in `seen`. */
  ghost predicate Tally(order: seq<string>, counts: map<string, nat>, seen: seq<string>) {
    && order == Distinct(seen)
    && (forall t :: t in counts <==> t in order)
    && (forall t :: t in counts ==> counts[t] == Count(seen, t))
  }

  /** `tagCount[tag] = (tagCount[tag] || 0) + 1` keeps the tally of one more tag. */
  lemma TallyAdd(order: seq<string>, counts: map<string, nat>, seen: seq<string>, t: string)
    requires Tally(order, counts, seen)
    ensures t in counts ==> Tally(order, counts[t := counts[t] + 1], seen + [t])
    ensures t !in counts ==> Tally(order + [t], counts[t := 1], seen + [t])
  {
    if t in counts {
      TallyBump(order, counts, seen, t);
    } else {
      TallyNew(order, counts, seen, t);
    }
  }

  lemma TallyBump(order: seq<string>, counts: map<string, nat>, seen: seq<string>, t: string)
    requires Tally(order, counts, seen) && t in counts
    ensures Tally(order, counts[t := counts[t] + 1], seen + [t])
  {
    var counts' := counts[t := counts[t] + 1];
    assert t in seen;
    assert Distinct(seen + [t]) == order by {
      DistinctSnoc(seen, t);
    }
    assert counts'.Keys == counts.Keys;
    forall u | u in counts' ensures counts'[u] == Count(seen + [t], u) {
      CountSnoc(seen, t, u);
    }
  }

  lemma TallyNew(order: seq<string>, counts: map<string, nat>, seen: seq<string>, t: string)
    requires Tally(order, counts, seen) && t !in counts
    ensures Tally(order + [t], counts[t := 1], seen + [t])
  {
    var counts' := counts[t := 1];
    assert t !in seen;
    assert Distinct(seen + [t]) == order + [t] by {
      DistinctSnoc(seen, t);
    }
    forall u | u in counts' ensures counts'[u] == Count(seen + [t], u) {
      CountSnoc(seen, t, u);
    }
  }

  /** A tag's number of uses as the dictionary records it. */
  function CountOf(counts: map<string, nat>): string -> int {
    t => if t in counts then counts[t] else 0
  }

  /** Ranking the dictionary's entries by its counts ranks the distinct tags by their uses. */
  lemma TallyRanks(order: seq<string>, counts: map<string, nat>, all: seq<string>)
    requires Tally(order, counts, all)
    ensures RankBy(order, CountOf(counts)) == RankBy(Distinct(all), CountIn(all))
  {
    RankByCongruent(order, CountOf(counts), CountIn(all));
  }

  /** The inner `forEach` of app.js:935-937: tally the tags of one recipe. */
  method TallyTags(order: seq<string>, counts: map<string, nat>, seen: seq<string>, tags: seq<string>)
    returns (order': seq<string>, counts': map<string, nat>)
    requires Tally(order, counts, seen)
    ensures Tally(order', counts', seen + tags)
  {
    order', counts' := order, counts;
    ghost var sofar := seen;
    var j := 0;
    assert seen + tags[..0] == seen;
    while j < |tags|
      invariant 0 <= j <= |tags|
      invariant sofar == seen + tags[..j]
      invariant Tally(order', counts', sofar)
    {
      var t := tags[j];
      TallyAdd(order', counts', sofar, t);
      if t in counts' {
        counts' := counts'[t := counts'[t] + 1];
      } else {
        counts' := counts'[t := 1];
        order' := order' + [t];
      }
      PrefixSnoc(seen, tags, j);
      sofar := sofar + [t];
      j := j + 1;
    }
    assert tags[..|tags|] == tags;
  }

  class Storage {
    var savedRecipes: Slot<seq<SavedRecipe>>
    var shoppingCart: Slot<seq<CartItem>>

    /** A browser profile in which the app has stored nothing yet. */
    constructor ()
      ensures savedRecipes == Absent && shoppingCart == Absent
    {
      savedRecipes := Absent;
      shoppingCart := Absent;
    }

    /** What `getSavedRecipes` returns (app.js:866-874). */
    function Saved(): seq<SavedRecipe>
      reads this
    {
      Read(savedRecipes)
    }

    /** What `getCart` returns (app.js:1221-1229). */
    function Cart(): seq<CartItem>
      reads this
    {
      Read(shoppingCart)
    }

    /** The shared body of `saveCurrentRecipe` and `saveVitaRecipe` once a recipe is in hand. */
    method Save(r: Recipe, savedAt: string, id: string) returns (n: SaveNotice)
      modifies this
      ensures shoppingCart == old(shoppingCart)
      ensures IsSaved(old(Saved()), r) ==> n == AlreadySaved && savedRecipes == old(savedRecipes)
      ensures !IsSaved(old(Saved()), r) ==> n == SavedNow && savedRecipes == Stored(WithSaved(old(Saved()), r, savedAt, id))
      ensures IsSaved(Saved(), r)
    {
      var saved := Saved();
      if IsSaved(saved, r) {
        return AlreadySaved;
      }
      savedRecipes := Stored([SavedRecipe(r, savedAt, id)] + saved);
      n := SavedNow;
    }

    /** `saveCurrentRecipe` (app.js:823-863): the recipe on screen, if any, under the id `now`. */
    method SaveCurrentRecipe(current: Option<Recipe>, savedAt: string, now: string) returns (n: SaveNotice)
      modifies this
      ensures shoppingCart == old(shoppingCart)
      ensures current.None? ==> n == NoRecipe && savedRecipes == old(savedRecipes)
      ensures current.Some? && IsSaved(old(Saved()), current.value) ==> n == AlreadySaved && savedRecipes == old(savedRecipes)
      ensures current.Some? && !IsSaved(old(Saved()), current.value) ==>
        n == SavedNow && savedRecipes == Stored(WithSaved(old(Saved()), current.value, savedAt, now))
    {
      if current.None? {
        return NoRecipe;
      }
      n := Save(current.value, savedAt, now);
    }

    /** `saveVitaRecipe(index)` (app.js:713-752): the `index`-th generated recipe under the id `now + "-" + index`. */
    method SaveVitaRecipe(vita: seq<Recipe>, index: nat, savedAt: string, now: string) returns (n: SaveNotice)
      modifies this
      ensures shoppingCart == old(shoppingCart)
      ensures index >= |vita| ==> n == RecipeNotFound && savedRecipes == old(savedRecipes)
      ensures index < |vita| && IsSaved(old(Saved()), vita[index]) ==> n == AlreadySaved && savedRecipes == old(savedRecipes)
      ensures index < |vita| && !IsSaved(old(Saved()), vita[index]) ==>
        n == SavedNow && savedRecipes == Stored(WithSaved(old(Saved()), vita[index], savedAt, now + "-" + NatToString(index)))
    {
      if index >= |vita| {
        return RecipeNotFound;
      }
      n := Save(vita[index], savedAt, now + "-" + NatToString(index));
    }

    /** `deleteSavedRecipe(id)` (app.js:1171-1188) once the user has answered the confirmation. */
    method DeleteSavedRecipe(id: string, confirmed: bool)
      modifies this
      ensures shoppingCart == old(shoppingCart)
      ensures !confirmed ==> savedRecipes == old(savedRecipes)
      ensures confirmed ==> savedRecipes == Stored(RemoveById(old(Saved()), id))
    {
      if confirmed {
        savedRecipes := Stored(RemoveById(Saved(), id));
      }
    }

    /** `checkIfRecipeSaved(recipe)` (app.js:1191-1201): no answer without a recipe, else whether a saved one is the same. */
    method CheckIfRecipeSaved(recipe: Option<Recipe>) returns (saved: Option<bool>)
      ensures recipe.None? <==> saved.None?
      ensures recipe.Some? ==> (saved == Some(true) <==> exists i :: 0 <= i < |Saved()| && SameRecipe(Saved()[i].recipe, recipe.value))
    {
      if recipe.None? {
        return None;
      }
      saved := Some(IsSaved(Saved(), recipe.value));
    }

    /**
     * `updatePopularTags` (app.js:922-945): count every tag of every saved recipe in a
     * dictionary whose keys keep their first-use order, then rank and keep ten.
     */
    method PopularTags() returns (tags: seq<string>)
      ensures tags == PopularTagsOf(Saved())
    {
      var saved := Saved();
      var order: seq<string> := [];
      var counts: map<string, nat> := map[];
      var r := 0;
      while r < |saved|
        invariant 0 <= r <= |saved|
        invariant Tally(order, counts, AllTags(saved[..r]))
      {
        assert saved[..r + 1][..r] == saved[..r];
        order, counts := TallyTags(order, counts, AllTags(saved[..r]), TagsOf(saved[r].recipe));
        r := r + 1;
      }
      assert saved[..|saved|] == saved;
      TallyRanks(order, counts, AllTags(saved));
      tags := Take(RankBy(order, CountOf(counts)), 10);
    }

    /** `addToCart(ingredient)` (app.js:1241-1279) with the clock reading `id` and `addedAt`. */
    method AddToCart(ingredient: string, id: string, addedAt: string) returns (n: CartNotice)
      modifies this
      ensures savedRecipes == old(savedRecipes)
      ensures IsBlank(ingredient) ==> n == Ignored && shoppingCart == old(shoppingCart)
      ensures !IsBlank(ingredient) && InCart(old(Cart()), ingredient) ==> n == AlreadyInCart && shoppingCart == old(shoppingCart)
      ensures !IsBlank(ingredient) && !InCart(old(Cart()), ingredient) ==>
        n == Added && shoppingCart == Stored(AddOne(old(Cart()), ingredient, id, addedAt))
      ensures Cart() == AddOne(old(Cart()), ingredient, id, addedAt)
    {
      if IsBlank(ingredient) {
        return Ignored;
      }
      var cart := Cart();
      if InCart(cart, ingredient) {
        return AlreadyInCart;
      }
      shoppingCart := Stored(cart + [NewItem(ingredient, id, addedAt)]);
      n := Added;
    }

    /** `addIngredientToCart(ingredient)` (app.js:772-774): `addToCart` with its notice dropped; the key is written only when the cart grew. */
    method AddIngredientToCart(ingredient: string, id: string, addedAt: string)
      modifies this
      ensures savedRecipes == old(savedRecipes)
      ensures Cart() == AddOne(old(Cart()), ingredient, id, addedAt)
      ensures shoppingCart == if |Cart()| == |old(Cart())| then old(shoppingCart) else Stored(Cart())
    {
      var _ := AddToCart(ingredient, id, addedAt);
    }

    /**
     * The loop `addAllIngredientsToCart` and `addAllIngredientsToCartFromSaved` share
     * (app.js:1288-1311, 1460-1482): read the cart once, append what is new, write it
     * back only when something was appended, and report how many items were.
     */
    method AddAll(ingredients: seq<string>, idAt: nat -> string, timeAt: nat -> string) returns (added: nat)
      modifies this
      ensures savedRecipes == old(savedRecipes)
      ensures added == BulkAdd(old(Cart()), ingredients, idAt, timeAt).added
      ensures added == 0 ==> shoppingCart == old(shoppingCart)
      ensures added > 0 ==> shoppingCart == Stored(AddEach(old(Cart()), ingredients, idAt, timeAt))
    {
      var cart0 := Cart();
      var cart := cart0;
      added := 0;
      var k := 0;
      while k < |ingredients|
        invariant 0 <= k <= |ingredients|
        invariant Bulk(cart, added) == BulkAdd(cart0, ingredients[..k], idAt, timeAt)
      {
        assert ingredients[..k + 1][..k] == ingredients[..k];
        var name := Trim(ingredients[k]);
        if |name| > 0 && !InCart(cart, name) {
          cart := cart + [CartItem(idAt(k), name, false, timeAt(k))];
          added := added + 1;
        }
        k := k + 1;
      }
      assert ingredients[..|ingredients|] == ingredients;
      if added > 0 {
        shoppingCart := Stored(cart);
      }
    }

    /** `addAllIngredientsToCart` (app.js:1282-1326) for the recipe on screen. */
    method AddAllIngredientsToCart(current: Option<Recipe>, idAt: nat -> string, timeAt: nat -> string) returns (n: BulkNotice)
      modifies this
      ensures savedRecipes == old(savedRecipes)
      ensures current.None? || current.value.ingredients.None? ==> n == NothingToAdd && shoppingCart == old(shoppingCart)
      ensures current.Some? && current.value.ingredients.Some? ==>
        var b := BulkAdd(old(Cart()), current.value.ingredients.value, idAt, timeAt);
        && (b.added == 0 ==> n == AllPresent && shoppingCart == old(shoppingCart))
        && (b.added > 0 ==> n == AddedCount(b.added) && shoppingCart == Stored(b.cart))
    {
      if current.None? || current.value.ingredients.None? {
        return NothingToAdd;
      }
      var added := AddAll(current.value.ingredients.value, idAt, timeAt);
      n := if added > 0 then AddedCount(added) else AllPresent;
    }

    /** `addAllIngredientsToCartFromSaved(recipeId)` (app.js:1451-1497): no entry, no list or an empty list is an error. */
    method AddAllIngredientsToCartFromSaved(recipeId: string, idAt: nat -> string, timeAt: nat -> string) returns (n: BulkNotice)
      modifies this
      ensures savedRecipes == old(savedRecipes)
      ensures var found := FindSaved(old(Saved()), recipeId);
        && (found.None? || found.value.recipe.ingredients.None? || found.value.recipe.ingredients.value == [] ==>
              n == NothingToAdd && shoppingCart == old(shoppingCart))
        && (found.Some? && found.value.recipe.ingredients.Some? && found.value.recipe.ingredients.value != [] ==>
              var b := BulkAdd(old(Cart()), found.value.recipe.ingredients.value, idAt, timeAt);
              && (b.added == 0 ==> n == AllPresent && shoppingCart == old(shoppingCart))
              && (b.added > 0 ==> n == AddedCount(b.added) && shoppingCart == Stored(b.cart)))
    {
      var found := FindSaved(Saved(), recipeId);
      if found.None? || found.value.recipe.ingredients.None? || found.value.recipe.ingredients.value == [] {
        return NothingToAdd;
      }
      var added := AddAll(found.value.recipe.ingredients.value, idAt, timeAt);
      n := if added > 0 then AddedCount(added) else AllPresent;
    }

    /**
     * `addIngredientToCartFromSaved(recipeId, ingredientIndex)` (app.js:1437-1448): the
     * entry, its list and a non-empty ingredient at the index must all exist.
     */
    method AddIngredientToCartFromSaved(recipeId: string, index: nat, id: string, addedAt: string) returns (n: CartNotice)
      modifies this
      ensures savedRecipes == old(savedRecipes)
      ensures var found := FindSaved(old(Saved()), recipeId);
        && (found.None? || found.value.recipe.ingredients.None? || index >= |found.value.recipe.ingredients.value|
              || found.value.recipe.ingredients.value[index] == "" ==>
              n == IngredientNotFound && shoppingCart == old(shoppingCart))
        && (found.Some? && found.value.recipe.ingredients.Some? && index < |found.value.recipe.ingredients.value|
              && found.value.recipe.ingredients.value[index] != "" ==>
              n != IngredientNotFound && Cart() == AddOne(old(Cart()), found.value.recipe.ingredients.value[index], id, addedAt))
    {
      var found := FindSaved(Saved(), recipeId);
      if found.None? || found.value.recipe.ingredients.None? || index >= |found.value.recipe.ingredients.value|
         || found.value.recipe.ingredients.value[index] == "" {
        return IngredientNotFound;
      }
      n := AddToCart(found.value.recipe.ingredients.value[index], id, addedAt);
    }

    /**
     * `addAllIngredientsToCartFromVita(index)` (app.js:755-769): `addToCart` once per
     * ingredient, each reading and writing the store, and a message that counts the
     * ingredients rather than the items added.
     */
    method AddAllIngredientsToCartFromVita(vita: seq<Recipe>, index: nat, idAt: nat -> string, timeAt: nat -> string) returns (n: BulkNotice)
      modifies this
      ensures savedRecipes == old(savedRecipes)
      ensures index >= |vita| ==> n == VitaNotFound && shoppingCart == old(shoppingCart)
      ensures index < |vita| && vita[index].ingredients.None? ==> n == VitaUnchanged && shoppingCart == old(shoppingCart)
      ensures index < |vita| && vita[index].ingredients.Some? ==>
        var after := AddEach(old(Cart()), vita[index].ingredients.value, idAt, timeAt);
        && n == VitaReported(|vita[index].ingredients.value|)
        && shoppingCart == if |after| == |old(Cart())| then old(shoppingCart) else Stored(after)
    {
      if index >= |vita| {
        return VitaNotFound;
      }
      if vita[index].ingredients.None? {
        return VitaUnchanged;
      }
      AddEachToCart(vita[index].ingredients.value, idAt, timeAt);
      n := VitaReported(|vita[index].ingredients.value|);
    }

    /** `ingredients.forEach(ingredient => addIngredientToCart(ingredient))` (app.js:763-765). */
    method AddEachToCart(ingredients: seq<string>, idAt: nat -> string, timeAt: nat -> string)
      modifies this
      ensures savedRecipes == old(savedRecipes)
      ensures Cart() == AddEach(old(Cart()), ingredients, idAt, timeAt)
      ensures shoppingCart == if |Cart()| == |old(Cart())| then old(shoppingCart) else Stored(Cart())
    {
      ghost var cart0 := Cart();
      ghost var slot0 := shoppingCart;
      var k := 0;
      while k < |ingredients|
        invariant 0 <= k <= |ingredients|
        invariant savedRecipes == old(savedRecipes)
        invariant Cart() == AddEach(cart0, ingredients[..k], idAt, timeAt)
        invariant shoppingCart == if |Cart()| == |cart0| then slot0 else Stored(Cart())
      {
        assert ingredients[..k + 1][..k] == ingredients[..k];
        AddEachPrefix(cart0, ingredients[..k], idAt, timeAt);
        AddOneGrows(Cart(), ingredients[k], idAt(k), timeAt(k));
        AddIngredientToCart(ingredients[k], idAt(k), timeAt(k));
        k := k + 1;
      }
      assert ingredients[..|ingredients|] == ingredients;
    }

    /** `toggleCartItem(id)` (app.js:1402-1412): written back only when an item has the id. */
    method ToggleCartItem(id: string)
      modifies this
      ensures savedRecipes == old(savedRecipes)
      ensures FindItem(old(Cart()), id) < 0 ==> shoppingCart == old(shoppingCart)
      ensures FindItem(old(Cart()), id) >= 0 ==> shoppingCart == Stored(ToggleFirst(old(Cart()), id))
    {
      var cart := Cart();
      var k := FindItem(cart, id);
      if k >= 0 {
        shoppingCart := Stored(cart[k := cart[k].(purchased := !cart[k].purchased)]);
      }
    }

    /** `removeFromCart(id)` (app.js:1415-1422): always written back. */
    method RemoveFromCart(id: string)
      modifies this
      ensures savedRecipes == old(savedRecipes)
      ensures shoppingCart == Stored(RemoveItems(old(Cart()), id))
    {
      shoppingCart := Stored(RemoveItems(Cart(), id));
    }

    /** `clearCart()` (app.js:1425-1434) once the user has answered the confirmation. */
    method ClearCart(confirmed: bool)
      modifies this
      ensures savedRecipes == old(savedRecipes)
      ensures !confirmed ==> shoppingCart == old(shoppingCart)
      ensures confirmed ==> shoppingCart == Stored([])
    {
      if confirmed {
        shoppingCart := Stored([]);
      }
    }
  }
}
