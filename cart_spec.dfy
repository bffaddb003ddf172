/**
 * What the shopping-cart operations compute, as functions of the stored cart:
 * the duplicate test by name key, adding one item, the bulk add, toggling,
 * removing and the display partition.
 */
module CartSpec {
  import opened Text
  import opened Seqs
  import opened RecipeModel

  /**
   * Some item of `cart` has the key of `name`: `name.toLowerCase().trim()` compared
   * with each item's (app.js:1249-1251, 1296-1298, 1468-1470).
   */
  predicate InCart(cart: seq<CartItem>, name: string) {
    exists i :: 0 <= i < |cart| && Key(cart[i].name) == Key(name)
  }

  /** No two items have the same name key. */
  predicate NamesDistinct(cart: seq<CartItem>) {
    forall i, j :: 0 <= i < j < |cart| ==> Key(cart[i].name) != Key(cart[j].name)
  }

  /**
   * The item `addToCart` creates for an ingredient (app.js:1261-1266): the trimmed
   * name, unpurchased; it has the ingredient's duplicate key.
   */
  function NewItem(ingredient: string, id: string, addedAt: string): (item: CartItem)
    ensures Key(item.name) == Key(ingredient)
  {
    KeyOfTrim(ingredient);
    CartItem(id, Trim(ingredient), false, addedAt)
  }

  /** Appending an item whose key is not in the cart yet keeps the keys distinct. */
  lemma AppendKeepsDistinct(cart: seq<CartItem>, item: CartItem)
    requires !InCart(cart, item.name)
    ensures NamesDistinct(cart) ==> NamesDistinct(cart + [item])
  {
    var r := cart + [item];
    if !NamesDistinct(cart) { return; }
    forall i, j | 0 <= i < j < |r| ensures Key(r[i].name) != Key(r[j].name) {
      if j == |cart| {
        assert r[i] == cart[i];
      } else {
        assert r[i] == cart[i] && r[j] == cart[j];
      }
    }
  }

  /** The cart after `addToCart(ingredient)` (app.js:1241-1269). */
  function AddOne(cart: seq<CartItem>, ingredient: string, id: string, addedAt: string): seq<CartItem> {
    if IsBlank(ingredient) || InCart(cart, ingredient) then cart
    else cart + [NewItem(ingredient, id, addedAt)]
  }

  /** `addToCart` changes the cart exactly when the ingredient is not blank and its key is not there yet. */
  lemma AddOneChanges(cart: seq<CartItem>, ingredient: string, id: string, addedAt: string)
    ensures AddOne(cart, ingredient, id, addedAt) == cart <==> IsBlank(ingredient) || InCart(cart, ingredient)
  {
    if !IsBlank(ingredient) && !InCart(cart, ingredient) {
      assert |AddOne(cart, ingredient, id, addedAt)| != |cart|;
    }
  }

  /** `addToCart` only ever appends, and at most one item. */
  lemma AddOneGrows(cart: seq<CartItem>, ingredient: string, id: string, addedAt: string)
    ensures var r := AddOne(cart, ingredient, id, addedAt);
      |cart| <= |r| <= |cart| + 1 && r[..|cart|] == cart
  {
    if !IsBlank(ingredient) && !InCart(cart, ingredient) {
      assert (cart + [NewItem(ingredient, id, addedAt)])[..|cart|] == cart;
    }
  }

  /** After `addToCart`, the key of a non-blank ingredient is in the cart. */
  lemma AddOneFinds(cart: seq<CartItem>, ingredient: string, id: string, addedAt: string)
    requires !IsBlank(ingredient)
    ensures InCart(AddOne(cart, ingredient, id, addedAt), ingredient)
  {
    if !InCart(cart, ingredient) {
      var item := NewItem(ingredient, id, addedAt);
      KeyOfTrim(ingredient);
      assert (cart + [item])[|cart|] == item;
    } else {
      AddOneGrows(cart, ingredient, id, addedAt);
      InCartGrows(cart, AddOne(cart, ingredient, id, addedAt), ingredient);
    }
  }

  /** `addToCart` keeps a cart free of duplicate keys. */
  lemma AddOneKeepsDistinct(cart: seq<CartItem>, ingredient: string, id: string, addedAt: string)
    requires NamesDistinct(cart)
    ensures NamesDistinct(AddOne(cart, ingredient, id, addedAt))
  {
    if !IsBlank(ingredient) && !InCart(cart, ingredient) {
      var item := NewItem(ingredient, id, addedAt);
      KeyOfTrim(ingredient);
      AppendKeepsDistinct(cart, item);
    }
  }

  /** `addToCart` called once per ingredient, in order, as `addAllIngredientsToCartFromVita` does (app.js:763-765). */
  function AddEach(cart: seq<CartItem>, ingredients: seq<string>, idAt: nat -> string, timeAt: nat -> string): seq<CartItem> {
    if ingredients == [] then cart
    else
      var n := |ingredients| - 1;
      AddOne(AddEach(cart, ingredients[..n], idAt, timeAt), ingredients[n], idAt(n), timeAt(n))
  }

  /** Adding a list leaves the existing items alone and adds at most one item per ingredient. */
  lemma {:induction false} AddEachPrefix(cart: seq<CartItem>, ingredients: seq<string>, idAt: nat -> string, timeAt: nat -> string)
    ensures var r := AddEach(cart, ingredients, idAt, timeAt);
      |cart| <= |r| <= |cart| + |ingredients| && r[..|cart|] == cart
  {
    if ingredients != [] {
      var n := |ingredients| - 1;
      var p := AddEach(cart, ingredients[..n], idAt, timeAt);
      AddEachPrefix(cart, ingredients[..n], idAt, timeAt);
      AddOneGrows(p, ingredients[n], idAt(n), timeAt(n));
      var r := AddOne(p, ingredients[n], idAt(n), timeAt(n));
      assert r[..|cart|] == r[..|p|][..|cart|];
    }
  }

  /** Every item of `r` past the first `|cart|` is unpurchased and has a trimmed, non-blank name. */
  predicate AddedItemsWellFormed(cart: seq<CartItem>, r: seq<CartItem>) {
    forall i :: |cart| <= i < |r| ==> !r[i].purchased && !IsBlank(r[i].name) && r[i].name == Trim(r[i].name)
  }

  /** Every item a list adds is unpurchased and has a trimmed, non-blank name. */
  lemma {:induction false} AddEachNewItems(cart: seq<CartItem>, ingredients: seq<string>, idAt: nat -> string, timeAt: nat -> string)
    ensures AddedItemsWellFormed(cart, AddEach(cart, ingredients, idAt, timeAt))
  {
    if ingredients != [] {
      var n := |ingredients| - 1;
      var ing := ingredients[n];
      var p := AddEach(cart, ingredients[..n], idAt, timeAt);
      AddEachNewItems(cart, ingredients[..n], idAt, timeAt);
      if !IsBlank(ing) && !InCart(p, ing) {
        var item := NewItem(ing, idAt(n), timeAt(n));
        var r := p + [item];
        assert AddEach(cart, ingredients, idAt, timeAt) == r;
        TrimIdempotent(ing);
        assert !item.purchased && !IsBlank(item.name) && item.name == Trim(item.name);
        forall i | |cart| <= i < |r| ensures !r[i].purchased && !IsBlank(r[i].name) && r[i].name == Trim(r[i].name) {
          if i < |p| {
            assert r[i] == p[i];
          } else {
            assert r[i] == item;
          }
        }
      } else {
        assert AddEach(cart, ingredients, idAt, timeAt) == p;
      }
    }
  }

  /** No item of `r` past the first `|cart|` has the key of an item before it. */
  predicate AddedKeysFresh(cart: seq<CartItem>, r: seq<CartItem>) {
    forall i, j :: 0 <= i < j < |r| && |cart| <= j ==> Key(r[i].name) != Key(r[j].name)
  }

  /** An added item never repeats the key of an item before it, old or added in the same call. */
  lemma {:induction false} AddEachNoRepeat(cart: seq<CartItem>, ingredients: seq<string>, idAt: nat -> string, timeAt: nat -> string)
    ensures AddedKeysFresh(cart, AddEach(cart, ingredients, idAt, timeAt))
  {
    if ingredients != [] {
      var n := |ingredients| - 1;
      var ing := ingredients[n];
      var p := AddEach(cart, ingredients[..n], idAt, timeAt);
      AddEachNoRepeat(cart, ingredients[..n], idAt, timeAt);
      if !IsBlank(ing) && !InCart(p, ing) {
        var item := NewItem(ing, idAt(n), timeAt(n));
        var r := p + [item];
        assert AddEach(cart, ingredients, idAt, timeAt) == r;
        KeyOfTrim(ing);
        assert forall i :: 0 <= i < |p| ==> Key(p[i].name) != Key(item.name);
        forall i, j | 0 <= i < j < |r| && |cart| <= j ensures Key(r[i].name) != Key(r[j].name) {
          assert r[i] == p[i];
          if j < |p| {
            assert r[j] == p[j];
          } else {
            assert r[j] == item;
          }
        }
      } else {
        assert AddEach(cart, ingredients, idAt, timeAt) == p;
      }
    }
  }

  /** An item found in a cart is still found once the cart has grown at its end. */
  lemma InCartGrows(a: seq<CartItem>, b: seq<CartItem>, name: string)
    requires InCart(a, name) && |a| <= |b| && b[..|a|] == a
    ensures InCart(b, name)
  {
    var i :| 0 <= i < |a| && Key(a[i].name) == Key(name);
    assert b[i] == b[..|a|][i];
  }

  /** The key of every non-blank ingredient is in `r`. */
  predicate AllFound(r: seq<CartItem>, ingredients: seq<string>) {
    forall k :: 0 <= k < |ingredients| && !IsBlank(ingredients[k]) ==> InCart(r, ingredients[k])
  }

  /** After adding a list, the key of every non-blank ingredient is in the cart. */
  lemma {:induction false} AddEachComplete(cart: seq<CartItem>, ingredients: seq<string>, idAt: nat -> string, timeAt: nat -> string)
    ensures AllFound(AddEach(cart, ingredients, idAt, timeAt), ingredients)
  {
    if ingredients != [] {
      var n := |ingredients| - 1;
      var p := AddEach(cart, ingredients[..n], idAt, timeAt);
      AddEachComplete(cart, ingredients[..n], idAt, timeAt);
      AddOneGrows(p, ingredients[n], idAt(n), timeAt(n));
      var r := AddOne(p, ingredients[n], idAt(n), timeAt(n));
      forall k | 0 <= k < |ingredients| && !IsBlank(ingredients[k]) ensures InCart(r, ingredients[k]) {
        if k < n {
          assert ingredients[..n][k] == ingredients[k];
          InCartGrows(p, r, ingredients[k]);
        } else {
          AddOneFinds(p, ingredients[n], idAt(n), timeAt(n));
        }
      }
      assert AllFound(r, ingredients);
    }
  }


  /** Adding a list to a cart without duplicate keys leaves a cart without duplicate keys. */
  lemma {:induction false} AddEachKeepsDistinct(cart: seq<CartItem>, ingredients: seq<string>, idAt: nat -> string, timeAt: nat -> string)
    requires NamesDistinct(cart)
    ensures NamesDistinct(AddEach(cart, ingredients, idAt, timeAt))
  {
    if ingredients != [] {
      var n := |ingredients| - 1;
      AddEachKeepsDistinct(cart, ingredients[..n], idAt, timeAt);
      AddOneKeepsDistinct(AddEach(cart, ingredients[..n], idAt, timeAt), ingredients[n], idAt(n), timeAt(n));
    }
  }

  /** The state of the bulk loop: the cart as it grows and `addedCount`. */
  datatype Bulk = Bulk(cart: seq<CartItem>, added: nat)

  /**
   * One iteration of the `forEach` of app.js:1292-1311 (and 1463-1482): it trims the
   * ingredient itself and tests it against the cart as it stands, which is what
   * `addToCart` does, and counts what it appends.
   */
  function BulkStep(b: Bulk, ingredient: string, id: string, addedAt: string): (r: Bulk)
    ensures r.cart == AddOne(b.cart, ingredient, id, addedAt)
    ensures r.added == b.added + |r.cart| - |b.cart|
  {
    var name := Trim(ingredient);
    KeyOfTrim(ingredient);
    if |name| == 0 || InCart(b.cart, name) then b
    else Bulk(b.cart + [CartItem(id, name, false, addedAt)], b.added + 1)
  }

  /**
   * The bulk add (app.js:1292-1311 and 1463-1482), each new item taking the id and time
   * of its ingredient's position: the cart it leaves is the one repeated single adds
   * leave, and the count it reports is exactly the number of items it appended.
   */
  function BulkAdd(cart: seq<CartItem>, ingredients: seq<string>, idAt: nat -> string, timeAt: nat -> string): (b: Bulk)
    ensures b.cart == AddEach(cart, ingredients, idAt, timeAt)
    ensures b.added == |b.cart| - |cart|
  {
    if ingredients == [] then Bulk(cart, 0)
    else
      var n := |ingredients| - 1;
      BulkStep(BulkAdd(cart, ingredients[..n], idAt, timeAt), ingredients[n], idAt(n), timeAt(n))
  }

  /** An ingredient listed twice adds one item: the second copy finds the first in the cart. */
  lemma RepeatAddsOne(x: string, idAt: nat -> string, timeAt: nat -> string)
    requires !IsBlank(x)
    ensures |AddEach([], [x, x], idAt, timeAt)| == 1
  {
    assert [x, x][..1] == [x] && [x][..0] == [];
    assert AddEach([], [x][..0], idAt, timeAt) == [] && !InCart([], x);
    var one := AddEach([], [x], idAt, timeAt);
    assert one == [NewItem(x, idAt(0), timeAt(0))];
    KeyOfTrim(x);
    assert Key(one[0].name) == Key(x);
  }

  lemma SaltNotBlank()
    ensures !IsBlank("соль")
  {
    assert !IsWhitespace('с') && !IsWhitespace('ь');
  }

  /**
   * The count `addAllIngredientsToCartFromVita` reports is the number of ingredients,
   * not the number of items added: two equal ingredients add one item.
   */
  lemma VitaCountExceedsAdded(idAt: nat -> string, timeAt: nat -> string)
    ensures |AddEach([], ["соль", "соль"], idAt, timeAt)| == 1
  {
    SaltNotBlank();
    RepeatAddsOne("соль", idAt, timeAt);
  }

  /** `cart.findIndex(item => item.id === id)` (app.js:1404). */
  function FindItem(cart: seq<CartItem>, id: string): (k: int)
    ensures -1 <= k < |cart|
    ensures k >= 0 ==> cart[k].id == id && forall i :: 0 <= i < k ==> cart[i].id != id
    ensures k < 0 ==> forall i :: 0 <= i < |cart| ==> cart[i].id != id
  {
    if cart == [] then -1
    else if cart[0].id == id then 0
    else
      var k := FindItem(cart[1..], id);
      assert forall i :: 1 <= i < |cart| ==> cart[i] == cart[1..][i - 1];
      if k < 0 then -1 else k + 1
  }

  /** The cart after `toggleCartItem(id)` (app.js:1402-1409): the first item with the id changes state, nothing else changes. */
  function ToggleFirst(cart: seq<CartItem>, id: string): (r: seq<CartItem>)
    ensures |r| == |cart|
    ensures FindItem(cart, id) < 0 ==> r == cart
    ensures forall i :: 0 <= i < |cart| && i != FindItem(cart, id) ==> r[i] == cart[i]
    ensures FindItem(cart, id) >= 0 ==>
      var k := FindItem(cart, id); r[k] == cart[k].(purchased := !cart[k].purchased)
  {
    var k := FindItem(cart, id);
    if k < 0 then cart else cart[k := cart[k].(purchased := !cart[k].purchased)]
  }

  /** Finding by id depends only on the ids. */
  lemma {:induction false} FindItemSameIds(a: seq<CartItem>, b: seq<CartItem>, id: string)
    requires |a| == |b| && forall i :: 0 <= i < |a| ==> a[i].id == b[i].id
    ensures FindItem(a, id) == FindItem(b, id)
  {
    if a != [] && a[0].id != id {
      FindItemSameIds(a[1..], b[1..], id);
    }
  }

  /** Toggling the same id twice restores the cart. */
  lemma ToggleTwice(cart: seq<CartItem>, id: string)
    ensures ToggleFirst(ToggleFirst(cart, id), id) == cart
  {
    FindItemSameIds(cart, ToggleFirst(cart, id), id);
  }

  /** Toggling changes no name, so keys stay distinct. */
  lemma ToggleKeepsDistinct(cart: seq<CartItem>, id: string)
    requires NamesDistinct(cart)
    ensures NamesDistinct(ToggleFirst(cart, id))
  {
    var r := ToggleFirst(cart, id);
    assert forall i :: 0 <= i < |cart| ==> r[i].name == cart[i].name;
  }

  /** The cart after `removeFromCart(id)` (app.js:1417): every item with the id goes. */
  function RemoveItems(cart: seq<CartItem>, id: string): (r: seq<CartItem>)
    ensures forall x :: x in r <==> x in cart && x.id != id
  {
    Filter(cart, (x: CartItem) => x.id != id)
  }

  /** Removing keeps the other items in order; an id no item has changes nothing; distinct keys stay distinct. */
  lemma {:induction false} RemoveItemsProperties(cart: seq<CartItem>, id: string)
    ensures IsSubsequence(RemoveItems(cart, id), cart)
    ensures (forall i :: 0 <= i < |cart| ==> cart[i].id != id) <==> RemoveItems(cart, id) == cart
    ensures NamesDistinct(cart) ==> NamesDistinct(RemoveItems(cart, id))
  {
    FilterIsSubsequence(cart, (x: CartItem) => x.id != id);
    FilterKeepsAll(cart, (x: CartItem) => x.id != id);
    if NamesDistinct(cart) {
      FilterPairwise(cart, (x: CartItem) => x.id != id, (x: CartItem, y: CartItem) => Key(x.name) != Key(y.name));
    }
  }

  /** `cart.filter(item => !item.purchased)` (app.js:1344). */
  function Unpurchased(cart: seq<CartItem>): seq<CartItem> {
    Filter(cart, (x: CartItem) => !x.purchased)
  }

  /** `cart.filter(item => item.purchased)` (app.js:1343). */
  function Purchased(cart: seq<CartItem>): seq<CartItem> {
    Filter(cart, (x: CartItem) => x.purchased)
  }

  /** What `loadCart` lists: the items still to buy, then the bought ones (app.js:1347-1365). */
  function DisplayOrder(cart: seq<CartItem>): (d: seq<CartItem>)
    ensures |Unpurchased(cart)| <= |d|
    ensures forall i :: 0 <= i < |Unpurchased(cart)| ==> !d[i].purchased
    ensures forall i :: |Unpurchased(cart)| <= i < |d| ==> d[i].purchased
  {
    var u, p := Unpurchased(cart), Purchased(cart);
    assert forall i :: 0 <= i < |u| ==> (u + p)[i] == u[i] && u[i] in u;
    assert forall i :: |u| <= i < |u| + |p| ==> (u + p)[i] == p[i - |u|] && p[i - |u|] in p;
    u + p
  }

  /** The display lists every item exactly once, each group in stored order. */
  lemma {:induction false} DisplayIsPartition(cart: seq<CartItem>)
    ensures multiset(DisplayOrder(cart)) == multiset(cart) && |DisplayOrder(cart)| == |cart|
    ensures DisplayOrder(cart)[..|Unpurchased(cart)|] == Unpurchased(cart)
    ensures DisplayOrder(cart)[|Unpurchased(cart)|..] == Purchased(cart)
    ensures IsSubsequence(Unpurchased(cart), cart) && IsSubsequence(Purchased(cart), cart)
  {
    FilterPartition(cart, (x: CartItem) => !x.purchased, (x: CartItem) => x.purchased);
    FilterIsSubsequence(cart, (x: CartItem) => !x.purchased);
    FilterIsSubsequence(cart, (x: CartItem) => x.purchased);
  }
}
