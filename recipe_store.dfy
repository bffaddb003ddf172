/**
 * What the saved-recipe operations compute, as functions of the stored list:
 * the duplicate rule, saving, deleting by id, search and the popular tags.
 */
module RecipeStore {
  import opened Wrappers
  import opened Text
  import opened Seqs
  import opened RecipeModel

  /**
   * The duplicate rule (app.js:725-728, 833-836, 1195-1198): the same `dishName`
   * and the same ingredient list, element by element and in order.
   */
  predicate SameRecipe(a: Recipe, b: Recipe) {
    a.dishName == b.dishName && a.ingredients == b.ingredients
  }

  /** `saved.some(s => SameRecipe(s, r))` */
  function IsSaved(saved: seq<SavedRecipe>, r: Recipe): (b: bool)
    ensures b <==> exists i :: 0 <= i < |saved| && SameRecipe(saved[i].recipe, r)
  {
    if saved == [] then false
    else
      var rest := IsSaved(saved[1..], r);
      assert rest ==> exists i :: 0 <= i < |saved| && SameRecipe(saved[i].recipe, r) by {
        if rest {
          var i :| 0 <= i < |saved[1..]| && SameRecipe(saved[1..][i].recipe, r);
          assert saved[i + 1] == saved[1..][i];
        }
      }
      assert (exists i :: 0 <= i < |saved| && SameRecipe(saved[i].recipe, r)) ==> SameRecipe(saved[0].recipe, r) || rest by {
        if exists i :: 0 <= i < |saved| && SameRecipe(saved[i].recipe, r) {
          var i :| 0 <= i < |saved| && SameRecipe(saved[i].recipe, r);
          if i > 0 {
            assert saved[1..][i - 1] == saved[i];
          }
        }
      }
      SameRecipe(saved[0].recipe, r) || rest
  }

  /** The stored list after saving `r` (app.js:823-851): a duplicate changes nothing, anything else goes in front. */
  function WithSaved(saved: seq<SavedRecipe>, r: Recipe, savedAt: string, id: string): (s: seq<SavedRecipe>)
    ensures IsSaved(saved, r) ==> s == saved
    ensures !IsSaved(saved, r) ==> |s| == |saved| + 1 && s[0] == SavedRecipe(r, savedAt, id) && s[1..] == saved
    ensures IsSaved(s, r)
  {
    if IsSaved(saved, r) then saved
    else
      var s := [SavedRecipe(r, savedAt, id)] + saved;
      assert SameRecipe(s[0].recipe, r);
      s
  }

  /** Saving the same recipe again, at any time and under any id, changes nothing. */
  lemma SaveTwice(saved: seq<SavedRecipe>, r: Recipe, at1: string, id1: string, at2: string, id2: string)
    ensures WithSaved(WithSaved(saved, r, at1, id1), r, at2, id2) == WithSaved(saved, r, at1, id1)
  {
  }

  /** `saved.filter(s => s.id !== id)` (app.js:1177). */
  function RemoveById(saved: seq<SavedRecipe>, id: string): (s: seq<SavedRecipe>)
    ensures forall x :: x in s <==> x in saved && x.id != id
  {
    Filter(saved, (x: SavedRecipe) => x.id != id)
  }

  /** Deleting keeps the other entries in their stored order; an unknown id changes nothing. */
  lemma {:induction false} RemoveByIdKeepsOrder(saved: seq<SavedRecipe>, id: string)
    ensures IsSubsequence(RemoveById(saved, id), saved)
    ensures (forall i :: 0 <= i < |saved| ==> saved[i].id != id) <==> RemoveById(saved, id) == saved
  {
    FilterIsSubsequence(saved, (x: SavedRecipe) => x.id != id);
    FilterKeepsAll(saved, (x: SavedRecipe) => x.id != id);
  }

  /** No entry before position `k` has the id. */
  predicate FirstWithId(saved: seq<SavedRecipe>, id: string, k: int) {
    forall i :: 0 <= i < k && i < |saved| ==> saved[i].id != id
  }

  /** `saved.find(r => r.id === id)` (app.js:1439, 1453): the first entry with the id, if any. */
  function FindSaved(saved: seq<SavedRecipe>, id: string): (found: Option<SavedRecipe>)
    ensures found.None? <==> forall i :: 0 <= i < |saved| ==> saved[i].id != id
    ensures found.Some? ==> exists k :: 0 <= k < |saved| && saved[k] == found.value && saved[k].id == id && FirstWithId(saved, id, k)
  {
    if saved == [] then None
    else if saved[0].id == id then Some(saved[0])
    else
      var rest := FindSaved(saved[1..], id);
      assert forall i :: 1 <= i < |saved| ==> saved[i] == saved[1..][i - 1];
      assert rest.Some? ==> exists k :: 0 <= k < |saved| && saved[k] == rest.value && saved[k].id == id && FirstWithId(saved, id, k) by {
        if rest.Some? {
          var k :| 0 <= k < |saved[1..]| && saved[1..][k] == rest.value && saved[1..][k].id == id && FirstWithId(saved[1..], id, k);
          assert saved[k + 1] == rest.value;
        }
      }
      rest
  }

  /** `recipe.tags || []` */
  function TagsOf(r: Recipe): seq<string> {
    if r.tags.Some? then r.tags.value else []
  }

  /** `recipe.dishName || ''` */
  function NameOf(r: Recipe): string {
    if r.dishName.Some? then r.dishName.value else ""
  }

  /**
   * The search filter of app.js:889-899 for a lower-cased, trimmed query `q`: some
   * lower-cased tag contains `q` with its first `#` removed, or the lower-cased name
   * contains `q` itself.
   */
  predicate Matches(r: Recipe, q: string) {
    (exists i :: 0 <= i < |TagsOf(r)| && Contains(Lower(TagsOf(r)[i]), RemoveFirst(q, '#')))
    || Contains(Lower(NameOf(r)), q)
  }

  /** `loadSavedRecipes(query)`'s list (app.js:886-901). */
  function Search(saved: seq<SavedRecipe>, query: string): (found: seq<SavedRecipe>)
    ensures IsBlank(query) ==> found == saved
    ensures forall x :: x in found <==> x in saved && (IsBlank(query) || Matches(x.recipe, Key(query)))
  {
    if IsBlank(query) then saved else Filter(saved, (x: SavedRecipe) => Matches(x.recipe, Key(query)))
  }

  /** Search results appear in stored order. */
  lemma {:induction false} SearchKeepsOrder(saved: seq<SavedRecipe>, query: string)
    ensures IsSubsequence(Search(saved, query), saved)
  {
    if IsBlank(query) {
      SubsequenceReflexive(saved);
    } else {
      FilterIsSubsequence(saved, (x: SavedRecipe) => Matches(x.recipe, Key(query)));
    }
  }

  lemma {:induction false} SubsequenceReflexive<T(!new)>(s: seq<T>)
    ensures IsSubsequence(s, s)
  {
    if s != [] {
      SubsequenceReflexive(s[1..]);
    }
  }

  /**
   * The name is matched against the query with its `#` still in place: a recipe
   * without tags is never found by a query that has a `#` its name lacks.
   */
  lemma NameMatchKeepsHash(r: Recipe, q: string)
    requires TagsOf(r) == [] && '#' in q && '#' !in Lower(NameOf(r))
    ensures !Matches(r, q)
  {
    MissingCharNotContained(Lower(NameOf(r)), q, '#');
  }

  /** A tag matches a query that adds a `#` in front of it. */
  lemma HashTagMatches(r: Recipe, i: nat, tag: string)
    requires i < |TagsOf(r)| && Lower(TagsOf(r)[i]) == tag && '#' !in tag
    ensures Matches(r, "#" + tag)
  {
    assert RemoveFirst("#" + tag, '#') == tag;
    assert StartsWith(tag, tag);
  }

  /** Every tag of every saved recipe, in stored order (the nested `forEach` of app.js:934-939). */
  function AllTags(saved: seq<SavedRecipe>): seq<string> {
    if saved == [] then [] else AllTags(saved[..|saved| - 1]) + TagsOf(saved[|saved| - 1].recipe)
  }

  /** A tag's number of uses in `all`. */
  function CountIn(all: seq<string>): string -> int {
    t => Count(all, t)
  }

  /**
   * `updatePopularTags`'s list (app.js:934-945): the distinct tags in first-seen order,
   * stably sorted by how often they occur, the first ten of them.
   */
  function PopularTagsOf(saved: seq<SavedRecipe>): seq<string> {
    var all := AllTags(saved);
    Take(RankBy(Distinct(all), CountIn(all)), 10)
  }

  /**
   * The popular tags: at most ten, none twice, each one used; sorted by count from the
   * most used; no tag left out is used more often than one shown; and tags with equal
   * counts keep their first-seen order.
   */
  lemma PopularTagsProperties(saved: seq<SavedRecipe>)
    ensures |PopularTagsOf(saved)| <= 10 && NoDuplicates(PopularTagsOf(saved))
    ensures forall i :: 0 <= i < |PopularTagsOf(saved)| ==> PopularTagsOf(saved)[i] in AllTags(saved)
    ensures forall i, j :: 0 <= i < j < |PopularTagsOf(saved)| ==>
      Count(AllTags(saved), PopularTagsOf(saved)[i]) >= Count(AllTags(saved), PopularTagsOf(saved)[j])
    ensures forall t, i :: t in AllTags(saved) && t !in PopularTagsOf(saved) && 0 <= i < |PopularTagsOf(saved)| ==>
      Count(AllTags(saved), t) <= Count(AllTags(saved), PopularTagsOf(saved)[i])
    ensures |PopularTagsOf(saved)| < 10 ==> forall t :: t in AllTags(saved) ==> t in PopularTagsOf(saved)
  {
    var all := AllTags(saved);
    var top := PopularTagsOf(saved);
    var key := CountIn(all);
    TopOfRanking(Distinct(all), key, 10, top);
    assert forall x :: key(x) == Count(all, x);
  }

  /** Tags with equal counts appear in the order of their first use (app.js:943 sorts stably). */
  lemma {:induction false} PopularTagsTies(saved: seq<SavedRecipe>, k: int)
    ensures var all := AllTags(saved);
      Filter(RankBy(Distinct(all), CountIn(all)), HasKey(CountIn(all), k))
        == Filter(Distinct(all), HasKey(CountIn(all), k))
  {
    var all := AllTags(saved);
    RankByKeepsTies(Distinct(all), CountIn(all), k);
  }

  /** Frequencies a=2, b=1, c=3 give the order c, a, b. */
  lemma PopularTagsExample()
    ensures var r := Recipe(None, None, None, None, None, None, None, None, None, None, Some(["a", "a", "b", "c", "c", "c"]));
            PopularTagsOf([SavedRecipe(r, "t", "1")]) == ["c", "a", "b"]
  {
    var r := Recipe(None, None, None, None, None, None, None, None, None, None, Some(["a", "a", "b", "c", "c", "c"]));
    var all := ["a", "a", "b", "c", "c", "c"];
    assert AllTags([SavedRecipe(r, "t", "1")]) == all by {
      assert [SavedRecipe(r, "t", "1")][..0] == [];
    }
    assert "a" != "b" && "a" != "c" && "b" != "c" by {
      assert "a"[0] != "b"[0] && "a"[0] != "c"[0] && "b"[0] != "c"[0];
    }
    ScanExample("a", "b", "c");
    RankExample("a", "b", "c", CountIn(all));
  }

  lemma ScanExample<T(!new)>(a: T, b: T, c: T)
    requires a != b && a != c && b != c
    ensures var all := [a, a, b, c, c, c];
      Distinct(all) == [a, b, c] && Count(all, a) == 2 && Count(all, b) == 1 && Count(all, c) == 3
  {
    var all := [a, a, b, c, c, c];
    var p1, p2, p3, p4, p5 := [a], [a, a], [a, a, b], [a, a, b, c], [a, a, b, c, c];
    assert p1[..0] == [] && p2[..1] == p1 && p3[..2] == p2 && p4[..3] == p3 && p5[..4] == p4 && all[..5] == p5;
    assert Distinct(p1) == [a];
    assert Distinct(p2) == [a];
    assert Distinct(p3) == [a, b];
    assert Distinct(p4) == [a, b, c];
    assert Distinct(p5) == [a, b, c];
    assert Count(p1, a) == 1 && Count(p1, b) == 0 && Count(p1, c) == 0;
    assert Count(p2, a) == 2 && Count(p2, b) == 0 && Count(p2, c) == 0;
    assert Count(p3, a) == 2 && Count(p3, b) == 1 && Count(p3, c) == 0;
    assert Count(p4, a) == 2 && Count(p4, b) == 1 && Count(p4, c) == 1;
    assert Count(p5, a) == 2 && Count(p5, b) == 1 && Count(p5, c) == 2;
  }

  lemma RankExample<T(!new)>(a: T, b: T, c: T, key: T -> int)
    requires key(a) == 2 && key(b) == 1 && key(c) == 3
    ensures RankBy([a, b, c], key) == [c, a, b]
  {
    RankStep1(a, key);
    RankStep2(a, b, key);
    assert [a, b, c][..2] == [a, b];
    assert [a, b, c][2] == c;
    assert RankBy([a, b, c], key) == InsertByKey(c, [a, b], key);
  }

  lemma RankStep1<T(!new)>(a: T, key: T -> int)
    ensures RankBy([a], key) == [a]
  {
    assert [a][..0] == [];
  }

  lemma RankStep2<T(!new)>(a: T, b: T, key: T -> int)
    requires key(a) >= key(b)
    ensures RankBy([a, b], key) == [a, b]
  {
    RankStep1(a, key);
    assert [a, b][..1] == [a];
    assert [a][1..] == [];
  }
}
