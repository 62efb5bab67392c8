/** The relational shape of the recipe store: recipes, the transfer models the
    service accepts and returns, the (RecipeId, IngredientId) join rows, and
    the store constraints whose violation makes a save fail. */
module Schema {
  import opened Wrappers
  import opened Text

  /** Largest value of a 32-bit C# `int`; recipe ids come from an `int`
      identity column. */
  const IntMax: int := 0x7fff_ffff

  /** A stored recipe. `ingredientIds` stands for its join rows; the model keeps
      them in the order they were submitted (the store itself fixes no order). */
  datatype Recipe = Recipe(
    title: string,
    instructions: string,
    userId: string,
    categoryId: int,
    imagePath: Option<string>,
    ingredientIds: seq<int>)

  /** What the web layer hands to Create. */
  datatype RecipeCreateModel = RecipeCreateModel(
    title: string,
    instructions: string,
    categoryId: int,
    ingredientIds: seq<int>,
    imagePath: Option<string>)

  /** What Edit accepts and GetForEdit returns. */
  datatype RecipeEditModel = RecipeEditModel(
    id: int,
    title: string,
    instructions: string,
    categoryId: int,
    ingredientIds: seq<int>,
    imagePath: Option<string>)

  /** The flat projection shared by the listing and the details page. */
  datatype RecipeView = RecipeView(
    id: int,
    title: string,
    instructions: string,
    category: string,
    ingredients: seq<string>,
    authorId: string,
    imagePath: Option<string>)

  /** An (id, name) pair of the category or ingredient dropdown. */
  datatype DropdownItem = DropdownItem(id: int, name: string)

  /** Why the store refuses to save. */
  datatype StoreError =
    | DuplicateKey         // two join rows with the same (RecipeId, IngredientId)
    | ForeignKeyViolation  // a CategoryId or IngredientId with no row behind it
    | IdentityOverflow     // the int identity column is exhausted

  predicate Distinct(s: seq<int>) {
    forall i, j :: 0 <= i < j < |s| ==> s[i] != s[j]
  }

  /** The constraints every stored recipe satisfies: its category and its
      ingredients exist, and no ingredient is linked twice. */
  predicate WellFormed(r: Recipe, categories: map<int, string>, ingredients: map<int, string>) {
    && r.categoryId in categories
    && Distinct(r.ingredientIds)
    && forall k :: 0 <= k < |r.ingredientIds| ==> r.ingredientIds[k] in ingredients
  }

  /** The constraint a save of a recipe with these links violates, if any.
      A duplicate join key is reported before a missing reference. */
  function LinkViolation(categoryId: int, ingredientIds: seq<int>,
                         categories: map<int, string>, ingredients: map<int, string>): (e: Option<StoreError>)
    ensures e == Some(DuplicateKey) <==> !Distinct(ingredientIds)
    ensures e == Some(ForeignKeyViolation) <==>
      Distinct(ingredientIds) &&
      (categoryId !in categories || exists k :: 0 <= k < |ingredientIds| && ingredientIds[k] !in ingredients)
    ensures e != Some(IdentityOverflow)
  {
    if !Distinct(ingredientIds) then Some(DuplicateKey)
    else if categoryId !in categories then Some(ForeignKeyViolation)
    else if exists k :: 0 <= k < |ingredientIds| && ingredientIds[k] !in ingredients then Some(ForeignKeyViolation)
    else None
  }

  /** A save is refused exactly when the recipe it would store is not well-formed. */
  lemma LinkViolationIffIllFormed(r: Recipe, categories: map<int, string>, ingredients: map<int, string>)
    ensures LinkViolation(r.categoryId, r.ingredientIds, categories, ingredients).None?
            <==> WellFormed(r, categories, ingredients)
  {
  }

  /** The recipe Create stores: fields copied from the model, owner set to the caller. */
  function NewRecipe(m: RecipeCreateModel, userId: string): (r: Recipe)
    ensures r.userId == userId
    ensures forall id :: ToEditModel(id, r) ==
              RecipeEditModel(id, m.title, m.instructions, m.categoryId, m.ingredientIds, m.imagePath)
  {
    Recipe(m.title, m.instructions, userId, m.categoryId, m.imagePath, m.ingredientIds)
  }

  /** The recipe Edit stores: title, instructions and category overwritten, the
      image kept when the new path is blank, the ingredient links replaced, the
      owner untouched. `m.id` is ignored: the caller's id selects the recipe. */
  function ApplyEdit(r: Recipe, m: RecipeEditModel): (e: Recipe)
    ensures e.userId == r.userId
    ensures e.title == m.title && e.instructions == m.instructions && e.categoryId == m.categoryId
    ensures e.ingredientIds == m.ingredientIds
    ensures !IsNullOrWhiteSpace(m.imagePath) ==> e.imagePath == m.imagePath
    ensures IsNullOrWhiteSpace(m.imagePath) ==> e.imagePath == r.imagePath
    ensures !IsNullOrWhiteSpace(r.imagePath) ==> !IsNullOrWhiteSpace(e.imagePath)
  {
    Recipe(m.title, m.instructions, r.userId, m.categoryId,
           if IsNullOrWhiteSpace(m.imagePath) then r.imagePath else m.imagePath,
           m.ingredientIds)
  }

  /** The edit form of a stored recipe. It carries every field Edit
      overwrites, so submitting it back unchanged leaves the recipe as it was. */
  function ToEditModel(id: int, r: Recipe): (e: RecipeEditModel)
    ensures e.id == id
    ensures e.ingredientIds == r.ingredientIds && e.imagePath == r.imagePath
    ensures ApplyEdit(r, e) == r
  {
    RecipeEditModel(id, r.title, r.instructions, r.categoryId, r.ingredientIds, r.imagePath)
  }

  /** The list/details projection: category and ingredient ids are replaced by names. */
  function ToView(id: int, r: Recipe, categories: map<int, string>, ingredients: map<int, string>): (v: RecipeView)
    requires WellFormed(r, categories, ingredients)
    ensures v.id == id && v.title == r.title && v.instructions == r.instructions
    ensures v.authorId == r.userId && v.imagePath == r.imagePath
    ensures v.category == categories[r.categoryId]
    ensures |v.ingredients| == |r.ingredientIds|
    ensures forall k :: 0 <= k < |r.ingredientIds| ==> v.ingredients[k] == ingredients[r.ingredientIds[k]]
  {
    RecipeView(id, r.title, r.instructions, categories[r.categoryId],
               seq(|r.ingredientIds|, k requires 0 <= k < |r.ingredientIds| => ingredients[r.ingredientIds[k]]),
               r.userId, r.imagePath)
  }

  /** After an edit, the edit form shows exactly what was submitted, except
      that a blank image path shows the image kept from before. */
  lemma EditThenForm(id: int, r: Recipe, m: RecipeEditModel)
    ensures !IsNullOrWhiteSpace(m.imagePath) ==> ToEditModel(id, ApplyEdit(r, m)) == m.(id := id)
    ensures IsNullOrWhiteSpace(m.imagePath) ==> ToEditModel(id, ApplyEdit(r, m)) == m.(id := id, imagePath := r.imagePath)
  {
  }

  /** Editing twice with the same model is the same as editing once. */
  lemma ApplyEditIdempotent(r: Recipe, m: RecipeEditModel)
    ensures ApplyEdit(ApplyEdit(r, m), m) == ApplyEdit(r, m)
  {
  }

  // ----- join rows -----

  /** The join rows of recipe `id`. */
  function RowsOf(id: int, ids: seq<int>): set<(int, int)> {
    set i | i in ids :: (id, i)
  }

  /** All (RecipeId, IngredientId) rows of the store. */
  ghost function JoinRows(recipes: map<int, Recipe>): set<(int, int)> {
    set id, i | id in recipes && i in recipes[id].ingredientIds :: (id, i)
  }

  /** One join row per requested ingredient id, when the ids are distinct. */
  lemma {:induction false} RowsOfCount(id: int, ids: seq<int>)
    requires Distinct(ids)
    ensures |RowsOf(id, ids)| == |ids|
  {
    if ids != [] {
      var tail := ids[1..];
      assert Distinct(tail) by {
        forall i, j | 0 <= i < j < |tail| ensures tail[i] != tail[j] {
          assert tail[i] == ids[i + 1] && tail[j] == ids[j + 1];
        }
      }
      RowsOfCount(id, tail);
      assert RowsOf(id, ids) == {(id, ids[0])} + RowsOf(id, tail) by {
        forall p | p in RowsOf(id, ids) ensures p in {(id, ids[0])} + RowsOf(id, tail) {
          var i :| i in ids && p == (id, i);
          if i != ids[0] {
            var k :| 0 <= k < |ids| && ids[k] == i;
            assert tail[k - 1] == i;
          }
        }
      }
      assert (id, ids[0]) !in RowsOf(id, tail);
    }
  }

  /** Adding a recipe under a fresh id adds exactly its rows. */
  lemma JoinRowsInsert(recipes: map<int, Recipe>, id: int, r: Recipe)
    requires id !in recipes
    ensures JoinRows(recipes[id := r]) == JoinRows(recipes) + RowsOf(id, r.ingredientIds)
  {
  }

  /** Replacing a recipe replaces its rows and keeps every other recipe's rows. */
  lemma JoinRowsReplace(recipes: map<int, Recipe>, id: int, r: Recipe)
    requires id in recipes
    ensures JoinRows(recipes[id := r]) ==
            (JoinRows(recipes) - RowsOf(id, recipes[id].ingredientIds)) + RowsOf(id, r.ingredientIds)
  {
  }

  /** Removing a recipe removes exactly the rows that name it (the cascade). */
  lemma JoinRowsRemove(recipes: map<int, Recipe>, id: int)
    ensures JoinRows(recipes - {id}) == set p | p in JoinRows(recipes) && p.0 != id
  {
  }

  // ----- listing -----

  /** The recipes with ids in [lo, hi), projected, in ascending id order. */
  function Listing(recipes: map<int, Recipe>, categories: map<int, string>, ingredients: map<int, string>,
                   lo: int, hi: int): (vs: seq<RecipeView>)
    requires forall id :: id in recipes ==> WellFormed(recipes[id], categories, ingredients)
    ensures forall k :: 0 <= k < |vs| ==>
      lo <= vs[k].id < hi && vs[k].id in recipes && vs[k] == ToView(vs[k].id, recipes[vs[k].id], categories, ingredients)
    ensures forall j, k :: 0 <= j < k < |vs| ==> vs[j].id < vs[k].id
    decreases hi - lo
  {
    if lo >= hi then []
    else
      var rest := Listing(recipes, categories, ingredients, lo + 1, hi);
      if lo in recipes then
        var v := ToView(lo, recipes[lo], categories, ingredients);
        assert v.id == lo;
        var vs := [v] + rest;
        assert forall k :: 0 < k < |vs| ==> vs[k] == rest[k - 1];
        vs
      else rest
  }

  /** Every recipe with an id in [lo, hi) appears in the listing. */
  lemma {:induction false} ListingCovers(recipes: map<int, Recipe>, categories: map<int, string>,
                                         ingredients: map<int, string>, lo: int, hi: int, id: int)
    requires forall id :: id in recipes ==> WellFormed(recipes[id], categories, ingredients)
    requires id in recipes && lo <= id < hi
    ensures exists k :: 0 <= k < |Listing(recipes, categories, ingredients, lo, hi)| &&
                        Listing(recipes, categories, ingredients, lo, hi)[k].id == id
    decreases hi - lo
  {
    var vs := Listing(recipes, categories, ingredients, lo, hi);
    if id == lo {
      assert vs[0].id == id;
    } else {
      ListingCovers(recipes, categories, ingredients, lo + 1, hi, id);
      var rest := Listing(recipes, categories, ingredients, lo + 1, hi);
      var k :| 0 <= k < |rest| && rest[k].id == id;
      if lo in recipes {
        assert vs[k + 1].id == id;
      } else {
        assert vs[k].id == id;
      }
    }
  }

  // ----- dropdowns -----

  /** `items` lists every entry of `m` exactly once, in some order. */
  predicate Enumerates(items: seq<DropdownItem>, m: map<int, string>) {
    && (forall k :: 0 <= k < |items| ==> items[k].id in m && m[items[k].id] == items[k].name)
    && (forall id :: id in m ==> exists k :: 0 <= k < |items| && items[k].id == id)
    && (forall j, k :: 0 <= j < k < |items| ==> items[j].id != items[k].id)
  }

  /** Some element of a non-empty set. */
  method PickFrom(s: set<int>) returns (x: int)
    requires s != {}
    ensures x in s
  {
    // A set with no element is empty; this case split gives the solver the
    // element whose existence the choice below needs.
    if forall y :: y !in s {
      assert false;
    }
    x :| x in s;
  }

  /** Lists a reference table (categories or ingredients) as dropdown items.
      The table has no defined order, so the order of the result is arbitrary. */
  method ListItems(m: map<int, string>) returns (items: seq<DropdownItem>)
    ensures Enumerates(items, m)
  {
    items := [];
    var rest := m.Keys;
    while rest != {}
      invariant rest <= m.Keys
      invariant forall k :: 0 <= k < |items| ==> items[k].id in m.Keys - rest && m[items[k].id] == items[k].name
      invariant forall id :: id in m.Keys - rest ==> exists k :: 0 <= k < |items| && items[k].id == id
      invariant forall j, k :: 0 <= j < k < |items| ==> items[j].id != items[k].id
      decreases rest
    {
      var id := PickFrom(rest);
      ghost var before, restBefore := items, rest;
      items := items + [DropdownItem(id, m[id])];
      rest := rest - {id};
      forall j | j in m.Keys - rest ensures exists k :: 0 <= k < |items| && items[k].id == j {
        if j == id {
          assert items[|items| - 1].id == j;
        } else {
          assert j in m.Keys - restBefore;
          var k :| 0 <= k < |before| && before[k].id == j;
          assert items[k].id == j;
        }
      }
    }
    assert m.Keys - rest == m.Keys;
    forall id | id in m ensures exists k :: 0 <= k < |items| && items[k].id == id {
      assert id in m.Keys - rest;
    }
  }
}
