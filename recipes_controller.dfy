/** The decision logic of the recipes controller: the filter pipeline of the
    listing page and the owner-or-admin gate in front of Edit and Delete. */
module RecipesController {
  import opened Wrappers
  import opened Text
  import opened Schema
  import opened RecipeServices

  // ----- order-preserving filtering -----

  /** `a` is `b` with some elements dropped and the rest in their original order. */
  predicate IsSubsequence(a: seq<RecipeView>, b: seq<RecipeView>)
    decreases |b|
  {
    if a == [] then true
    else if b == [] then false
    else (a[0] == b[0] && IsSubsequence(a[1..], b[1..])) || IsSubsequence(a, b[1..])
  }

  /** LINQ `Where(p).ToList()`. */
  function Where(s: seq<RecipeView>, p: RecipeView -> bool): (r: seq<RecipeView>)
    ensures forall v :: v in r <==> v in s && p(v)
    ensures IsSubsequence(r, s)
    ensures forall v :: multiset(r)[v] == if p(v) then multiset(s)[v] else 0
  {
    assert s != [] ==> s == [s[0]] + s[1..];
    if s == [] then []
    else if p(s[0]) then
      var rest := Where(s[1..], p);
      assert ([s[0]] + rest)[1..] == rest;
      [s[0]] + rest
    else Where(s[1..], p)
  }

  /** Filtering with a predicate that every element satisfies changes nothing. */
  lemma {:induction false} WhereAll(s: seq<RecipeView>, p: RecipeView -> bool)
    requires forall v :: v in s ==> p(v)
    ensures Where(s, p) == s
  {
    if s != [] {
      WhereAll(s[1..], p);
    }
  }

  /** Filters that agree on every element give the same result. */
  lemma {:induction false} WhereCongruent(s: seq<RecipeView>, p: RecipeView -> bool, q: RecipeView -> bool)
    requires forall v :: v in s ==> p(v) == q(v)
    ensures Where(s, p) == Where(s, q)
  {
    if s != [] {
      WhereCongruent(s[1..], p, q);
    }
  }

  /** Filtering twice is filtering once by the conjunction. */
  lemma {:induction false} WhereWhere(s: seq<RecipeView>, p: RecipeView -> bool, q: RecipeView -> bool,
                                      pq: RecipeView -> bool)
    requires forall v :: v in s ==> pq(v) == (p(v) && q(v))
    ensures Where(Where(s, p), q) == Where(s, pq)
  {
    if s != [] {
      WhereWhere(s[1..], p, q, pq);
      if p(s[0]) {
        var rest := Where(s[1..], p);
        assert ([s[0]] + rest)[1..] == rest;
      }
    }
  }

  // ----- the three filters of Index -----

  /** Some ingredient name contains `term`, ignoring case. */
  predicate HasIngredientLike(v: RecipeView, term: string) {
    exists k :: 0 <= k < |v.ingredients| && ContainsIgnoreCase(v.ingredients[k], term)
  }

  /** The search test: the title or some ingredient name contains `term`. */
  predicate MatchesTerm(v: RecipeView, term: string) {
    ContainsIgnoreCase(v.title, term) || HasIngredientLike(v, term)
  }

  /** The name of the first dropdown entry with this id, or None when there is none. */
  function FindCategoryName(categories: seq<DropdownItem>, id: int): (name: Option<string>)
    ensures name.None? <==> forall k :: 0 <= k < |categories| ==> categories[k].id != id
    ensures name.Some? ==> exists k :: && 0 <= k < |categories| && categories[k] == DropdownItem(id, name.value)
                                        && forall j :: 0 <= j < k ==> categories[j].id != id
  {
    if categories == [] then None
    else if categories[0].id == id then Some(categories[0].name)
    else
      var rest := FindCategoryName(categories[1..], id);
      assert forall k :: 0 <= k < |categories| - 1 ==> categories[1..][k] == categories[k + 1];
      assert rest.Some? ==> exists k :: && 0 <= k < |categories| && categories[k] == DropdownItem(id, rest.value)
                                         && forall j :: 0 <= j < k ==> categories[j].id != id by {
        if rest.Some? {
          var k :| && 0 <= k < |categories[1..]| && categories[1..][k] == DropdownItem(id, rest.value)
                   && forall j :: 0 <= j < k ==> categories[1..][j].id != id;
          assert categories[k + 1] == DropdownItem(id, rest.value);
          assert forall j :: 0 <= j < k + 1 ==> categories[j].id != id;
        }
      }
      rest
  }

  /** The category name Index filters by: None when no category was
      requested or the requested id is not in the dropdown list. */
  function RequestedCategory(categories: seq<DropdownItem>, categoryId: Option<int>): Option<string> {
    if categoryId.None? then None else FindCategoryName(categories, categoryId.value)
  }

  /** Step 1: with a non-blank `q`, keep recipes matching `Trim(q)`. */
  function SearchFilter(recipes: seq<RecipeView>, q: Option<string>): (r: seq<RecipeView>)
    ensures IsNullOrWhiteSpace(q) ==> r == recipes
    ensures forall v :: v in r <==> v in recipes && (IsNullOrWhiteSpace(q) || MatchesTerm(v, Trim(q.value)))
  {
    if IsNullOrWhiteSpace(q) then recipes
    else
      var term := Trim(q.value);
      Where(recipes, v => MatchesTerm(v, term))
  }

  /** Step 2: with a known, non-empty category name, keep recipes of that category. */
  function CategoryFilter(recipes: seq<RecipeView>, categories: seq<DropdownItem>, categoryId: Option<int>): (r: seq<RecipeView>)
    ensures IsNullOrEmpty(RequestedCategory(categories, categoryId)) ==> r == recipes
    ensures forall v :: v in r <==>
              && v in recipes
              && (IsNullOrEmpty(RequestedCategory(categories, categoryId)) ||
                  EqualsIgnoreCase(v.category, RequestedCategory(categories, categoryId).value))
  {
    if categoryId.None? then recipes
    else
      var cat := FindCategoryName(categories, categoryId.value);
      if IsNullOrEmpty(cat) then recipes
      else Where(recipes, (v: RecipeView) => EqualsIgnoreCase(v.category, cat.value))
  }

  /** Step 3: with a non-blank `ingredient`, keep recipes having a matching ingredient. */
  function IngredientFilter(recipes: seq<RecipeView>, ingredient: Option<string>): (r: seq<RecipeView>)
    ensures IsNullOrWhiteSpace(ingredient) ==> r == recipes
    ensures forall v :: v in r <==> v in recipes && (IsNullOrWhiteSpace(ingredient) || HasIngredientLike(v, Trim(ingredient.value)))
  {
    if IsNullOrWhiteSpace(ingredient) then recipes
    else
      var ingr := Trim(ingredient.value);
      Where(recipes, v => HasIngredientLike(v, ingr))
  }

  /** The recipes Index shows: the three filters applied in order. A recipe is
      kept iff it is listed and passes every enabled filter. */
  function FilterRecipes(all: seq<RecipeView>, categories: seq<DropdownItem>,
                         q: Option<string>, categoryId: Option<int>, ingredient: Option<string>): (r: seq<RecipeView>)
    ensures forall v :: v in r <==> v in all && Selected(v, RequestedCategory(categories, categoryId), q, ingredient)
  {
    IngredientFilter(CategoryFilter(SearchFilter(all, q), categories, categoryId), ingredient)
  }

  /** Whether one recipe survives all three filters, stated per filter: a
      filter whose input is blank or unresolvable accepts everything. */
  predicate Selected(v: RecipeView, categoryName: Option<string>, q: Option<string>, ingredient: Option<string>) {
    && (IsNullOrWhiteSpace(q) || MatchesTerm(v, Trim(q.value)))
    && (IsNullOrEmpty(categoryName) || EqualsIgnoreCase(v.category, categoryName.value))
    && (IsNullOrWhiteSpace(ingredient) || HasIngredientLike(v, Trim(ingredient.value)))
  }

  /** The pipeline is a single filter by the conjunction of the three tests. */
  lemma IndexIsOneFilter(all: seq<RecipeView>, categories: seq<DropdownItem>,
                         q: Option<string>, categoryId: Option<int>, ingredient: Option<string>)
    ensures FilterRecipes(all, categories, q, categoryId, ingredient) ==
            Where(all, v => Selected(v, RequestedCategory(categories, categoryId), q, ingredient))
  {
    var cat := RequestedCategory(categories, categoryId);
    var p1 := (v: RecipeView) => IsNullOrWhiteSpace(q) || MatchesTerm(v, Trim(q.value));
    var p2 := (v: RecipeView) => IsNullOrEmpty(cat) || EqualsIgnoreCase(v.category, cat.value);
    var p3 := (v: RecipeView) => IsNullOrWhiteSpace(ingredient) || HasIngredientLike(v, Trim(ingredient.value));
    var p12 := (v: RecipeView) => p1(v) && p2(v);
    var all3 := (v: RecipeView) => Selected(v, cat, q, ingredient);

    var s1 := SearchFilter(all, q);
    if IsNullOrWhiteSpace(q) {
      WhereAll(all, p1);
    } else {
      WhereCongruent(all, (v: RecipeView) => MatchesTerm(v, Trim(q.value)), p1);
    }
    assert s1 == Where(all, p1);

    var s2 := CategoryFilter(s1, categories, categoryId);
    if IsNullOrEmpty(cat) {
      WhereAll(s1, p2);
    } else {
      WhereCongruent(s1, (v: RecipeView) => EqualsIgnoreCase(v.category, cat.value), p2);
    }
    assert s2 == Where(s1, p2);
    WhereWhere(all, p1, p2, p12);

    var s3 := IngredientFilter(s2, ingredient);
    if IsNullOrWhiteSpace(ingredient) {
      WhereAll(s2, p3);
    } else {
      WhereCongruent(s2, (v: RecipeView) => HasIngredientLike(v, Trim(ingredient.value)), p3);
    }
    assert s3 == Where(s2, p3);
    WhereWhere(all, p12, p3, all3);
  }

  /** Index never reorders: its result is a subsequence of the full listing. */
  lemma IndexKeepsOrder(all: seq<RecipeView>, categories: seq<DropdownItem>,
                        q: Option<string>, categoryId: Option<int>, ingredient: Option<string>)
    ensures IsSubsequence(FilterRecipes(all, categories, q, categoryId, ingredient), all)
  {
    IndexIsOneFilter(all, categories, q, categoryId, ingredient);
  }

  /** With no search term, no category and no ingredient, Index shows everything. */
  lemma IndexNoFilters(all: seq<RecipeView>, categories: seq<DropdownItem>,
                       q: Option<string>, ingredient: Option<string>)
    requires IsNullOrWhiteSpace(q) && IsNullOrWhiteSpace(ingredient)
    ensures FilterRecipes(all, categories, q, None, ingredient) == all
  {
  }

  /** Looking the category up in the dropdown list is looking it up in the
      Categories table, whatever order the list is in. */
  lemma {:induction false} FindCategoryNameIsLookup(categories: seq<DropdownItem>, m: map<int, string>, id: int)
    requires Enumerates(categories, m)
    ensures FindCategoryName(categories, id) == if id in m then Some(m[id]) else None
  {
    if id in m {
      var k :| 0 <= k < |categories| && categories[k].id == id;
    }
  }

  // ----- the owner-or-admin gate -----

  /** Edit and Delete proceed for an administrator, or for a signed-in user
      who owns the recipe; `ViewBag.CanDelete` is the same test. */
  function MayModify(svc: RecipeService, id: int, isAdmin: bool, userId: Option<string>): (b: bool)
    reads svc
    ensures b <==> isAdmin || (userId.Some? && userId.value != [] && id in svc.recipes && svc.recipes[id].userId == userId.value)
  {
    isAdmin || (!IsNullOrEmpty(userId) && svc.IsOwner(id, userId.value))
  }

  /** What an action answers. */
  datatype ActionResult =
    | Forbid
    | NotFound
    | EditView(form: RecipeEditModel, canDelete: bool)
    | RedisplayEdit(canDelete: bool)
    | RedirectToIndex
    | RedirectToEdit(error: StoreError)

  /** GET Edit: the gate, then the edit form of the recipe. */
  method EditForm(svc: RecipeService, id: int, isAdmin: bool, userId: Option<string>) returns (res: ActionResult)
    requires svc.Valid()
    ensures res == Forbid <==> !MayModify(svc, id, isAdmin, userId)
    ensures res == NotFound <==> MayModify(svc, id, isAdmin, userId) && id !in svc.recipes
    ensures res.EditView? ==> Some(res.form) == svc.GetForEdit(id) && res.canDelete == MayModify(svc, id, isAdmin, userId)
    ensures res.EditView? ==> res.canDelete
    ensures MayModify(svc, id, isAdmin, userId) && id in svc.recipes ==>
            res == EditView(ToEditModel(id, svc.recipes[id]), true)
  {
    if !isAdmin {
      if IsNullOrEmpty(userId) || !svc.IsOwner(id, userId.value) {
        return Forbid;
      }
    }
    var recipe := svc.GetForEdit(id);
    if recipe.None? {
      return NotFound;
    }
    var canDelete := isAdmin || (!IsNullOrEmpty(userId) && svc.IsOwner(id, userId.value));
    return EditView(recipe.value, canDelete);
  }

  /** The service model POST Edit sends: the submitted form, with the path of
      a newly uploaded image when there is one. */
  function Submitted(form: RecipeEditModel, uploadedImage: Option<string>): (m: RecipeEditModel)
    ensures m.(imagePath := form.imagePath) == form
    ensures m.imagePath == if uploadedImage.Some? then uploadedImage else form.imagePath
  {
    if uploadedImage.Some? then form.(imagePath := uploadedImage) else form
  }

  /** POST Edit: the gate, form validation, then the store update. A store
      failure redirects back to the edit page. */
  method EditSubmit(svc: RecipeService, id: int, isAdmin: bool, userId: Option<string>,
                    form: RecipeEditModel, formValid: bool, uploadedImage: Option<string>) returns (res: ActionResult)
    requires svc.Valid()
    modifies svc
    ensures svc.Valid()
    ensures !old(MayModify(svc, id, isAdmin, userId)) ==> res == Forbid && unchanged(svc)
    ensures old(MayModify(svc, id, isAdmin, userId)) && !formValid ==> res == RedisplayEdit(true) && unchanged(svc)
    ensures old(MayModify(svc, id, isAdmin, userId)) && formValid ==>
      var m := Submitted(form, uploadedImage);
      var v := LinkViolation(m.categoryId, m.ingredientIds, old(svc.categories), old(svc.ingredients));
      && svc.categories == old(svc.categories) && svc.ingredients == old(svc.ingredients)
      && svc.nextId == old(svc.nextId)
      && (id !in old(svc.recipes) ==> res == RedirectToIndex && svc.recipes == old(svc.recipes))
      && (id in old(svc.recipes) && v.Some? ==> res == RedirectToEdit(v.value) && svc.recipes == old(svc.recipes))
      && (id in old(svc.recipes) && v.None? ==>
            res == RedirectToIndex && svc.recipes == old(svc.recipes)[id := ApplyEdit(old(svc.recipes)[id], m)])
  {
    if !isAdmin {
      if IsNullOrEmpty(userId) || !svc.IsOwner(id, userId.value) {
        return Forbid;
      }
    }
    if !formValid {
      var canDelete := isAdmin || (!IsNullOrEmpty(userId) && svc.IsOwner(id, userId.value));
      return RedisplayEdit(canDelete);
    }
    var outcome := svc.Edit(id, Submitted(form, uploadedImage));
    if outcome.Fail? {
      return RedirectToEdit(outcome.error);
    }
    return RedirectToIndex;
  }

  /** POST Delete: the gate, then the store removal. */
  method Delete(svc: RecipeService, id: int, isAdmin: bool, userId: Option<string>) returns (res: ActionResult)
    requires svc.Valid()
    modifies svc
    ensures svc.Valid()
    ensures !old(MayModify(svc, id, isAdmin, userId)) ==> res == Forbid && unchanged(svc)
    ensures old(MayModify(svc, id, isAdmin, userId)) ==>
      && res == RedirectToIndex
      && svc.recipes == old(svc.recipes) - {id}
      && svc.categories == old(svc.categories) && svc.ingredients == old(svc.ingredients)
      && svc.nextId == old(svc.nextId)
  {
    if !isAdmin {
      if IsNullOrEmpty(userId) || !svc.IsOwner(id, userId.value) {
        return Forbid;
      }
    }
    svc.Delete(id);
    return RedirectToIndex;
  }

  /** GET Index: loads the listing and both dropdowns, then filters. */
  method Index(svc: RecipeService, q: Option<string>, categoryId: Option<int>, ingredient: Option<string>)
    returns (shown: seq<RecipeView>, categoryItems: seq<DropdownItem>, ingredientItems: seq<DropdownItem>)
    requires svc.Valid()
    ensures Enumerates(categoryItems, svc.categories) && Enumerates(ingredientItems, svc.ingredients)
    ensures shown == FilterRecipes(svc.GetAll(), categoryItems, q, categoryId, ingredient)
    ensures IsSubsequence(shown, svc.GetAll())
    ensures forall v :: v in shown <==>
      v in svc.GetAll() &&
      Selected(v, if categoryId.Some? && categoryId.value in svc.categories then Some(svc.categories[categoryId.value]) else None,
               q, ingredient)
  {
    var all := svc.GetAll();
    categoryItems := svc.GetCategories();
    ingredientItems := svc.GetIngredients();
    shown := FilterRecipes(all, categoryItems, q, categoryId, ingredient);
    IndexKeepsOrder(all, categoryItems, q, categoryId, ingredient);
    if categoryId.Some? {
      FindCategoryNameIsLookup(categoryItems, svc.categories, categoryId.value);
    }
  }
}
