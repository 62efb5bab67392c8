/** The recipe service over an in-memory recipe table. Each method is one unit
    of work: it either commits all its changes or, when the store refuses the
    save, leaves the whole store as it was. */
module RecipeServices {
  import opened Wrappers
  import opened Text
  import opened Schema

  class RecipeService {
    /** The Recipes table, keyed by id; join rows live inside each record. */
    var recipes: map<int, Recipe>
    /** The next value of the identity column. */
    var nextId: int
    /** Reference data: the Categories and Ingredients tables (id to name). */
    var categories: map<int, string>
    var ingredients: map<int, string>

    /** Ids are positive 32-bit values below the identity counter, and every
        stored recipe satisfies the key and foreign-key constraints. */
    ghost predicate Valid()
      reads this
    {
      && 1 <= nextId <= IntMax + 1
      && (forall id :: id in recipes ==> 1 <= id < nextId)
      && (forall id :: id in recipes ==> WellFormed(recipes[id], categories, ingredients))
    }

    /** An empty recipe table over seeded reference data. */
    constructor (categories: map<int, string>, ingredients: map<int, string>)
      ensures Valid()
      ensures recipes == map[] && nextId == 1
      ensures this.categories == categories && this.ingredients == ingredients
    {
      recipes := map[];
      nextId := 1;
      this.categories := categories;
      this.ingredients := ingredients;
    }

    /** CreateAsync: stores a new recipe owned by `userId` under a fresh id. */
    method Create(model: RecipeCreateModel, userId: string) returns (r: Result<int, StoreError>)
      requires Valid()
      modifies this
      ensures Valid()
      ensures categories == old(categories) && ingredients == old(ingredients)
      ensures var v := LinkViolation(model.categoryId, model.ingredientIds, categories, ingredients);
              && (v.Some? ==> r == Failure(v.value))
              && (v.None? && old(nextId) > IntMax ==> r == Failure(IdentityOverflow))
              && (v.None? && old(nextId) <= IntMax ==> r.Success?)
      ensures r.Failure? ==> recipes == old(recipes) && nextId == old(nextId)
      ensures r.Success? ==>
        && 0 < r.value <= IntMax
        && r.value == old(nextId) && nextId == old(nextId) + 1
        && r.value !in old(recipes)
        && recipes == old(recipes)[r.value := NewRecipe(model, userId)]
        && JoinRows(recipes) == JoinRows(old(recipes)) + RowsOf(r.value, model.ingredientIds)
        && |RowsOf(r.value, model.ingredientIds)| == |model.ingredientIds|
    {
      var v := LinkViolation(model.categoryId, model.ingredientIds, categories, ingredients);
      if v.Some? {
        return Failure(v.value);
      }
      if nextId > IntMax {
        return Failure(IdentityOverflow);
      }
      var id := nextId;
      var recipe := NewRecipe(model, userId);
      JoinRowsInsert(recipes, id, recipe);
      RowsOfCount(id, model.ingredientIds);
      assert WellFormed(recipe, categories, ingredients);
      recipes := recipes[id := recipe];
      nextId := nextId + 1;
      r := Success(id);
    }

    /** EditAsync: overwrites a recipe if it exists; a missing id is a silent
        no-op. The ingredient links are replaced by `model.ingredientIds`. */
    method Edit(id: int, model: RecipeEditModel) returns (r: Outcome<StoreError>)
      requires Valid()
      modifies this
      ensures Valid()
      ensures categories == old(categories) && ingredients == old(ingredients) && nextId == old(nextId)
      ensures id !in old(recipes) ==> r == Pass && recipes == old(recipes)
      ensures id in old(recipes) ==>
        var v := LinkViolation(model.categoryId, model.ingredientIds, categories, ingredients);
        && (v.Some? ==> r == Fail(v.value) && recipes == old(recipes))
        && (v.None? ==> r == Pass && recipes == old(recipes)[id := ApplyEdit(old(recipes)[id], model)])
      ensures id in old(recipes) && r == Pass ==>
        JoinRows(recipes) ==
          (JoinRows(old(recipes)) - RowsOf(id, old(recipes)[id].ingredientIds)) + RowsOf(id, model.ingredientIds)
    {
      if id !in recipes {
        return Pass;
      }
      var v := LinkViolation(model.categoryId, model.ingredientIds, categories, ingredients);
      if v.Some? {
        return Fail(v.value);
      }
      var edited := ApplyEdit(recipes[id], model);
      JoinRowsReplace(recipes, id, edited);
      recipes := recipes[id := edited];
      return Pass;
    }

    /** DeleteAsync: removes the recipe and, by cascade, its join rows; a
        missing id is a silent no-op. */
    method Delete(id: int)
      requires Valid()
      modifies this
      ensures Valid()
      ensures categories == old(categories) && ingredients == old(ingredients) && nextId == old(nextId)
      ensures recipes == old(recipes) - {id}
      ensures id !in old(recipes) ==> recipes == old(recipes)
      ensures JoinRows(recipes) == set p | p in JoinRows(old(recipes)) && p.0 != id
    {
      JoinRowsRemove(recipes, id);
      if id in recipes {
        recipes := recipes - {id};
      }
    }

    /** GetAllAsync: every recipe, projected, in ascending id order. */
    function GetAll(): (vs: seq<RecipeView>)
      reads this
      requires Valid()
      ensures forall k :: 0 <= k < |vs| ==>
        vs[k].id in recipes && vs[k] == ToView(vs[k].id, recipes[vs[k].id], categories, ingredients)
      ensures forall j, k :: 0 <= j < k < |vs| ==> vs[j].id < vs[k].id
    {
      Listing(recipes, categories, ingredients, 1, nextId)
    }

    /** Every stored recipe is listed by GetAll. */
    lemma GetAllCovers(id: int)
      requires Valid()
      requires id in recipes
      ensures exists k :: 0 <= k < |GetAll()| && GetAll()[k].id == id
    {
      ListingCovers(recipes, categories, ingredients, 1, nextId, id);
      assert GetAll() == Listing(recipes, categories, ingredients, 1, nextId);
    }

    /** GetByIdAsync: the projection of one recipe, or None when absent. */
    function GetById(id: int): (d: Option<RecipeView>)
      reads this
      requires Valid()
      ensures d.None? <==> id !in recipes
      ensures d.Some? ==> d.value.id == id && d.value.authorId == recipes[id].userId
      ensures d.Some? ==> d.value.title == recipes[id].title && d.value.imagePath == recipes[id].imagePath
      ensures d.Some? ==> d.value.category == categories[recipes[id].categoryId]
      ensures d.Some? ==> d.value == ToView(id, recipes[id], categories, ingredients)
    {
      if id in recipes then Some(ToView(id, recipes[id], categories, ingredients)) else None
    }

    /** GetById is the listing restricted to one id. */
    lemma GetByIdAgreesWithGetAll(id: int, v: RecipeView)
      requires Valid()
      ensures GetById(id) == Some(v) <==> v in GetAll() && v.id == id
    {
      if GetById(id) == Some(v) {
        GetAllCovers(id);
      }
    }

    /** GetForEditAsync: the editable fields with the raw ingredient ids. */
    function GetForEdit(id: int): (e: Option<RecipeEditModel>)
      reads this
      ensures e.None? <==> id !in recipes
      ensures e.Some? ==> e.value.id == id && e.value.ingredientIds == recipes[id].ingredientIds
      ensures e.Some? ==> e.value == ToEditModel(id, recipes[id])
      ensures e.Some? ==> ApplyEdit(recipes[id], e.value) == recipes[id]
    {
      if id in recipes then Some(ToEditModel(id, recipes[id])) else None
    }

    /** IsOwnerAsync: the recipe exists and belongs to `userId`. */
    function IsOwner(recipeId: int, userId: string): (b: bool)
      reads this
      ensures b <==> recipeId in recipes && recipes[recipeId].userId == userId
    {
      recipeId in recipes && recipes[recipeId].userId == userId
    }

    /** Ownership agrees with the author shown by GetById. */
    lemma IsOwnerIffAuthor(recipeId: int, userId: string)
      requires Valid()
      ensures IsOwner(recipeId, userId) <==> GetById(recipeId).Some? && GetById(recipeId).value.authorId == userId
    {
    }

    /** GetCategoriesAsync: every category, in an unspecified order. */
    method GetCategories() returns (items: seq<DropdownItem>)
      ensures Enumerates(items, categories)
    {
      items := ListItems(categories);
    }

    /** GetIngredientsAsync: every ingredient, in an unspecified order. */
    method GetIngredients() returns (items: seq<DropdownItem>)
      ensures Enumerates(items, ingredients)
    {
      items := ListItems(ingredients);
    }
  }

  /** The image path the unit tests store. */
  const TestImage: Option<string> := Some("/images/recipes/test.jpg")

  /** The unit tests' setup: one category, two ingredients, and "Cake" created
      by "user-1" with both ingredients. */
  method CreateCake() returns (svc: RecipeService, id: int)
    ensures fresh(svc) && svc.Valid()
    ensures svc.categories == map[1 := "Dessert"] && svc.ingredients == map[1 := "Sugar", 2 := "Flour"]
    ensures id == 1 && svc.nextId == 2
    ensures svc.recipes == map[id := Recipe("Cake", "Bake it", "user-1", 1, TestImage, [1, 2])]
  {
    svc := new RecipeService(map[1 := "Dessert"], map[1 := "Sugar", 2 := "Flour"]);
    assert Distinct([1, 2]);
    var created := svc.Create(RecipeCreateModel("Cake", "Bake it", 1, [1, 2], TestImage), "user-1");
    id := created.value;
  }

  /** Create stores one recipe under a positive id; GetById reads it back with
      its title, category name, image path and both ingredient names. */
  method CreateAndGetScenario() returns (count: nat, id: int, v: RecipeView)
    ensures count == 1 && id > 0
    ensures v.title == "Cake" && v.category == "Dessert" && v.imagePath == TestImage && v.authorId == "user-1"
    ensures v.ingredients == ["Sugar", "Flour"]
  {
    var svc;
    svc, id := CreateCake();
    count := |svc.recipes|;
    var details := svc.GetById(id);
    v := details.value;
  }

  /** Editing [1, 2] down to [1] with no image path leaves one ingredient and
      keeps the image. */
  method EditScenario() returns (outcome: Outcome<StoreError>, v: RecipeView)
    ensures outcome == Pass
    ensures v.title == "Cupcake" && v.instructions == "Bake it differently"
    ensures v.ingredients == ["Sugar"] && v.imagePath == TestImage
  {
    var svc, id := CreateCake();
    assert Distinct([1]);
    outcome := svc.Edit(id, RecipeEditModel(id, "Cupcake", "Bake it differently", 1, [1], None));
    var details := svc.GetById(id);
    v := details.value;
  }

  /** The creator owns the recipe; another user does not. */
  method OwnerScenario() returns (creatorOwns: bool, otherOwns: bool)
    ensures creatorOwns && !otherOwns
  {
    var svc, id := CreateCake();
    creatorOwns := svc.IsOwner(id, "user-1");
    otherOwns := svc.IsOwner(id, "other-user");
  }

  /** Deleting the only recipe empties the table. */
  method DeleteScenario() returns (count: nat, after: Option<RecipeView>)
    ensures count == 0 && after == None
  {
    var svc, id := CreateCake();
    svc.Delete(id);
    count := |svc.recipes|;
    after := svc.GetById(id);
  }

  /** A second Create after the tests' setup succeeds with the next id: one
      insert uses up exactly one identity value. */
  method TwoCreatesScenario() returns (first: int, second: Result<int, StoreError>)
    ensures second == Success(first + 1)
  {
    var svc;
    svc, first := CreateCake();
    assert Distinct([1]);
    second := svc.Create(RecipeCreateModel("Pie", "Bake", 1, [1], None), "user-2");
  }
}
