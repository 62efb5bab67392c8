# RecipeHub recipe store and recipe controller, modelled in Dafny

RecipeHub is a recipe web application. Users create, list, edit and delete
recipes. Each recipe belongs to one category and links to ingredients through a
`(RecipeId, IngredientId)` join table. This project models two pieces of it:

- **The recipe service** (`RecipeService`) as an in-memory relational table.
  Class `RecipeServices.RecipeService` holds the Recipes table
  (`recipes: map<int, Recipe>`), the identity counter `nextId`, and the
  Categories and Ingredients reference tables (`map<int, string>`). Each
  recipe's join rows are its `ingredientIds` sequence. `Create`, `Edit` and
  `Delete` are methods that update the table in place. `GetAll`, `GetById`,
  `GetForEdit` and `IsOwner` are functions over the table. `GetCategories`
  and `GetIngredients` are methods that list a reference table in no
  particular order.
- **The controller's decision logic** (`RecipesController`). The `Index`
  listing is three order-preserving `Where` filters: search term, then
  category name, then ingredient. `Edit` (GET and POST) and `Delete` share
  an owner-or-admin gate, and `ViewBag.CanDelete` uses the same test.

Files: `wrappers.dfy` (Option/Result/Outcome), `text.dfy` (white space,
`Trim`, ordinal ignore-case `Equals`/`Contains`), `schema.dfy` (records,
transfer models, store constraints, join rows, projections), `recipe_service.dfy`
(the service class and the unit tests' scenarios as verified clients),
`recipes_controller.dfy` (the filters, the gate and the three actions).

## Design decisions

- **Store failures are explicit results.** The deployed store is SQL Server
  (`RecipeHub.Web/Program.cs:20`), so the database enforces the composite key
  of the join table (`RecipeHub.Data/ApplicationDbContext.cs:23-24`) and the
  foreign keys. The service itself validates nothing. A save that violates a
  constraint therefore fails and commits nothing. `Create` returns
  `Failure(e)` and `Edit` returns `Fail(e)` with `e` one of:
  - `DuplicateKey`: the same ingredient id twice in one request;
  - `ForeignKeyViolation`: an unknown category or ingredient id;
  - `IdentityOverflow`: the 32-bit `int` identity is exhausted.

  In every failure case the store is left exactly as it was. Since every
  successful save satisfies these constraints, `Valid()` can promise
  referential integrity, and the projections are total.
- **Silent no-ops are kept.** `Edit` and `Delete` on a missing id return
  normally and change nothing, as the source does. `Edit` on a missing id
  returns `Pass` even when the submitted links are invalid, because the
  source returns before saving.
- **Order.** `GetAll` lists recipes in ascending id (primary-key) order. The
  source query has no `ORDER BY`; the model fixes primary-key order because
  `Index` only needs some fixed order. The dropdown lists come out in an
  arbitrary order, and `FindCategoryNameIsLookup` shows that `Index` does
  not depend on that order. A recipe's join rows are kept in the order they
  were submitted. The store holds them as a set, so the model's ingredient
  order in views and edit forms is a choice; "## Left out" names the members
  this affects.
- **Nullable strings are `Option<string>`.** This covers the `q` and
  `ingredient` query parameters, image paths and the user id claim.
- **Unknown ids are foreign-key failures.** The service passes category and
  ingredient ids through unchecked (`RecipeService.cs:34-44`). On the SQL
  Server store that `Program.cs:20` configures, an unknown id is therefore a
  foreign-key failure, never a dangling join row.
- **`CanDelete` is always true.** On every rendered edit page `CanDelete`
  equals the gate, and the gate has already passed, so it is always true
  there (`EditForm`, `EditSubmit`). This is redundant, not wrong.

## Model

| member | source | states |
|---|---|---|
| `RecipeServices.RecipeService.Create` | RecipeHub.Services/Services/RecipeService.cs:32-49 | On success: returns a positive 32-bit id that was not in the table, namely the identity counter's value, and advances the counter by exactly one. Adds exactly that recipe, with the model's title, instructions, category, image path and ingredient ids and the caller as owner. Leaves every other recipe unchanged and adds exactly one join row per requested ingredient. On a constraint violation: returns that error and leaves the store unchanged. |
| `Schema.LinkViolation` | RecipeHub.Data/ApplicationDbContext.cs:23-24 | A save is refused with `DuplicateKey` iff some ingredient id repeats (the composite key). It is refused with `ForeignKeyViolation` iff the ids are distinct but the category or some ingredient is unknown (the foreign keys behind `Recipe.CategoryId`, RecipeHub.Data/Data/Models/Recipe.cs:19-20, and `RecipeIngredient.IngredientId`). |
| `Schema.LinkViolationIffIllFormed` | RecipeHub.Data/Data/Models/RecipeIngredient.cs:11-15 | A save succeeds iff the stored recipe satisfies the key and foreign-key constraints. |
| `Schema.RowsOfCount` | RecipeHub.Services/Services/RecipeService.cs:41-43 | Distinct ingredient ids produce exactly as many join rows as ids. |
| `Schema.JoinRowsInsert` | RecipeHub.Services/Services/RecipeService.cs:34-46 | Adding a recipe under a fresh id adds exactly its join rows to the table's rows. |
| `Schema.ToView` | RecipeHub.Services/Services/RecipeService.cs:58-68 | The projection keeps id, title, instructions, image path and owner (as author). It shows the category's name and, position by position, the name of each linked ingredient. |
| `Schema.Listing` | RecipeHub.Services/Services/RecipeService.cs:56-69 | Lists only stored recipes with ids in the range, each projected, in strictly ascending id order. |
| `Schema.ListingCovers` | RecipeHub.Services/Services/RecipeService.cs:56-69 | Every stored recipe with an id in the range appears in the listing. |
| `RecipeServices.RecipeService.GetAll` | RecipeHub.Services/Services/RecipeService.cs:56-69 | Every listed entry is the projection of a stored recipe, and ids never repeat (strictly ascending). |
| `RecipeServices.RecipeService.GetAllCovers` | RecipeHub.Services/Services/RecipeService.cs:56-69 | Every stored recipe appears in GetAll. |
| `RecipeServices.RecipeService.GetById` | RecipeHub.Services/Services/RecipeService.cs:78-92 | None iff the id is absent. Otherwise: the same id, title and image path, author = owner, category = the name of the referenced category, and the full projection `ToView` of the stored recipe (instructions and ingredient names included). |
| `RecipeServices.RecipeService.GetByIdAgreesWithGetAll` | RecipeHub.Services/Services/RecipeService.cs:56-92 | GetById(id) is Some(v) iff v appears in GetAll with that id: the same projection, restricted to one id. |
| `RecipeServices.RecipeService.Edit` | RecipeHub.Services/Services/RecipeService.cs:99-130 | Missing id: Pass with the table unchanged. Constraint violation: that error with the table unchanged. Otherwise: only that recipe becomes `ApplyEdit(old, model)`, and its join rows are exactly replaced by the new ids, with no merge. |
| `Schema.EditThenForm` | RecipeHub.Services/Services/RecipeService.cs:108-127 | After an edit, the edit form shows the submitted title, instructions, category and ingredient ids. It shows the submitted image path when that path is not blank, and the previous one otherwise. |
| `Schema.NewRecipe` | RecipeHub.Services/Services/RecipeService.cs:34-44 | The stored recipe is owned by the caller, and its edit form shows exactly the submitted title, instructions, category, ingredient ids and image path. |
| `Schema.ApplyEdit` | RecipeHub.Services/Services/RecipeService.cs:108-127 | The owner never changes. Title, instructions, category and ingredient ids are the submitted ones. A non-blank submitted image path replaces the image; a blank one keeps it, so an edit never clears an image. |
| `Schema.ToEditModel` | RecipeHub.Services/Services/RecipeService.cs:189-199 | The form has the recipe's id, raw ingredient ids and image path, and submitting it back to Edit unchanged leaves the recipe unchanged. |
| `Schema.ApplyEditIdempotent` | RecipeHub.Services/Services/RecipeService.cs:108-127 | Editing twice with the same model equals editing once (full replace, not merge). |
| `Schema.JoinRowsReplace` | RecipeHub.Services/Services/RecipeService.cs:117-127 | Replacing a recipe removes all its old join rows, adds its new ones, and keeps every other recipe's rows. |
| `RecipeServices.RecipeService.Delete` | RecipeHub.Services/Services/RecipeService.cs:136-145 | The table loses exactly that id (unchanged if it was absent), and exactly the join rows naming that id disappear. |
| `Schema.JoinRowsRemove` | RecipeHub.Services/Services/RecipeService.cs:136-145 | Removing a recipe from the table removes exactly the join rows whose RecipeId is that id (the cascade). |
| `RecipeServices.RecipeService.GetForEdit` | RecipeHub.Services/Services/RecipeService.cs:180-200 | None iff the id is absent. Otherwise it is the recipe's edit form: id, title, instructions, category, raw ingredient ids and image path as stored. Submitting it back to Edit changes nothing. |
| `RecipeServices.RecipeService.IsOwner` | RecipeHub.Services/Services/RecipeService.cs:210-214 | True iff the recipe exists and its owner equals the user id; a missing id gives false. |
| `RecipeServices.RecipeService.IsOwnerIffAuthor` | RecipeHub.Services/Services/RecipeService.cs:210-214 | Ownership holds iff GetById finds the recipe with that author. |
| `RecipeServices.RecipeService.GetCategories` | RecipeHub.Services/Services/RecipeService.cs:151-158 | Lists every category exactly once, with its name. |
| `RecipeServices.RecipeService.GetIngredients` | RecipeHub.Services/Services/RecipeService.cs:164-171 | Lists every ingredient exactly once, with its name. |
| `Schema.ListItems` | RecipeHub.Services/Services/RecipeService.cs:151-171 | The listing of a reference table holds exactly its (id, name) entries, with no id twice. |
| `RecipeServices.CreateCake` | RecipeHub.Tests/RecipeServiceTests.cs:25-48 | The tests' seed plus one Create gives a table holding exactly "Cake" under id 1, owned by "user-1", linked to ingredients 1 and 2, with the identity counter at 2. |
| `RecipeServices.CreateAndGetScenario` | RecipeHub.Tests/RecipeServiceTests.cs:50-92 | After the setup the table holds one recipe under a positive id. GetById finds it with title "Cake", category "Dessert", the test image path and author "user-1". It has two ingredient names, and in the model these are exactly Sugar then Flour; the test checks only that there are two, and the order rests on the model's submission-order choice. |
| `RecipeServices.EditScenario` | RecipeHub.Tests/RecipeServiceTests.cs:94-130 | Editing the recipe to "Cupcake" with ingredient 1 and no image path passes. GetById then shows the new title and instructions, exactly one ingredient (Sugar), and the image kept from before. |
| `RecipeServices.OwnerScenario` | RecipeHub.Tests/RecipeServiceTests.cs:132-151 | The creator "user-1" owns the recipe and "other-user" does not. |
| `RecipeServices.DeleteScenario` | RecipeHub.Tests/RecipeServiceTests.cs:153-175 | Deleting the only recipe leaves the table empty, and GetById finds nothing. |
| `RecipeServices.TwoCreatesScenario` | RecipeHub.Services/Services/RecipeService.cs:32-49 | A second valid Create after the setup succeeds, under the next id: one insert uses up exactly one identity value. |
| `Text.Trim` | RecipeHub.Web/Controllers/RecipesController.cs:66 | The result is empty iff the input is blank. A non-empty result neither starts nor ends with white space. It is the piece of the input that remains after removing only white space before and after it. |
| `Text.ContainsIgnoreCase` | RecipeHub.Web/Controllers/RecipesController.cs:68-69 | True iff some window of the string equals the term up to ASCII case. |
| `RecipesController.Where` | RecipeHub.Web/Controllers/RecipesController.cs:67-70 | An element is kept iff it is in the input and satisfies the predicate. Every copy of a matching element is kept (same multiplicity) and every other element is dropped. The result is an order-preserving subsequence. |
| `RecipesController.FindCategoryName` | RecipeHub.Web/Controllers/RecipesController.cs:75 | None iff no dropdown entry has the id. Otherwise the name belongs to the first entry with that id. |
| `RecipesController.FindCategoryNameIsLookup` | RecipeHub.Web/Controllers/RecipesController.cs:75 | On a listing of the Categories table, in any order, the lookup is the table's value for that id. |
| `RecipesController.IndexIsOneFilter` | RecipeHub.Web/Controllers/RecipesController.cs:64-90 | The three successive filters equal one filter by the conjunction of the three tests, each test accepting everything when its input is blank or unresolvable. |
| `RecipesController.SearchFilter` | RecipeHub.Web/Controllers/RecipesController.cs:64-71 | With a blank q the list is unchanged. Otherwise a recipe is kept iff it is in the list and its title or some ingredient name contains Trim(q), ignoring case. |
| `RecipesController.CategoryFilter` | RecipeHub.Web/Controllers/RecipesController.cs:73-82 | When the category is missing, not in the dropdown or has an empty name, the list is unchanged. Otherwise a recipe is kept iff it is in the list and its category equals that name, ignoring case. |
| `RecipesController.IngredientFilter` | RecipeHub.Web/Controllers/RecipesController.cs:84-90 | With a blank ingredient the list is unchanged. Otherwise a recipe is kept iff it is in the list and some ingredient name contains the trimmed value, ignoring case. |
| `RecipesController.FilterRecipes` | RecipeHub.Web/Controllers/RecipesController.cs:64-90 | A recipe is shown iff it is listed and passes three tests. Search: with a non-blank q, its title or some ingredient name contains Trim(q), ignoring case. Category: with a resolvable, non-empty category name, its category equals that name, ignoring case. Ingredient: with a non-blank ingredient, some ingredient name contains its trimmed value, ignoring case. |
| `RecipesController.IndexKeepsOrder` | RecipeHub.Web/Controllers/RecipesController.cs:67-90 | The result is a subsequence of the full listing. |
| `RecipesController.IndexNoFilters` | RecipeHub.Web/Controllers/RecipesController.cs:48-90 | With a blank q, no category and a blank ingredient, the full listing is returned unchanged. |
| `RecipesController.Index` | RecipeHub.Web/Controllers/RecipesController.cs:46-93 | The dropdowns list both reference tables. The result is a subsequence of GetAll, and a recipe is shown iff it passes the three tests, with the category name resolved through the Categories table. |
| `RecipesController.MayModify` | RecipeHub.Web/Controllers/RecipesController.cs:198-202 | Admin, or a non-empty user id that owns the recipe. It is the Forbid test of EditForm, EditSubmit and Delete and the value of CanDelete. |
| `RecipesController.Submitted` | RecipeHub.Web/Controllers/RecipesController.cs:261-283 | The model sent to Edit is the submitted form except for the image path, which is the uploaded image's path when there is one and the form's otherwise. |
| `RecipesController.EditForm` | RecipeHub.Web/Controllers/RecipesController.cs:188-221 | Forbid iff the gate fails. NotFound iff the gate passes and the recipe is absent. When the gate passes and the recipe exists, the result is the edit view of the recipe's edit form with CanDelete true; CanDelete always equals the gate. Nothing is modified. |
| `RecipesController.EditSubmit` | RecipeHub.Web/Controllers/RecipesController.cs:239-294 | A failed gate returns Forbid with the store unchanged. An invalid form is redisplayed with CanDelete true and the store unchanged. Otherwise Edit runs on the submitted form, with an uploaded image's path replacing the form's. Success and a missing id redirect to Index; a store failure redirects to Edit. |
| `RecipesController.Delete` | RecipeHub.Web/Controllers/RecipesController.cs:304-327 | A failed gate returns Forbid with the store unchanged. Otherwise the recipe is removed (a no-op if absent) and the action redirects to Index. |

## Left out

- Image upload: the GUID file name, directory creation, the stream copy and the web-root path are file I/O with random names. The new image's stored path is an opaque `uploadedImage` parameter of `EditSubmit`.
- The Create (GET/POST) and Details actions are not modelled. They are a thin call to `Create` or `GetById` plus the upload handling above.
- EF Core change tracking, `Include`, `SaveChangesAsync`, cascade-delete machinery and `async`/`Task`: each service call is modelled as one atomic table update.
- Exception handling: the catch blocks of GET Edit and Delete are not modelled, because no modelled step of theirs fails. For POST Edit, the catch is `RedirectToEdit(error)`. TempData messages, redirects' route values, anti-forgery and view rendering are left out.
- Form validation (`ModelState.IsValid`) is a `formValid` parameter. `PopulateDropdowns` and the `SelectListItem` conversions are not modelled.
- The identity provider: admin role membership and the name-identifier claim are parameters (`isAdmin`, `userId`). The admin user pages, the user seeder and `Program.cs` are not part of this model.
- White space and case folding cover ASCII only. .NET's `Trim`, `IsNullOrWhiteSpace` and ordinal ignore-case use Unicode tables.
- Concurrency: the store can change between the gate's `IsOwner` call and the later one for `CanDelete`. The model runs each action against one state, so it does not capture this.
- The source files for `RecipeListModel`, `CategoryDropdownModel` and `IngredientDropdownModel` are not part of this model. The list and details views share `RecipeView`, following the projection in `GetAllAsync`. Both dropdowns share `DropdownItem`.
- `RecipeServices.RecipeService.Create`: on failure the identity counter is unchanged, and on success it advances by exactly one. SQL Server may consume an identity value on a failed insert, and may skip values (for example after a restart), so the store can reach `IdentityOverflow` sooner than the model does.
- `RecipeServices.RecipeService.Create`: when several constraints are violated at once, the model reports the duplicate key first. Which exception the framework raises first is not visible in the source.
- `RecipeServices.RecipeService.GetAll`: the source query has no defined order; the model lists in ascending id order.
- `Schema.ToView`: the model keeps a recipe's join rows in the order they were submitted and lists ingredient names in that order. The store keeps the join rows as a set keyed by `(RecipeId, IngredientId)`, and the queries leave their order open, so the source gives the names only up to order.
- `RecipeServices.RecipeService.GetForEdit`: `ingredientIds` comes back in submission order in the model; the source returns the same ids in an order the query does not fix.
- `Schema.EditThenForm`: the form after an edit shows the submitted ingredient ids as the exact submitted sequence; the source promises them only up to order.
