# Owner-scoped recipe and tag store

This project models the recipe API of a small Django REST backend as an
in-memory state machine. The state is two tables:

- recipes: id, owner, title, time_minutes, price, link, description and a set of tag ids;
- tags: id, owner, name.

The handlers of the two viewsets run on top of these tables:

- `RecipeViewSet` offers list, retrieve, create, update, partial update and delete.
- `TagViewSet` offers list, update, partial update and delete.

Every handler works only on the requester's own rows. Creating a recipe
reconciles its nested tag names against the requester's tags: each name is
looked up, created if it is missing, and added to the recipe's tag set.

Modules:

- `Domain` (domain.dfy): the rows, the user identity and the `Option` type.
- `Serializers` (serializers.dfy):
  - the `Meta.fields` and `read_only_fields` declarations of the tag, recipe and recipe-detail serializers;
  - validation of a client payload, which drops every field that is not writable;
  - the writes an insert or an update makes;
  - rendering a row into a representation keyed by field.
- `Querysets` (querysets.dfy): the two `get_queryset` results.
  - Recipes: the requester's rows by descending id.
  - Tags: the requester's rows by descending name.
  - Name order is code-point lexicographic, proved total, transitive and antisymmetric.
- `TagReconciliation` (reconcile.dfy): the reference definition of the tag loop in `RecipeSerializer.create`.
  - `GetOrCreate` is one `get_or_create` followed by set insertion.
  - `Reconcile` applies it to the names in order.
  - The lemmas state what one whole pass does to the tag table and to the recipe's tag set.
- `Api` (api.dfy): the class `Database`, which holds both tables and the two next-id counters as fields, with one method per viewset action and a dispatcher `Handle`.
  - Consistency invariant: every id lies below its counter, and a recipe's tags exist and belong to the recipe's owner.
  - `AddTags` is the tag loop as an imperative `while` loop. Its invariant ties the table state after `i` names to `Reconcile` over the first `i` names.

Decisions where the code leaves room:

- **Ids.** They are handed out from a counter that starts at 1 and is never reused, as an auto-increment key does.
- **Required fields.** A create or a full update must supply `title`, `time_minutes` and `price`.
- **Optional fields.** An omitted `link` or `description` is stored as `""`.
- **Partial and full updates.** An update writes only the fields the payload supplies, so a full update keeps an omitted optional field.
- **Nested tags in an update.** The recipe serializer defines no update of nested tags, so a recipe update whose payload carries `tags` is refused with `ServerError` and changes nothing. This is the framework's assertion about nested writes.
- **Ambiguous tag names.** `get_or_create` fails when its key matches more than one row, and a tag rename can create such duplicates. See `CreateRecipe` under "## Left out".
- **Order of checks.**
  - Authentication comes first: with no user the reply is `Unauthorized`, and nothing is read or changed.
  - The capability set comes next: an action the viewset lacks gives `MethodNotAllowed`.
  - Then the ownership look-up runs: an id outside the requester's queryset gives `NotFound`.
  - Validation comes last.
- **Deleting a tag.** The tag is also removed from every recipe's tag set, as deleting a many-to-many target removes its links.
- **List serializer.** The list action renders with `RecipeDetailSerializer` and every other action with `RecipeSerializer`, as `get_serializer_class` says. The detail list repeats `description`, so both render the same fields (`DetailRendersAsBase`).

## Model

| member | source | states |
|---|---|---|
| Serializers.RecipeWritableFields | app/recipe/serializers.py:27-28 | The recipe serializer takes exactly title, time_minutes, price, link, tags and description from a client; `id` and `user` are never writable |
| Serializers.TagWritableFields | app/recipe/serializers.py:16-17 | The tag serializer takes only `name`; `id` and `user` are never writable |
| Serializers.DetailFieldSet | app/recipe/serializers.py:45-46 | The detail field list is one entry longer than the base list, yet names exactly the same fields |
| Serializers.DetailRendersAsBase | app/recipe/serializers.py:42-46 | The detail serializer and the base serializer render every recipe identically |
| Serializers.ValidateRecipe | app/recipe/serializers.py:20-28 | A recipe payload is accepted iff every writable field it carries has a value of the right kind and, unless partial, title, time_minutes and price are present; each validated field is present iff the payload supplied it |
| Serializers.ValidateTag | app/recipe/serializers.py:11-17 | A tag payload is accepted iff a supplied name is text and, unless partial, a name is present; the validated name is present iff supplied |
| Serializers.RecipeIgnoresUnwritable | app/recipe/serializers.py:27-28 | Adding or changing any non-writable key (`id`, `user`, ...) in a recipe payload never changes the validation result |
| Serializers.TagIgnoresUnwritable | app/recipe/serializers.py:16-17 | Adding or changing any non-writable key in a tag payload never changes the validation result |
| Serializers.NestedTagIdsIgnored | app/recipe/serializers.py:17-23 | The nested tag objects of a recipe payload count only by their names: two tag lists with the same names in the same order, whatever ids they carry, validate to the same data |
| Serializers.NewRecipe | app/recipe/serializers.py:32-33 | The inserted row is owned by the given owner and starts with an empty tag set |
| Serializers.ApplyRecipe | app/recipe/views.py:15-18 | An update never changes a recipe's owner or its tag set |
| Serializers.ApplyTag | app/recipe/views.py:39-47 | A tag update never changes the tag's owner |
| Serializers.RenderTag | app/recipe/serializers.py:16 | A tag renders with exactly two entries: its id under `id` and its name under `name` |
| Serializers.RecipeValue | app/recipe/serializers.py:23-27 | The reference definition of the value each declared recipe field shows; its consequences are stated by `RecipeRepresentation` |
| Serializers.RenderRecipe | app/recipe/serializers.py:27 | A recipe renders with one entry per field of the serializer's list and no other |
| Serializers.RecipeRepresentation | app/recipe/serializers.py:23-27 | The recipe serializer shows exactly id, title, time_minutes, price, link, tags and description, each with the row's value, and the nested tags as the (id, name) pairs of exactly the recipe's tag rows |
| Serializers.CreateStoresPayload | app/recipe/serializers.py:32-33 | A created recipe is owned by the requester and shows exactly the supplied title, time_minutes and price, and the supplied link and description or `""` |
| Serializers.UpdateChangesOnlySupplied | app/recipe/views.py:15-18 | A partial or full update changes exactly the supplied writable scalar fields to the supplied values, keeps every other field, and keeps owner and tags |
| Serializers.FullUpdateSetsRequired | app/recipe/views.py:15-18 | A valid full update sets title, time_minutes and price to the payload's values |
| Serializers.TagUpdateChangesOnlyName | app/recipe/views.py:39-47 | A tag update sets the name iff supplied and keeps it otherwise; the owner and id stay |
| Querysets.Descending | app/recipe/views.py:25 | The ids of a set below a bound, each present iff in the set, in strictly descending order |
| Querysets.DecreasingOnce | app/recipe/views.py:25 | A strictly descending id list holds each of its ids exactly once |
| Querysets.RecipeQueryset | app/recipe/views.py:23-25 | The recipe queryset holds an id iff it is one of the requester's recipes, in strictly descending id order |
| Querysets.StrLeqTotal | app/recipe/views.py:54 | Any two names are comparable in the order used by `-name` |
| Querysets.StrLeqTrans | app/recipe/views.py:54 | The name order is transitive |
| Querysets.StrLeqAntisymmetric | app/recipe/views.py:54 | Two names each at or before the other are equal |
| Querysets.InsertByName | app/recipe/views.py:54 | Inserting a tag into a name-descending list adds exactly that tag and keeps the list name-descending |
| Querysets.SortByName | app/recipe/views.py:54 | Sorting by name is a permutation of its input and yields names in non-increasing order |
| Querysets.TagQueryset | app/recipe/views.py:52-54 | The tag queryset holds each of the requester's tags exactly once, no other tag, in non-increasing name order |
| Querysets.QuerysetsIsolated | app/recipe/views.py:23-54 | Two different users' recipe querysets share no row, and neither do their tag querysets |
| TagReconciliation.GetOrCreate | app/recipe/serializers.py:36-37 | The reference definition of one `get_or_create` on (user, name) followed by set insertion into the recipe's tags; its consequences are `GetOrCreateFound`, `GetOrCreateMissing` and `GetOrCreateLinks` |
| TagReconciliation.GetOrCreateFound | app/recipe/serializers.py:36 | When exactly one of the user's tags has the name, get-or-create links that tag and leaves the table alone |
| TagReconciliation.GetOrCreateMissing | app/recipe/serializers.py:36 | Proof helper that unfolds `GetOrCreate` in the case of no match: a row for the name is inserted at the next fresh id and linked |
| TagReconciliation.Reconcile | app/recipe/serializers.py:35-37 | The tag loop keeps every id below the table's next id |
| TagReconciliation.ReconcileKeeps | app/recipe/serializers.py:35-37 | The tag loop never changes an existing tag row; each new row is fresh, the user's, and named after a payload name; each newly linked tag is the user's and named after a payload name |
| TagReconciliation.ReconcileStep | app/recipe/serializers.py:35-37 | Proof helper that unfolds `Reconcile` at a prefix: the loop over `i + 1` names is the loop over `i` names followed by one get-or-create |
| TagReconciliation.GetOrCreateLinks | app/recipe/serializers.py:36-37 | One get-or-create links a tag of the user with its name and keeps every earlier row and link |
| TagReconciliation.LinksEveryName | app/recipe/serializers.py:35-37 | After creation, every payload name is linked to the recipe by a tag the requester owns with that name |
| TagReconciliation.OwnsAfter | app/recipe/serializers.py:35-36 | After the loop, the user owns a tag of a name iff they did before or the name was in the payload |
| TagReconciliation.UnambiguousAfter | app/recipe/serializers.py:36 | The loop never gives the user two tags with the same name where there was at most one |
| TagReconciliation.ReusesOwned | app/recipe/serializers.py:36 | An existing tag of the user with a payload name is linked, and no new row gets that name |
| TagReconciliation.OwnedAfterInsert | app/recipe/serializers.py:36 | Inserting a tag for one user adds that one id to their tags and changes no other user's tags |
| TagReconciliation.CountsAfter | app/recipe/serializers.py:34-36 | The requester's tag count grows by exactly the number of distinct payload names they did not own; every other user's tags stay the same rows |
| TagReconciliation.LinkedStep | app/recipe/serializers.py:37 | One more name extends the linked set to the user's tags with the names so far, growing it by one iff the name is new (set insertion) |
| TagReconciliation.LinkedExactly | app/recipe/serializers.py:35-37 | From an empty tag set, the recipe ends up linked to exactly the user's tags named in the payload, one per distinct name |
| TagReconciliation.TwoInserts | app/recipe/serializers.py:36-37 | Two get-or-creates on two distinct unowned names insert two rows, link exactly those two, and add two to the user's count |
| TagReconciliation.TwoNewNames | app/recipe/serializers.py:35-37 | Two distinct names the user does not own give exactly two linked tags and two more tags for the user, and creation does not fail on them |
| Api.Capabilities | app/recipe/views.py:39-44 | The recipe viewset offers all six actions; the tag viewset offers list, update, partial update and destroy, and neither create nor retrieve |
| Api.RecipeSerializerFields | app/recipe/views.py:27-32 | Whichever serializer an action picks, it names exactly the recipe fields |
| Api.CreateKeepsConsistent | app/recipe/serializers.py:30-39 | Inserting a recipe at the next id and reconciling its tags keeps ids below their counters and every recipe's tags existing and owned by the recipe's owner |
| Api.RecipeListing | app/recipe/views.py:23-32 | A recipe listing shows each of the requester's recipes, no other recipe, with ids strictly descending |
| Api.TagListing | app/recipe/views.py:52-54 | A tag listing shows each of the requester's tags exactly once with its name, no other tag, with names never increasing |
| Api.Database.ListRecipes | app/recipe/views.py:23-32 | Unauthorized iff no user; otherwise the detail rendering of the recipe queryset, which lists exactly the requester's recipes by descending id |
| Api.Database.RetrieveRecipe | app/recipe/views.py:23-25 | Unauthorized iff no user; NotFound iff the id is not one of the requester's recipes; otherwise that recipe's rendering |
| Api.Database.CreateRecipe | app/recipe/views.py:34-36 | Unauthorized, BadRequest or ServerError (ambiguous tag name) change nothing; otherwise the requester owns a new recipe at a fresh id, its tags are the result of the tag loop, and no tag rows change when the payload has no tags |
| Api.Database.AddTags | app/recipe/serializers.py:35-37 | The loop leaves the tag table, the next tag id and the recipe's tag set exactly as `Reconcile` over all the names |
| Api.Database.GetOrCreateTag | app/recipe/serializers.py:36 | One get-or-create on (user, name) leaves the table as `GetOrCreate` and returns the id it links, which names a tag of that user with that name |
| Api.Database.UpdateRecipe | app/recipe/views.py:15-25 | Unauthorized or NotFound (not the requester's) change nothing; a valid update writes `ApplyRecipe` to that recipe only; invalid data is BadRequest and nested tags are ServerError, both changing nothing |
| Api.Database.DestroyRecipe | app/recipe/views.py:15-25 | Unauthorized or NotFound change nothing; deleting an owned recipe removes exactly that recipe and leaves every tag row |
| Api.Database.ListTags | app/recipe/views.py:52-54 | Unauthorized iff no user; otherwise the rendering of the tag queryset: each of the requester's tags once with its name, no other tag, in non-increasing name order |
| Api.Database.UpdateTag | app/recipe/views.py:39-54 | Unauthorized or NotFound change nothing; an update of an owned tag writes only its name, or is BadRequest and changes nothing |
| Api.Database.DestroyTag | app/recipe/views.py:39-54 | Unauthorized or NotFound change nothing; deleting an owned tag removes that tag row and its links from every recipe, and nothing else |
| Api.Database.Handle | app/recipe/views.py:15-50 | Unauthorized with no user; MethodNotAllowed exactly for an authenticated request outside the viewset's capability set; otherwise each action reaches its own handler: list and retrieve answer from the requester's queryset and change nothing, create is BadRequest for an invalid payload and ServerError for an ambiguous tag name, and otherwise inserts the requester's recipe at the next id, with the tables and counters `CreateRecipe` states and the rendering of the new row as its body, PUT validates as a full update and PATCH as a partial one: on the requester's row invalid data is BadRequest, nested recipe `tags` are a ServerError, and Ok carries the rendering of the updated row; updates write only the requester's row (a recipe update leaves the tag table and both counters, a tag update leaves the recipe table and both counters), DELETE removes exactly the requester's row or is NotFound and never moves an id counter, and deleting a tag only drops its links from recipes; tag requests never add a tag row; every NotFound, BadRequest or ServerError answer leaves the database unchanged |

## Left out

- Token authentication and HTTP: the requester is an `Option<UserId>`, and status codes and JSON rendering become the `Response` datatype.
- URL routing and the schema and documentation endpoints (`app/app/urls.py`), which hold no logic.
- User registration (`app/user/views.py`): a user is an opaque identity. The user serializer and user model are not part of this model.
- The admin pages (`app/core/tests/test_admin.py`).
- Recipe and tag model constraints: `core.models` is not part of this model.
  - Field lengths, blank rules and defaults are assumptions, stated above.
  - Values are checked only for their kind (text, integer, decimal, tag list).
- Decimal arithmetic on `price`: the price is stored and compared as its text.
- Updating nested tags through PUT or PATCH: such a request is only modelled as refused (`ServerError`).
- String collation: `-name` is modelled as code-point order, and two tags with equal names are listed by descending id. A database may use another collation and another order for ties.
- The nested `tags` of a rendered recipe are a set of (id, name) pairs. The source renders a list in the order of the many-to-many relation, and that order is not modelled.
- Concurrency: get-or-create races, and transactions other than the all-or-nothing create below.
- Api.Database.CreateRecipe: when a payload name matches two or more of the requester's tags, the model refuses the whole create up front and changes nothing. The source inserts the recipe and the earlier tags before `get_or_create` raises, and the outcome then depends on transaction settings that are not part of this model.
