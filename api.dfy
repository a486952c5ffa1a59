/**
 * The two viewsets over one in-memory database. Every handler first
 * authenticates (no user: Unauthorized, nothing read or changed), then works
 * only on the requester's rows: an id outside the requester's queryset is
 * NotFound. The recipe viewset offers all six actions; the tag viewset only
 * list, update, partial update and delete.
 */
module Api {
  import opened Domain
  import opened Serializers
  import opened Querysets
  import opened TagReconciliation

  datatype Resource = RecipeViewSet | TagViewSet

  datatype Action = List | Retrieve | Create | Update | PartialUpdate | Destroy

  /** The actions each viewset is composed of. */
  function Capabilities(res: Resource): (c: set<Action>)
    ensures {List, Update, PartialUpdate, Destroy} <= c
    ensures Create in c <==> res == RecipeViewSet
    ensures Retrieve in c <==> res == RecipeViewSet
  {
    match res
    case RecipeViewSet => {List, Retrieve, Create, Update, PartialUpdate, Destroy}
    case TagViewSet => {List, Update, PartialUpdate, Destroy}
  }

  /** The field list of the serializer the recipe viewset picks for an action. */
  function RecipeSerializerFields(action: Action): (fields: seq<Field>)
    ensures forall f :: f in fields <==> f in RecipeFields
  {
    DetailFieldSet();
    if action == List then RecipeDetailFields else RecipeFields
  }

  datatype Body =
    | RecipeBody(recipe: Representation)
    | RecipeListBody(recipes: seq<Representation>)
    | TagBody(tag: Representation)
    | TagListBody(tags: seq<Representation>)

  datatype Response =
    | Ok(body: Body)
    | Created(body: Body)
    | NoContent
    | BadRequest
    | Unauthorized
    | NotFound
    | MethodNotAllowed
    | ServerError

  datatype Request = Request(requester: Option<UserId>, resource: Resource, action: Action, id: nat, payload: Payload)

  function RenderRecipes(fields: seq<Field>, ids: seq<RecipeId>, recipes: map<RecipeId, Recipe>, tags: map<TagId, Tag>): seq<Representation>
    requires forall f | f in fields :: f in RecipeFields
    requires forall id | id in ids :: id in recipes
  {
    seq(|ids|, i requires 0 <= i < |ids| => RenderRecipe(fields, ids[i], recipes[ids[i]], tags))
  }

  function RenderTags(ids: seq<TagId>, tags: map<TagId, Tag>): seq<Representation>
    requires forall id | id in ids :: id in tags
  {
    seq(|ids|, i requires 0 <= i < |ids| => RenderTag(ids[i], tags[ids[i]]))
  }

  /**
   * Every id in use is below the next id of its table, and a recipe's tags
   * exist and belong to the recipe's owner.
   */
  ghost predicate Consistent(recipes: map<RecipeId, Recipe>, tags: map<TagId, Tag>, nextRecipeId: RecipeId, nextTagId: TagId)
  {
    && (forall id | id in recipes :: id < nextRecipeId)
    && (forall id | id in tags :: id < nextTagId)
    && (forall id, t | id in recipes && t in recipes[id].tags :: t in tags && tags[t].owner == recipes[id].owner)
  }

  /** Inserting a recipe at the next id and then reconciling its tags keeps the tables consistent. */
  lemma CreateKeepsConsistent(recipes: map<RecipeId, Recipe>, tags: map<TagId, Tag>, nr: RecipeId, nt: TagId,
                               user: UserId, r: Recipe, names: seq<string>)
    requires Consistent(recipes, tags, nr, nt)
    requires r.owner == user
    ensures var st := Reconcile(TagState(tags, nt, {}), user, names);
      Consistent(recipes[nr := r.(tags := st.linked)], st.tags, nr + 1, st.next)
  {
    ReconcileKeeps(TagState(tags, nt, {}), user, names);
  }

  /** Rendering a sequence of `user`'s recipe ids shows each with its id, in the same order. */
  lemma RenderedRecipes(fields: seq<Field>, q: seq<RecipeId>, recipes: map<RecipeId, Recipe>, tags: map<TagId, Tag>, user: UserId)
    requires forall f :: f in fields <==> f in RecipeFields
    requires forall id | id in q :: id in recipes && recipes[id].owner == user
    requires forall i, j :: 0 <= i < j < |q| ==> q[i] > q[j]
    ensures var items := RenderRecipes(fields, q, recipes, tags);
      && (forall i | 0 <= i < |items| :: Id in items[i] && items[i][Id].IdValue?
            && items[i][Id].n in recipes && recipes[items[i][Id].n].owner == user)
      && (forall i, j | 0 <= i < j < |items| :: items[i][Id].n > items[j][Id].n)
      && (forall id | id in q :: exists i | 0 <= i < |items| :: items[i][Id] == IdValue(id))
  {
    var items := RenderRecipes(fields, q, recipes, tags);
    forall i | 0 <= i < |items| ensures Id in items[i] && items[i][Id] == IdValue(q[i]) {
      assert q[i] in q;
      assert items[i] == RenderRecipe(fields, q[i], recipes[q[i]], tags);
    }
    forall id | id in q ensures exists i | 0 <= i < |items| :: items[i][Id] == IdValue(id) {
      var i :| 0 <= i < |q| && q[i] == id;
      assert items[i][Id] == IdValue(id);
    }
  }

  /**
   * A recipe listing shows each of `user`'s recipes, no other recipe, with
   * ids strictly decreasing down the list.
   */
  lemma RecipeListing(recipes: map<RecipeId, Recipe>, tags: map<TagId, Tag>, user: UserId, bound: nat)
    requires forall id | id in recipes :: id < bound
    ensures var items := RenderRecipes(RecipeSerializerFields(List), RecipeQueryset(recipes, user, bound), recipes, tags);
      && (forall i | 0 <= i < |items| :: Id in items[i] && items[i][Id].IdValue?
            && items[i][Id].n in recipes && recipes[items[i][Id].n].owner == user)
      && (forall i, j | 0 <= i < j < |items| :: items[i][Id].n > items[j][Id].n)
      && (forall id | id in recipes && recipes[id].owner == user ::
            exists i | 0 <= i < |items| :: items[i][Id] == IdValue(id))
  {
    RenderedRecipes(RecipeSerializerFields(List), RecipeQueryset(recipes, user, bound), recipes, tags, user);
  }

  /** Rendering a sorted sequence of `user`'s tags shows each with its id and name, in the same order. */
  lemma RenderedTags(q: seq<TagId>, tags: map<TagId, Tag>, user: UserId)
    requires forall t | t in q :: t in tags && tags[t].owner == user
    requires NamesDescending(tags, q)
    requires forall i, j | 0 <= i < j < |q| :: q[i] != q[j]
    ensures var items := RenderTags(q, tags);
      && (forall i | 0 <= i < |items| :: Id in items[i] && items[i][Id].IdValue?
            && items[i][Id].n in tags && tags[items[i][Id].n].owner == user
            && Name in items[i] && items[i][Name] == Text(tags[items[i][Id].n].name))
      && (forall i, j | 0 <= i < j < |items| :: StrLeq(items[j][Name].s, items[i][Name].s))
      && (forall id | id in q :: exists i | 0 <= i < |items| :: items[i][Id] == IdValue(id))
      && (forall i, j | 0 <= i < j < |items| :: items[i][Id] != items[j][Id])
  {
    var items := RenderTags(q, tags);
    forall i | 0 <= i < |items|
      ensures items[i] == RenderTag(q[i], tags[q[i]]) && q[i] in tags && tags[q[i]].owner == user
    {
      assert q[i] in q;
    }
    forall id | id in q ensures exists i | 0 <= i < |items| :: items[i][Id] == IdValue(id) {
      var i :| 0 <= i < |q| && q[i] == id;
      assert items[i][Id] == IdValue(id);
    }
  }

  /**
   * A tag listing shows each of `user`'s tags once with its name, no other
   * tag, with names never increasing down the list.
   */
  lemma TagListing(tags: map<TagId, Tag>, user: UserId, bound: nat)
    requires forall id | id in tags :: id < bound
    ensures var items := RenderTags(TagQueryset(tags, user, bound), tags);
      && (forall i | 0 <= i < |items| :: Id in items[i] && items[i][Id].IdValue?
            && items[i][Id].n in tags && tags[items[i][Id].n].owner == user
            && Name in items[i] && items[i][Name] == Text(tags[items[i][Id].n].name))
      && (forall i, j | 0 <= i < j < |items| :: StrLeq(items[j][Name].s, items[i][Name].s))
      && (forall id | id in tags && tags[id].owner == user ::
            exists i | 0 <= i < |items| :: items[i][Id] == IdValue(id))
      && (forall i, j | 0 <= i < j < |items| :: items[i][Id] != items[j][Id])
  {
    var q := TagQueryset(tags, user, bound);
    AtMostOnceDistinct(q);
    RenderedTags(q, tags, user);
  }

  class Database {
    var recipes: map<RecipeId, Recipe>
    var tags: map<TagId, Tag>
    /** The ids the two tables hand out next; ids are never reused. */
    var nextRecipeId: RecipeId
    var nextTagId: TagId

    /**
     * Every id in use is below the next id, and a recipe's tags exist and
     * belong to the recipe's owner.
     */
    ghost predicate Valid()
      reads this
    {
      Consistent(recipes, tags, nextRecipeId, nextTagId)
    }

    constructor ()
      ensures Valid()
      ensures recipes == map[] && tags == map[]
      ensures nextRecipeId == 1 && nextTagId == 1
    {
      recipes, tags := map[], map[];
      nextRecipeId, nextTagId := 1, 1;
    }

    // ------------------------------------------------------------ recipes

    /** GET on the recipe list: the requester's recipes, largest id first, in the detail representation. */
    method ListRecipes(requester: Option<UserId>) returns (resp: Response)
      requires Valid()
      ensures requester.None? <==> resp == Unauthorized
      ensures requester.Some? ==>
        var q := RecipeQueryset(recipes, requester.value, nextRecipeId);
        resp == Ok(RecipeListBody(RenderRecipes(RecipeSerializerFields(List), q, recipes, tags)))
      ensures requester.Some? ==>
        var items := resp.body.recipes;
        && (forall i | 0 <= i < |items| :: Id in items[i] && items[i][Id].IdValue?
              && items[i][Id].n in recipes && recipes[items[i][Id].n].owner == requester.value)
        && (forall i, j | 0 <= i < j < |items| :: items[i][Id].n > items[j][Id].n)
        && (forall id | id in recipes && recipes[id].owner == requester.value ::
              exists i | 0 <= i < |items| :: items[i][Id] == IdValue(id))
    {
      if requester.None? {
        return Unauthorized;
      }
      var q := RecipeQueryset(recipes, requester.value, nextRecipeId);
      var items := RenderRecipes(RecipeSerializerFields(List), q, recipes, tags);
      RecipeListing(recipes, tags, requester.value, nextRecipeId);
      resp := Ok(RecipeListBody(items));
    }

    /** GET on one recipe: NotFound unless the id is in the requester's queryset. */
    method RetrieveRecipe(requester: Option<UserId>, id: RecipeId) returns (resp: Response)
      requires Valid()
      ensures requester.None? <==> resp == Unauthorized
      ensures requester.Some? ==>
        (resp == NotFound <==> id !in recipes || recipes[id].owner != requester.value)
      ensures requester.Some? && id in recipes && recipes[id].owner == requester.value ==>
        resp == Ok(RecipeBody(RenderRecipe(RecipeSerializerFields(Retrieve), id, recipes[id], tags)))
    {
      if requester.None? {
        return Unauthorized;
      }
      if id !in OwnedRecipes(recipes, requester.value) {
        return NotFound;
      }
      resp := Ok(RecipeBody(RenderRecipe(RecipeSerializerFields(Retrieve), id, recipes[id], tags)));
    }

    /**
     * POST on the recipe list. The owner is the requester, whatever the
     * payload says; the id is the next fresh one, whatever the payload says.
     * The recipe row is inserted first, then each nested tag name is
     * looked up among the requester's tags, created when missing, and added
     * to the recipe's tag set.
     */
    method CreateRecipe(requester: Option<UserId>, payload: Payload) returns (resp: Response)
      requires Valid()
      modifies this
      ensures Valid()
      ensures requester.None? ==> resp == Unauthorized && unchanged(this)
      ensures requester.Some? && ValidateRecipe(payload, false).None? ==> resp == BadRequest && unchanged(this)
      ensures requester.Some? && ValidateRecipe(payload, false).Some? ==>
        var names := ValidateRecipe(payload, false).value.tags.GetOr([]);
        !AllUnambiguous(old(tags), requester.value, names) ==> resp == ServerError && unchanged(this)
      ensures resp.Created? ==>
        && requester.Some? && ValidateRecipe(payload, false).Some?
        && var user, d := requester.value, ValidateRecipe(payload, false).value;
           var names := d.tags.GetOr([]);
           var id := old(nextRecipeId);
           var st := Reconcile(TagState(old(tags), old(nextTagId), {}), user, names);
           && AllUnambiguous(old(tags), user, names)
           && id !in old(recipes)
           && nextRecipeId == old(nextRecipeId) + 1
           && recipes == old(recipes)[id := NewRecipe(user, d).(tags := st.linked)]
           && tags == st.tags && nextTagId == st.next
           && (names == [] ==> tags == old(tags) && recipes[id].tags == {})
           && resp == Created(RecipeBody(RenderRecipe(RecipeSerializerFields(Create), id, recipes[id], tags)))
      ensures requester.Some? && ValidateRecipe(payload, false).Some? &&
        AllUnambiguous(old(tags), requester.value, ValidateRecipe(payload, false).value.tags.GetOr([]))
        ==> resp.Created?
    {
      if requester.None? {
        return Unauthorized;
      }
      var user := requester.value;
      var data := ValidateRecipe(payload, false);
      if data.None? {
        return BadRequest;
      }
      var d := data.value;
      var names := d.tags.GetOr([]);
      // get-or-create fails when its key matches more than one row
      if !AllUnambiguous(tags, user, names) {
        return ServerError;
      }
      var id := nextRecipeId;
      var r := NewRecipe(user, d);
      ghost var st := Reconcile(TagState(tags, nextTagId, {}), user, names);
      CreateKeepsConsistent(recipes, tags, nextRecipeId, nextTagId, user, r, names);
      recipes := recipes[id := r];
      nextRecipeId := nextRecipeId + 1;
      AddTags(id, user, names);
      assert recipes == old(recipes)[id := r.(tags := st.linked)];
      resp := Created(RecipeBody(RenderRecipe(RecipeSerializerFields(Create), id, recipes[id], tags)));
    }

    /**
     * The loop over the nested tag names: get-or-create each name in order
     * and add the tag to recipe `id`'s tag set.
     */
    method AddTags(id: RecipeId, user: UserId, names: seq<string>)
      requires id in recipes && recipes[id].tags == {}
      requires forall t | t in tags :: t < nextTagId
      requires AllUnambiguous(tags, user, names)
      modifies this`recipes, this`tags, this`nextTagId
      ensures var st := Reconcile(TagState(old(tags), old(nextTagId), {}), user, names);
        && tags == st.tags && nextTagId == st.next
        && recipes == old(recipes)[id := old(recipes)[id].(tags := st.linked)]
    {
      ghost var start := TagState(tags, nextTagId, {});
      ghost var base := recipes[id];
      ghost var st := start;
      assert names[..0] == [];
      assert base.(tags := st.linked) == base;
      var i := 0;
      while i < |names|
        invariant 0 <= i <= |names|
        invariant Bounded(start)
        invariant st == Reconcile(start, user, names[..i])
        invariant tags == st.tags && nextTagId == st.next
        invariant recipes == old(recipes)[id := base.(tags := st.linked)]
      {
        var name := names[i];
        ReconcileStep(start, user, names, i);
        UnambiguousAfter(start, user, names[..i], name);
        var tid := GetOrCreateTag(user, name, st);
        recipes := recipes[id := recipes[id].(tags := recipes[id].tags + {tid})];
        st := GetOrCreate(st, user, name);
        i := i + 1;
      }
      assert names[..|names|] == names;
    }

    /**
     * Get-or-create on the key (user, name): the id of the one matching row,
     * or of a fresh row inserted for it.
     */
    method GetOrCreateTag(user: UserId, name: string, ghost st: TagState) returns (tid: TagId)
      requires Bounded(st) && tags == st.tags && nextTagId == st.next
      requires Unambiguous(tags, user, name)
      modifies this`tags, this`nextTagId
      ensures GetOrCreate(st, user, name) == TagState(tags, nextTagId, st.linked + {tid})
      ensures tid in tags && tags[tid] == Tag(user, name)
    {
      if exists t | t in tags :: tags[t] == Tag(user, name) {
        tid :| tid in tags && tags[tid] == Tag(user, name);
        GetOrCreateFound(st, user, name, tid);
      } else {
        GetOrCreateMissing(st, user, name);
        tid := nextTagId;
        tags := tags[tid := Tag(user, name)];
        nextTagId := nextTagId + 1;
      }
    }

    /**
     * PUT (`partial` false) or PATCH (`partial` true) on one recipe: the
     * supplied writable scalar fields are written; owner, id and tags stay.
     */
    method UpdateRecipe(requester: Option<UserId>, id: RecipeId, payload: Payload, partial: bool) returns (resp: Response)
      requires Valid()
      modifies this
      ensures Valid()
      ensures requester.None? ==> resp == Unauthorized && unchanged(this)
      ensures requester.Some? && (id !in old(recipes) || old(recipes)[id].owner != requester.value) ==>
        resp == NotFound && unchanged(this)
      ensures resp.Ok? ==>
        && requester.Some? && id in old(recipes) && old(recipes)[id].owner == requester.value
        && ValidateRecipe(payload, partial).Some?
        && recipes == old(recipes)[id := ApplyRecipe(old(recipes)[id], ValidateRecipe(payload, partial).value)]
        && tags == old(tags) && nextRecipeId == old(nextRecipeId) && nextTagId == old(nextTagId)
        && resp == Ok(RecipeBody(RenderRecipe(RecipeSerializerFields(Update), id, recipes[id], tags)))
      ensures !resp.Ok? ==> unchanged(this)
      ensures requester.Some? && id in old(recipes) && old(recipes)[id].owner == requester.value ==>
        match ValidateRecipe(payload, partial)
        case None => resp == BadRequest
        case Some(d) => if d.tags.Some? then resp == ServerError else resp.Ok?
    {
      if requester.None? {
        return Unauthorized;
      }
      if id !in OwnedRecipes(recipes, requester.value) {
        return NotFound;
      }
      var data := ValidateRecipe(payload, partial);
      if data.None? {
        return BadRequest;
      }
      if data.value.tags.Some? {
        // the serializer has no update for nested tags and refuses the write
        return ServerError;
      }
      recipes := recipes[id := ApplyRecipe(recipes[id], data.value)];
      resp := Ok(RecipeBody(RenderRecipe(RecipeSerializerFields(Update), id, recipes[id], tags)));
    }

    /** DELETE on one recipe: the row goes, its tags stay. */
    method DestroyRecipe(requester: Option<UserId>, id: RecipeId) returns (resp: Response)
      requires Valid()
      modifies this
      ensures Valid()
      ensures requester.None? ==> resp == Unauthorized && unchanged(this)
      ensures requester.Some? && (id !in old(recipes) || old(recipes)[id].owner != requester.value) ==>
        resp == NotFound && unchanged(this)
      ensures requester.Some? && id in old(recipes) && old(recipes)[id].owner == requester.value ==>
        && resp == NoContent
        && recipes == old(recipes) - {id}
        && tags == old(tags) && nextRecipeId == old(nextRecipeId) && nextTagId == old(nextTagId)
    {
      if requester.None? {
        return Unauthorized;
      }
      if id !in OwnedRecipes(recipes, requester.value) {
        return NotFound;
      }
      recipes := recipes - {id};
      resp := NoContent;
    }

    // --------------------------------------------------------------- tags

    /** GET on the tag list: the requester's tags, by descending name. */
    method ListTags(requester: Option<UserId>) returns (resp: Response)
      requires Valid()
      ensures requester.None? <==> resp == Unauthorized
      ensures requester.Some? ==>
        var q := TagQueryset(tags, requester.value, nextTagId);
        resp == Ok(TagListBody(RenderTags(q, tags)))
      ensures requester.Some? ==>
        var items := resp.body.tags;
        && (forall i | 0 <= i < |items| :: Id in items[i] && items[i][Id].IdValue?
              && items[i][Id].n in tags && tags[items[i][Id].n].owner == requester.value
              && Name in items[i] && items[i][Name] == Text(tags[items[i][Id].n].name))
        && (forall i, j | 0 <= i < j < |items| :: StrLeq(items[j][Name].s, items[i][Name].s))
        && (forall id | id in tags && tags[id].owner == requester.value ::
              exists i | 0 <= i < |items| :: items[i][Id] == IdValue(id))
        && (forall i, j | 0 <= i < j < |items| :: items[i][Id] != items[j][Id])
    {
      if requester.None? {
        return Unauthorized;
      }
      var q := TagQueryset(tags, requester.value, nextTagId);
      var items := RenderTags(q, tags);
      TagListing(tags, requester.value, nextTagId);
      resp := Ok(TagListBody(items));
    }

    /** PUT or PATCH on one tag: only the name can change, and only on the requester's tags. */
    method UpdateTag(requester: Option<UserId>, id: TagId, payload: Payload, partial: bool) returns (resp: Response)
      requires Valid()
      modifies this
      ensures Valid()
      ensures requester.None? ==> resp == Unauthorized && unchanged(this)
      ensures requester.Some? && (id !in old(tags) || old(tags)[id].owner != requester.value) ==>
        resp == NotFound && unchanged(this)
      ensures requester.Some? && id in old(tags) && old(tags)[id].owner == requester.value ==>
        match ValidateTag(payload, partial)
        case None => resp == BadRequest && unchanged(this)
        case Some(d) =>
          && tags == old(tags)[id := ApplyTag(old(tags)[id], d)]
          && recipes == old(recipes) && nextRecipeId == old(nextRecipeId) && nextTagId == old(nextTagId)
          && resp == Ok(TagBody(RenderTag(id, tags[id])))
    {
      if requester.None? {
        return Unauthorized;
      }
      if id !in OwnedTags(tags, requester.value) {
        return NotFound;
      }
      var data := ValidateTag(payload, partial);
      if data.None? {
        return BadRequest;
      }
      tags := tags[id := ApplyTag(tags[id], data.value)];
      resp := Ok(TagBody(RenderTag(id, tags[id])));
    }

    /** DELETE on one tag: the row goes, and so does every recipe's link to it. */
    method DestroyTag(requester: Option<UserId>, id: TagId) returns (resp: Response)
      requires Valid()
      modifies this
      ensures Valid()
      ensures requester.None? ==> resp == Unauthorized && unchanged(this)
      ensures requester.Some? && (id !in old(tags) || old(tags)[id].owner != requester.value) ==>
        resp == NotFound && unchanged(this)
      ensures requester.Some? && id in old(tags) && old(tags)[id].owner == requester.value ==>
        && resp == NoContent
        && tags == old(tags) - {id}
        && recipes == (map r | r in old(recipes) :: old(recipes)[r].(tags := old(recipes)[r].tags - {id}))
        && nextRecipeId == old(nextRecipeId) && nextTagId == old(nextTagId)
    {
      if requester.None? {
        return Unauthorized;
      }
      if id !in OwnedTags(tags, requester.value) {
        return NotFound;
      }
      tags := tags - {id};
      recipes := map r | r in recipes :: recipes[r].(tags := recipes[r].tags - {id});
      resp := NoContent;
    }

    // ----------------------------------------------------------- dispatch

    /**
     * One request: authentication first, then the viewset's capability set
     * (an action the viewset does not offer is MethodNotAllowed), then the
     * action itself.
     */
    method Handle(req: Request) returns (resp: Response)
      requires Valid()
      modifies this
      ensures Valid()
      ensures req.requester.None? ==> resp == Unauthorized && unchanged(this)
      ensures req.requester.Some? && req.action !in Capabilities(req.resource) ==>
        resp == MethodNotAllowed && unchanged(this)
      ensures resp == MethodNotAllowed <==> req.requester.Some? && req.action !in Capabilities(req.resource)
      ensures resp.NotFound? || resp.BadRequest? || resp.ServerError? ==> unchanged(this)
      ensures req.resource == TagViewSet ==> tags.Keys <= old(tags.Keys) && nextTagId == old(nextTagId)
      ensures req.resource == TagViewSet ==> !resp.Created?
      ensures req.action in {List, Retrieve} ==> unchanged(this)
      // each offered action reaches its own handler: lists and retrieve answer from the querysets
      ensures req.requester.Some? && req.action == List ==>
        resp == if req.resource == RecipeViewSet
                then Ok(RecipeListBody(RenderRecipes(RecipeSerializerFields(List),
                       RecipeQueryset(recipes, req.requester.value, nextRecipeId), recipes, tags)))
                else Ok(TagListBody(RenderTags(TagQueryset(tags, req.requester.value, nextTagId), tags)))
      ensures req.requester.Some? && req.resource == RecipeViewSet && req.action == Retrieve ==>
        if req.id in recipes && recipes[req.id].owner == req.requester.value
        then resp == Ok(RecipeBody(RenderRecipe(RecipeSerializerFields(Retrieve), req.id, recipes[req.id], tags)))
        else resp == NotFound
      // create inserts the requester's recipe at the next id
      ensures req.requester.Some? && req.resource == RecipeViewSet && req.action == Create ==>
        (resp.Created? <==>
           && ValidateRecipe(req.payload, false).Some?
           && AllUnambiguous(old(tags), req.requester.value, ValidateRecipe(req.payload, false).value.tags.GetOr([])))
      ensures req.requester.Some? && req.resource == RecipeViewSet && req.action == Create ==>
        var data := ValidateRecipe(req.payload, false);
        && (data.None? ==> resp == BadRequest)
        && (data.Some? && !AllUnambiguous(old(tags), req.requester.value, data.value.tags.GetOr([])) ==>
              resp == ServerError)
      ensures resp.Created? ==>
        && nextRecipeId == old(nextRecipeId) + 1 && old(nextRecipeId) !in old(recipes)
        && old(nextRecipeId) in recipes && recipes[old(nextRecipeId)].owner == req.requester.value
        && resp == Created(RecipeBody(RenderRecipe(RecipeSerializerFields(Create), old(nextRecipeId),
                                                   recipes[old(nextRecipeId)], tags)))
      ensures resp.Created? && req.requester.Some? && ValidateRecipe(req.payload, false).Some? ==>
        var user, d := req.requester.value, ValidateRecipe(req.payload, false).value;
        var st := Reconcile(TagState(old(tags), old(nextTagId), {}), user, d.tags.GetOr([]));
        && recipes == old(recipes)[old(nextRecipeId) := NewRecipe(user, d).(tags := st.linked)]
        && tags == st.tags && nextTagId == st.next
      // PUT is a full update and PATCH a partial one, on the requester's row only
      ensures req.requester.Some? && req.action in {Update, PartialUpdate} && req.resource == RecipeViewSet ==>
        var owned := req.id in old(recipes) && old(recipes)[req.id].owner == req.requester.value;
        var data := ValidateRecipe(req.payload, req.action == PartialUpdate);
        && (!owned ==> resp == NotFound)
        && (owned && data.Some? && data.value.tags.None? ==>
              resp.Ok? && recipes == old(recipes)[req.id := ApplyRecipe(old(recipes)[req.id], data.value)])
        && (owned && data.None? ==> resp == BadRequest)
        && (owned && data.Some? && data.value.tags.Some? ==> resp == ServerError)
        && (resp.Ok? ==>
              && owned && data.Some?
              && recipes == old(recipes)[req.id := ApplyRecipe(old(recipes)[req.id], data.value)]
              && resp == Ok(RecipeBody(RenderRecipe(RecipeSerializerFields(req.action), req.id, recipes[req.id], tags))))
      ensures req.requester.Some? && req.action in {Update, PartialUpdate} && req.resource == TagViewSet ==>
        var owned := req.id in old(tags) && old(tags)[req.id].owner == req.requester.value;
        var data := ValidateTag(req.payload, req.action == PartialUpdate);
        && (!owned ==> resp == NotFound)
        && (owned && data.Some? ==> resp.Ok? && tags == old(tags)[req.id := ApplyTag(old(tags)[req.id], data.value)])
        && (owned && data.None? ==> resp == BadRequest)
        && (resp.Ok? ==> owned && data.Some? && req.id in tags && resp == Ok(TagBody(RenderTag(req.id, tags[req.id]))))
      ensures req.resource == RecipeViewSet && req.action in {Update, PartialUpdate} && resp.Ok? ==>
        tags == old(tags) && nextTagId == old(nextTagId) && nextRecipeId == old(nextRecipeId)
      ensures req.resource == TagViewSet && req.action in {Update, PartialUpdate} ==>
        recipes == old(recipes) && nextRecipeId == old(nextRecipeId) && nextTagId == old(nextTagId)
      // DELETE removes the requester's row and never moves an id counter
      ensures req.action == Destroy ==> nextRecipeId == old(nextRecipeId) && nextTagId == old(nextTagId)
      ensures req.requester.Some? && req.action == Destroy && req.resource == RecipeViewSet ==>
        if req.id in old(recipes) && old(recipes)[req.id].owner == req.requester.value
        then resp == NoContent && recipes == old(recipes) - {req.id} && tags == old(tags)
        else resp == NotFound
      ensures req.requester.Some? && req.action == Destroy && req.resource == TagViewSet ==>
        if req.id in old(tags) && old(tags)[req.id].owner == req.requester.value
        then
          && resp == NoContent && tags == old(tags) - {req.id}
          && recipes == (map r | r in old(recipes) :: old(recipes)[r].(tags := old(recipes)[r].tags - {req.id}))
        else resp == NotFound
    {
      if req.requester.None? {
        return Unauthorized;
      }
      if req.action !in Capabilities(req.resource) {
        return MethodNotAllowed;
      }
      match req.resource {
        case RecipeViewSet =>
          match req.action {
            case List => resp := ListRecipes(req.requester);
            case Retrieve => resp := RetrieveRecipe(req.requester, req.id);
            case Create => resp := CreateRecipe(req.requester, req.payload);
            case Update => resp := UpdateRecipe(req.requester, req.id, req.payload, false);
            case PartialUpdate => resp := UpdateRecipe(req.requester, req.id, req.payload, true);
            case Destroy => resp := DestroyRecipe(req.requester, req.id);
          }
        case TagViewSet =>
          match req.action {
            case List => resp := ListTags(req.requester);
            case Update => resp := UpdateTag(req.requester, req.id, req.payload, false);
            case PartialUpdate => resp := UpdateTag(req.requester, req.id, req.payload, true);
            case Destroy => resp := DestroyTag(req.requester, req.id);
          }
      }
    }
  }
}
