/**
 * The serializer layer of the recipe API: the declared field lists of the
 * tag, recipe and recipe-detail serializers, the validation of a client
 * payload into the data a handler may write, the writes themselves, and the
 * rendering of a row into a representation keyed by field name.
 */
module Serializers {
  import opened Domain

  /** The field names a client may send or a response may carry. */
  datatype Field = Id | Title | TimeMinutes | Price | Link | Tags | Description | Name | User

  /** One nested tag object of a recipe payload; its `id` is read-only and never used. */
  datatype TagInput = TagInput(id: Option<TagId>, name: string)

  /** One nested tag object of a rendered recipe. */
  datatype TagItem = TagItem(id: TagId, name: string)

  datatype Value =
    | IdValue(n: nat)
    | Text(s: string)
    | Int(i: int)
    | Money(p: Decimal)
    | TagInputs(inputs: seq<TagInput>)
    | TagItems(items: set<TagItem>)

  /** What a client sends: any field names, with values of any kind. */
  type Payload = map<Field, Value>

  /** What a response carries for one row: one value per declared field. */
  type Representation = map<Field, Value>

  // The `Meta` declarations of the three serializers.
  const TagFields: seq<Field> := [Id, Name]
  const TagReadOnly: seq<Field> := [Id]
  const RecipeFields: seq<Field> := [Id, Title, TimeMinutes, Price, Link, Tags, Description]
  const RecipeReadOnly: seq<Field> := [Id]
  /** The detail serializer appends `description` a second time to the base list. */
  const RecipeDetailFields: seq<Field> := RecipeFields + [Description]

  /** The fields a serializer takes from a client: declared and not read-only. */
  function Writable(fields: seq<Field>, readOnly: seq<Field>): set<Field>
  {
    set f | f in fields && f !in readOnly
  }

  function RecipeWritable(): set<Field>
  {
    Writable(RecipeFields, RecipeReadOnly)
  }

  function TagWritable(): set<Field>
  {
    Writable(TagFields, TagReadOnly)
  }

  lemma RecipeWritableFields()
    ensures RecipeWritable() == {Title, TimeMinutes, Price, Link, Tags, Description}
    ensures Id !in RecipeWritable() && User !in RecipeWritable()
  {
  }

  lemma TagWritableFields()
    ensures TagWritable() == {Name}
    ensures Id !in TagWritable() && User !in TagWritable()
  {
  }

  /** The detail list is one longer than the base list, yet names the same fields. */
  lemma DetailFieldSet()
    ensures |RecipeDetailFields| == |RecipeFields| + 1
    ensures forall f :: f in RecipeDetailFields <==> f in RecipeFields
  {
  }

  // ---------------------------------------------------------------- validation

  /** The kind of value each field takes. */
  predicate Accepts(f: Field, v: Value)
  {
    match f
    case Title | Link | Description | Name => v.Text?
    case TimeMinutes => v.Int?
    case Price => v.Money?
    case Tags => v.TagInputs?
    case Id | User => v.IdValue?
  }

  /** Every writable field that the payload carries has a value of its kind. */
  predicate WellTyped(p: Payload, writable: set<Field>)
  {
    forall f | f in p && f in writable :: Accepts(f, p[f])
  }

  /** The recipe fields a create or a full update must supply. */
  const RecipeRequired: set<Field> := {Title, TimeMinutes, Price}
  /** The tag fields a full update must supply. */
  const TagRequired: set<Field> := {Name}

  /** The validated data of a recipe payload: one entry per supplied writable field. */
  datatype RecipeData = RecipeData(
    title: Option<string>,
    timeMinutes: Option<int>,
    price: Option<Decimal>,
    link: Option<string>,
    description: Option<string>,
    tags: Option<seq<string>>)

  /** The validated data of a tag payload. */
  datatype TagData = TagData(name: Option<string>)

  function TextOf(p: Payload, f: Field): Option<string>
    requires f in p ==> p[f].Text?
  {
    if f in p then Some(p[f].s) else None
  }

  function Names(inputs: seq<TagInput>): (names: seq<string>)
    ensures |names| == |inputs|
    ensures forall i :: 0 <= i < |inputs| ==> names[i] == inputs[i].name
  {
    seq(|inputs|, i requires 0 <= i < |inputs| => inputs[i].name)
  }

  /**
   * Validation of a recipe payload. Fields that are not writable (`id`,
   * `user`, anything undeclared) are dropped; a writable field of the wrong
   * kind, or a missing required field when the update is not partial, makes
   * the payload invalid.
   */
  function ValidateRecipe(p: Payload, partial: bool): (r: Option<RecipeData>)
    ensures r.Some? <==> WellTyped(p, RecipeWritable()) && (!partial ==> RecipeRequired <= p.Keys)
    ensures r.Some? ==>
      && (r.value.title.Some? <==> Title in p)
      && (r.value.timeMinutes.Some? <==> TimeMinutes in p)
      && (r.value.price.Some? <==> Price in p)
      && (r.value.link.Some? <==> Link in p)
      && (r.value.description.Some? <==> Description in p)
      && (r.value.tags.Some? <==> Tags in p)
  {
    RecipeWritableFields();
    if !WellTyped(p, RecipeWritable()) || (!partial && !(RecipeRequired <= p.Keys)) then
      None
    else
      Some(RecipeData(
        TextOf(p, Title),
        if TimeMinutes in p then Some(p[TimeMinutes].i) else None,
        if Price in p then Some(p[Price].p) else None,
        TextOf(p, Link),
        TextOf(p, Description),
        if Tags in p then Some(Names(p[Tags].inputs)) else None))
  }

  /** Validation of a tag payload: only `name` is taken, and a full update must supply it. */
  function ValidateTag(p: Payload, partial: bool): (r: Option<TagData>)
    ensures r.Some? <==> WellTyped(p, TagWritable()) && (!partial ==> TagRequired <= p.Keys)
    ensures r.Some? ==> (r.value.name.Some? <==> Name in p)
  {
    TagWritableFields();
    if !WellTyped(p, TagWritable()) || (!partial && Name !in p) then None
    else Some(TagData(TextOf(p, Name)))
  }

  /** A field the serializer does not take from the client never changes what validation yields. */
  lemma RecipeIgnoresUnwritable(p: Payload, f: Field, v: Value, partial: bool)
    requires f !in RecipeWritable()
    ensures ValidateRecipe(p[f := v], partial) == ValidateRecipe(p, partial)
  {
    RecipeWritableFields();
    var q := p[f := v];
    assert WellTyped(q, RecipeWritable()) <==> WellTyped(p, RecipeWritable()) by {
      assert forall g | g in RecipeWritable() :: (g in q <==> g in p) && (g in p ==> q[g] == p[g]);
    }
  }

  lemma TagIgnoresUnwritable(p: Payload, f: Field, v: Value, partial: bool)
    requires f !in TagWritable()
    ensures ValidateTag(p[f := v], partial) == ValidateTag(p, partial)
  {
    TagWritableFields();
    var q := p[f := v];
    assert WellTyped(q, TagWritable()) <==> WellTyped(p, TagWritable()) by {
      assert Name in q <==> Name in p;
      assert Name in p ==> q[Name] == p[Name];
    }
  }

  // ------------------------------------------------------------------ writes

  /** The row a create inserts: the supplied values, `""` for an omitted link or description. */
  function NewRecipe(owner: UserId, d: RecipeData): (r: Recipe)
    requires d.title.Some? && d.timeMinutes.Some? && d.price.Some?
    ensures r.owner == owner && r.tags == {}
  {
    Recipe(owner, d.title.value, d.timeMinutes.value, d.price.value,
           d.link.GetOr(""), d.description.GetOr(""), {})
  }

  /** An update writes each supplied scalar field and leaves owner and tags alone. */
  function ApplyRecipe(r: Recipe, d: RecipeData): (r': Recipe)
    ensures r'.owner == r.owner && r'.tags == r.tags
  {
    r.(title := d.title.GetOr(r.title),
       timeMinutes := d.timeMinutes.GetOr(r.timeMinutes),
       price := d.price.GetOr(r.price),
       link := d.link.GetOr(r.link),
       description := d.description.GetOr(r.description))
  }

  function ApplyTag(t: Tag, d: TagData): (t': Tag)
    ensures t'.owner == t.owner
  {
    t.(name := d.name.GetOr(t.name))
  }

  // --------------------------------------------------------------- rendering

  /** The value a recipe row shows for one of the recipe serializer's fields. */
  function RecipeValue(f: Field, id: RecipeId, r: Recipe, tags: map<TagId, Tag>): Value
    requires f in RecipeFields
  {
    match f
    case Id => IdValue(id)
    case Title => Text(r.title)
    case TimeMinutes => Int(r.timeMinutes)
    case Price => Money(r.price)
    case Link => Text(r.link)
    case Description => Text(r.description)
    case Tags => TagItems(set t | t in r.tags && t in tags :: TagItem(t, tags[t].name))
    case Name | User => assert false; Text("")
  }

  /** A recipe renders with one entry per field of the serializer's list and no other. */
  function RenderRecipe(fields: seq<Field>, id: RecipeId, r: Recipe, tags: map<TagId, Tag>): (rep: Representation)
    requires forall f | f in fields :: f in RecipeFields
    ensures forall f :: f in rep <==> f in fields
  {
    map f | f in fields :: RecipeValue(f, id, r, tags)
  }

  function TagValue(f: Field, id: TagId, t: Tag): Value
    requires f in TagFields
  {
    if f == Id then IdValue(id) else Text(t.name)
  }

  /** A tag renders with exactly its id and its name. */
  function RenderTag(id: TagId, t: Tag): (rep: Representation)
    ensures rep.Keys == {Id, Name}
    ensures rep[Id] == IdValue(id) && rep[Name] == Text(t.name)
  {
    map f | f in TagFields :: TagValue(f, id, t)
  }

  /**
   * What the recipe serializer shows: the id, each scalar column, and the
   * nested tags as (id, name) pairs of the recipe's tag rows.
   */
  lemma RecipeRepresentation(id: RecipeId, r: Recipe, tags: map<TagId, Tag>)
    ensures var rep := RenderRecipe(RecipeFields, id, r, tags);
      && rep.Keys == {Id, Title, TimeMinutes, Price, Link, Tags, Description}
      && rep[Id] == IdValue(id)
      && rep[Title] == Text(r.title) && rep[TimeMinutes] == Int(r.timeMinutes) && rep[Price] == Money(r.price)
      && rep[Link] == Text(r.link) && rep[Description] == Text(r.description)
      && rep[Tags].TagItems?
      && forall item :: item in rep[Tags].items <==> item.id in r.tags && item.id in tags && item.name == tags[item.id].name
  {
    var rep := RenderRecipe(RecipeFields, id, r, tags);
    assert rep[Tags] == RecipeValue(Tags, id, r, tags);
  }

  /**
   * The nested tag objects count only by their names: two payloads whose tag
   * lists carry the same names in the same order, whatever ids they supply,
   * validate alike.
   */
  lemma NestedTagIdsIgnored(p: Payload, a: seq<TagInput>, b: seq<TagInput>, partial: bool)
    requires |a| == |b| && forall i | 0 <= i < |a| :: a[i].name == b[i].name
    ensures ValidateRecipe(p[Tags := TagInputs(a)], partial) == ValidateRecipe(p[Tags := TagInputs(b)], partial)
  {
    RecipeWritableFields();
    var pa, pb := p[Tags := TagInputs(a)], p[Tags := TagInputs(b)];
    assert Names(a) == Names(b);
    assert WellTyped(pa, RecipeWritable()) <==> WellTyped(pb, RecipeWritable()) by {
      forall f | f in RecipeWritable() ensures (f in pa && Accepts(f, pa[f])) <==> (f in pb && Accepts(f, pb[f])) {
        if f != Tags {
          assert f in pa <==> f in pb;
        }
      }
    }
    assert pa.Keys == pb.Keys;
  }

  /** The duplicated `description` makes no difference: both serializers render alike. */
  lemma DetailRendersAsBase(id: RecipeId, r: Recipe, tags: map<TagId, Tag>)
    ensures RenderRecipe(RecipeDetailFields, id, r, tags) == RenderRecipe(RecipeFields, id, r, tags)
  {
    DetailFieldSet();
  }

  /**
   * A create stores exactly the supplied values: each required field shows
   * the payload's value, an optional one the payload's value or `""`.
   */
  lemma {:induction false} CreateStoresPayload(p: Payload, owner: UserId, id: RecipeId, tags: map<TagId, Tag>)
    requires ValidateRecipe(p, false).Some?
    ensures var d := ValidateRecipe(p, false).value;
      var r := NewRecipe(owner, d);
      && r.owner == owner
      && (forall f | f in RecipeRequired :: RecipeValue(f, id, r, tags) == p[f])
      && (forall f | f in {Link, Description} ::
            RecipeValue(f, id, r, tags) == if f in p then p[f] else Text(""))
  {
    RecipeWritableFields();
    var d := ValidateRecipe(p, false).value;
    assert Accepts(Title, p[Title]) && Accepts(TimeMinutes, p[TimeMinutes]) && Accepts(Price, p[Price]);
    assert Link in p ==> Accepts(Link, p[Link]);
    assert Description in p ==> Accepts(Description, p[Description]);
  }

  /**
   * An update (partial or full) changes exactly the supplied writable scalar
   * fields: each shows the supplied value afterwards, every other keeps its
   * old value, and the owner and tag set never change.
   */
  lemma {:induction false} UpdateChangesOnlySupplied(p: Payload, partial: bool, r: Recipe, id: RecipeId, tags: map<TagId, Tag>)
    requires ValidateRecipe(p, partial).Some?
    ensures var r' := ApplyRecipe(r, ValidateRecipe(p, partial).value);
      && r'.owner == r.owner && r'.tags == r.tags
      && forall f | f in RecipeWritable() && f != Tags ::
           RecipeValue(f, id, r', tags) == if f in p then p[f] else RecipeValue(f, id, r, tags)
  {
    RecipeWritableFields();
    forall f | f in RecipeWritable() && f != Tags && f in p
      ensures Accepts(f, p[f])
    {
    }
  }

  /** A full update that is valid supplies every required field, so each takes the payload's value. */
  lemma {:induction false} FullUpdateSetsRequired(p: Payload, r: Recipe, id: RecipeId, tags: map<TagId, Tag>)
    requires ValidateRecipe(p, false).Some?
    ensures var r' := ApplyRecipe(r, ValidateRecipe(p, false).value);
      forall f | f in RecipeRequired :: RecipeValue(f, id, r', tags) == p[f]
  {
    UpdateChangesOnlySupplied(p, false, r, id, tags);
  }

  /** A tag update sets the name when it is supplied and keeps it otherwise; the owner stays. */
  lemma {:induction false} TagUpdateChangesOnlyName(p: Payload, partial: bool, id: TagId, t: Tag)
    requires ValidateTag(p, partial).Some?
    ensures var t' := ApplyTag(t, ValidateTag(p, partial).value);
      && t'.owner == t.owner
      && TagValue(Name, id, t') == (if Name in p then p[Name] else TagValue(Name, id, t))
      && RenderTag(id, t')[Id] == IdValue(id)
  {
    TagWritableFields();
    assert Name in p ==> Accepts(Name, p[Name]);
  }
}
