/** `Activity` (Types/Activity.cs): its constructors and the `Actors`/`Actor`
    properties, whose writes also feed `attributedTo`.

    Object initialisers run after the constructor, one property at a time in
    the order written, so an initialiser list is a composition of the `Init`
    functions below in that order. */
module Activities {
  import opened Wrappers
  import opened LanguageMaps
  import opened Accessors
  import opened Entities
  import opened Objects

  predicate IsActivity(a: Entity) {
    IsObject(a) && a.kind == ActivityKind
  }

  /** `new Activity(type)`: `Object()` then `Type = type ?? "Activity"`. */
  function NewActivity(t: Option<string>, defaultContext: Option<Entity>): (a: Entity)
    ensures IsActivity(a)
    ensures t.Some? ==> a.types == Some([t.value])
    ensures t.None? ==> a.types == Some(DefaultTypes(ActivityKind))
    ensures a.body.relations == map[] && a.body.actors.None?
    ensures defaultContext.None? ==> a.contexts.None?
    ensures defaultContext.Some? ==> a.contexts == Some([defaultContext.value])
    ensures a.mediaType == Some(DefaultMediaType)
    ensures a.id.None? && a.names.None? && a.previews.None?
  {
    var created := NewEntity(ActivityKind, false, defaultContext);
    InitType(created, Some(match t case Some(s) => s case None => DefaultTypes(ActivityKind)[0]))
  }

  /** `new Activity()`, which is `new Activity(default(string))`. */
  function NewDefaultActivity(defaultContext: Option<Entity>): (a: Entity)
    ensures IsActivity(a) && a.types == Some(["Activity"])
    ensures a.body.relations == map[] && a.body.actors.None?
    ensures defaultContext.None? ==> a.contexts.None?
    ensures defaultContext.Some? ==> a.contexts == Some([defaultContext.value])
    ensures a.mediaType == Some(DefaultMediaType)
    ensures a.id.None? && a.names.None? && a.previews.None?
  {
    NewActivity(None, defaultContext)
  }

  /** `new Activity(types)`: `Types = types`, a copy (absent for `null`). */
  function NewActivityWithTypes(ts: Option<seq<string>>, defaultContext: Option<Entity>): (a: Entity)
    ensures IsActivity(a) && a.types == ts
    ensures a.body.relations == map[] && a.body.actors.None?
    ensures defaultContext.None? ==> a.contexts.None?
    ensures defaultContext.Some? ==> a.contexts == Some([defaultContext.value])
    ensures a.mediaType == Some(DefaultMediaType)
    ensures a.id.None? && a.names.None? && a.previews.None?
  {
    InitTypes(NewEntity(ActivityKind, false, defaultContext), ts)
  }

  /** `Actors` init: `value.ToList()` throws on `null`; otherwise the actors
      are stored, and copied into `attributedTo` when that is absent or
      appended after its entries when it is present. */
  function InitActors(a: Entity, v: Option<seq<Entity>>): (r: Result<Entity>)
    requires IsActivity(a)
    ensures v.None? ==> r == Failure(ArgumentNullException)
    ensures v.Some? ==> r.Success? && IsActivity(r.value) && r.value.body.actors == v
    ensures v.Some? ==> PluralGet(r.value, AttributedTo) == Some(OrEmpty(PluralGet(a, AttributedTo)) + v.value)
    ensures r.Success? ==>
      forall other :: other != AttributedTo ==> PluralGet(r.value, other) == PluralGet(a, other)
    ensures r.Success? ==> r.value.(body := a.body) == a
    ensures r.Success? ==> r.value.body.(relations := a.body.relations, actors := a.body.actors) == a.body
  {
    match v
    case None => Failure(ArgumentNullException)
    case Some(actors) =>
      var attributed := match PluralGet(a, AttributedTo)
        case None => actors
        case Some(existing) => existing + actors;
      assert attributed == OrEmpty(PluralGet(a, AttributedTo)) + actors by {
        assert [] + actors == actors;
      }
      var withActors := a.(body := a.body.(actors := Some(actors)));
      Success(SetRelation(withActors, AttributedTo, Some(attributed)))
  }

  /** `Actor` get `Actors.GetDefault()`: no null-conditional, so an absent
      `Actors` throws; otherwise the first actor, or absent when empty. */
  function ActorGet(a: Entity): (r: Result<Option<Entity>>)
    requires IsActivity(a)
    ensures a.body.actors.None? ==> r == Failure(ArgumentNullException)
    ensures a.body.actors.Some? ==> r.Success? && r.value == First(a.body.actors)
  {
    match a.body.actors
    case None => Failure(ArgumentNullException)
    case Some(actors) => Success(GetDefault(Listed(actors), ShippedDefaultLanguage))
  }

  /** `Actor` init as written: the value goes to the front of the
      attachments (not the actors), and is appended to `attributedTo`
      (creating it when absent). */
  function InitActor(a: Entity, x: Entity): (r: Entity)
    requires IsActivity(a)
    ensures IsActivity(r) && r.body.actors == a.body.actors
    ensures PluralGet(r, Attachments) == Some([x] + OrEmpty(PluralGet(a, Attachments)))
    ensures PluralGet(r, AttributedTo) == Some(OrEmpty(PluralGet(a, AttributedTo)) + [x])
    ensures forall other :: other != Attachments && other != AttributedTo ==>
      PluralGet(r, other) == PluralGet(a, other)
    ensures r.(body := a.body) == a && r.body.(relations := a.body.relations) == a.body
  {
    var withAttachment := SetRelation(a, Attachments, WriteFirst(PluralGet(a, Attachments), Some(x)));
    var attributed := match PluralGet(withAttachment, AttributedTo)
      case None => [x]
      case Some(existing) => existing + [x];
    assert attributed == OrEmpty(PluralGet(a, AttributedTo)) + [x] by {
      assert PluralGet(withAttachment, AttributedTo) == PluralGet(a, AttributedTo);
      assert [] + [x] == [x];
    }
    SetRelation(withAttachment, AttributedTo, Some(attributed))
  }

  /** `Actor = x` is not visible through `Actor`: on an activity without
      actors the getter still throws, and with actors it still reads the old
      first actor, while `x` has become the first attachment. */
  lemma ActorWriteMissesActors(a: Entity, x: Entity)
    requires IsActivity(a)
    ensures ActorGet(InitActor(a, x)) == ActorGet(a)
    ensures SingularGet(InitActor(a, x), Attachments) == Some(x)
  {
  }

  /** `Actor` init as the singular pattern intends it: the value goes to the
      front of the actors, and is appended to `attributedTo`. */
  function InitActorCorrected(a: Entity, x: Entity): (r: Entity)
    requires IsActivity(a)
    ensures IsActivity(r) && r.body.actors == Some([x] + OrEmpty(a.body.actors))
    ensures PluralGet(r, AttributedTo) == Some(OrEmpty(PluralGet(a, AttributedTo)) + [x])
    ensures forall other :: other != AttributedTo ==> PluralGet(r, other) == PluralGet(a, other)
    ensures r.(body := a.body) == a
    ensures r.body.(relations := a.body.relations, actors := a.body.actors) == a.body
  {
    var withActor := a.(body := a.body.(actors := WriteFirst(a.body.actors, Some(x))));
    var attributed := OrEmpty(PluralGet(withActor, AttributedTo)) + [x];
    SetRelation(withActor, AttributedTo, Some(attributed))
  }

  /** The corrected setter reads back through `Actor`. */
  lemma ActorCorrectedReadsBack(a: Entity, x: Entity)
    requires IsActivity(a)
    ensures ActorGet(InitActorCorrected(a, x)) == Success(Some(x))
  {
  }

  /** The derivation of `attributedTo` depends on initialiser order. On an
      activity without `attributedTo`, `{ Actors = xs }` gives `xs`;
      `{ AttributedTo = ys, Actors = xs }` gives `ys + xs`; and
      `{ Actors = xs, AttributedTo = ys }` gives `ys`, dropping the actors. */
  lemma AttributionDependsOnOrder(a: Entity, xs: seq<Entity>, ys: seq<Entity>)
    requires IsActivity(a) && PluralGet(a, AttributedTo).None?
    ensures PluralGet(InitActors(a, Some(xs)).value, AttributedTo) == Some(xs)
    ensures PluralGet(InitActors(InitPlural(a, AttributedTo, Some(ys)), Some(xs)).value, AttributedTo)
      == Some(ys + xs)
    ensures PluralGet(InitPlural(InitActors(a, Some(xs)).value, AttributedTo, Some(ys)), AttributedTo)
      == Some(ys)
  {
  }
}
