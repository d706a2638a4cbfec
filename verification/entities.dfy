/** The entity model: the kinds of section 2 (Core Types) of the W3C Activity
    Vocabulary that the library ships, the `Entity` base class's properties,
    and its constructor.

    One `Entity` record stands for an instance of any concrete class; `kind`
    is its exact runtime type and `body` holds the fields of the `Link` or
    the `Object` branch of the class hierarchy. Every C# `init` accessor is a
    function from the entity before to the entity after; a throwing accessor
    returns a `Result`. The global `Settings.DefaultContext` and
    `Settings.DefaultLanguage` are parameters. */
module Entities {
  import opened Wrappers
  import opened LanguageMaps
  import opened Accessors

  /** The concrete classes: `Object`, `Link`, `Activity`, `Collection`, `Image`. */
  datatype Kind = ObjectKind | LinkKind | ActivityKind | CollectionKind | ImageKind

  /** `Object.DefaultType`. */
  const ObjectTypeTag: string := "Object"

  /** The initial value of `_mediaType`. */
  const DefaultMediaType: string := "text/html"

  /** Each class's `DefaultTypes`: a single tag, the class's own name. */
  function DefaultTypes(k: Kind): (ts: seq<string>)
    ensures |ts| == 1 && |ts[0]| > 0
  {
    match k
    case ObjectKind => [ObjectTypeTag]
    case LinkKind => ["Link"]
    case ActivityKind => ["Activity"]
    case CollectionKind => ["Collection"]
    case ImageKind => ["Image"]
  }

  /** Every kind has a non-empty tag list, and no tag names two kinds. */
  lemma DefaultTypesDistinct(k1: Kind, k2: Kind, t: string)
    ensures |DefaultTypes(k1)| > 0
    ensures t in DefaultTypes(k1) && t in DefaultTypes(k2) ==> k1 == k2
  {
  }

  /** Assignability (`typeof(sup).IsAssignableFrom(typeof(sub))`) between the
      concrete classes: `Activity`, `Collection` and `Image` derive from
      `Object`. */
  predicate IsA(sub: Kind, sup: Kind) {
    sub == sup || (sup == ObjectKind && sub != LinkKind)
  }

  /** The plural relations of `Object` whose elements are entities. */
  datatype Relation =
    | Attachments | AttributedTo | Audiences | To | BTo | Cc | BCc
    | Generators | InReplyTo | Urls | Locations | Tags

  /** An entity. Absent (`None`) is a `null` field. */
  datatype Entity = Entity(
    kind: Kind,
    id: Option<string>,
    contexts: Option<seq<Entity>>,
    types: Option<seq<string>>,
    mediaType: Option<string>,
    names: Option<map<string, string>>,
    previews: Option<seq<Entity>>,
    body: Body)

  /** The fields below `Entity`: a `Link`'s, or an `Object`'s. In `relations`
      a missing key is a `null` list; `icons` and `images` are the items of
      the two restricted lists, which are never `null`; `actors` is used by
      `Activity` only. */
  datatype Body =
    | LinkBody(
        href: string,
        rels: Option<seq<string>>,
        hrefLang: Option<string>,
        height: Option<int>,
        width: Option<int>,
        cached: Option<Entity>)
    | ObjectBody(
        relations: map<Relation, seq<Entity>>,
        icons: seq<Entity>,
        images: seq<Entity>,
        summaries: Option<map<string, string>>,
        contents: Option<map<string, Entity>>,
        replies: Option<Entity>,
        actors: Option<seq<Entity>>)

  /** The body matches the runtime kind. */
  predicate WellShaped(e: Entity) {
    (e.kind == LinkKind) == e.body.LinkBody?
  }

  predicate IsLink(e: Entity) {
    e.kind == LinkKind && e.body.LinkBody?
  }

  predicate IsObject(e: Entity) {
    e.kind != LinkKind && e.body.ObjectBody?
  }

  /** The fields of a freshly allocated instance before any constructor code. */
  function BlankBody(k: Kind): (b: Body)
    ensures (k == LinkKind) == b.LinkBody?
  {
    if k == LinkKind then LinkBody("", None, None, None, None, None)
    else ObjectBody(map[], [], [], None, None, None, None)
  }

  // ---------------------------------------------------------------- Context

  /** `Contexts` init: a copy of the sequence, or absent. */
  function InitContexts(e: Entity, v: Option<seq<Entity>>): (r: Entity)
    ensures r.contexts == v
    ensures r.(contexts := e.contexts) == e
  {
    e.(contexts := CopyOf(v))
  }

  /** `Context` get `Contexts?.First()`: `First()` throws on an empty list. */
  function ContextGet(e: Entity): (r: Result<Option<Entity>>)
    ensures e.contexts.None? ==> r == Success(None)
    ensures e.contexts.Some? && |e.contexts.value| == 0 ==> r == Failure(InvalidOperationException)
    ensures e.contexts.Some? && |e.contexts.value| > 0 ==> r == Success(Some(e.contexts.value[0]))
  {
    match e.contexts
    case None => Success(None)
    case Some(cs) => if |cs| == 0 then Failure(InvalidOperationException) else Success(First(e.contexts))
  }

  /** `Context` init: `null` makes the list absent; a value replaces the whole
      list by exactly `[value]`. */
  function InitContext(e: Entity, v: Option<Entity>): (r: Entity)
    ensures v.None? ==> r.contexts.None?
    ensures v.Some? ==> r.contexts == Some([v.value])
    ensures r.(contexts := e.contexts) == e
  {
    e.(contexts := ReplaceWithSingle(v))
  }

  /** `AdditionalContexts` init: appends after the existing contexts, creating
      the list when it is absent. */
  function InitAdditionalContexts(e: Entity, more: Option<seq<Entity>>): (r: Entity)
    ensures r.contexts == Some(OrEmpty(e.contexts) + OrEmpty(more))
    ensures r.(contexts := e.contexts) == e
  {
    e.(contexts := AppendAll(e.contexts, more))
  }

  /** The `Context` written by `InitContext` is the one `ContextGet` reads. */
  lemma ContextGetAfterInit(e: Entity, v: Option<Entity>)
    ensures ContextGet(InitContext(e, v)) == Success(v)
  {
  }

  // ------------------------------------------------------------------ Types

  /** `Types` init: a copy of the sequence, or absent. */
  function InitTypes(e: Entity, v: Option<seq<string>>): (r: Entity)
    ensures r.types == v
    ensures r.(types := e.types) == e
  {
    e.(types := CopyOf(v))
  }

  /** `Type` get `Types?.GetDefault()`: the first tag, or absent. */
  function TypeGet(e: Entity): (r: Option<string>)
    ensures r.Some? <==> e.types.Some? && |e.types.value| > 0
    ensures r.Some? ==> r.value == e.types.value[0]
  {
    First(e.types)
  }

  /** `Type` init: `null` makes the list absent; a value replaces the whole
      list by exactly `[value]`. */
  function InitType(e: Entity, v: Option<string>): (r: Entity)
    ensures v.None? ==> r.types.None?
    ensures v.Some? ==> r.types == Some([v.value])
    ensures r.(types := e.types) == e
  {
    e.(types := ReplaceWithSingle(v))
  }

  /** `AdditionalTypes` init: appends after the existing tags, creating the
      list when it is absent. */
  function InitAdditionalTypes(e: Entity, more: Option<seq<string>>): (r: Entity)
    ensures r.types == Some(OrEmpty(e.types) + OrEmpty(more))
    ensures r.(types := e.types) == e
  {
    e.(types := AppendAll(e.types, more))
  }

  // ------------------------------------------------------------------ Names

  /** `Names` get: a `LanguageMap` copy of the dictionary, or absent. */
  function NamesGet(e: Entity): (r: Option<LanguageMap<string>>)
    ensures r.None? <==> e.names.None?
    ensures r.Some? ==> r.value.entries == e.names.value
  {
    MapOf(e.names)
  }

  /** `Names` init: throws on `null` (`value.Count` comes first); otherwise
      copies the entries. */
  function InitNames(e: Entity, v: Option<LanguageMap<string>>): (r: Result<Entity>)
    ensures v.None? ==> r == Failure(NullReferenceException)
    ensures v.Some? ==> r.Success? && r.value.names == Some(v.value.entries)
    ensures r.Success? ==> r.value.(names := e.names) == e
  {
    var copied :- CopyMap(v);
    Success(e.(names := copied))
  }

  /** `Name` get `Names?.Default`. */
  function NameGet(e: Entity, lang: string): (r: Option<string>)
    ensures r.Some? <==> e.names.Some? && lang in e.names.value
    ensures r.Some? ==> r.value == e.names.value[lang]
  {
    LocalizedGet(e.names, lang)
  }

  /** `Name` init: `null` makes the map absent; otherwise only the
      default-language entry is written. */
  function InitName(e: Entity, lang: string, v: Option<string>): (r: Entity)
    ensures v.None? ==> r.names.None?
    ensures v.Some? ==> r.names.Some? && lang in r.names.value && r.names.value[lang] == v.value
    ensures v.Some? && e.names.Some? ==>
      forall k :: k in e.names.value && k != lang ==> k in r.names.value && r.names.value[k] == e.names.value[k]
    ensures r.(names := e.names) == e
  {
    e.(names := LocalizedSet(e.names, lang, v))
  }

  // --------------------------------------------------------------- Previews

  /** `Previews` init: a copy of the sequence, or absent. */
  function InitPreviews(e: Entity, v: Option<seq<Entity>>): (r: Entity)
    ensures r.previews == v
    ensures r.(previews := e.previews) == e
  {
    e.(previews := CopyOf(v))
  }

  /** `Preview` get `Previews?.GetDefault()`. */
  function PreviewGet(e: Entity): (r: Option<Entity>)
    ensures r.Some? <==> e.previews.Some? && |e.previews.value| > 0
    ensures r.Some? ==> r.value == e.previews.value[0]
  {
    First(e.previews)
  }

  /** `Preview` init as written: a value is inserted at the front of the
      previews, but `null` clears `_types` and leaves the previews alone. */
  function InitPreview(e: Entity, v: Option<Entity>): (r: Entity)
    ensures v.None? ==> r == e.(types := None)
    ensures v.Some? ==> r == e.(previews := Some([v.value] + OrEmpty(e.previews)))
  {
    match v
    case None => e.(types := None)
    case Some(_) => e.(previews := WriteFirst(e.previews, v))
  }

  /** `Preview = null` does not clear the previews: the earlier preview still
      reads back, and the entity has lost its type tags instead. */
  lemma PreviewNullClearsTypes(e: Entity)
    requires e.types.Some? && e.previews.Some? && |e.previews.value| > 0
    ensures InitPreview(e, None).types.None?
    ensures PreviewGet(InitPreview(e, None)) == PreviewGet(e) != None
  {
  }

  /** `Preview` init as the uniform singular pattern intends it: `null` clears
      the previews, a value is inserted at the front. */
  function InitPreviewCorrected(e: Entity, v: Option<Entity>): (r: Entity)
    ensures v.None? ==> r.previews.None?
    ensures v.Some? ==> r.previews == Some([v.value] + OrEmpty(e.previews))
    ensures r.(previews := e.previews) == e
  {
    e.(previews := WriteFirst(e.previews, v))
  }

  /** The corrected setter reads back through `Preview` and leaves the type
      tags alone. */
  lemma PreviewCorrectedReadsBack(e: Entity, v: Option<Entity>)
    ensures PreviewGet(InitPreviewCorrected(e, v)) == v
    ensures InitPreviewCorrected(e, v).types == e.types
  {
  }

  // ------------------------------------------------------------ Constructor

  /** `Entity(withoutContext)` run for a new instance of class `kind`: unless
      `withoutContext`, `Context` is set to the default context (there is no
      context yet, so the `Context == null` test always passes), then `Types`
      is set to the kind's `DefaultTypes`. */
  function NewEntity(kind: Kind, withoutContext: bool, defaultContext: Option<Entity>): (e: Entity)
    ensures e.kind == kind && WellShaped(e)
    ensures e.types == Some(DefaultTypes(kind))
    ensures withoutContext || defaultContext.None? ==> e.contexts.None?
    ensures !withoutContext && defaultContext.Some? ==> e.contexts == Some([defaultContext.value])
    ensures e.mediaType == Some(DefaultMediaType)
    ensures e.id.None? && e.names.None? && e.previews.None?
  {
    var blank := Entity(kind, None, None, None, Some(DefaultMediaType), None, None, BlankBody(kind));
    var withContext := if !withoutContext && ContextGet(blank) == Success(None) then InitContext(blank, defaultContext) else blank;
    InitTypes(withContext, Some(DefaultTypes(kind)))
  }
}
