/** The properties of `Object` (Types/Object.cs): the plural relations with
    their singular companions, the two restricted lists `Icons` and `Images`,
    and the language-tagged `Summaries` and `Contents`. */
module Objects {
  import opened Wrappers
  import opened LanguageMaps
  import opened Accessors
  import opened RestrictiveLists
  import opened Entities

  /** `new Object()`. */
  function NewObject(defaultContext: Option<Entity>): (o: Entity)
    ensures IsObject(o) && o.kind == ObjectKind
    ensures o.types == Some([ObjectTypeTag])
    ensures o.body.relations == map[] && o.body.icons == [] && o.body.images == []
    ensures defaultContext.None? ==> o.contexts.None?
    ensures defaultContext.Some? ==> o.contexts == Some([defaultContext.value])
    ensures o.mediaType == Some(DefaultMediaType)
    ensures o.id.None? && o.names.None? && o.previews.None?
  {
    NewEntity(ObjectKind, false, defaultContext)
  }

  // ------------------------------------------------------ plural / singular

  /** A plural relation's getter: the stored list, or absent. */
  function PluralGet(o: Entity, rel: Relation): (r: Option<seq<Entity>>)
    requires IsObject(o)
    ensures r.Some? <==> rel in o.body.relations
    ensures r.Some? ==> r.value == o.body.relations[rel]
  {
    if rel in o.body.relations then Some(o.body.relations[rel]) else None
  }

  /** Stores `v` as the relation's list (absent removes it); nothing else
      changes. */
  function SetRelation(o: Entity, rel: Relation, v: Option<seq<Entity>>): (r: Entity)
    requires IsObject(o)
    ensures IsObject(r) && PluralGet(r, rel) == v
    ensures forall other :: other != rel ==> PluralGet(r, other) == PluralGet(o, other)
    ensures r.(body := o.body) == o
    ensures r.body.(relations := o.body.relations) == o.body
  {
    match v
    case None => o.(body := o.body.(relations := o.body.relations - {rel}))
    case Some(xs) => o.(body := o.body.(relations := o.body.relations[rel := xs]))
  }

  /** Plural init `_xs = value?.ToList()`, the same for every relation. */
  function InitPlural(o: Entity, rel: Relation, v: Option<seq<Entity>>): (r: Entity)
    requires IsObject(o)
    ensures IsObject(r) && PluralGet(r, rel) == v
    ensures forall other :: other != rel ==> PluralGet(r, other) == PluralGet(o, other)
    ensures r.(body := o.body) == o
  {
    SetRelation(o, rel, CopyOf(v))
  }

  /** The relations that have a singular companion (`Attachment`,
      `Attribution`, `Audience`, `At`, `Generator`, `Url`, `Location`, `Tag`);
      `BTo`, `Cc`, `BCc` and `InReplyTo` have none. */
  predicate HasSingular(rel: Relation) {
    !(rel.BTo? || rel.Cc? || rel.BCc? || rel.InReplyTo?)
  }

  /** Singular get: the first element of the plural, or absent when the
      plural is absent or empty. */
  function SingularGet(o: Entity, rel: Relation): (r: Option<Entity>)
    requires IsObject(o) && HasSingular(rel)
    ensures r.Some? <==> rel in o.body.relations && |o.body.relations[rel]| > 0
    ensures r.Some? ==> r.value == o.body.relations[rel][0]
  {
    First(PluralGet(o, rel))
  }

  /** Singular init: `null` clears the plural; a value is inserted at index 0,
      the existing elements kept after it. */
  function InitSingular(o: Entity, rel: Relation, v: Option<Entity>): (r: Entity)
    requires IsObject(o) && HasSingular(rel)
    ensures IsObject(r)
    ensures v.None? ==> PluralGet(r, rel).None?
    ensures v.Some? ==> PluralGet(r, rel) == Some([v.value] + OrEmpty(PluralGet(o, rel)))
    ensures forall other :: other != rel ==> PluralGet(r, other) == PluralGet(o, other)
    ensures r.(body := o.body) == o
  {
    SetRelation(o, rel, WriteFirst(PluralGet(o, rel), v))
  }

  /** The singular getter reads back what the singular setter wrote, and a
      second write pushes the first one to index 1. */
  lemma SingularGetAfterInit(o: Entity, rel: Relation, x: Entity, y: Entity)
    requires IsObject(o) && HasSingular(rel)
    ensures SingularGet(InitSingular(o, rel, Some(x)), rel) == Some(x)
    ensures SingularGet(InitSingular(o, rel, None), rel) == None
    ensures PluralGet(InitSingular(InitSingular(o, rel, Some(x)), rel, Some(y)), rel)
      == Some([y, x] + OrEmpty(PluralGet(o, rel)))
  {
    var once := InitSingular(o, rel, Some(x));
    assert PluralGet(once, rel) == Some([x] + OrEmpty(PluralGet(o, rel)));
    assert [y] + ([x] + OrEmpty(PluralGet(o, rel))) == [y, x] + OrEmpty(PluralGet(o, rel));
  }

  // ----------------------------------------------------- Icons and Images

  /** The two restricted-list properties. */
  datatype Gallery = Icons | Images

  /** `ValidTypes` of both lists: exactly `Link` and `Image`. */
  const GalleryKinds: set<Kind> := {LinkKind, ImageKind}

  /** An entity's runtime type, as `GetType()` reports it. */
  function RuntimeType(x: Entity): Kind {
    x.kind
  }

  function GalleryItems(o: Entity, g: Gallery): seq<Entity>
    requires IsObject(o)
  {
    match g
    case Icons => o.body.icons
    case Images => o.body.images
  }

  function WithGalleryItems(o: Entity, g: Gallery, items: seq<Entity>): (r: Entity)
    requires IsObject(o)
    ensures IsObject(r) && GalleryItems(r, g) == items
    ensures OnlyGalleryChanges(o, r, g)
  {
    match g
    case Icons => o.(body := o.body.(icons := items))
    case Images => o.(body := o.body.(images := items))
  }

  /** `r` is `o` with at most the items of gallery `g` changed. */
  predicate OnlyGalleryChanges(o: Entity, r: Entity, g: Gallery)
    requires IsObject(o)
  {
    && r.(body := o.body) == o
    && r.body.ObjectBody?
    && match g
       case Icons => r.body.(icons := o.body.icons) == o.body
       case Images => r.body.(images := o.body.images) == o.body
  }

  /** The restricted list behind the property. */
  function GalleryList(o: Entity, g: Gallery): (l: RestrictiveList<Entity, Kind>)
    requires IsObject(o)
    ensures l.items == GalleryItems(o, g) && l.validTypes == Some(GalleryKinds)
  {
    RestrictiveList(GalleryItems(o, g), Some(GalleryKinds))
  }

  /** `Icons`/`Images` get: an empty list reads as absent. */
  function GalleryGet(o: Entity, g: Gallery): (r: Option<seq<Entity>>)
    requires IsObject(o)
    ensures r.None? <==> |GalleryItems(o, g)| == 0
    ensures r.Some? ==> r.value == GalleryItems(o, g)
  {
    if |GalleryItems(o, g)| == 0 then None else Some(GalleryItems(o, g))
  }

  /** `Icons`/`Images` init: `Clear()` then the base `AddRange`, so nothing is
      checked; `null` leaves the list empty. */
  function InitGallery(o: Entity, g: Gallery, v: Option<seq<Entity>>): (r: Entity)
    requires IsObject(o)
    ensures IsObject(r) && GalleryItems(r, g) == OrEmpty(v)
    ensures OnlyGalleryChanges(o, r, g)
  {
    var cleared := RestrictiveList([], Some(GalleryKinds));
    WithGalleryItems(o, g, AddRangeUnchecked(cleared, OrEmpty(v)).items)
  }

  /** `Icon`/`Image` get `Icons?.GetDefault()`. */
  function GallerySingularGet(o: Entity, g: Gallery): (r: Option<Entity>)
    requires IsObject(o)
    ensures r.Some? <==> |GalleryItems(o, g)| > 0
    ensures r.Some? ==> r.value == GalleryItems(o, g)[0]
  {
    First(GalleryGet(o, g))
  }

  /** `Icon`/`Image` init: `null` does nothing; a value goes to the front
      through the `List<T>` extension `SetDefault`, so nothing is checked. */
  function InitGallerySingular(o: Entity, g: Gallery, v: Option<Entity>): (r: Entity)
    requires IsObject(o)
    ensures v.None? ==> r == o
    ensures v.Some? ==> IsObject(r) && GalleryItems(r, g) == [v.value] + GalleryItems(o, g)
    ensures OnlyGalleryChanges(o, r, g)
  {
    match v
    case None => o
    case Some(x) => WithGalleryItems(o, g, SetDefault(GalleryItems(o, g), x))
  }

  /** The checked path: the restricted list's own `Add`, which only takes a
      `Link` or an `Image` and otherwise throws, leaving the list as it was. */
  function GalleryAdd(o: Entity, g: Gallery, x: Entity): (r: Result<Entity>)
    requires IsObject(o)
    ensures r.Success? <==> x.kind in GalleryKinds
    ensures r.Success? ==> IsObject(r.value) && GalleryItems(r.value, g) == GalleryItems(o, g) + [x]
    ensures r.Success? ==> OnlyGalleryChanges(o, r.value, g)
    ensures r.Failure? ==> r.error == ArgumentException
  {
    var l :- Add(GalleryList(o, g), RuntimeType, x);
    Success(WithGalleryItems(o, g, l.items))
  }

  /** Writing `null` through `Icon`/`Image` keeps the list, while the same
      write through an ordinary singular property clears the plural. */
  lemma GalleryNullWriteIsNoOp(o: Entity, g: Gallery, rel: Relation)
    requires IsObject(o) && HasSingular(rel)
    ensures InitGallerySingular(o, g, None) == o
    ensures PluralGet(InitSingular(o, rel, None), rel).None?
  {
  }

  /** The unchecked paths store an entity the checked `Add` refuses: an
      `Activity` goes in through `Icons`/`Images` init and through
      `Icon`/`Image` init. */
  lemma GalleryCheckBypassed(o: Entity, g: Gallery, x: Entity)
    requires IsObject(o) && x.kind == ActivityKind
    ensures GalleryAdd(o, g, x) == Failure(ArgumentException)
    ensures x in GalleryItems(InitGallery(o, g, Some([x])), g)
    ensures GallerySingularGet(InitGallerySingular(o, g, Some(x)), g) == Some(x)
  {
    assert GalleryItems(InitGallery(o, g, Some([x])), g)[0] == x;
  }

  /** Membership is by exact runtime type: an `Image` is an `Object`, yet a
      list that allows `Object` refuses it, while the gallery allow-set
      accepts it. */
  lemma ExactTypeNotAssignability(l: RestrictiveList<Entity, Kind>, x: Entity)
    requires l.validTypes == Some({ObjectKind}) && x.kind == ImageKind
    ensures IsA(x.kind, ObjectKind)
    ensures Add(l, RuntimeType, x) == Failure(ArgumentException)
    ensures Add(RestrictiveList(l.items, Some(GalleryKinds)), RuntimeType, x).Success?
  {
  }

  // --------------------------------------------------- Summaries, Contents

  /** `Summaries` get: a `LanguageMap` copy, or absent. */
  function SummariesGet(o: Entity): (r: Option<LanguageMap<string>>)
    requires IsObject(o)
    ensures r.None? <==> o.body.summaries.None?
    ensures r.Some? ==> r.value.entries == o.body.summaries.value
  {
    MapOf(o.body.summaries)
  }

  /** `Summaries` init: throws on `null`, otherwise copies the entries. */
  function InitSummaries(o: Entity, v: Option<LanguageMap<string>>): (r: Result<Entity>)
    requires IsObject(o)
    ensures v.None? ==> r == Failure(NullReferenceException)
    ensures v.Some? ==> r.Success? && IsObject(r.value) && r.value.body.summaries == Some(v.value.entries)
    ensures r.Success? ==> r.value.(body := o.body) == o && r.value.body.(summaries := o.body.summaries) == o.body
  {
    var copied :- CopyMap(v);
    Success(o.(body := o.body.(summaries := copied)))
  }

  /** `Summary` get `Summaries?.Default`. */
  function SummaryGet(o: Entity, lang: string): (r: Option<string>)
    requires IsObject(o)
    ensures r.Some? <==> o.body.summaries.Some? && lang in o.body.summaries.value
    ensures r.Some? ==> r.value == o.body.summaries.value[lang]
  {
    LocalizedGet(o.body.summaries, lang)
  }

  /** `Summary` init: `null` makes the map absent; otherwise only the
      default-language entry is inserted or overwritten. */
  function InitSummary(o: Entity, lang: string, v: Option<string>): (r: Entity)
    requires IsObject(o)
    ensures IsObject(r)
    ensures v.None? ==> r.body.summaries.None?
    ensures v.Some? ==>
      r.body.summaries.Some? && lang in r.body.summaries.value && r.body.summaries.value[lang] == v.value
    ensures v.Some? && o.body.summaries.Some? ==>
      r.body.summaries.value.Keys == o.body.summaries.value.Keys + {lang}
      && forall k :: k in o.body.summaries.value && k != lang ==> r.body.summaries.value[k] == o.body.summaries.value[k]
    ensures r.body.(summaries := o.body.summaries) == o.body && r.(body := o.body) == o
  {
    o.(body := o.body.(summaries := LocalizedSet(o.body.summaries, lang, v)))
  }

  /** `Contents` init: throws on `null`, otherwise copies the entries. */
  function InitContents(o: Entity, v: Option<LanguageMap<Entity>>): (r: Result<Entity>)
    requires IsObject(o)
    ensures v.None? ==> r == Failure(NullReferenceException)
    ensures v.Some? ==> r.Success? && IsObject(r.value) && r.value.body.contents == Some(v.value.entries)
    ensures r.Success? ==> r.value.(body := o.body) == o && r.value.body.(contents := o.body.contents) == o.body
  {
    var copied :- CopyMap(v);
    Success(o.(body := o.body.(contents := copied)))
  }

  /** `Content` get `Contents?.Default`. */
  function ContentGet(o: Entity, lang: string): (r: Option<Entity>)
    requires IsObject(o)
    ensures r.Some? <==> o.body.contents.Some? && lang in o.body.contents.value
    ensures r.Some? ==> r.value == o.body.contents.value[lang]
  {
    LocalizedGet(o.body.contents, lang)
  }

  /** `Content` init: `null` makes the map absent; otherwise only the
      default-language entry is inserted or overwritten. */
  function InitContent(o: Entity, lang: string, v: Option<Entity>): (r: Entity)
    requires IsObject(o)
    ensures IsObject(r)
    ensures v.None? ==> r.body.contents.None?
    ensures v.Some? ==>
      r.body.contents.Some? && lang in r.body.contents.value && r.body.contents.value[lang] == v.value
    ensures v.Some? && o.body.contents.Some? ==>
      r.body.contents.value.Keys == o.body.contents.value.Keys + {lang}
      && forall k :: k in o.body.contents.value && k != lang ==> r.body.contents.value[k] == o.body.contents.value[k]
    ensures r.body.(contents := o.body.contents) == o.body && r.(body := o.body) == o
  {
    o.(body := o.body.(contents := LocalizedSet(o.body.contents, lang, v)))
  }

  /** The localized singular properties read back what they wrote. */
  lemma LocalizedReadsBack(o: Entity, lang: string, s: Option<string>, c: Option<Entity>)
    requires IsObject(o)
    ensures SummaryGet(InitSummary(o, lang, s), lang) == s
    ensures ContentGet(InitContent(o, lang, c), lang) == c
  {
  }
}
