/** `Link` (Types/Link.cs) and its JSON converter: the constructors, the sign
    check on `Height`/`Width`, `Rel`, the string conversions, the cached
    target object, the string-shorthand read and the collapse-to-string
    write. */
module Links {
  import opened Wrappers
  import opened JsonTokens
  import opened LanguageMaps
  import opened Accessors
  import opened Entities

  /** `Link.DefaultTypeNames`. */
  const LinkTypeNames: seq<string> := ["Link"]

  /** `new Link(href, withoutContext)`; `withoutContext` defaults to true, so
      a link has no context unless asked for one. */
  function NewLink(href: string, withoutContext: bool, defaultContext: Option<Entity>): (l: Entity)
    ensures IsLink(l) && l.body.href == href
    ensures l.types == Some(LinkTypeNames)
    ensures withoutContext ==> l.contexts.None?
    ensures !withoutContext && defaultContext.Some? ==> l.contexts == Some([defaultContext.value])
    ensures l.mediaType == Some(DefaultMediaType) && l.id.None? && l.names.None? && l.previews.None?
    ensures l.body.rels.None? && l.body.hrefLang.None? && l.body.height.None? && l.body.width.None?
    ensures l.body.cached.None?
  {
    var e := NewEntity(LinkKind, withoutContext, defaultContext);
    e.(body := e.body.(href := href))
  }

  /** `new Link(href)`, as the string conversions and converters build it. */
  function LinkFromString(href: string): (l: Entity)
    ensures IsLink(l) && l.body.href == href && l.contexts.None? && l.types == Some(LinkTypeNames)
  {
    NewLink(href, true, None)
  }

  /** `new Link()`: a link to the empty string. */
  function EmptyLink(): (l: Entity)
    ensures IsLink(l) && l.body.href == "" && l.contexts.None? && l.types == Some(LinkTypeNames)
  {
    LinkFromString("")
  }

  /** The implicit conversion `Link` to `string`. */
  function LinkToString(l: Entity): (s: string)
    requires IsLink(l)
    ensures s == l.body.href
  {
    l.body.href
  }

  /** Converting a string to a link and back gives the same string. */
  lemma StringConversionRoundTrip(s: string)
    ensures LinkToString(LinkFromString(s)) == s
  {
  }

  // ------------------------------------------------------- Height and Width

  /** The guarded setter behind `Height`/`Width`: a negative value throws
      `InvalidOperationException`; zero and `null` are accepted (a lifted
      comparison with `null` is false). */
  function CheckDimension(v: Option<int>): (r: Result<Option<int>>)
    ensures r.Failure? <==> v.Some? && v.value < 0
    ensures r.Failure? ==> r.error == InvalidOperationException
    ensures r.Success? ==> r.value == v
  {
    if v.Some? && v.value < 0 then Failure(InvalidOperationException) else Success(v)
  }

  /** `Height` init. */
  function InitHeight(l: Entity, v: Option<int>): (r: Result<Entity>)
    requires IsLink(l)
    ensures r.Failure? <==> v.Some? && v.value < 0
    ensures r.Success? ==> IsLink(r.value) && r.value.body.height == v
    ensures r.Success? ==> r.value.(body := l.body) == l && r.value.body.(height := l.body.height) == l.body
  {
    var h :- CheckDimension(v);
    Success(l.(body := l.body.(height := h)))
  }

  /** `Width` init. */
  function InitWidth(l: Entity, v: Option<int>): (r: Result<Entity>)
    requires IsLink(l)
    ensures r.Failure? <==> v.Some? && v.value < 0
    ensures r.Success? ==> IsLink(r.value) && r.value.body.width == v
    ensures r.Success? ==> r.value.(body := l.body) == l && r.value.body.(width := l.body.width) == l.body
  {
    var w :- CheckDimension(v);
    Success(l.(body := l.body.(width := w)))
  }

  /** `Width = -1` fails and `Width = 0` succeeds. */
  lemma NegativeDimensionRejected(l: Entity)
    requires IsLink(l)
    ensures InitWidth(l, Some(-1)) == Failure(InvalidOperationException)
    ensures InitWidth(l, Some(0)).Success? && InitHeight(l, Some(0)).Success?
  {
  }

  // -------------------------------------------------------------------- Rel

  /** `Rel` get `Rels?.GetDefault()`. */
  function RelGet(l: Entity): (r: Option<string>)
    requires IsLink(l)
    ensures r.Some? <==> l.body.rels.Some? && |l.body.rels.value| > 0
    ensures r.Some? ==> r.value == l.body.rels.value[0]
  {
    First(l.body.rels)
  }

  /** `Rel` set: `null` clears `Rels`; otherwise the value is inserted at the
      front. */
  function SetRel(l: Entity, v: Option<string>): (r: Entity)
    requires IsLink(l)
    ensures IsLink(r)
    ensures v.None? ==> r.body.rels.None?
    ensures v.Some? ==> r.body.rels == Some([v.value] + OrEmpty(l.body.rels))
    ensures r.(body := l.body) == l && r.body.(rels := l.body.rels) == l.body
  {
    l.(body := l.body.(rels := WriteFirst(l.body.rels, v)))
  }

  /** `Rel` reads back what was set. */
  lemma RelGetAfterSet(l: Entity, v: Option<string>)
    requires IsLink(l)
    ensures RelGet(SetRel(l, v)) == v
  {
  }

  // ------------------------------------------------------ the object cache

  /** The shipped `FetchObject`: always throws `NotImplementedException`. */
  function FetchObject(href: string): (r: Result<Entity>)
    ensures r == Failure(NotImplementedException)
  {
    Failure(NotImplementedException)
  }

  /** `asObject()` is `_object ??= FetchObject(Href)`, with the fetch passed
      in: a cached object is returned without fetching; otherwise a fetched
      object is cached, and a failed fetch leaves the link as it was. */
  function AsObject(l: Entity, fetch: string -> Result<Entity>): (r: (Result<Entity>, Entity))
    requires IsLink(l)
    ensures IsLink(r.1)
    ensures l.body.cached.Some? ==> r == (Success(l.body.cached.value), l)
    ensures l.body.cached.None? && fetch(l.body.href).Failure? ==> r == (fetch(l.body.href), l)
    ensures l.body.cached.None? && fetch(l.body.href).Success? ==>
      r.0 == fetch(l.body.href) && r.1 == l.(body := l.body.(cached := Some(fetch(l.body.href).value)))
  {
    match l.body.cached
    case Some(o) => (Success(o), l)
    case None =>
      match fetch(l.body.href)
      case Failure(e) => (Failure(e), l)
      case Success(o) => (Success(o), l.(body := l.body.(cached := Some(o))))
  }

  /** Once a fetch has succeeded, later calls return the same object whatever
      the fetch function would now do. */
  lemma AsObjectFetchesOnce(l: Entity, fetch: string -> Result<Entity>, later: string -> Result<Entity>)
    requires IsLink(l) && AsObject(l, fetch).0.Success?
    ensures AsObject(AsObject(l, fetch).1, later) == (AsObject(l, fetch).0, AsObject(l, fetch).1)
  {
  }

  /** With the shipped fetch, an uncached link cannot be resolved. */
  lemma ShippedFetchNeverResolves(l: Entity)
    requires IsLink(l) && l.body.cached.None?
    ensures AsObject(l, FetchObject) == (Failure(NotImplementedException), l)
  {
  }

  // -------------------------------------------------------- the converter

  /** The library's field-wise (de)serialiser for one class, which the
      converters fall back to; it is not modelled. */
  type FieldDecoder = (Kind, seq<Token>, nat) -> Result<Entity>
  type FieldEncoder = Entity -> Json

  /** The link converter's `Read`: a string token is a link to that string
      with no context; any other token goes to the field-wise decode. */
  function ReadLink(toks: seq<Token>, p: nat, decodeFields: FieldDecoder): (r: Result<Entity>)
    requires p < |toks|
    ensures toks[p].Str? ==>
      r.Success? && IsLink(r.value) && r.value.body.href == toks[p].s
      && r.value.contexts.None? && r.value.types == Some(LinkTypeNames)
    ensures !toks[p].Str? ==> r == decodeFields(LinkKind, toks, p)
  {
    match toks[p]
    case Str(s) => Success(InitContext(LinkFromString(s), None))
    case _ => decodeFields(LinkKind, toks, p)
  }

  /** The collapse test of the converter's `Write`, once `Types` is known to
      be present: default types and media type, and no rel, name, hreflang,
      context, id, height, width or preview. */
  predicate Collapsible(l: Entity, lang: string)
    requires IsLink(l)
  {
    && l.types == Some(LinkTypeNames)
    && l.mediaType == Some(DefaultMediaType)
    && RelGet(l).None?
    && NameGet(l, lang).None?
    && l.body.hrefLang.None?
    && l.contexts.None?
    && l.id.None?
    && l.body.height.None?
    && l.body.width.None?
    && PreviewGet(l).None?
  }

  /** The converter's `Write`, evaluating the `&&` chain left to right:
      `SequenceEqual` throws on `null` types, the `Context` getter throws on
      an empty context list if it is reached, a collapsible link is written
      as its bare `href` string, and any other link goes to the field-wise
      encode. */
  function WriteLink(l: Entity, lang: string, encodeFields: FieldEncoder): (r: Result<Json>)
    requires IsLink(l)
    ensures l.types.None? ==> r == Failure(ArgumentNullException)
    ensures Collapsible(l, lang) ==> r == Success(JStr(l.body.href))
    ensures l.types.Some? && !Collapsible(l, lang) && r.Success? ==> r.value == encodeFields(l)
    ensures r.Failure? ==> l.types.None? || (l.contexts == Some([]) && r.error == InvalidOperationException)
    ensures l.types == Some(LinkTypeNames) && l.mediaType == Some(DefaultMediaType) && RelGet(l).None?
      && NameGet(l, lang).None? && l.body.hrefLang.None? && l.contexts == Some([])
      ==> r == Failure(InvalidOperationException)
  {
    if l.types.None? then Failure(ArgumentNullException)
    else if !(l.types.value == LinkTypeNames && l.mediaType == Some(DefaultMediaType)
              && RelGet(l).None? && NameGet(l, lang).None? && l.body.hrefLang.None?) then
      Success(encodeFields(l))
    else
      match ContextGet(l)
      case Failure(e) => Failure(e)
      case Success(c) =>
        if c.None? && l.id.None? && l.body.height.None? && l.body.width.None? && PreviewGet(l).None? then
          Success(JStr(l.body.href))
        else Success(encodeFields(l))
  }

  /** A collapsible link reads back as a link with the same `href` and no
      context, whatever the field-wise codecs do. */
  lemma CollapsedLinkRoundTrip(l: Entity, lang: string, encodeFields: FieldEncoder, decodeFields: FieldDecoder)
    requires IsLink(l) && Collapsible(l, lang)
    ensures WriteLink(l, lang, encodeFields) == Success(JStr(l.body.href))
    ensures ReadLink(Tokens(JStr(l.body.href)), 0, decodeFields).Success?
    ensures ReadLink(Tokens(JStr(l.body.href)), 0, decodeFields).value.body.href == l.body.href
    ensures ReadLink(Tokens(JStr(l.body.href)), 0, decodeFields).value.contexts.None?
  {
  }

  /** A fresh `new Link(href)` is collapsible, so it is written as its bare
      `href`. */
  lemma FreshLinkCollapses(href: string, lang: string)
    ensures Collapsible(LinkFromString(href), lang)
  {
  }
}
