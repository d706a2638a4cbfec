/** The shared mechanics behind the entity properties.

    Every plural relation is a nullable `List<T>` (`Option<seq<T>>` here) and
    most carry a singular companion that reads the first element and writes
    by inserting at the front. Language-tagged properties are a nullable
    `Dictionary<string, T>` with a singular companion keyed by the default
    language. Each pattern is defined once here and reused per property. */
module Accessors {
  import opened Wrappers
  import opened LanguageMaps

  /** Plural init `_xs = value?.ToList()`: a copy of the sequence, or absent. */
  function CopyOf<T>(v: Option<seq<T>>): (r: Option<seq<T>>)
    ensures r.None? <==> v.None?
    ensures r.Some? ==> r.value == v.value
  {
    match v
    case None => None
    case Some(xs) => Some(xs)
  }

  /** Singular get `Xs?.GetDefault()`: the first element, or absent when the
      list is absent or empty. */
  function First<T>(xs: Option<seq<T>>): (r: Option<T>)
    ensures r.Some? <==> xs.Some? && |xs.value| > 0
    ensures r.Some? ==> r.value == xs.value[0]
  {
    match xs
    case None => None
    case Some(items) => GetDefault(Listed(items), ShippedDefaultLanguage)
  }

  /** Singular init: `null` clears the list; otherwise `_xs ??= new List<T>()`
      and `_xs.SetDefault(value)`, keeping the earlier elements after it. */
  function WriteFirst<T>(xs: Option<seq<T>>, v: Option<T>): (r: Option<seq<T>>)
    ensures v.None? ==> r.None?
    ensures v.Some? ==> r.Some? && |r.value| == |OrEmpty(xs)| + 1
    ensures v.Some? ==> r.value[0] == v.value && r.value[1..] == OrEmpty(xs)
  {
    match v
    case None => None
    case Some(x) => Some(SetDefault(OrEmpty(xs), x))
  }

  /** `Context`/`Type` init: `null` clears; otherwise a new list holding
      exactly the value, whatever was there before. */
  function ReplaceWithSingle<T>(v: Option<T>): (r: Option<seq<T>>)
    ensures v.None? ==> r.None?
    ensures v.Some? ==> r == Some([v.value])
  {
    match v
    case None => None
    case Some(x) => Some([x])
  }

  /** `AdditionalContexts`/`AdditionalTypes` init: `_xs ??= new List<T>()`,
      then `AddRange(value ?? Enumerable.Empty<T>())`. */
  function AppendAll<T>(xs: Option<seq<T>>, more: Option<seq<T>>): (r: Option<seq<T>>)
    ensures r.Some?
    ensures |r.value| == |OrEmpty(xs)| + |OrEmpty(more)|
    ensures r.value[..|OrEmpty(xs)|] == OrEmpty(xs)
    ensures r.value[|OrEmpty(xs)|..] == OrEmpty(more)
  {
    Some(OrEmpty(xs) + OrEmpty(more))
  }

  /** The singular read is the inverse of the singular write: a written value
      reads back, and writing `null` makes the plural absent. */
  lemma FirstAfterWriteFirst<T>(xs: Option<seq<T>>, v: Option<T>)
    ensures First(WriteFirst(xs, v)) == v
    ensures v.None? ==> WriteFirst(xs, v).None?
  {
  }

  /** Language-map getter `_d == null ? null : new(_d)`. */
  function MapOf<T>(d: Option<map<string, T>>): (r: Option<LanguageMap<T>>)
    ensures r.None? <==> d.None?
    ensures r.Some? ==> r.value.entries == d.value
  {
    match d
    case None => None
    case Some(entries) => Some(FromDictionary(entries))
  }

  /** Language-map init: `value.Count` is read before the null-conditional
      copy, so `null` throws; otherwise the entries are copied. */
  function CopyMap<T>(v: Option<LanguageMap<T>>): (r: Result<Option<map<string, T>>>)
    ensures v.None? ==> r == Failure(NullReferenceException)
    ensures v.Some? ==> r == Success(Some(v.value.entries))
  {
    match v
    case None => Failure(NullReferenceException)
    case Some(m) => Success(Some(m.entries))
  }

  /** Localized singular get `Xs?.Default`. */
  function LocalizedGet<T>(d: Option<map<string, T>>, lang: string): (r: Option<T>)
    ensures r.Some? <==> d.Some? && lang in d.value
    ensures r.Some? ==> r.value == d.value[lang]
  {
    match d
    case None => None
    case Some(entries) => Default(FromDictionary(entries), lang)
  }

  /** Localized singular init: `null` makes the map absent; otherwise
      `_d ??= new Dictionary()` and `SetForDefaultLanguage(value)`. */
  function LocalizedSet<T>(d: Option<map<string, T>>, lang: string, v: Option<T>): (r: Option<map<string, T>>)
    ensures v.None? ==> r.None?
    ensures v.Some? ==> r.Some? && lang in r.value && r.value[lang] == v.value
    ensures v.Some? && d.Some? ==> r.value.Keys == d.value.Keys + {lang}
    ensures v.Some? && d.None? ==> r.value.Keys == {lang}
    ensures v.Some? && d.Some? ==> forall k :: k in d.value && k != lang ==> r.value[k] == d.value[k]
  {
    match v
    case None => None
    case Some(x) =>
      var entries := match d case None => map[] case Some(e) => e;
      Some(SetForDefaultLanguage(entries, lang, x))
  }

  /** A localized value written through the singular setter reads back. */
  lemma LocalizedGetAfterSet<T>(d: Option<map<string, T>>, lang: string, v: Option<T>)
    ensures LocalizedGet(LocalizedSet(d, lang, v), lang) == v
  {
  }
}
