# ActivityPub.Net entity core, modelled in Dafny

This project models the in-memory core of ActivityPub.Net, a C# library for
W3C Activity Streams 2.0 / Activity Vocabulary entities. The model covers:

- **The entity converter.** This is the type-tag scanner that looks for the
  `type` member of a JSON object on a clone of the reader. The tags it finds
  pick a concrete kind from the type registry, and that kind's field-wise
  decoder then reads the object from the original position. A bare string
  reads as a `Link`.
- **`SingleOrArrayConverter`.** Plural properties accept a bare value or an
  array on read. On write, a one-element `List<T>` is written as the bare
  element.
- **`LanguageMap`.** This covers its default-language helpers (`Default`,
  `GetDefault`, `SetForDefaultLanguage`) and `SetDefault`.
- **`RestrictiveList`.** Its `Add` and `Insert` check the exact runtime type.
  The unchecked base-class paths that bypass that check are modelled too.
- **The entity accessor mechanics** of `Entity`, `Object`, `Link` and
  `Activity`:
  - the plural properties and their singular companions;
  - `Context`/`Type` replacing the whole list;
  - the language-tagged `Name`, `Summary` and `Content`;
  - the `Icons`/`Images` restricted lists;
  - the sign check on `Height`/`Width`;
  - the `asObject` cache;
  - the `Actors`/`Actor` derivation of `attributedTo`.
- **The `Link` converter's string shorthand**, and its collapse of a
  default-shaped link to its bare `href` on write.

Entities are immutable Dafny records. Every C# `init` accessor is a function
from the entity before the write to the entity after it. An accessor that
throws returns a `Result`, whose `Failure` carries the .NET exception kind.
A `null` reference is `None`.

Some parts of the library become parameters:

- the process-wide globals `Settings.DefaultLanguage` (shipped as `"en"`),
  `Settings.DefaultContext` and the type registry;
- the System.Text.Json field-wise serialiser;
- the element codec of `SingleOrArrayConverter`;
- the `FetchObject` function.

JSON reaches the model as a sequence of reader tokens, with the reader's
position as an index into it.

The repository holds two generations of the same code: `Types/*.cs` with
`Collections/RestrictiveList.cs`, and `Utilities/*` with `Types/Activity.cs`.
Each algorithm is modelled once. Both copies are cited below.

Modules, in dependency order:

| module | file | holds |
|---|---|---|
| `Wrappers` | wrappers.dfy | `Option`, `Result`, the exception kinds |
| `JsonTokens` | json_tokens.dfy | reader tokens, JSON trees, their token streams |
| `LanguageMaps` | language_maps.dfy | `LanguageMap` and its helpers |
| `Accessors` | accessors.dfy | the shared plural/singular and localized accessor patterns |
| `RestrictiveLists` | restrictive_lists.dfy | `RestrictiveList`, checked and unchecked |
| `SingleOrArray` | single_or_array.dfy | the one-or-many converter |
| `Entities` | entities.dfy | kinds, the entity record, `Entity`'s accessors and constructor |
| `Objects` | objects.dfy | `Object`'s accessors |
| `Links` | links.dfy | `Link`, its accessors and its converter |
| `Activities` | activities.dfy | `Activity` |
| `EntityConverter` | entity_converter.dfy | the type scan, the dispatch, the converter |
| `ScanProperties` | scan_properties.dfy | what the scan and the dispatch do on documents |

### Where the code departs from its comments, or surprises

The model follows the code in each of these cases:

- **Empty list.** A plural property is left out on write only when it is
  null (`[JsonIgnore(Condition = WhenWritingNull)]`, for example
  Types/Object.cs:40). `SingleOrArrayConverter`, documented as writing "a
  list or a single item, depending on what is there"
  (Utilities/Json/SingleOrArrayConverter.cs:8-12), writes a `List<T>` whose
  count is not one as an array, so an empty list is written as `[]`
  (`SingleOrArray.EmptyListWritesEmptyArray`). Only `Icons`/`Images` read
  back as null when empty (Types/Object.cs:221, 256).
- **Nested `type` members.** The search loop is commented "skip child
  objects" (Types/Entity.cs:244), but a nested `type` can still decide the
  kind:
  - The loop keeps one boolean flag, not a depth counter.
  - It does not set that flag when it steps onto a property's value, so in
    `{"attachment":{"type":"Nested"},"type":"Link"}` the nested tag is the one
    found (`ScanProperties.NestedTypeIsMatched`).
  - It does not stop at the object's own end (`ScanProperties.ScanRunsPastOwnEnd`).
- **End of input.** The inner loop's comment "ran out of tape"
  (Types/Entity.cs:263) and the `Object` fallback (lines 281-282) expect the
  reader's end of input to throw. That holds only for a buffer cut short. On
  a buffer that holds the whole document the reader's `Read` returns false,
  and the scan of an object with no reachable `type` never ends. See
  "## Findings".
- **Checked types on `Icons` and `Images`.** `RestrictiveList` is documented as
  "a list restricted to certain valid types set on init"
  (Collections/RestrictiveList.cs:7-9). The `Icons`/`Images` init and
  `Icon`/`Image` init go through the unchecked base-class `AddRange` and
  `Insert`, so nothing is checked on those paths
  (`Objects.GalleryCheckBypassed`).
- **`attributedTo` from `Actors`.** The comment "Adds to attributed to by
  default" (Types/Activity.cs:53) and the advice to set `Actors` after
  `AttributedTo` (Types/Activity.cs:45) describe what the code does: the
  actors are appended when `Actors` is written after `AttributedTo`, and a
  later `AttributedTo` replaces the derived list
  (`Activities.AttributionDependsOnOrder`).

## Model

| member | source | states |
|---|---|---|
| `LanguageMaps.FromDictionary` | Utilities/Collections/LanguageMap.cs:28-30 | the map built from a dictionary has exactly its keys and values |
| `LanguageMaps.EmptyMap` | Utilities/Collections/LanguageMap.cs:32-34 | the parameterless constructor gives a map with no entries |
| `LanguageMaps.TryGetValue` | Utilities/Collections/LanguageMap.cs:50-52 | reports true exactly when the key is present, with its value; otherwise false and no value |
| `LanguageMaps.Lookup` | Utilities/Collections/LanguageMap.cs:42-44 | the indexer succeeds exactly on a present key, giving its value; a missing key throws `KeyNotFoundException` |
| `LanguageMaps.LookupAgreesWithTryGetValue` | Utilities/Collections/LanguageMap.cs:42-52 | the indexer throws exactly where `TryGetValue` reports false, and otherwise returns the same value |
| `LanguageMaps.Default` | Utilities/Collections/LanguageMap.cs:20-24 | `Default` is present exactly when the default-language key is, and is its value; it never fails |
| `LanguageMaps.GetDefault` | Utilities/Collections/LanguageMap.cs:78-81 | on a language map it is `Default`; on any other sequence it is the first element, or absent when the sequence is empty |
| `LanguageMaps.SetForDefaultLanguage` | Utilities/Collections/LanguageMap.cs:86-88 | inserts or overwrites the default-language key only; the keys grow by at most that key and every other entry keeps its value |
| `LanguageMaps.SetDefault` | Utilities/Collections/LanguageMap.cs:93-95 | the list grows by one, the value is at index 0 and the old list follows it unchanged |
| `LanguageMaps.DefaultAfterSetForDefaultLanguage` | Utilities/Collections/LanguageMap.cs:20-30 | after `SetForDefaultLanguage(d, v)`, `new LanguageMap(d).Default` is `v` |
| `LanguageMaps.GetDefaultAfterSetDefault` | Utilities/Collections/LanguageMap.cs:78-95 | `GetDefault` after `SetDefault(v)` on a list reads `v` back |
| `RestrictiveLists.Add` | Utilities/Collections/RestrictiveList.cs:23-28 | succeeds exactly when `ValidTypes` is unset or holds the item's exact runtime type, appending the item; otherwise `ArgumentException` (the twin is Collections/RestrictiveList.cs:20-25) |
| `RestrictiveLists.InsertUnchecked` | Utilities/Collections/RestrictiveList.cs:37 | the base `List<T>.Insert`: fails with `ArgumentOutOfRangeException` outside `0..Count`; otherwise the item sits at the index, earlier items keep their places and later ones shift right by one |
| `RestrictiveLists.Insert` | Utilities/Collections/RestrictiveList.cs:33-38 | a refused type throws `ArgumentException` before the index is looked at; an accepted item in range lands at the index with the prefix kept and the rest shifted (the twin is Collections/RestrictiveList.cs:27-32) |
| `RestrictiveLists.AddRangeUnchecked` | Types/Object.cs:224 | the base `AddRange` appends every element after the existing ones, keeping `ValidTypes` and checking nothing |
| `RestrictiveLists.UnsetAcceptsEverything` | Collections/RestrictiveList.cs:20-32 | with `ValidTypes` unset, both `Add` and `Insert` at 0 succeed for any item |
| `RestrictiveLists.ToRestrictiveList` | Utilities/Collections/RestrictiveList.cs:46-50 | the result holds the input's elements in their order and has no `ValidTypes` (the twin is Collections/RestrictiveList.cs:40-44) |
| `SingleOrArray.ReadItems` | Utilities/Json/SingleOrArrayConverter.cs:19 | decoding an array's items succeeds exactly when every item decodes, and then gives one element per item, in order |
| `SingleOrArray.Read` | Utilities/Json/SingleOrArrayConverter.cs:17-24 | an array reads as a `List<T>` of its decoded items, with the same count and order; any other token reads as a one-element array of its decoded value (the twin is Types/Entity.cs:321-328) |
| `SingleOrArray.Write` | Utilities/Json/SingleOrArrayConverter.cs:26-35 | a one-element `List<T>` writes as its element's own encoding, never as an array; any other `List<T>` writes as an array of the encodings in order; a sequence that is not a `List<T>` throws `NotImplementedException` (the twin is Types/Entity.cs:330-339) |
| `SingleOrArray.EmptyListWritesEmptyArray` | Types/Entity.cs:330-339 | an empty list is written as `[]`, not omitted |
| `SingleOrArray.ReadItemsOfEncoded` | Utilities/Json/SingleOrArrayConverter.cs:19-32 | decoding the items of a written array gives back the elements, when each element decodes from its own encoding |
| `SingleOrArray.RoundTrip` | Utilities/Json/SingleOrArrayConverter.cs:17-33 | for a `List<T>` whose element encodings are not arrays and decode back, reading what `Write` produced gives the same elements in the same order |
| `SingleOrArray.SingleReadIsNotWritable` | Utilities/Json/SingleOrArrayConverter.cs:21-34 | a bare value reads as a one-element array, which `Write` refuses with `NotImplementedException` until it is copied into a `List<T>` |
| `Accessors.CopyOf` | Types/Object.cs:44 | the plural init `value?.ToList()`: absent for `null`, otherwise the same elements |
| `Accessors.First` | Types/Object.cs:51 | the singular get: present exactly when the plural is present and non-empty, and then its first element |
| `Accessors.WriteFirst` | Types/Object.cs:52-59 | the singular init: `null` clears the plural; a value goes to index 0 with the old elements after it, creating the list when absent |
| `Accessors.FirstAfterWriteFirst` | Types/Object.cs:51-59 | the singular get reads back what the singular init wrote, `null` included |
| `Accessors.ReplaceWithSingle` | Types/Entity.cs:59-66 | the `Context`/`Type` init: `null` clears; a value replaces the list by exactly `[value]` |
| `Accessors.AppendAll` | Types/Entity.cs:73-76 | the `Additional*` init: the result is the existing elements followed by the new ones, with absent read as empty on both sides |
| `Accessors.MapOf` | Types/Entity.cs:139 | the language-map getter is absent exactly when the dictionary is, and otherwise holds the same entries |
| `Accessors.CopyMap` | Types/Entity.cs:140-148 | the language-map init reads `value.Count` first, so `null` throws `NullReferenceException`; otherwise the entries are copied |
| `Accessors.LocalizedGet` | Types/Entity.cs:156 | the localized singular get is present exactly when the map is present and holds the default language, and then is that entry |
| `Accessors.LocalizedSet` | Types/Entity.cs:157-164 | the localized singular init: `null` clears the map; a value writes the default-language key, creating the map when absent, and keeps every other entry |
| `Accessors.LocalizedGetAfterSet` | Types/Entity.cs:155-165 | a localized value written through the singular init reads back |
| `Entities.DefaultTypes` | Types/Entity.cs:20-22 | each class's default tag list is one non-empty tag (the overrides are Types/Object.cs:29, Types/Link.cs:28, Types/Activity.cs:20, Types/Collection.cs:12, Types/Image.cs:12) |
| `Entities.DefaultTypesDistinct` | Types/Entity.cs:20-22 | every kind's default tag list is non-empty, and no tag belongs to two kinds |
| `Entities.InitContexts` | Types/Entity.cs:49-52 | `Contexts` init stores the given sequence, or absent for `null`; no other field changes |
| `Entities.ContextGet` | Types/Entity.cs:57-58 | `Context` is absent for absent contexts, throws `InvalidOperationException` on an empty list (`First()`), and is otherwise the first context |
| `Entities.InitContext` | Types/Entity.cs:59-66 | `Context` init: `null` makes the contexts absent; a value replaces them by exactly `[value]`; no other field changes |
| `Entities.InitAdditionalContexts` | Types/Entity.cs:72-77 | `AdditionalContexts` init: the contexts become the old ones followed by the new ones; no other field changes |
| `Entities.ContextGetAfterInit` | Types/Entity.cs:57-67 | `Context` reads back what its init wrote |
| `Entities.InitTypes` | Types/Entity.cs:88-91 | `Types` init stores the given tags, or absent for `null`; no other field changes |
| `Entities.TypeGet` | Types/Entity.cs:97 | `Type` is the first tag, or absent when the tags are absent or empty |
| `Entities.InitType` | Types/Entity.cs:96-106 | `Type` init: `null` makes the tags absent; a value replaces them by exactly `[value]`; no other field changes |
| `Entities.InitAdditionalTypes` | Types/Entity.cs:111-116 | `AdditionalTypes` init: the tags become the old ones followed by the new ones; no other field changes |
| `Entities.NamesGet` | Types/Entity.cs:138-139 | `Names` is absent exactly when the dictionary is, and otherwise has its entries |
| `Entities.InitNames` | Types/Entity.cs:140-148 | `Names` init throws `NullReferenceException` on `null`; otherwise it copies the entries and changes nothing else |
| `Entities.NameGet` | Types/Entity.cs:155-156 | `Name` is the default-language entry, when the map and the entry are present |
| `Entities.InitName` | Types/Entity.cs:157-164 | `Name` init: `null` clears the map; a value writes only the default-language entry and keeps the others |
| `Entities.InitPreviews` | Types/Entity.cs:173-176 | `Previews` init stores the sequence, or absent; no other field changes |
| `Entities.PreviewGet` | Types/Entity.cs:181-182 | `Preview` is the first preview, or absent when there is none |
| `Entities.InitPreview` | Types/Entity.cs:183-190 | `Preview` init as written: `null` clears the type tags and leaves the previews; a value goes to the front of the previews |
| `Entities.PreviewNullClearsTypes` | Types/Entity.cs:185 | after `Preview = null` the entity has no type tags and still reads its earlier preview |
| `Entities.InitPreviewCorrected` | Types/Entity.cs:181-190 | `Preview` init as the singular pattern intends: `null` clears the previews; a value goes to the front; no other field changes |
| `Entities.PreviewCorrectedReadsBack` | Types/Entity.cs:181-190 | the corrected `Preview` reads back what was written and keeps the type tags |
| `Entities.NewEntity` | Types/Entity.cs:196-201 | a new instance has its kind's default tags, `[DefaultContext]` as contexts unless `withoutContext` is set or the default context is `null` (then absent), media type `text/html` (Types/Entity.cs:128-129), and no id, names or previews |
| `Objects.NewObject` | Types/Object.cs:498-499 | `new Object()` runs `Entity(false)` (Types/Entity.cs:196-201): an `Object` tagged `["Object"]` whose contexts are `[DefaultContext]`, or absent when that is `null`, with media type `text/html`, no id, names or previews, no relations and empty icon and image lists |
| `Objects.PluralGet` | Types/Object.cs:43 | a plural getter is the stored list, or absent when it was never set or was cleared |
| `Objects.SetRelation` | Types/Object.cs:44 | storing a relation changes that relation alone and no other field |
| `Objects.InitPlural` | Types/Object.cs:71 | every plural init (lines 44, 71, 98, 124, 150, 161, 172, 183, 209, 354, 448, 477) stores the given sequence or absent, leaving the other relations alone |
| `Objects.SingularGet` | Types/Object.cs:78 | every singular get (lines 51, 78, 105, 131, 190, 361, 455, 484) is the first element of its plural, absent when the plural is absent or empty |
| `Objects.InitSingular` | Types/Object.cs:79-86 | every singular init: `null` clears the plural; a value goes to index 0 with the old elements kept after it; no other relation changes |
| `Objects.SingularGetAfterInit` | Types/Object.cs:104-113 | the singular get reads back the last value written; a second write pushes the first to index 1 |
| `Objects.GalleryList` | Types/Object.cs:226-233 | the list behind `Icons`/`Images` allows exactly `Link` and `Image` (the `Images` twin is lines 261-268) |
| `Objects.GalleryGet` | Types/Object.cs:221 | `Icons`/`Images` read as absent exactly when the list is empty (the `Images` twin is line 256) |
| `Objects.InitGallery` | Types/Object.cs:222-225 | `Icons`/`Images` init leaves exactly the given elements, or none for `null`, without checking their types; nothing but that gallery changes (the `Images` twin is lines 257-260) |
| `Objects.GallerySingularGet` | Types/Object.cs:239 | `Icon`/`Image` is the first element when there is one (the `Image` twin is line 274) |
| `Objects.InitGallerySingular` | Types/Object.cs:240-244 | `Icon`/`Image` init does nothing on `null`, and otherwise puts the value first without a type check; nothing but that gallery changes (the `Image` twin is lines 275-279) |
| `Objects.GalleryAdd` | Types/Object.cs:228-233 | the checked `Add` on the gallery succeeds exactly for a `Link` or an `Image`, appending it and changing nothing else; anything else throws `ArgumentException` |
| `Objects.GalleryNullWriteIsNoOp` | Types/Object.cs:240-244 | writing `null` to `Icon`/`Image` keeps the list, while the same write to an ordinary singular clears its plural |
| `Objects.GalleryCheckBypassed` | Types/Object.cs:222-244 | an `Activity`, refused by the checked `Add`, is stored through `Icons` init and through `Icon` init |
| `Objects.ExactTypeNotAssignability` | Utilities/Collections/RestrictiveList.cs:24 | an `Image` is an `Object`, yet a list allowing `Object` refuses it, while the gallery allow-set accepts it |
| `Objects.SummariesGet` | Types/Object.cs:289-290 | `Summaries` is absent exactly when the dictionary is, and otherwise has its entries |
| `Objects.InitSummaries` | Types/Object.cs:291-296 | `Summaries` init throws `NullReferenceException` on `null`, and otherwise copies the entries and changes nothing else |
| `Objects.SummaryGet` | Types/Object.cs:303-304 | `Summary` is the map's default-language entry, when present |
| `Objects.InitSummary` | Types/Object.cs:305-312 | `Summary` init: `null` clears the map; a value writes only the default-language key, keeps every other entry, and changes no other field |
| `Objects.InitContents` | Types/Object.cs:322-327 | `Contents` init throws `NullReferenceException` on `null`, and otherwise copies the entries and changes nothing else |
| `Objects.ContentGet` | Types/Object.cs:334-335 | `Content` is the map's default-language entry, when present |
| `Objects.InitContent` | Types/Object.cs:336-343 | `Content` init: `null` clears the map; a value writes only the default-language key, keeps every other entry, and changes no other field |
| `Objects.LocalizedReadsBack` | Types/Object.cs:303-343 | `Summary` and `Content` read back what their inits wrote |
| `Links.NewLink` | Types/Link.cs:143-145 | `new Link(href)` has that `href`, tags `["Link"]` (lines 28-32), no context unless asked for, media type `text/html` and every other field absent |
| `Links.LinkFromString` | Types/Link.cs:164-165 | the string conversion gives a link with that `href`, tags `["Link"]` and no context |
| `Links.EmptyLink` | Types/Link.cs:150-151 | `new Link()` links to the empty string |
| `Links.LinkToString` | Types/Link.cs:157-158 | the conversion to a string gives the link's `href` |
| `Links.StringConversionRoundTrip` | Types/Link.cs:157-165 | converting a string to a link and back gives the same string |
| `Links.CheckDimension` | Types/Link.cs:100-109 | the guarded setter fails exactly on a negative value, with `InvalidOperationException`, and otherwise stores the value (zero and `null` included) |
| `Links.InitHeight` | Types/Link.cs:95-109 | `Height` init fails exactly on a negative value; otherwise it sets the height and nothing else |
| `Links.InitWidth` | Types/Link.cs:117-131 | `Width` init fails exactly on a negative value; otherwise it sets the width and nothing else |
| `Links.NegativeDimensionRejected` | Types/Link.cs:122-131 | `Width = -1` throws; `Width = 0` and `Height = 0` succeed |
| `Links.RelGet` | Types/Link.cs:65-66 | `Rel` is the first rel, or absent when there is none |
| `Links.SetRel` | Types/Link.cs:67-75 | `Rel` set: `null` clears the rels; a value goes to the front; no other field changes |
| `Links.RelGetAfterSet` | Types/Link.cs:65-76 | `Rel` reads back what was set |
| `Links.FetchObject` | Types/Link.cs:184-186 | the shipped fetch always throws `NotImplementedException` |
| `Links.AsObject` | Types/Link.cs:171-172 | a cached object is returned without fetching; otherwise the fetch result is returned and, when it succeeds, cached |
| `Links.AsObjectFetchesOnce` | Types/Link.cs:171-172 | once a fetch has succeeded, later calls return the same object whatever the fetch would now do |
| `Links.ShippedFetchNeverResolves` | Types/Link.cs:171-186 | with the shipped fetch an uncached link never resolves and stays as it was |
| `Links.ReadLink` | Utilities/Json/Link.JsonConverter.cs:15-21 | a string token reads as a link to that string with no context; any other token goes to the field-wise decode (the twin is Types/Link.cs:190-196) |
| `Links.WriteLink` | Utilities/Json/Link.JsonConverter.cs:23-43 | absent types throw (`SequenceEqual`); a link meeting every collapse condition writes as its bare `href`; any other link that does not throw is written field-wise; the only other failure, `InvalidOperationException`, happens exactly when the collapse test reaches the `Context` getter on an empty context list (Types/Entity.cs:58) |
| `Links.CollapsedLinkRoundTrip` | Utilities/Json/Link.JsonConverter.cs:17-38 | a collapsible link is written as its `href` and reads back as a link to the same `href` with no context |
| `Links.FreshLinkCollapses` | Utilities/Json/Link.JsonConverter.cs:27-37 | a fresh `new Link(href)` meets every collapse condition |
| `Activities.NewActivity` | Types/Activity.cs:28-29 | `new Activity(t)` is tagged `[t]`, or `["Activity"]` for `null`; through `base()` its contexts are `[DefaultContext]`, or absent when that is `null`, its media type is `text/html`, and it has no id, names, previews, relations or actors |
| `Activities.NewDefaultActivity` | Types/Activity.cs:30-31 | `new Activity()` is tagged `["Activity"]`, with contexts `[DefaultContext]` (absent when that is `null`), media type `text/html`, and no id, names, previews, relations or actors |
| `Activities.NewActivityWithTypes` | Types/Activity.cs:36-38 | `new Activity(types)` has exactly the given tags, or absent for `null`; through `base()` its contexts are `[DefaultContext]` (absent when that is `null`), its media type is `text/html`, and it has no id, names, previews, relations or actors |
| `Activities.InitActors` | Types/Activity.cs:48-59 | `Actors` init throws on `null`; otherwise it stores the actors, and `attributedTo` becomes its old entries (none when absent) followed by the actors; nothing else changes |
| `Activities.ActorGet` | Types/Activity.cs:66 | `Actor` throws when `Actors` is absent, and is otherwise the first actor or absent |
| `Activities.InitActor` | Types/Activity.cs:67-77 | `Actor` init as written puts the value at the front of the attachments, appends it to `attributedTo`, and changes nothing else (the actors included) |
| `Activities.ActorWriteMissesActors` | Types/Activity.cs:66-69 | after `Actor = x` the `Actor` getter gives what it gave before, while `x` is the first attachment |
| `Activities.InitActorCorrected` | Types/Activity.cs:64-77 | `Actor` init as the singular pattern intends: the value goes to the front of the actors and is appended to `attributedTo`; nothing else changes |
| `Activities.ActorCorrectedReadsBack` | Types/Activity.cs:64-77 | the corrected `Actor` reads back what was written |
| `Activities.AttributionDependsOnOrder` | Types/Activity.cs:45-58 | on any activity without `attributedTo` and for any lists `xs`, `ys`: `{Actors=xs}` gives `attributedTo` `xs`; `{AttributedTo=ys, Actors=xs}` gives `ys + xs`; `{Actors=xs, AttributedTo=ys}` gives `ys` |
| `EntityConverter.SkipToProp` | Types/Entity.cs:247-261 | the inner loop stops only on a property name at or after the cursor, strictly after it when the flag is set, and runs out when no property name follows |
| `EntityConverter.FindType` | Types/Entity.cs:246-271 | the search finds no type when no property name follows the cursor |
| `EntityConverter.CollectArrayTags` | Types/Entity.cs:284-293 | the array loop fails exactly when no end of array follows, and an immediate end of array gives no tags |
| `EntityConverter.TypeValue` | Types/Entity.cs:284-298 | a string value gives exactly its own tag; a value that is neither a string nor an array throws |
| `EntityConverter.ScanTypeTags` | Utilities/Json/Entity.Converter.cs:26-97 | the scan fails when the start of object is not followed by a property name, reads the value directly when that name is `type`, and fails when no property name follows at all (the twin is Types/Entity.cs:227-298) |
| `EntityConverter.SkipToPropOnReader` | Types/Entity.cs:247-261 | on a buffer cut short the inner loop is `SkipToProp`; on the whole document it stops on the same property name, and spins wherever `SkipToProp` runs out |
| `EntityConverter.CollectArrayTagsOnReader` | Types/Entity.cs:284-293 | on a buffer cut short the array loop is `CollectArrayTags`; on the whole document it agrees wherever the array ends, and spins where it fails |
| `EntityConverter.TypeValueOnReader` | Types/Entity.cs:284-298 | on a buffer cut short it is `TypeValue`; on the whole document it agrees on found tags, and spins only on an array without its end |
| `EntityConverter.FindTypeOnReader` | Types/Entity.cs:246-271 | on a buffer cut short the outer loop is `FindType`; on the whole document it agrees on found tags, spins where `FindType` finds no type, and never ends with no type |
| `EntityConverter.ScanTypeTagsOnReader` | Types/Entity.cs:227-298 | on a buffer cut short the scan is `ScanTypeTags`; on the whole document it agrees on found tags, spins where `ScanTypeTags` finds no type, and so never reaches the `Object` fallback |
| `EntityConverter.DocumentTags` | Types/Entity.cs:281-282 | a scan that found no type asks the dispatch about `["Object"]` |
| `EntityConverter.Resolve` | Types/Entity.cs:300-309 | the chosen kind is `Object` when no registry entry meets the tags; otherwise it is the kind of an entry that meets them with no later entry meeting them |
| `EntityConverter.RegisterAll` | Settings.cs:65-69 | the registry lists each given kind with its default tags, in order |
| `EntityConverter.ReadEntity` | Types/Entity.cs:220-310 | a string reads as a link to it with no context; a token that is neither a string nor an object, or a failed scan, throws `JsonException`; otherwise the kind resolved from the scanned tags decodes from the original position (the twin is Utilities/Json/Entity.Converter.cs:19-109) |
| `ScanProperties.ScalarItemsTokens` | Types/Entity.cs:284-293 | the tokens of an array of scalars are one token per item |
| `ScanProperties.FindTypeSkipsRun` | Types/Entity.cs:246-271 | the search passes over any run of plain tokens and non-`type` property names without changing its outcome |
| `ScanProperties.FindTypeSkipsFlatMembers` | Types/Entity.cs:246-270 | the search steps over a first value and members that are flat and not named `type` |
| `ScanProperties.CollectScalarItems` | Types/Entity.cs:284-293 | an array of scalars yields its strings in order, other items skipped |
| `ScanProperties.TypeValueOfJson` | Types/Entity.cs:284-298 | a flat or object `type` value yields the tags a reader of the document would expect: a string gives itself, an array of scalars its strings, and anything else fails |
| `ScanProperties.FirstPropertyType` | Types/Entity.cs:273-298 | a first member named `type` gives the tags of its value, whatever follows the object |
| `ScanProperties.TypeAfterFlatMembers` | Types/Entity.cs:246-270 | a top-level `type` preceded only by flat members is found, and gives the tags of its value |
| `ScanProperties.FlatObjectWithoutType` | Types/Entity.cs:248-266 | with the end of input as a throwing `Read`, an object of flat members with no `type` and nothing after it is scanned to the end and yields no type, not an error |
| `ScanProperties.UntypedObjectDecodesAsObject` | Utilities/Json/Entity.Converter.cs:80-81 | with the end of input as a throwing `Read`, such an object is decoded as whatever the registry gives for `Object`'s tag |
| `ScanProperties.UntypedDocumentSpins` | Types/Entity.cs:247-253 | on a buffer holding the whole document the same object's scan never ends, `{"a":1}` included; only a buffer cut short ends with no type |
| `ScanProperties.NonObjectsFail` | Types/Entity.cs:230-238 | `{}`, `[]` and a number-like token all throw `JsonException` |
| `ScanProperties.TruncatedInputFails` | Types/Entity.cs:269-274 | input ending right after a property name, or inside a `type` array, throws at the unguarded `Read`s |
| `ScanProperties.NestedTypeIsMatched` | Utilities/Json/Entity.Converter.cs:45-69 | in `{"attachment":{"type":"Nested"},"type":"Link"}` the scan takes the nested tag `Nested` |
| `ScanProperties.ArrayElementTypeIsSkipped` | Types/Entity.cs:255-260 | in `{"tag":[{"type":"Mention"}],"type":"Note"}` the object inside the array is passed over and the tag is `Note` |
| `ScanProperties.ScanRunsPastOwnEnd` | Utilities/Json/Entity.Converter.cs:46-59 | reading the inner object of `{"object":{"content":"hi"},"type":"Create"}` takes the enclosing `Create` tag and decodes as that kind |
| `ScanProperties.DisjointDispatch` | Utilities/Json/Entity.Converter.cs:99-108 | with pairwise disjoint tag lists a single tag resolves to the one entry that holds it, whatever the registry's order |
| `ScanProperties.RegisteredKindsDispatchToThemselves` | Settings.cs:65-69 | a registry of distinct shipped kinds sends each kind's own default tags to that kind |
| `ScanProperties.MultiTagDispatchDependsOnOrder` | Types/Entity.cs:301-305 | with the dispatch taken as one decode for the last matching entry (see the `EntityConverter.ReadEntity` line under "## Left out"), `Resolve` sends a document tagged both `Link` and `Activity` to whichever of the two the registry lists last |
| `EntityConverter.WriteEntity` | Types/Entity.cs:312-314 | the value is written as its own runtime kind under the global entity options (the twin is Utilities/Json/Entity.Converter.cs:111-113) |
| `ScanProperties.WriteIgnoresCallerOptions` | Utilities/Json/Entity.Converter.cs:111-113 | writing uses the value's own runtime kind and the global options, so the options passed in make no difference (the twin is Types/Entity.cs:312-314) |

## Left out

- Type registry and globals: the registry is built by reflection over the
  loaded assemblies and lives in mutable statics. So do the default
  language and the default context. All three are parameters.
  `Settings.Test` is not modelled.
- System.Text.Json plumbing: the field-wise (de)serialiser is an abstract
  function (`FieldDecoder`, `FieldEncoder`, `Serializer`). This covers the
  converter factories, the serializer extensions and `EntityExtensions`
  (Types/Entity.cs:343-363).
- UTF-8 lexing inside `Utf8JsonReader`: the model starts from tokens.
  Numbers, booleans and `null` are one token kind, `Other`, which the scan
  never inspects.
- End of input: `Utf8JsonReader.Read` throws at the end of a buffer cut
  short, and returns false, leaving the cursor in place, at the end of a
  buffer holding the whole document. `ScanTypeTags` and everything built on
  it (`ReadEntity`, the dispatch lemmas) model only the first: running out
  inside the guarded `Read` means no type was found, anywhere else the read
  fails. The second is modelled only by the `OnReader` functions, which
  show that the scan then spins where `ScanTypeTags` finds no type (see
  "## Findings"). A malformed token sequence, which the real reader rejects
  where it meets it, is not distinguished from a well-formed one.
- ScanProperties.FlatObjectWithoutType: holds for a buffer cut short, or for
  the intended behaviour; on a buffer holding the whole document the scan
  spins instead (`ScanProperties.UntypedDocumentSpins`).
- ScanProperties.UntypedObjectDecodesAsObject: holds for a buffer cut short,
  or for the intended behaviour; on a buffer holding the whole document the
  read never returns.
- Element types of `Urls` and of the link cache: the `Urls` relation holds entities where the source's
  property is `IEnumerable<Link>` (Types/Object.cs:352), and a link's cached
  object is any entity where the source's field is an `Object`
  (Types/Link.cs:137). The model does not restrict either.
- Scan failures: every failure of the scan is reported as `JsonException`.
- EntityConverter.ReadEntity: the dispatch calls `Deserialize` once per
  matching registry entry, each time on the same reader, and assigns each
  result to `@base` (Types/Entity.cs:301-305). The first call consumes the
  object, so a second call starts on the object's closing token, or past it,
  and does not decode the object again; what it then does depends on the
  System.Text.Json reader and is not modelled. The model decodes once, from
  the original position, for the last matching entry, so it is exact only
  when at most one registry entry matches (`ScanProperties.DisjointDispatch`).
- SingleOrArray.Write: one element codec stands for both branches. The
  source writes a single element with its runtime type and the caller's
  options (Utilities/Json/SingleOrArrayConverter.cs:29), but a list through
  the serialiser's handling of `List<T>`, each element as `T` (line 32).
  `SingleOrArray.RoundTrip` relies on the two encodings being the same.
- ScanProperties.TypeAfterFlatMembers: proved only when the members before
  `type` are scalars or arrays of scalars. Object-valued members before
  `type` are characterised only by the concrete lemmas `NestedTypeIsMatched`,
  `ArrayElementTypeIsSkipped` and `ScanRunsPastOwnEnd`.
- ScanProperties.TypeValueOfJson: a `type` array with nested arrays or objects
  has no general lemma. `EntityConverter.CollectArrayTags` still models its
  reading.
- Null elements inside lists are not modelled: the element type is `Entity`,
  not an optional entity. A `null` `href` is not modelled either; it is a
  string.
- Links.InitHeight: `Height`/`Width` are `float?` in the source and integers
  here. Only the sign check depends on the value.
- Plain storage fields are not modelled: `Published`, `StartTime`, `EndTime`,
  `Updated` and `Duration`, which are `DateTime`/`TimeSpan`. `Id`,
  `MediaType`, `HrefLang` and `Replies` are stored as given, with no logic
  of their own.
- `Collection` and `Image`: they appear only as kinds and registry tags.
  Their constructors, which ignore their argument, and the commented-out
  `ImmutableCollection` are not modelled.
- The `LanguageMap` constructor's copy: it makes later changes to the
  source dictionary invisible. Dafny maps are values, so this holds by
  construction and has no lemma.
- `FetchObject` network resolution: the shipped method throws, and `AsObject`
  takes the fetch as a parameter.
- The implicit `Link` to `Object` conversion is `asObject()` and is covered
  by `AsObject`.

## Findings

| source | as written | input that shows it | evidently intended | confidence | as-written member | corrected member |
|---|---|---|---|---|---|---|
| Types/Entity.cs:185 | `Preview = null` sets `_types` to `null` | an entity with tags and one preview, then `Preview = null`: the tags are gone and `Preview` still reads the old preview | `_previews = null`, as in every other singular init | high; not executed | `Entities.InitPreview`, `Entities.PreviewNullClearsTypes` | `Entities.InitPreviewCorrected`, `Entities.PreviewCorrectedReadsBack` |
| Types/Entity.cs:247-253 | the inner loop's only exit at the end of input is the `catch` around `Read`, but `Read` returns false there on a buffer holding the whole document | `{"a":1}` read from a string: the scan spins and the read never returns | the end of input ends the search, so that a document without `type` is read as an `Object` (lines 263-266, 281-282) | medium; not executed | `EntityConverter.ScanTypeTagsOnReader`, `ScanProperties.UntypedDocumentSpins` | `EntityConverter.ScanTypeTags`, `ScanProperties.UntypedObjectDecodesAsObject` |
| Types/Activity.cs:68-69 | `Actor = x` inserts `x` at the front of `_attachments` | `new Activity { Actor = x }`: `Actor` still throws (no actors), and `x` is the first attachment | `_actors ??= new List<Entity>(); _actors.SetDefault(x)` | high; not executed | `Activities.InitActor`, `Activities.ActorWriteMissesActors` | `Activities.InitActorCorrected`, `Activities.ActorCorrectedReadsBack` |
