/** The entity converter (`Entity.JsonConverter` in Types/Entity.cs, and its
    twin `Json.Entity.Converter` in Utilities/Json/Entity.Converter.cs): a
    bare string reads as a link; an object is scanned for its `type` tags on a
    copy of the reader, the tags pick a kind from the registry, and the
    field-wise decoder for that kind reads the object from the original
    position.

    The scan is modelled as written, not as its comments describe it: one
    boolean `isInChild` instead of a depth counter, set only by a start of
    object met inside the inner loop, and no stop at the entity's own end of
    object. The scan is given twice. `ScanTypeTags` takes the reader's end of
    input to be a failing `Read`, as on a buffer cut short: inside the
    guarded `Read` of the inner loop it means no `type` was found, anywhere
    else the whole read fails. This is the behaviour the `catch` and the
    `Object` fallback are written for, and the rest of the model uses it.
    `ScanTypeTagsOnReader` adds the reader's other end of input: on a buffer
    holding the whole document the last `Read` returns false and leaves the
    cursor in place, and the loops that wait for a token that never comes
    spin. */
module EntityConverter {
  import opened Wrappers
  import opened JsonTokens
  import opened Entities
  import opened Links

  /** What the scan on the cloned reader yields: the tags of the `type`
      value, no `type` before the input ran out, or a thrown exception. */
  datatype ScanResult = TypeTags(tags: seq<string>) | NoType | Fail

  /** Where the inner loop stops: on a property name outside any child
      object, or out of input. */
  datatype Skip = AtProp(pos: nat) | OutOfTape

  /** The inner loop (Types/Entity.cs:247-261). The cursor stays put on a
      property name when the flag is clear; otherwise it reads on, and each
      token it reads sets the flag on a start of object and clears it on an
      end of object. Running out of input ends the loop. */
  function SkipToProp(toks: seq<Token>, c: nat, inChild: bool): (r: Skip)
    requires c < |toks|
    decreases |toks| - c
    ensures r.AtProp? ==> c <= r.pos < |toks| && toks[r.pos].Prop?
    ensures r.AtProp? && inChild ==> c < r.pos
    ensures (forall k :: c <= k < |toks| ==> !toks[k].Prop?) ==> r == OutOfTape
  {
    if toks[c].Prop? && !inChild then AtProp(c)
    else if c + 1 >= |toks| then OutOfTape
    else
      var flag := if toks[c + 1].StartObj? then true else if toks[c + 1].EndObj? then false else inChild;
      SkipToProp(toks, c + 1, flag)
  }

  /** The outer loop (Types/Entity.cs:246-271), entered with the cursor on
      `c`. Each round runs the inner loop with the flag clear (the inner loop
      only ever stops with it clear), tests the property name it stopped on,
      and steps onto that property's value with an unguarded `Read`. */
  function FindType(toks: seq<Token>, c: nat): (r: ScanResult)
    requires c < |toks|
    decreases |toks| - c
    ensures (forall k :: c <= k < |toks| ==> !toks[k].Prop?) ==> r == NoType
  {
    match SkipToProp(toks, c, false)
    case OutOfTape => NoType
    case AtProp(q) =>
      if q + 1 >= |toks| then Fail
      else if toks[q].name == "type" then TypeValue(toks, q + 1)
      else FindType(toks, q + 1)
  }

  /** The tags of an array value (Types/Entity.cs:284-293), with the cursor on
      `c`: read until the cursor is on an end of array, collecting every
      string token read. Whatever lies between, nested values included, is
      passed over; running out of input throws. */
  function CollectArrayTags(toks: seq<Token>, c: nat): (r: ScanResult)
    requires c < |toks|
    decreases |toks| - c
    ensures !r.NoType?
    ensures r.Fail? <==> forall k :: c <= k < |toks| ==> !toks[k].EndArr?
    ensures toks[c].EndArr? ==> r == TypeTags([])
  {
    if toks[c].EndArr? then TypeTags([])
    else if c + 1 >= |toks| then Fail
    else
      var rest := CollectArrayTags(toks, c + 1);
      if rest.TypeTags? then TypeTags((if toks[c + 1].Str? then [toks[c + 1].s] else []) + rest.tags)
      else rest
  }

  /** The tags of the `type` value under the cursor (Types/Entity.cs:284-298):
      an array gives its strings, a string gives itself, and anything else
      throws `JsonException`. */
  function TypeValue(toks: seq<Token>, v: nat): (r: ScanResult)
    requires v < |toks|
    ensures !r.NoType?
    ensures toks[v].Str? ==> r == TypeTags([toks[v].s])
    ensures !toks[v].Str? && !toks[v].StartArr? ==> r == Fail
  {
    match toks[v]
    case StartArr => CollectArrayTags(toks, v)
    case Str(s) => TypeTags([s])
    case _ => Fail
  }

  /** The whole scan on the cloned reader, which starts on an object's first
      token (Types/Entity.cs:227-298): the next token must be a property name;
      a first property named `type` is read directly, any other starts the
      search loop. */
  function ScanTypeTags(toks: seq<Token>, p: nat): (r: ScanResult)
    requires p < |toks| && toks[p].StartObj?
    ensures p + 1 >= |toks| || !toks[p + 1].Prop? ==> r == Fail
    ensures p + 2 < |toks| && toks[p + 1] == Prop("type") ==> r == TypeValue(toks, p + 2)
    ensures (forall k :: p < k < |toks| ==> !toks[k].Prop?) ==> r == Fail
  {
    if p + 1 >= |toks| || !toks[p + 1].Prop? then Fail
    else if toks[p + 1].name == "type" then
      if p + 2 >= |toks| then Fail else TypeValue(toks, p + 2)
    else FindType(toks, p + 1)
  }

  /** The tags the dispatch is asked about: the scanned ones, or `Object`'s
      default when no `type` was found (Types/Entity.cs:281-282). */
  function DocumentTags(s: ScanResult): (ts: seq<string>)
    requires !s.Fail?
    ensures s.NoType? ==> ts == [ObjectTypeTag]
    ensures s.TypeTags? ==> ts == s.tags
  {
    match s
    case NoType => [ObjectTypeTag]
    case TypeTags(ts) => ts
  }

  // ---------------------------------------------- the reader's end of input

  /** A loop that leaves with a value, or one that never leaves. */
  datatype Run<T> = Ends(value: T) | Spins

  /** The inner loop on the reader's final buffer. When the buffer is cut
      short, the `Read` past its last token throws and the `catch` ends the
      loop, as `SkipToProp` has it. When the buffer holds the whole document,
      that `Read` returns false and leaves the cursor on the last token: the
      loop tests the same token with the same flag round after round and
      never leaves (it only reads on from a property name when the flag is
      set, and rereading such a token keeps the flag set). */
  function SkipToPropOnReader(toks: seq<Token>, c: nat, inChild: bool, wholeDocument: bool): (r: Run<Skip>)
    requires c < |toks|
    decreases |toks| - c
    ensures !wholeDocument ==> r == Ends(SkipToProp(toks, c, inChild))
    ensures wholeDocument && SkipToProp(toks, c, inChild).AtProp? ==> r == Ends(SkipToProp(toks, c, inChild))
    ensures wholeDocument && SkipToProp(toks, c, inChild).OutOfTape? ==> r == Spins
  {
    if toks[c].Prop? && !inChild then Ends(AtProp(c))
    else if c + 1 >= |toks| then (if wholeDocument then Spins else Ends(OutOfTape))
    else
      var flag := if toks[c + 1].StartObj? then true else if toks[c + 1].EndObj? then false else inChild;
      SkipToPropOnReader(toks, c + 1, flag, wholeDocument)
  }

  /** The array loop on the reader's final buffer: an array without its end
      throws on a cut buffer, and on the whole document rereads the last
      token for ever. */
  function CollectArrayTagsOnReader(toks: seq<Token>, c: nat, wholeDocument: bool): (r: Run<ScanResult>)
    requires c < |toks|
    decreases |toks| - c
    ensures !wholeDocument ==> r == Ends(CollectArrayTags(toks, c))
    ensures wholeDocument && CollectArrayTags(toks, c).TypeTags? ==> r == Ends(CollectArrayTags(toks, c))
    ensures wholeDocument && CollectArrayTags(toks, c).Fail? ==> r == Spins
  {
    if toks[c].EndArr? then Ends(TypeTags([]))
    else if c + 1 >= |toks| then (if wholeDocument then Spins else Ends(Fail))
    else
      match CollectArrayTagsOnReader(toks, c + 1, wholeDocument)
      case Spins => Spins
      case Ends(rest) =>
        if rest.TypeTags? then Ends(TypeTags((if toks[c + 1].Str? then [toks[c + 1].s] else []) + rest.tags))
        else Ends(rest)
  }

  /** The `type` value on the reader's final buffer. */
  function TypeValueOnReader(toks: seq<Token>, v: nat, wholeDocument: bool): (r: Run<ScanResult>)
    requires v < |toks|
    ensures !wholeDocument ==> r == Ends(TypeValue(toks, v))
    ensures wholeDocument && TypeValue(toks, v).TypeTags? ==> r == Ends(TypeValue(toks, v))
    ensures r.Spins? ==> wholeDocument && toks[v].StartArr? && TypeValue(toks, v).Fail?
  {
    match toks[v]
    case StartArr => CollectArrayTagsOnReader(toks, v, wholeDocument)
    case Str(s) => Ends(TypeTags([s]))
    case _ => Ends(Fail)
  }

  /** The outer loop on the reader's final buffer. The unguarded `Read` after
      a property name that ends the buffer throws on a cut buffer; on the
      whole document it leaves the cursor on the name, which is no `type`
      value when the name is `type` and is otherwise tested again for ever. */
  function FindTypeOnReader(toks: seq<Token>, c: nat, wholeDocument: bool): (r: Run<ScanResult>)
    requires c < |toks|
    decreases |toks| - c
    ensures !wholeDocument ==> r == Ends(FindType(toks, c))
    ensures wholeDocument && FindType(toks, c).TypeTags? ==> r == Ends(FindType(toks, c))
    ensures wholeDocument && FindType(toks, c).NoType? ==> r == Spins
    ensures wholeDocument ==> r != Ends(NoType)
  {
    match SkipToPropOnReader(toks, c, false, wholeDocument)
    case Spins => Spins
    case Ends(OutOfTape) => Ends(NoType)
    case Ends(AtProp(q)) =>
      if q + 1 >= |toks| then
        (if !wholeDocument || toks[q].name == "type" then Ends(Fail) else Spins)
      else if toks[q].name == "type" then TypeValueOnReader(toks, q + 1, wholeDocument)
      else FindTypeOnReader(toks, q + 1, wholeDocument)
  }

  /** The whole scan on the reader's final buffer. On a cut buffer it is
      `ScanTypeTags`; on the whole document it agrees wherever tags are
      found, never ends with no type, and so never reaches the `Object`
      fallback: where `ScanTypeTags` finds no type, it spins. */
  function ScanTypeTagsOnReader(toks: seq<Token>, p: nat, wholeDocument: bool): (r: Run<ScanResult>)
    requires p < |toks| && toks[p].StartObj?
    ensures !wholeDocument ==> r == Ends(ScanTypeTags(toks, p))
    ensures wholeDocument && ScanTypeTags(toks, p).TypeTags? ==> r == Ends(ScanTypeTags(toks, p))
    ensures wholeDocument && ScanTypeTags(toks, p).NoType? ==> r == Spins
    ensures wholeDocument ==> r != Ends(NoType)
  {
    if p + 1 >= |toks| || !toks[p + 1].Prop? then Ends(Fail)
    else if toks[p + 1].name == "type" then
      if p + 2 >= |toks| then Ends(Fail) else TypeValueOnReader(toks, p + 2, wholeDocument)
    else FindTypeOnReader(toks, p + 1, wholeDocument)
  }

  // ---------------------------------------------------------------- dispatch

  /** The registry of kinds and their default tags, in the order the
      dictionary enumerates them. */
  type Registry = seq<(Kind, seq<string>)>

  /** `activityPubTypes.Intersect(objectTypes).Any()`. */
  predicate Intersects(a: seq<string>, b: seq<string>) {
    exists t :: t in a && t in b
  }

  /** The kind the dispatch loop settles on (Types/Entity.cs:300-309): the
      last registry entry whose tags meet the document's tags, or `Object`
      when none does. */
  function Resolve(registry: Registry, tags: seq<string>): (k: Kind)
    ensures (forall i :: 0 <= i < |registry| ==> !Intersects(registry[i].1, tags)) ==> k == ObjectKind
    ensures (exists i :: 0 <= i < |registry| && Intersects(registry[i].1, tags)) ==>
      exists i :: 0 <= i < |registry| && Intersects(registry[i].1, tags) && registry[i].0 == k
        && forall j :: i < j < |registry| ==> !Intersects(registry[j].1, tags)
  {
    if |registry| == 0 then ObjectKind
    else
      var last := registry[|registry| - 1];
      if Intersects(last.1, tags) then last.0
      else Resolve(registry[..|registry| - 1], tags)
  }

  /** The registry built from a list of kinds, each with its default tags. */
  function RegisterAll(kinds: seq<Kind>): (registry: Registry)
    ensures |registry| == |kinds|
    ensures forall i :: 0 <= i < |kinds| ==> registry[i] == (kinds[i], DefaultTypes(kinds[i]))
  {
    seq(|kinds|, i requires 0 <= i < |kinds| => (kinds[i], DefaultTypes(kinds[i])))
  }

  /** The converter's `Read` with the reader on `toks[p]`
      (Types/Entity.cs:220-310). A string is a link to it with no context;
      anything but an object, or a failed scan, is a `JsonException`; an
      object is decoded as the resolved kind from the original position. */
  function ReadEntity(registry: Registry, toks: seq<Token>, p: nat, decodeFields: FieldDecoder): (r: Result<Entity>)
    requires p < |toks|
    ensures toks[p].Str? ==>
      r.Success? && IsLink(r.value) && r.value.body.href == toks[p].s && r.value.contexts.None?
    ensures !toks[p].Str? && !toks[p].StartObj? ==> r == Failure(JsonException)
    ensures toks[p].StartObj? && ScanTypeTags(toks, p).Fail? ==> r == Failure(JsonException)
    ensures toks[p].StartObj? && !ScanTypeTags(toks, p).Fail? ==>
      r == decodeFields(Resolve(registry, DocumentTags(ScanTypeTags(toks, p))), toks, p)
  {
    match toks[p]
    case Str(s) => Success(InitContext(LinkFromString(s), None))
    case StartObj =>
      var scan := ScanTypeTags(toks, p);
      if scan.Fail? then Failure(JsonException)
      else decodeFields(Resolve(registry, DocumentTags(scan)), toks, p)
    case _ => Failure(JsonException)
  }

  /** The library's serialiser for a runtime kind under some options; it is
      not modelled. */
  type Serializer<!O> = (Entity, Kind, O) -> Json

  /** The converter's `Write` (Types/Entity.cs:312-314): the value is
      serialised as its own runtime kind under the global entity options;
      the options the caller passes in are not used. */
  function WriteEntity<O>(e: Entity, options: O, globalOptions: O, serialize: Serializer<O>): (j: Json)
    ensures j == serialize(e, e.kind, globalOptions)
  {
    serialize(e, e.kind, globalOptions)
  }
}
