/** Properties of the entity converter's type scan and dispatch: what it
    finds in well-formed documents, where it departs from what its comments
    intend, and when the dispatch is independent of the registry's order. */
module ScanProperties {
  import opened Wrappers
  import opened JsonTokens
  import opened Entities
  import opened Links
  import opened EntityConverter

  // ------------------------------------------------------------ vocabulary

  /** A token that the inner loop passes over without touching its flag or
      stopping. */
  predicate Plain(t: Token) {
    !t.Prop? && !t.StartObj? && !t.EndObj?
  }

  /** The single token of a scalar value. */
  function ScalarToken(j: Json): (t: Token)
    requires IsScalar(j)
    ensures Plain(t) && !t.EndArr? && Tokens(j) == [t]
  {
    match j
    case JStr(s) => Str(s)
    case JOther => Other
  }

  /** Members that the search passes over: flat values under names other
      than `type`. */
  predicate FlatMembers(m: seq<(string, Json)>) {
    forall i :: 0 <= i < |m| ==> IsFlat(m[i].1) && m[i].0 != "type"
  }

  /** What the `type` value means to a reader of the document: a string is
      one tag, an array of scalars is its strings in order, and an object or
      a non-string scalar is not a type. */
  function IntendedTags(t: Json): ScanResult
  {
    match t
    case JStr(s) => TypeTags([s])
    case JArr(items) => TypeTags(StringItems(items))
    case _ => Fail
  }

  // ------------------------------------------------------ token-level facts

  /** The items of an array of scalars are one token each. */
  lemma {:induction false} ScalarItemsTokens(items: seq<Json>)
    requires forall i :: 0 <= i < |items| ==> IsScalar(items[i])
    ensures |ItemsTokens(items)| == |items|
    ensures forall k :: 0 <= k < |items| ==> ItemsTokens(items)[k] == ScalarToken(items[k])
  {
    if |items| > 0 {
      ScalarItemsTokens(items[1..]);
      assert ItemsTokens(items) == [ScalarToken(items[0])] + ItemsTokens(items[1..]);
      forall k | 0 <= k < |items|
        ensures ItemsTokens(items)[k] == ScalarToken(items[k])
      {
        if k > 0 {
          assert ItemsTokens(items)[k] == ItemsTokens(items[1..])[k - 1];
          assert items[1..][k - 1] == items[k];
        }
      }
    }
  }

  /** A flat value holds no property name and no object delimiter. */
  lemma FlatTokensArePlain(v: Json)
    requires IsFlat(v)
    ensures forall k :: 0 <= k < |Tokens(v)| ==> Plain(Tokens(v)[k])
  {
    if v.JArr? {
      ScalarItemsTokens(v.items);
      var ts := Tokens(v);
      assert ts == [StartArr] + ItemsTokens(v.items) + [EndArr];
      forall k | 0 <= k < |ts|
        ensures Plain(ts[k])
      {
        if 0 < k < |ts| - 1 {
          assert ts[k] == ItemsTokens(v.items)[k - 1];
        }
      }
    }
  }

  /** The members of a concatenation are the members of each part in turn. */
  lemma {:induction false} MembersTokensAppend(a: seq<(string, Json)>, b: seq<(string, Json)>)
    ensures MembersTokens(a + b) == MembersTokens(a) + MembersTokens(b)
  {
    if |a| > 0 {
      assert (a + b)[0] == a[0];
      assert (a + b)[1..] == a[1..] + b;
      MembersTokensAppend(a[1..], b);
    } else {
      assert a + b == b;
    }
  }

  /** The tokens of members, with the first one spelled out. */
  lemma MembersOfFirst(n: string, v: Json, more: seq<(string, Json)>)
    ensures MembersTokens([(n, v)] + more) == [Prop(n)] + Tokens(v) + MembersTokens(more)
  {
    var m := [(n, v)] + more;
    assert m[0] == (n, v) && m[1..] == more;
  }

  /** An object's tokens, with its first member spelled out. */
  lemma ObjectTokens(n: string, v: Json, more: seq<(string, Json)>, after: seq<Token>)
    ensures Tokens(JObj([(n, v)] + more)) + after
      == [StartObj, Prop(n)] + Tokens(v) + (MembersTokens(more) + [EndObj] + after)
  {
    MembersOfFirst(n, v, more);
  }

  /** The middle part of a concatenation, as a slice. */
  lemma MiddleSlice(a: seq<Token>, b: seq<Token>, rest: seq<Token>)
    ensures (a + b + rest)[|a|..|a| + |b|] == b
  {
  }

  /** Regrouping a concatenation of eight parts. */
  lemma Regroup(a: seq<Token>, b: seq<Token>, c: seq<Token>, d: seq<Token>,
                e: seq<Token>, f: seq<Token>, g: seq<Token>, h: seq<Token>)
    ensures a + b + (c + (d + e + f) + g + h) == a + (b + c) + (d + e + (f + g + h))
  {
  }

  /** Dropping the first member keeps the members flat. */
  lemma FlatMembersTail(m: seq<(string, Json)>)
    requires FlatMembers(m) && |m| > 0
    ensures IsFlat(m[0].1) && m[0].0 != "type" && FlatMembers(m[1..])
  {
    forall i | 0 <= i < |m[1..]|
      ensures IsFlat(m[1..][i].1) && m[1..][i].0 != "type"
    {
      assert m[1..][i] == m[i + 1];
    }
  }

  // ---------------------------------------------------- the search loop

  /** A token the search steps over without stopping: a plain token, or a
      property name other than `type`. */
  predicate Skippable(t: Token) {
    Plain(t) || (t.Prop? && t.name != "type")
  }

  predicate AllSkippable(ts: seq<Token>) {
    forall k :: 0 <= k < |ts| ==> Skippable(ts[k])
  }

  /** The members of a flat object, after its first member's value, are all
      skippable. */
  lemma {:induction false} FlatMembersSkippable(m: seq<(string, Json)>)
    requires FlatMembers(m)
    ensures AllSkippable(MembersTokens(m))
  {
    if |m| > 0 {
      var ts := MembersTokens(m);
      var head := Tokens(m[0].1);
      var tail := MembersTokens(m[1..]);
      assert ts == [Prop(m[0].0)] + head + tail;
      FlatTokensArePlain(m[0].1);
      FlatMembersTail(m);
      FlatMembersSkippable(m[1..]);
      forall k | 0 <= k < |ts|
        ensures Skippable(ts[k])
      {
        if 0 < k <= |head| {
          assert ts[k] == head[k - 1];
        } else if k > |head| {
          assert ts[k] == tail[k - 1 - |head|];
        }
      }
    }
  }

  /** The search passes over a run of skippable tokens: started anywhere in
      the run, it behaves as if started just after it, provided the run is
      not followed by a start of object (which the inner loop would flag). */
  lemma {:induction false} FindTypeSkipsRun(toks: seq<Token>, c: nat, q: nat)
    requires c <= q < |toks| && !toks[q].StartObj?
    requires forall k :: c <= k < q ==> Skippable(toks[k])
    ensures FindType(toks, c) == FindType(toks, q)
    decreases q - c
  {
    if c < q {
      if toks[c].Prop? {
        assert SkipToProp(toks, c, false) == AtProp(c);
      } else {
        assert !toks[c + 1].StartObj?;
        assert SkipToProp(toks, c, false) == SkipToProp(toks, c + 1, false);
      }
      assert FindType(toks, c) == FindType(toks, c + 1);
      FindTypeSkipsRun(toks, c + 1, q);
    }
  }

  /** A flat value followed by flat members is a skippable run. */
  lemma FlatRunSkippable(v0: Json, m: seq<(string, Json)>)
    requires IsFlat(v0) && FlatMembers(m)
    ensures AllSkippable(Tokens(v0) + MembersTokens(m))
  {
    var run := Tokens(v0) + MembersTokens(m);
    FlatTokensArePlain(v0);
    FlatMembersSkippable(m);
    forall k | 0 <= k < |run|
      ensures Skippable(run[k])
    {
      if k >= |Tokens(v0)| {
        assert run[k] == MembersTokens(m)[k - |Tokens(v0)|];
      }
    }
  }

  /** A skippable run sitting in the input. */
  lemma SkippableSlice(toks: seq<Token>, c: nat, q: nat, run: seq<Token>)
    requires c <= q <= |toks| && toks[c..q] == run && AllSkippable(run)
    ensures forall k :: c <= k < q ==> Skippable(toks[k])
  {
    forall k | c <= k < q
      ensures Skippable(toks[k])
    {
      assert toks[k] == run[k - c];
    }
  }

  /** The search, started on the value of a first member that is not
      `type`, passes over the flat members that follow it. */
  lemma FindTypeSkipsFlatMembers(toks: seq<Token>, v0: Json, m: seq<(string, Json)>, q: nat)
    requires IsFlat(v0) && FlatMembers(m)
    requires 2 <= q < |toks| && toks[2..q] == Tokens(v0) + MembersTokens(m)
    requires !toks[q].StartObj?
    ensures FindType(toks, 2) == FindType(toks, q)
  {
    FlatRunSkippable(v0, m);
    SkippableSlice(toks, 2, q, Tokens(v0) + MembersTokens(m));
    FindTypeSkipsRun(toks, 2, q);
  }

  // -------------------------------------------------------- the type value

  /** An array of scalars yields its strings in order. */
  lemma {:induction false} CollectScalarItems(toks: seq<Token>, c: nat, items: seq<Json>)
    requires forall i :: 0 <= i < |items| ==> IsScalar(items[i])
    requires c + 1 + |items| < |toks|
    requires !toks[c].EndArr?
    requires forall k :: 0 <= k < |items| ==> toks[c + 1 + k] == ScalarToken(items[k])
    requires toks[c + 1 + |items|] == EndArr
    ensures CollectArrayTags(toks, c) == TypeTags(StringItems(items))
    decreases |items|
  {
    if |items| == 0 {
      assert CollectArrayTags(toks, c + 1) == TypeTags([]);
    } else {
      assert toks[c + 1] == ScalarToken(items[0]);
      forall k | 0 <= k < |items[1..]|
        ensures toks[c + 1 + 1 + k] == ScalarToken(items[1..][k])
      {
        assert toks[c + 1 + (k + 1)] == ScalarToken(items[k + 1]);
      }
      CollectScalarItems(toks, c + 1, items[1..]);
    }
  }

  /** The value under the cursor yields the tags it means, when it is flat
      or an object. */
  lemma TypeValueOfJson(toks: seq<Token>, v: nat, t: Json)
    requires IsFlat(t) || t.JObj?
    requires v + |Tokens(t)| <= |toks| && toks[v..v + |Tokens(t)|] == Tokens(t)
    ensures TypeValue(toks, v) == IntendedTags(t)
  {
    var ts := Tokens(t);
    assert toks[v] == ts[0];
    if t.JArr? {
      ScalarItemsTokens(t.items);
      assert ts == [StartArr] + ItemsTokens(t.items) + [EndArr];
      forall k | 0 <= k < |t.items|
        ensures toks[v + 1 + k] == ScalarToken(t.items[k])
      {
        assert toks[v + 1 + k] == ts[1 + k] == ItemsTokens(t.items)[k];
      }
      assert toks[v + 1 + |t.items|] == ts[|ts| - 1] == EndArr;
      CollectScalarItems(toks, v, t.items);
    }
  }

  // ------------------------------------------------- the scan on documents

  /** A first member named `type` is read directly: a string gives one tag,
      an array of scalars its strings in order, an object or another scalar
      a failure (Types/Entity.cs:243, 273-298). */
  lemma FirstPropertyType(t: Json, more: seq<(string, Json)>, after: seq<Token>)
    requires IsFlat(t) || t.JObj?
    ensures ScanTypeTags(Tokens(JObj([("type", t)] + more)) + after, 0) == IntendedTags(t)
  {
    var toks := Tokens(JObj([("type", t)] + more)) + after;
    ObjectTokens("type", t, more, after);
    MiddleSlice([StartObj, Prop("type")], Tokens(t), MembersTokens(more) + [EndObj] + after);
    TypeValueOfJson(toks, 2, t);
  }

  /** The search, started on a first member that is not `type`, reaches a
      `type` property that follows flat members and reads its value. */
  lemma ScanReachesType(toks: seq<Token>, n0: string, v0: Json, m: seq<(string, Json)>, q: nat)
    requires n0 != "type" && IsFlat(v0) && FlatMembers(m)
    requires 2 <= q && q + 1 < |toks| && toks[0] == StartObj && toks[1] == Prop(n0)
    requires toks[2..q] == Tokens(v0) + MembersTokens(m) && toks[q] == Prop("type")
    ensures ScanTypeTags(toks, 0) == TypeValue(toks, q + 1)
  {
    FindTypeSkipsFlatMembers(toks, v0, m, q);
    assert SkipToProp(toks, 1, false) == AtProp(1);
    assert SkipToProp(toks, q, false) == AtProp(q);
  }

  /** The tokens of an object whose `type` member follows a first member
      and some more members, cut where the search needs them. */
  lemma TypedObjectTokens(n0: string, v0: Json, m: seq<(string, Json)>, t: Json,
                          more: seq<(string, Json)>, after: seq<Token>)
    ensures Tokens(JObj([(n0, v0)] + m + [("type", t)] + more)) + after
      == [StartObj, Prop(n0)] + (Tokens(v0) + MembersTokens(m))
         + ([Prop("type")] + Tokens(t) + (MembersTokens(more) + [EndObj] + after))
  {
    var typed := [("type", t)] + more;
    var b, c, e, f := Tokens(v0), MembersTokens(m), Tokens(t), MembersTokens(more);
    calc == {
      Tokens(JObj([(n0, v0)] + m + [("type", t)] + more)) + after;
      { assert [(n0, v0)] + m + [("type", t)] + more == [(n0, v0)] + (m + typed); }
      Tokens(JObj([(n0, v0)] + (m + typed))) + after;
      { ObjectTokens(n0, v0, m + typed, after); }
      [StartObj, Prop(n0)] + b + (MembersTokens(m + typed) + [EndObj] + after);
      { MembersTokensAppend(m, typed); MembersOfFirst("type", t, more); }
      [StartObj, Prop(n0)] + b + (c + ([Prop("type")] + e + f) + [EndObj] + after);
      { Regroup([StartObj, Prop(n0)], b, c, [Prop("type")], e, f, [EndObj], after); }
      [StartObj, Prop(n0)] + (b + c) + ([Prop("type")] + e + (f + [EndObj] + after));
    }
  }

  /** Where the parts of an object laid out as a first member, a run of
      tokens, and a `type` member sit. */
  lemma LayoutFacts(toks: seq<Token>, n0: string, body: seq<Token>, e: seq<Token>, rest: seq<Token>)
    requires toks == [StartObj, Prop(n0)] + body + ([Prop("type")] + e + rest)
    ensures 2 + |body| + 1 + |e| <= |toks|
    ensures toks[0] == StartObj && toks[1] == Prop(n0)
    ensures toks[2..2 + |body|] == body && toks[2 + |body|] == Prop("type")
    ensures toks[2 + |body| + 1..2 + |body| + 1 + |e|] == e
  {
    var q := 2 + |body|;
    assert toks[q..] == [Prop("type")] + e + rest;
    assert toks[q + 1..] == e + rest;
  }

  /** The positions of the first member, the flat members and the `type`
      member in such an object's tokens. */
  lemma TypedObjectLayout(n0: string, v0: Json, m: seq<(string, Json)>, t: Json,
                          more: seq<(string, Json)>, after: seq<Token>)
    ensures var toks := Tokens(JObj([(n0, v0)] + m + [("type", t)] + more)) + after;
      var q := 2 + |Tokens(v0) + MembersTokens(m)|;
      && q + 1 + |Tokens(t)| <= |toks|
      && toks[0] == StartObj && toks[1] == Prop(n0)
      && toks[2..q] == Tokens(v0) + MembersTokens(m) && toks[q] == Prop("type")
      && toks[q + 1..q + 1 + |Tokens(t)|] == Tokens(t)
  {
    var toks := Tokens(JObj([(n0, v0)] + m + [("type", t)] + more)) + after;
    TypedObjectTokens(n0, v0, m, t, more, after);
    LayoutFacts(toks, n0, Tokens(v0) + MembersTokens(m), Tokens(t), MembersTokens(more) + [EndObj] + after);
  }

  /** The scan of tokens laid out as a first member, flat members, and a
      `type` member whose value is `t`. */
  lemma ScanOfTypedLayout(toks: seq<Token>, n0: string, v0: Json, m: seq<(string, Json)>, t: Json, q: nat)
    requires n0 != "type" && IsFlat(v0) && FlatMembers(m)
    requires IsFlat(t) || t.JObj?
    requires q + 1 + |Tokens(t)| <= |toks| && 2 <= q
    requires toks[0] == StartObj && toks[1] == Prop(n0)
    requires toks[2..q] == Tokens(v0) + MembersTokens(m) && toks[q] == Prop("type")
    requires toks[q + 1..q + 1 + |Tokens(t)|] == Tokens(t)
    ensures ScanTypeTags(toks, 0) == IntendedTags(t)
  {
    ScanReachesType(toks, n0, v0, m, q);
    TypeValueOfJson(toks, q + 1, t);
  }

  /** A top-level `type` that follows only flat members is found, whatever
      follows it (Types/Entity.cs:246-270). */
  lemma TypeAfterFlatMembers(n0: string, v0: Json, m: seq<(string, Json)>, t: Json,
                             more: seq<(string, Json)>, after: seq<Token>)
    requires n0 != "type" && IsFlat(v0) && FlatMembers(m)
    requires IsFlat(t) || t.JObj?
    ensures ScanTypeTags(Tokens(JObj([(n0, v0)] + m + [("type", t)] + more)) + after, 0) == IntendedTags(t)
  {
    TypedObjectLayout(n0, v0, m, t, more, after);
    ScanOfTypedLayout(Tokens(JObj([(n0, v0)] + m + [("type", t)] + more)) + after, n0, v0, m, t,
                      2 + |Tokens(v0) + MembersTokens(m)|);
  }

  /** A document of flat members none of which is `type`, with nothing after
      it, is scanned to the end and yields no type
      (Types/Entity.cs:248-253, 264-266, 281-282). */
  lemma FlatObjectWithoutType(n0: string, v0: Json, m: seq<(string, Json)>)
    requires n0 != "type" && IsFlat(v0) && FlatMembers(m)
    ensures ScanTypeTags(Tokens(JObj([(n0, v0)] + m)), 0) == NoType
  {
    var toks := Tokens(JObj([(n0, v0)] + m));
    ObjectTokens(n0, v0, m, []);
    assert toks + [] == toks;
    var body := Tokens(v0) + MembersTokens(m);
    assert toks == [StartObj, Prop(n0)] + body + [EndObj];
    var q := 2 + |body|;
    MiddleSlice([StartObj, Prop(n0)], body, [EndObj]);
    assert toks[q] == EndObj && q + 1 == |toks|;
    FindTypeSkipsFlatMembers(toks, v0, m, q);
    assert SkipToProp(toks, 1, false) == AtProp(1);
    assert SkipToProp(toks, q, false) == OutOfTape;
  }

  /** An object document without a `type` is decoded as whatever the
      registry gives for `Object`'s tag. */
  lemma UntypedObjectDecodesAsObject(registry: Registry, n0: string, v0: Json, m: seq<(string, Json)>, decodeFields: FieldDecoder)
    requires n0 != "type" && IsFlat(v0) && FlatMembers(m)
    ensures ReadEntity(registry, Tokens(JObj([(n0, v0)] + m)), 0, decodeFields)
      == decodeFields(Resolve(registry, [ObjectTypeTag]), Tokens(JObj([(n0, v0)] + m)), 0)
  {
    FlatObjectWithoutType(n0, v0, m);
  }

  /** Read from a buffer that holds the whole document, the same untyped
      document never reaches that fallback: the reader's last `Read` returns
      false instead of throwing, the inner loop's only way out at the end of
      input is the `catch` (Types/Entity.cs:247-253), and the scan spins.
      Only a buffer cut short ends with no type. `{"a":1}` is an instance. */
  lemma UntypedDocumentSpins(n0: string, v0: Json, m: seq<(string, Json)>)
    requires n0 != "type" && IsFlat(v0) && FlatMembers(m)
    ensures ScanTypeTagsOnReader(Tokens(JObj([(n0, v0)] + m)), 0, true) == Spins
    ensures ScanTypeTagsOnReader(Tokens(JObj([(n0, v0)] + m)), 0, false) == Ends(NoType)
    ensures ScanTypeTagsOnReader([StartObj, Prop("a"), Other, EndObj], 0, true) == Spins
  {
    FlatObjectWithoutType(n0, v0, m);
    var example := [StartObj, Prop("a"), Other, EndObj];
    assert SkipToProp(example, 1, false) == AtProp(1);
    assert SkipToProp(example, 2, false) == OutOfTape;
  }

  // ----------------------------------------- where the scan departs from intent

  /** `{}` has no first property and fails, as does a token that is neither
      a string nor a start of object (Types/Entity.cs:230-238). */
  lemma NonObjectsFail(registry: Registry, decodeFields: FieldDecoder)
    ensures ReadEntity(registry, Tokens(JObj([])), 0, decodeFields) == Failure(JsonException)
    ensures ReadEntity(registry, Tokens(JArr([])), 0, decodeFields) == Failure(JsonException)
    ensures ReadEntity(registry, Tokens(JOther), 0, decodeFields) == Failure(JsonException)
  {
    assert Tokens(JObj([])) == [StartObj, EndObj];
  }

  /** Input that ends right after a property name fails at the unguarded
      `Read`s (Types/Entity.cs:270, 274). */
  lemma TruncatedInputFails()
    ensures ScanTypeTags([StartObj, Prop("type")], 0) == Fail
    ensures ScanTypeTags([StartObj, Prop("name")], 0) == Fail
    ensures ScanTypeTags([StartObj, Prop("type"), StartArr, Str("Note")], 0) == Fail
  {
    assert SkipToProp([StartObj, Prop("name")], 1, false) == AtProp(1);
    var arr := [StartObj, Prop("type"), StartArr, Str("Note")];
    assert CollectArrayTags(arr, 3) == Fail;
  }

  /** `{"attachment":{"type":"Nested"},"type":"Link"}`: the value of the
      first member is stepped onto without setting the flag, so the `type`
      inside it is taken (Types/Entity.cs:269-270). */
  lemma NestedTypeIsMatched()
    ensures ScanTypeTags([StartObj, Prop("attachment"), StartObj, Prop("type"), Str("Nested"), EndObj,
                          Prop("type"), Str("Link"), EndObj], 0)
      == TypeTags(["Nested"])
  {
    var toks := [StartObj, Prop("attachment"), StartObj, Prop("type"), Str("Nested"), EndObj,
                 Prop("type"), Str("Link"), EndObj];
    assert SkipToProp(toks, 1, false) == AtProp(1);
    assert SkipToProp(toks, 3, false) == AtProp(3);
    assert SkipToProp(toks, 2, false) == AtProp(3);
    assert FindType(toks, 2) == TypeTags(["Nested"]);
  }

  /** `{"tag":[{"type":"Mention"}],"type":"Note"}`: an object met inside the
      inner loop is flagged and passed over, so the top-level `type` is
      found (Types/Entity.cs:255-260). */
  lemma ArrayElementTypeIsSkipped()
    ensures ScanTypeTags([StartObj, Prop("tag"), StartArr, StartObj, Prop("type"), Str("Mention"), EndObj, EndArr,
                          Prop("type"), Str("Note"), EndObj], 0)
      == TypeTags(["Note"])
  {
    var toks := [StartObj, Prop("tag"), StartArr, StartObj, Prop("type"), Str("Mention"), EndObj, EndArr,
                 Prop("type"), Str("Note"), EndObj];
    assert SkipToProp(toks, 1, false) == AtProp(1);
    assert SkipToProp(toks, 8, false) == AtProp(8);
    assert SkipToProp(toks, 7, false) == AtProp(8);
    assert SkipToProp(toks, 6, false) == AtProp(8);
    assert SkipToProp(toks, 5, true) == AtProp(8);
    assert SkipToProp(toks, 4, true) == AtProp(8);
    assert SkipToProp(toks, 3, true) == AtProp(8);
    assert SkipToProp(toks, 2, false) == AtProp(8);
    assert FindType(toks, 2) == TypeTags(["Note"]);
  }

  /** Reading the entity nested in `{"object":{"content":"hi"},"type":"Create"}`,
      with the reader on the inner object: its scan runs past its own end and
      takes the enclosing activity's `type` (Types/Entity.cs:246-261). */
  lemma ScanRunsPastOwnEnd(registry: Registry, decodeFields: FieldDecoder)
    ensures ScanTypeTags([StartObj, Prop("object"), StartObj, Prop("content"), Str("hi"), EndObj,
                          Prop("type"), Str("Create"), EndObj], 2)
      == TypeTags(["Create"])
    ensures ReadEntity(registry, [StartObj, Prop("object"), StartObj, Prop("content"), Str("hi"), EndObj,
                                  Prop("type"), Str("Create"), EndObj], 2, decodeFields)
      == decodeFields(Resolve(registry, ["Create"]), [StartObj, Prop("object"), StartObj, Prop("content"),
                                                      Str("hi"), EndObj, Prop("type"), Str("Create"), EndObj], 2)
  {
    var toks := [StartObj, Prop("object"), StartObj, Prop("content"), Str("hi"), EndObj,
                 Prop("type"), Str("Create"), EndObj];
    assert SkipToProp(toks, 3, false) == AtProp(3);
    assert SkipToProp(toks, 6, false) == AtProp(6);
    assert SkipToProp(toks, 5, false) == AtProp(6);
    assert SkipToProp(toks, 4, false) == AtProp(6);
    assert FindType(toks, 4) == TypeTags(["Create"]);
    assert FindType(toks, 3) == TypeTags(["Create"]);
  }

  // ----------------------------------------------------------- dispatch

  /** No tag belongs to two entries. */
  predicate PairwiseDisjoint(registry: Registry) {
    forall i, j, t :: 0 <= i < |registry| && 0 <= j < |registry| && i != j && t in registry[i].1 ==>
      t !in registry[j].1
  }

  /** With pairwise disjoint tag lists, a single-tag document resolves to
      the one entry holding its tag, wherever that entry stands, so the
      registry's order does not matter (Types/Entity.cs:300-309). */
  lemma DisjointDispatch(registry: Registry, t: string, i: nat)
    requires PairwiseDisjoint(registry)
    requires i < |registry| && t in registry[i].1
    ensures Resolve(registry, [t]) == registry[i].0
  {
    assert Intersects(registry[i].1, [t]) by {
      assert t in registry[i].1 && t in [t];
    }
    var k := Resolve(registry, [t]);
    var j :| 0 <= j < |registry| && Intersects(registry[j].1, [t]) && registry[j].0 == k
      && forall j' :: j < j' < |registry| ==> !Intersects(registry[j'].1, [t]);
    var s :| s in registry[j].1 && s in [t];
    assert s == t;
    assert i == j;
  }

  /** A registry built from distinct kinds dispatches each kind's own tags to
      that kind, in any order. */
  lemma RegisteredKindsDispatchToThemselves(kinds: seq<Kind>, k: Kind)
    requires forall i, j :: 0 <= i < j < |kinds| ==> kinds[i] != kinds[j]
    requires k in kinds
    ensures Resolve(RegisterAll(kinds), DefaultTypes(k)) == k
  {
    var registry := RegisterAll(kinds);
    forall i, j, t | 0 <= i < |registry| && 0 <= j < |registry| && i != j && t in registry[i].1
      ensures t !in registry[j].1
    {
      DefaultTypesDistinct(kinds[i], kinds[j], t);
    }
    var i :| 0 <= i < |kinds| && kinds[i] == k;
    DefaultTypesDistinct(k, k, "");
    assert DefaultTypes(k) == [DefaultTypes(k)[0]];
    DisjointDispatch(registry, DefaultTypes(k)[0], i);
  }

  /** A document tagged both `Link` and `Activity` goes to whichever entry
      the registry lists last. */
  lemma MultiTagDispatchDependsOnOrder()
    ensures Resolve(RegisterAll([LinkKind, ActivityKind]), ["Link", "Activity"]) == ActivityKind
    ensures Resolve(RegisterAll([ActivityKind, LinkKind]), ["Link", "Activity"]) == LinkKind
  {
    var r1 := RegisterAll([LinkKind, ActivityKind]);
    assert r1[1] == (ActivityKind, ["Activity"]);
    assert Intersects(r1[1].1, ["Link", "Activity"]) by {
      assert "Activity" in r1[1].1;
    }
    var r2 := RegisterAll([ActivityKind, LinkKind]);
    assert r2[1] == (LinkKind, ["Link"]);
    assert Intersects(r2[1].1, ["Link", "Activity"]) by {
      assert "Link" in r2[1].1;
    }
  }

  /** Writing ignores the options the caller passes in
      (Types/Entity.cs:312-314). */
  lemma WriteIgnoresCallerOptions<O>(e: Entity, o1: O, o2: O, globalOptions: O, serialize: Serializer<O>)
    ensures WriteEntity(e, o1, globalOptions, serialize) == WriteEntity(e, o2, globalOptions, serialize)
    ensures WriteEntity(e, o1, globalOptions, serialize) == serialize(e, e.kind, globalOptions)
  {
  }
}
