/** `RestrictiveList<TValue>`: a `List<TValue>` whose `Add` and `Insert` check
    the item's exact runtime type against `ValidTypes`.

    The runtime type is the function `typeOf` (the C# `item.GetType()`), and
    `K` is the type of runtime types. `Add` and `Insert` are declared `new`,
    so they only hide the base methods: code that reaches the list through
    `List<TValue>` (`AddRange`, the `SetDefault` extension) uses the base
    methods and skips the check. Both paths are modelled. */
module RestrictiveLists {
  import opened Wrappers

  /** The items, and `ValidTypes` (absent when it was never initialised). */
  datatype RestrictiveList<T, K> = RestrictiveList(items: seq<T>, validTypes: Option<set<K>>)

  /** `ValidTypes?.Contains(item.GetType()) ?? true`. */
  predicate Accepts<T, K>(l: RestrictiveList<T, K>, typeOf: T -> K, item: T) {
    match l.validTypes
    case None => true
    case Some(valid) => typeOf(item) in valid
  }

  /** Checked `Add`: appends an accepted item; otherwise throws
      `ArgumentException` and the list is unchanged. */
  function Add<T, K>(l: RestrictiveList<T, K>, typeOf: T -> K, item: T): (r: Result<RestrictiveList<T, K>>)
    ensures r.Success? <==> (l.validTypes.None? || typeOf(item) in l.validTypes.value)
    ensures r.Success? ==> r.value.items == l.items + [item] && r.value.validTypes == l.validTypes
    ensures r.Failure? ==> r.error == ArgumentException
  {
    if !Accepts(l, typeOf, item) then Failure(ArgumentException)
    else Success(l.(items := l.items + [item]))
  }

  /** Base `List<T>.Insert`: throws `ArgumentOutOfRangeException` unless
      `0 <= index <= Count`; later elements shift right. */
  function InsertUnchecked<T, K>(l: RestrictiveList<T, K>, index: int, item: T): (r: Result<RestrictiveList<T, K>>)
    ensures r.Success? <==> 0 <= index <= |l.items|
    ensures r.Failure? ==> r.error == ArgumentOutOfRangeException
    ensures r.Success? ==> r.value.validTypes == l.validTypes && |r.value.items| == |l.items| + 1
    ensures r.Success? ==> r.value.items[index] == item
    ensures r.Success? ==> forall j :: 0 <= j < index ==> r.value.items[j] == l.items[j]
    ensures r.Success? ==> forall j :: index < j < |r.value.items| ==> r.value.items[j] == l.items[j - 1]
  {
    if 0 <= index <= |l.items| then Success(l.(items := l.items[..index] + [item] + l.items[index..]))
    else Failure(ArgumentOutOfRangeException)
  }

  /** Checked `Insert`: the type check comes first, then the base insert. */
  function Insert<T, K>(l: RestrictiveList<T, K>, typeOf: T -> K, index: int, item: T): (r: Result<RestrictiveList<T, K>>)
    ensures !Accepts(l, typeOf, item) ==> r == Failure(ArgumentException)
    ensures Accepts(l, typeOf, item) && !(0 <= index <= |l.items|) ==> r == Failure(ArgumentOutOfRangeException)
    ensures Accepts(l, typeOf, item) && 0 <= index <= |l.items| ==>
      r.Success? && |r.value.items| == |l.items| + 1 && r.value.items[index] == item
      && r.value.items[..index] == l.items[..index] && r.value.items[index + 1..] == l.items[index..]
  {
    if !Accepts(l, typeOf, item) then Failure(ArgumentException)
    else InsertUnchecked(l, index, item)
  }

  /** Base `List<T>.AddRange`: appends everything, checking nothing. */
  function AddRangeUnchecked<T, K>(l: RestrictiveList<T, K>, more: seq<T>): (r: RestrictiveList<T, K>)
    ensures r.validTypes == l.validTypes
    ensures |r.items| == |l.items| + |more|
    ensures r.items[..|l.items|] == l.items && r.items[|l.items|..] == more
  {
    l.(items := l.items + more)
  }

  /** With `ValidTypes` unset every item is accepted by both checked
      operations. */
  lemma UnsetAcceptsEverything<T, K>(l: RestrictiveList<T, K>, typeOf: T -> K, item: T)
    requires l.validTypes.None?
    ensures Add(l, typeOf, item).Success?
    ensures Insert(l, typeOf, 0, item).Success?
  {
  }

  /** `ToRestrictiveList`: a fresh list without `ValidTypes`, filled by the
      checked `Add` one element at a time; it keeps the elements and their
      order and restricts nothing. */
  method ToRestrictiveList<T, K>(values: seq<T>, typeOf: T -> K) returns (l: RestrictiveList<T, K>)
    ensures l.items == values
    ensures l.validTypes.None?
  {
    l := RestrictiveList([], None);
    var i := 0;
    while i < |values|
      invariant 0 <= i <= |values|
      invariant l.items == values[..i]
      invariant l.validTypes.None?
    {
      var added := Add(l, typeOf, values[i]);
      l := added.value;
      i := i + 1;
    }
    assert values[..i] == values;
  }
}
