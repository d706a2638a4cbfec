/** `SingleOrArrayConverter<T>`: a plural property accepts a bare value or an
    array on read, and writes a one-element list as the bare element.

    The element converter is a pair of parameters: `dec` reads one value, and
    `enc` writes one element (it stands for serialising the element through
    its own runtime type). The runtime shape of the `IEnumerable<T>` matters
    on write, so a sequence remembers whether it is a `List<T>` or some other
    enumerable such as the array the single-value read returns. */
module SingleOrArray {
  import opened Wrappers
  import opened JsonTokens

  /** An `IEnumerable<T>` and its runtime shape. */
  datatype Enumerable<T> = ListOf(elems: seq<T>) | OtherEnumerable(elems: seq<T>)

  /** Element-wise decode of an array's items; the first failing item fails
      the whole list. */
  function ReadItems<T>(items: seq<Json>, dec: Json -> Result<T>): (r: Result<seq<T>>)
    ensures r.Success? <==> forall i :: 0 <= i < |items| ==> dec(items[i]).Success?
    ensures r.Success? ==> |r.value| == |items|
    ensures r.Success? ==> forall i :: 0 <= i < |items| ==> dec(items[i]) == Success(r.value[i])
  {
    if |items| == 0 then Success([])
    else
      match dec(items[0])
      case Failure(e) => Failure(e)
      case Success(x) =>
        match ReadItems(items[1..], dec)
        case Failure(e) => Failure(e)
        case Success(xs) => Success([x] + xs)
  }

  /** `Read`: an array token becomes a `List<T>` of its decoded items; any
      other token is decoded as one element and wrapped in a one-element
      array. */
  function Read<T>(j: Json, dec: Json -> Result<T>): (r: Result<Enumerable<T>>)
    ensures j.JArr? ==> (r.Success? <==> forall i :: 0 <= i < |j.items| ==> dec(j.items[i]).Success?)
    ensures j.JArr? && r.Success? ==>
      r.value.ListOf? && |r.value.elems| == |j.items|
      && forall i :: 0 <= i < |j.items| ==> dec(j.items[i]) == Success(r.value.elems[i])
    ensures !j.JArr? ==> (r.Success? <==> dec(j).Success?)
    ensures !j.JArr? && r.Success? ==> r.value == OtherEnumerable([dec(j).value])
  {
    if j.JArr? then
      match ReadItems(j.items, dec)
      case Failure(e) => Failure(e)
      case Success(xs) => Success(ListOf(xs))
    else
      match dec(j)
      case Failure(e) => Failure(e)
      case Success(x) => Success(OtherEnumerable([x]))
  }

  /** `Write`: a one-element `List<T>` writes as that element; any other
      `List<T>` (the empty one included) writes as an array; a sequence that
      is not a `List<T>` throws `NotImplementedException`. */
  function Write<T>(v: Enumerable<T>, enc: T -> Json): (r: Result<Json>)
    ensures v.OtherEnumerable? ==> r == Failure(NotImplementedException)
    ensures v.ListOf? && |v.elems| == 1 ==> r == Success(enc(v.elems[0]))
    ensures v.ListOf? && |v.elems| != 1 ==>
      r.Success? && r.value.JArr? && |r.value.items| == |v.elems|
      && forall i :: 0 <= i < |v.elems| ==> r.value.items[i] == enc(v.elems[i])
  {
    match v
    case OtherEnumerable(_) => Failure(NotImplementedException)
    case ListOf(xs) =>
      if |xs| == 1 then Success(enc(xs[0]))
      else Success(JArr(seq(|xs|, i requires 0 <= i < |xs| => enc(xs[i]))))
  }

  /** An empty list is written as `[]`, not left out. */
  lemma EmptyListWritesEmptyArray<T>(enc: T -> Json)
    ensures Write(ListOf([]), enc) == Success(JArr([]))
  {
  }

  /** Reading the written items back element by element recovers them. */
  lemma {:induction false} ReadItemsOfEncoded<T>(xs: seq<T>, enc: T -> Json, dec: Json -> Result<T>)
    requires forall i :: 0 <= i < |xs| ==> dec(enc(xs[i])) == Success(xs[i])
    ensures ReadItems(seq(|xs|, i requires 0 <= i < |xs| => enc(xs[i])), dec) == Success(xs)
  {
    var items := seq(|xs|, i requires 0 <= i < |xs| => enc(xs[i]));
    if |xs| > 0 {
      var tail := seq(|xs| - 1, i requires 0 <= i < |xs| - 1 => enc(xs[1..][i]));
      assert items[1..] == tail;
      ReadItemsOfEncoded(xs[1..], enc, dec);
      assert [xs[0]] + xs[1..] == xs;
    }
  }

  /** Round trip: when every element reads back from its own encoding and no
      element encodes as an array, reading what `Write` produced for a
      `List<T>` yields the same elements in the same order. */
  lemma RoundTrip<T>(xs: seq<T>, enc: T -> Json, dec: Json -> Result<T>)
    requires forall i :: 0 <= i < |xs| ==> dec(enc(xs[i])) == Success(xs[i]) && !enc(xs[i]).JArr?
    ensures Write(ListOf(xs), enc).Success?
    ensures Read(Write(ListOf(xs), enc).value, dec).Success?
    ensures Read(Write(ListOf(xs), enc).value, dec).value.elems == xs
  {
    if |xs| != 1 {
      ReadItemsOfEncoded(xs, enc, dec);
    }
  }

  /** A bare value reads as a one-element array, which `Write` cannot handle
      until it has been copied into a `List<T>`. */
  lemma SingleReadIsNotWritable<T>(j: Json, enc: T -> Json, dec: Json -> Result<T>)
    requires !j.JArr? && dec(j).Success?
    ensures Read(j, dec).Success?
    ensures Write(Read(j, dec).value, enc) == Failure(NotImplementedException)
    ensures Write(ListOf(Read(j, dec).value.elems), enc).Success?
  {
  }
}
