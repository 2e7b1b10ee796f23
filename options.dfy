/** Flattening of the links API response: `data` is a list of items, each an
    object `{<resolution>: option}`; both `Extractor.fetchEpisodeOptions` and
    `Serie.fetchOptions` copy every option into one list, tagging it with the
    key it was stored under as its `resolution`. */
module Options {
  import opened Wrappers

  /** An option object as served: its audio track and its kwik page URL. */
  datatype Link = Link(audio: string, kwik: string)

  /** One element of `data`: the object's own keys in enumeration order
      (resolutions are integer-like keys), each with its option object. */
  type Item = seq<(nat, Link)>

  /** A flattened option: the served object with `resolution` set to its key. */
  datatype Variant = Variant(audio: string, resolution: nat, kwik: string)

  const NoEpisodeOptions := "No episode options found"
  /** The message of the `TypeError` V8 raises when `for…of` meets an
      absent `JSON.parse(buffer).data`. */
  const DataNotIterable := "JSON.parse(...).data is not iterable"

  function Tagged(entry: (nat, Link)): Variant
  {
    Variant(entry.1.audio, entry.0, entry.1.kwik)
  }

  /** The options of one item, in key order. */
  function ItemOptions(item: Item): seq<Variant>
  {
    seq(|item|, j requires 0 <= j < |item| => Tagged(item[j]))
  }

  /** The options of all items, in item order then key order. */
  function Flatten(items: seq<Item>): seq<Variant>
  {
    if |items| == 0 then [] else Flatten(items[..|items| - 1]) + ItemOptions(items[|items| - 1])
  }

  /** Number of keys over all items. */
  function KeyCount(items: seq<Item>): nat
  {
    if |items| == 0 then 0 else KeyCount(items[..|items| - 1]) + |items[|items| - 1]|
  }

  /** Key `j` of item `i` sits at position `KeyCount(items[..i]) + j` of the
      flattened list, carrying that key as its resolution. */
  predicate PlacedAt(items: seq<Item>, i: nat, j: nat)
    requires i < |items| && j < |items[i]|
  {
    var k := KeyCount(items[..i]) + j;
    k < |Flatten(items)| && Flatten(items)[k] == Variant(items[i][j].1.audio, items[i][j].0, items[i][j].1.kwik)
  }

  /** There is one flattened option per key, in item order then key order. */
  lemma {:induction false} FlattenLayout(items: seq<Item>)
    ensures |Flatten(items)| == KeyCount(items)
    ensures forall i: nat, j: nat :: i < |items| && j < |items[i]| ==> PlacedAt(items, i, j)
  {
    if |items| > 0 {
      var n := |items| - 1;
      var init := items[..n];
      FlattenLayout(init);
      forall i: nat, j: nat | i < |items| && j < |items[i]|
        ensures PlacedAt(items, i, j)
      {
        if i < n {
          assert init[i] == items[i];
          assert init[..i] == items[..i];
          assert PlacedAt(init, i, j);
          KeyCountPrefix(init, i);
        } else {
          assert items[..i] == init;
        }
      }
    }
  }

  lemma {:induction false} KeyCountPrefix(items: seq<Item>, i: nat)
    requires i < |items|
    ensures KeyCount(items[..i]) + |items[i]| <= KeyCount(items)
  {
    var n := |items| - 1;
    if i < n {
      assert items[..n][..i] == items[..i];
      assert items[..n][i] == items[i];
      KeyCountPrefix(items[..n], i);
    } else {
      assert items[..i] == items[..n];
    }
  }

  /** The nested `for`/`push` loops that build the flat list. */
  method FlattenOptions(items: seq<Item>) returns (options: seq<Variant>)
    ensures options == Flatten(items)
  {
    options := [];
    var i := 0;
    while i < |items|
      invariant 0 <= i <= |items|
      invariant options == Flatten(items[..i])
    {
      var item := items[i];
      var j := 0;
      while j < |item|
        invariant 0 <= j <= |item|
        invariant options == Flatten(items[..i]) + ItemOptions(item)[..j]
      {
        options := options + [Tagged(item[j])];
        j := j + 1;
      }
      assert ItemOptions(item)[..j] == ItemOptions(item);
      assert items[..i + 1][..i] == items[..i];
      i := i + 1;
    }
    assert items[..i] == items;
  }

  /** `Extractor.fetchEpisodeOptions` after the response is parsed: a missing
      or empty `data` throws, otherwise the flattened list is returned. */
  method FetchEpisodeOptions(data: Option<seq<Item>>) returns (r: Result<seq<Variant>, string>)
    ensures r.Failure? <==> (data.None? || |data.value| == 0)
    ensures r.Failure? ==> r.error == NoEpisodeOptions
    ensures r.Success? ==> r.value == Flatten(data.value) && |r.value| == KeyCount(data.value)
  {
    if data.None? || |data.value| == 0 {
      return Failure(NoEpisodeOptions);
    }
    var options := FlattenOptions(data.value);
    FlattenLayout(data.value);
    return Success(options);
  }

  /** `Serie.fetchOptions` after the response is parsed: no emptiness check,
      so an empty `data` gives an empty list; an absent `data` throws. */
  method SerieFetchOptions(data: Option<seq<Item>>) returns (r: Result<seq<Variant>, string>)
    ensures r.Failure? <==> data.None?
    ensures r.Failure? ==> r.error == DataNotIterable
    ensures r.Success? ==> r.value == Flatten(data.value) && |r.value| == KeyCount(data.value)
  {
    if data.None? {
      return Failure(DataNotIterable);
    }
    var options := FlattenOptions(data.value);
    FlattenLayout(data.value);
    return Success(options);
  }
}
