/** `Extractor.getBestMatch`: group the flattened options by audio track and
    resolution, pick an audio group with a fixed fallback order, and pick the
    resolution numerically closest to the requested quality. */
module Selection {
  import opened Wrappers
  import opened Strings
  import opened SortedSets
  import opened Options

  /** The `preferred` argument; a missing field takes the destructuring
      default: audio `'jpn'`, quality `Infinity` (here `None`). */
  datatype Preference = Preference(audio: Option<string>, quality: Option<int>)

  const DefaultAudio := "jpn"
  const NoOptions := "No options to choose from"

  /** The reduced `tree` object: audio → resolution → kwik URL, with the
      audio keys in insertion order (`Object.keys` order for keys that are
      not integer-like). */
  datatype Tree = Tree(order: seq<string>, groups: map<string, map<nat, string>>)

  /** The result: the chosen URL and `options.find(o => o.kwik.includes(url))`. */
  datatype Match = Match(url: string, option: Option<Variant>)

  function BuildTree(options: seq<Variant>): Tree
  {
    if |options| == 0 then Tree([], map[])
    else
      var t := BuildTree(options[..|options| - 1]);
      var c := options[|options| - 1];
      var g := if c.audio in t.groups then t.groups[c.audio] else map[];
      Tree(if c.audio in t.groups then t.order else t.order + [c.audio],
           t.groups[c.audio := g[c.resolution := c.kwik]])
  }

  predicate HasAudio(options: seq<Variant>, a: string)
  {
    exists i :: 0 <= i < |options| && options[i].audio == a
  }

  predicate Offers(options: seq<Variant>, a: string, r: nat)
  {
    exists i :: 0 <= i < |options| && options[i].audio == a && options[i].resolution == r
  }

  /** No later option has the same audio track and resolution as option `i`. */
  predicate LastOffer(options: seq<Variant>, i: nat)
    requires i < |options|
  {
    forall j :: i < j < |options| ==>
      options[j].audio != options[i].audio || options[j].resolution != options[i].resolution
  }

  predicate InTree(t: Tree, a: string, r: nat)
  {
    a in t.groups && r in t.groups[a]
  }

  /** The tree has a group for exactly the offered audio tracks, and its
      first audio key is the first option's. */
  lemma {:induction false} TreeAudio(options: seq<Variant>)
    ensures forall a :: a in BuildTree(options).groups <==> HasAudio(options, a)
    ensures forall a :: a in BuildTree(options).order ==> a in BuildTree(options).groups
    ensures |options| > 0 ==> |BuildTree(options).order| > 0 && BuildTree(options).order[0] == options[0].audio
  {
    if |options| > 0 {
      var n := |options| - 1;
      var init := options[..n];
      TreeAudio(init);
      var t0 := BuildTree(init);
      var t := BuildTree(options);
      forall a
        ensures a in t.groups <==> HasAudio(options, a)
      {
        if HasAudio(options, a) {
          var i :| 0 <= i < |options| && options[i].audio == a;
          if i < n { assert init[i] == options[i]; }
        }
        if a in t0.groups {
          var i :| 0 <= i < |init| && init[i].audio == a;
          assert options[i] == init[i];
        }
      }
      if n > 0 {
        assert init[0] == options[0];
      }
    }
  }

  /** The tree holds exactly the offered audio/resolution pairs. */
  lemma {:induction false} TreePairs(options: seq<Variant>)
    ensures forall a, r :: InTree(BuildTree(options), a, r) <==> Offers(options, a, r)
  {
    if |options| > 0 {
      var n := |options| - 1;
      var init := options[..n];
      TreePairs(init);
      var t0 := BuildTree(init);
      var t := BuildTree(options);
      forall a, r
        ensures InTree(t, a, r) <==> Offers(options, a, r)
      {
        if Offers(options, a, r) {
          var i :| 0 <= i < |options| && options[i].audio == a && options[i].resolution == r;
          if i < n { assert init[i] == options[i]; assert Offers(init, a, r); }
        }
        if InTree(t0, a, r) {
          var i :| 0 <= i < |init| && init[i].audio == a && init[i].resolution == r;
          assert options[i] == init[i];
        }
      }
    }
  }

  /** A later option with the same audio track and resolution overwrites the
      URL of an earlier one. */
  lemma {:induction false} TreeLastWins(options: seq<Variant>)
    ensures forall i :: 0 <= i < |options| && LastOffer(options, i) ==>
      InTree(BuildTree(options), options[i].audio, options[i].resolution) &&
      BuildTree(options).groups[options[i].audio][options[i].resolution] == options[i].kwik
  {
    if |options| > 0 {
      var n := |options| - 1;
      var init := options[..n];
      TreeLastWins(init);
      forall i | 0 <= i < |options| && LastOffer(options, i)
        ensures InTree(BuildTree(options), options[i].audio, options[i].resolution)
        ensures BuildTree(options).groups[options[i].audio][options[i].resolution] == options[i].kwik
      {
        if i < n {
          assert init[i] == options[i];
          assert LastOffer(init, i);
        }
      }
    }
  }

  /** Every group of the tree is non-empty. */
  lemma GroupsNonEmpty(options: seq<Variant>, a: string)
    requires a in BuildTree(options).groups
    ensures |BuildTree(options).groups[a]| > 0
  {
    TreeAudio(options);
    TreePairs(options);
    var i :| 0 <= i < |options| && options[i].audio == a;
    assert Offers(options, a, options[i].resolution);
  }

  /** `tree[audio] || tree['jpn'] || tree[Object.keys(tree)[0]]`. */
  function ChosenAudio(options: seq<Variant>, pref: Preference): (a: string)
    requires |options| > 0
    ensures a in BuildTree(options).groups
  {
    TreeAudio(options);
    var t := BuildTree(options);
    var audio := pref.audio.GetOr(DefaultAudio);
    if audio in t.groups then audio
    else if DefaultAudio in t.groups then DefaultAudio
    else t.order[0]
  }

  /** `Math.abs(curr - quality) < Math.abs(prev - quality)`; against
      `Infinity` both sides are `Infinity`, so the comparison is false. */
  predicate Closer(curr: nat, prev: nat, quality: Option<int>)
  {
    match quality
    case None => false
    case Some(q) => Abs(curr - q) < Abs(prev - q)
  }

  function Abs(x: int): nat
  {
    if x < 0 then -x else x
  }

  /** `rest.reduce((prev, curr) => Closer(curr, prev) ? curr : prev, prev)`. */
  function Reduce(prev: nat, rest: seq<nat>, quality: Option<int>): nat
    decreases |rest|
  {
    if |rest| == 0 then prev
    else Reduce(if Closer(rest[0], prev, quality) then rest[0] else prev, rest[1..], quality)
  }

  /** The reduction without an initial value over the ascending keys. */
  function Closest(keys: seq<nat>, quality: Option<int>): nat
    requires |keys| > 0
  {
    Reduce(keys[0], keys[1..], quality)
  }

  lemma {:induction false} ReduceNearest(prev: nat, rest: seq<nat>, q: int)
    requires StrictlyIncreasing(rest)
    requires forall i :: 0 <= i < |rest| ==> prev < rest[i]
    ensures Reduce(prev, rest, Some(q)) == prev || Reduce(prev, rest, Some(q)) in rest
    ensures Abs(Reduce(prev, rest, Some(q)) - q) <= Abs(prev - q)
    ensures Abs(Reduce(prev, rest, Some(q)) - q) == Abs(prev - q) ==> Reduce(prev, rest, Some(q)) == prev
    ensures forall k :: k in rest ==> Abs(Reduce(prev, rest, Some(q)) - q) <= Abs(k - q)
    ensures forall k :: k in rest && Abs(k - q) == Abs(Reduce(prev, rest, Some(q)) - q) ==> Reduce(prev, rest, Some(q)) <= k
    decreases |rest|
  {
    if |rest| > 0 {
      var next := if Closer(rest[0], prev, Some(q)) then rest[0] else prev;
      HeadTail(rest);
      ReduceNearest(next, rest[1..], q);
    }
  }

  /** A strictly increasing sequence is its head, then its strictly
      increasing tail of larger elements. */
  lemma HeadTail(s: seq<nat>)
    requires |s| > 0 && StrictlyIncreasing(s)
    ensures StrictlyIncreasing(s[1..])
    ensures forall i :: 0 <= i < |s[1..]| ==> s[0] < s[1..][i]
    ensures forall k :: k in s ==> k == s[0] || k in s[1..]
  {
    assert s == [s[0]] + s[1..];
  }

  lemma {:induction false} ReduceInfinite(prev: nat, rest: seq<nat>)
    ensures Reduce(prev, rest, None) == prev
  {
    if |rest| > 0 {
      ReduceInfinite(prev, rest[1..]);
    }
  }

  /** The closest key; ties keep the smaller key; against `Infinity` the
      smallest key wins. */
  lemma ClosestNearest(keys: seq<nat>, quality: Option<int>)
    requires |keys| > 0 && StrictlyIncreasing(keys)
    ensures Closest(keys, quality) in keys
    ensures quality.Some? ==> forall k :: k in keys ==>
      Abs(Closest(keys, quality) - quality.value) <= Abs(k - quality.value)
    ensures quality.Some? ==> forall k :: k in keys && Abs(k - quality.value) == Abs(Closest(keys, quality) - quality.value) ==>
      Closest(keys, quality) <= k
    ensures quality.None? ==> Closest(keys, quality) == keys[0]
  {
    if quality.Some? {
      ClosestNear(keys, quality.value);
    } else {
      ReduceInfinite(keys[0], keys[1..]);
    }
  }

  lemma ClosestNear(keys: seq<nat>, q: int)
    requires |keys| > 0 && StrictlyIncreasing(keys)
    ensures Closest(keys, Some(q)) in keys
    ensures forall k :: k in keys ==> Abs(Closest(keys, Some(q)) - q) <= Abs(k - q)
    ensures forall k :: k in keys && Abs(k - q) == Abs(Closest(keys, Some(q)) - q) ==> Closest(keys, Some(q)) <= k
  {
    HeadTail(keys);
    ReduceNearest(keys[0], keys[1..], q);
  }

  /** The resolution picked inside the chosen audio group. */
  function ChosenResolution(options: seq<Variant>, pref: Preference): (r: nat)
    requires |options| > 0
    ensures InTree(BuildTree(options), ChosenAudio(options, pref), r)
  {
    GroupsNonEmpty(options, ChosenAudio(options, pref));
    var branch := BuildTree(options).groups[ChosenAudio(options, pref)];
    var keys := Ascending(branch.Keys);
    AscendingSpec(branch.Keys);
    ClosestNearest(keys, pref.quality);
    Closest(keys, pref.quality)
  }

  /** Index of the first option whose kwik URL contains `url`. */
  function FirstIncluding(options: seq<Variant>, url: string): (r: Option<nat>)
    ensures r.Some? ==> r.value < |options| && Contains(options[r.value].kwik, url)
    ensures r.Some? ==> forall j :: 0 <= j < r.value ==> !Contains(options[j].kwik, url)
    ensures r.None? ==> forall j :: 0 <= j < |options| ==> !Contains(options[j].kwik, url)
  {
    if |options| == 0 then None
    else if Contains(options[0].kwik, url) then Some(0)
    else match FirstIncluding(options[1..], url)
      case None => None
      case Some(k) => Some(k + 1)
  }

  function GetBestMatch(options: seq<Variant>, pref: Preference): (r: Result<Match, string>)
    ensures r.Failure? <==> |options| == 0
    ensures r.Failure? ==> r.error == NoOptions
  {
    if |options| == 0 then Failure(NoOptions)
    else
      var url := BuildTree(options).groups[ChosenAudio(options, pref)][ChosenResolution(options, pref)];
      var found := FirstIncluding(options, url);
      Success(Match(url, if found.Some? then Some(options[found.value]) else None))
  }

  /** The chosen group is the requested track when offered, else `'jpn'`
      when offered, else the first option's track. */
  lemma BestMatchAudio(options: seq<Variant>, pref: Preference)
    requires |options| > 0
    ensures HasAudio(options, ChosenAudio(options, pref))
    ensures HasAudio(options, pref.audio.GetOr(DefaultAudio)) ==> ChosenAudio(options, pref) == pref.audio.GetOr(DefaultAudio)
    ensures !HasAudio(options, pref.audio.GetOr(DefaultAudio)) && HasAudio(options, DefaultAudio) ==>
      ChosenAudio(options, pref) == DefaultAudio
    ensures !HasAudio(options, pref.audio.GetOr(DefaultAudio)) && !HasAudio(options, DefaultAudio) ==>
      ChosenAudio(options, pref) == options[0].audio
  {
    TreeAudio(options);
  }

  /** `r` is at least as near `q` as every resolution offered for `a`, and
      no larger than any equally near one. */
  predicate NearestIn(options: seq<Variant>, a: string, r: nat, q: int)
  {
    forall i :: 0 <= i < |options| && options[i].audio == a ==>
      Abs(r - q) <= Abs(options[i].resolution - q) &&
      (Abs(options[i].resolution - q) == Abs(r - q) ==> r <= options[i].resolution)
  }

  /** `r` is no larger than any resolution offered for `a`. */
  predicate SmallestIn(options: seq<Variant>, a: string, r: nat)
  {
    forall i :: 0 <= i < |options| && options[i].audio == a ==> r <= options[i].resolution
  }

  /** The chosen resolution is offered in the chosen group and is nearest the
      quality; of two equally near it is the smaller; with no quality
      (`Infinity`) it is the smallest. */
  lemma BestMatchResolution(options: seq<Variant>, pref: Preference)
    requires |options| > 0
    ensures Offers(options, ChosenAudio(options, pref), ChosenResolution(options, pref))
    ensures pref.quality.Some? ==>
      NearestIn(options, ChosenAudio(options, pref), ChosenResolution(options, pref), pref.quality.value)
    ensures pref.quality.None? ==> SmallestIn(options, ChosenAudio(options, pref), ChosenResolution(options, pref))
  {
    var a := ChosenAudio(options, pref);
    var r := ChosenResolution(options, pref);
    var keys := BranchKeys(options, a);
    assert r == Closest(keys, pref.quality);
    TreePairs(options);
    assert forall k :: k in keys <==> Offers(options, a, k);
    ClosestOffered(options, a, keys, pref.quality);
  }

  /** The closest of the offered resolutions `keys` of `a`. */
  lemma ClosestOffered(options: seq<Variant>, a: string, keys: seq<nat>, quality: Option<int>)
    requires forall k :: k in keys <==> Offers(options, a, k)
    requires |keys| > 0 && StrictlyIncreasing(keys)
    ensures Offers(options, a, Closest(keys, quality))
    ensures quality.Some? ==> NearestIn(options, a, Closest(keys, quality), quality.value)
    ensures quality.None? ==> SmallestIn(options, a, Closest(keys, quality))
  {
    ClosestNearest(keys, quality);
    if quality.Some? {
      NearestOffered(options, a, keys, Closest(keys, quality), quality.value);
    } else {
      SmallestOffered(options, a, keys, Closest(keys, quality));
    }
  }

  lemma NearestOffered(options: seq<Variant>, a: string, keys: seq<nat>, r: nat, q: int)
    requires forall k :: k in keys <==> Offers(options, a, k)
    requires forall k :: k in keys ==> Abs(r - q) <= Abs(k - q)
    requires forall k :: k in keys && Abs(k - q) == Abs(r - q) ==> r <= k
    ensures NearestIn(options, a, r, q)
  {
    forall i | 0 <= i < |options| && options[i].audio == a
      ensures Abs(r - q) <= Abs(options[i].resolution - q)
      ensures Abs(options[i].resolution - q) == Abs(r - q) ==> r <= options[i].resolution
    {
      assert Offers(options, a, options[i].resolution);
    }
  }

  lemma SmallestOffered(options: seq<Variant>, a: string, keys: seq<nat>, r: nat)
    requires forall k :: k in keys <==> Offers(options, a, k)
    requires |keys| > 0 && StrictlyIncreasing(keys) && r == keys[0]
    ensures SmallestIn(options, a, r)
  {
    forall i | 0 <= i < |options| && options[i].audio == a
      ensures r <= options[i].resolution
    {
      assert Offers(options, a, options[i].resolution);
      var j :| 0 <= j < |keys| && keys[j] == options[i].resolution;
    }
  }

  /** The ascending resolutions of the group of `a`. */
  lemma BranchKeys(options: seq<Variant>, a: string) returns (keys: seq<nat>)
    requires a in BuildTree(options).groups
    ensures keys == Ascending(BuildTree(options).groups[a].Keys)
    ensures |keys| > 0 && StrictlyIncreasing(keys)
    ensures forall k :: k in keys <==> InTree(BuildTree(options), a, k)
  {
    GroupsNonEmpty(options, a);
    keys := Ascending(BuildTree(options).groups[a].Keys);
    AscendingSpec(BuildTree(options).groups[a].Keys);
  }

  /** Of several options with the chosen track and resolution, the URL of the
      last one is returned; the option reported is the first whose kwik URL
      contains that URL. */
  lemma BestMatchUrl(options: seq<Variant>, pref: Preference)
    requires |options| > 0
    ensures GetBestMatch(options, pref).Success?
    ensures exists i :: (0 <= i < |options| && LastOffer(options, i) &&
      options[i].audio == ChosenAudio(options, pref) && options[i].resolution == ChosenResolution(options, pref) &&
      GetBestMatch(options, pref).value.url == options[i].kwik)
    ensures GetBestMatch(options, pref).value.option.Some?
    ensures Contains(GetBestMatch(options, pref).value.option.value.kwik, GetBestMatch(options, pref).value.url)
  {
    TreePairs(options);
    TreeLastWins(options);
    var a, r := ChosenAudio(options, pref), ChosenResolution(options, pref);
    var i := LastIndex(options, a, r);
    ContainsSelf(options[i].kwik);
  }

  /** The last option offering `a` at `r`. */
  lemma {:induction false} LastIndex(options: seq<Variant>, a: string, r: nat) returns (i: nat)
    requires Offers(options, a, r)
    ensures i < |options| && options[i].audio == a && options[i].resolution == r && LastOffer(options, i)
  {
    var n := |options| - 1;
    if options[n].audio == a && options[n].resolution == r {
      i := n;
    } else {
      var k :| 0 <= k < |options| && options[k].audio == a && options[k].resolution == r;
      var init := options[..n];
      assert init[k] == options[k];
      i := LastIndex(init, a, r);
      assert init[i] == options[i];
      forall j | i < j < |options|
        ensures options[j].audio != options[i].audio || options[j].resolution != options[i].resolution
      {
        if j < n { assert init[j] == options[j]; }
      }
    }
  }
}
