/** The text scanning `parseM3U` applies to an HLS playlist (RFC 8216):
    the segment URIs picked out by `/#EXTINF:[^\n]+\n(.+)/g` and the
    attribute list of the first `/#EXT-X-KEY:(.+)/`, split on `,` and `=`
    after removing every `"`. The model follows these expressions, not the
    full grammar of RFC 8216. */
module Playlist {
  import opened Wrappers
  import opened Strings

  const ExtInf := "#EXTINF:"
  const ExtKey := "#EXT-X-KEY:"
  const NoSegments := "No segments found"

  /** Index of the first `c` in `s`, or `|s|` when there is none. */
  function IndexOf(s: string, c: char): (k: nat)
    ensures k <= |s|
    ensures forall i :: 0 <= i < k ==> s[i] != c
    ensures k < |s| ==> s[k] == c
  {
    if |s| == 0 || s[0] == c then 0 else 1 + IndexOf(s[1..], c)
  }

  /** A match of `#EXTINF:[^\n]+\n(.+)` at the very start of `s`: the length
      of the whole match and the captured line. `[^\n]+` reaches the first
      newline and must be non-empty; `.+` takes the longest non-empty run of
      characters other than line terminators. */
  function SegmentMatch(s: string): (m: Option<(nat, string)>)
    ensures m.Some? ==> 0 < m.value.0 <= |s| && |m.value.1| > 0
    ensures m.Some? ==> forall i :: 0 <= i < |m.value.1| ==> !IsLineTerminator(m.value.1[i])
  {
    if !StartsWith(s, ExtInf) then None
    else
      var rest := s[|ExtInf|..];
      var k := IndexOf(rest, '\n');
      if k == 0 || k == |rest| then None
      else
        var line := rest[k + 1..];
        var u := LineRun(line);
        if u == 0 then None
        else Some((|ExtInf| + k + 1 + u, line[..u]))
  }

  /** The global match, mapped to the captured lines: scan left to right,
      resume after each match, otherwise try the next position. */
  function Segments(s: string): (segs: seq<string>)
    ensures forall k :: 0 <= k < |segs| ==> |segs[k]| > 0 && NoLineTerminator(segs[k])
    decreases |s|
  {
    if |s| == 0 then []
    else match SegmentMatch(s)
      case Some((n, uri)) => [uri] + Segments(s[n..])
      case None => Segments(s[1..])
  }

  /** The group of `<tag>(.+)` when a match starts at the start of `s`. */
  function TagMatch(s: string, tag: string): Option<string>
  {
    if !StartsWith(s, tag) then None
    else
      var rest := s[|tag|..];
      var u := LineRun(rest);
      if u == 0 then None else Some(rest[..u])
  }

  /** The group of the first match of `/<tag>(.+)/` (no `g` flag). */
  function FirstTagValue(s: string, tag: string): Option<string>
    decreases |s|
  {
    if |s| == 0 then None
    else if TagMatch(s, tag).Some? then TagMatch(s, tag)
    else FirstTagValue(s[1..], tag)
  }

  /** The attribute list of the first `/#EXT-X-KEY:(.+)/`. */
  function FirstKeyAttributes(s: string): Option<string>
  {
    FirstTagValue(s, ExtKey)
  }

  /** `c.replace(/"/g, '')`. */
  function RemoveQuotes(s: string): (r: string)
    ensures '"' !in r
  {
    if |s| == 0 then "" else (if s[0] == '"' then "" else [s[0]]) + RemoveQuotes(s[1..])
  }

  /** `const [k, v] = c.replace(/"/g, '').split('=')`: the text before the
      first `=`, and the text between the first and second `=` (`None` for
      `undefined` when there is no `=`). */
  function AttributePair(part: string): (string, Option<string>)
  {
    var fields := Split(RemoveQuotes(part), '=');
    (fields[0], if |fields| >= 2 then Some(fields[1]) else None)
  }

  /** The `reduce` into `keyProps`, one part after another, a later key
      overwriting an earlier one. */
  function CollectPairs(parts: seq<string>): map<string, Option<string>>
  {
    if |parts| == 0 then map[]
    else
      var pair := AttributePair(parts[|parts| - 1]);
      CollectPairs(parts[..|parts| - 1])[pair.0 := pair.1]
  }

  function Attributes(list: string): map<string, Option<string>>
  {
    CollectPairs(Split(list, ','))
  }

  /** The URI whose key file is requested: only when `keyProps.URI` is a
      non-empty string (`undefined` and `''` are falsy). */
  function KeyUri(text: string): Option<string>
  {
    match FirstKeyAttributes(text)
    case None => None
    case Some(list) =>
      var props := Attributes(list);
      if "URI" in props && props["URI"].Some? && props["URI"].value != "" then Some(props["URI"].value)
      else None
  }

  // ---------------------------------------------------------------------
  // What the scanning yields on playlists written line by line.

  /** A playlist line as written by a server: a tag or comment line, or a
      media segment (its `#EXTINF` duration field and its URI line). */
  datatype Line = Tag(text: string) | Media(duration: string, uri: string)

  predicate NoLineTerminator(s: string)
  {
    forall i :: 0 <= i < |s| ==> !IsLineTerminator(s[i])
  }

  /** Tags do not span lines and are not `#EXTINF` lines; a segment has a
      non-empty duration field and a non-empty URI line. */
  predicate WellFormed(l: Line)
  {
    match l
    case Tag(t) => '\n' !in t && !Contains(t, ExtInf)
    case Media(d, u) => |d| > 0 && '\n' !in d && |u| > 0 && NoLineTerminator(u)
  }

  function RenderLine(l: Line): string
  {
    match l
    case Tag(t) => t + "\n"
    case Media(d, u) => ExtInf + d + "\n" + u + "\n"
  }

  function Render(lines: seq<Line>): string
  {
    if |lines| == 0 then "" else RenderLine(lines[0]) + Render(lines[1..])
  }

  function Uris(lines: seq<Line>): seq<string>
  {
    if |lines| == 0 then []
    else (if lines[0].Media? then [lines[0].uri] else []) + Uris(lines[1..])
  }

  /** The segment list is exactly the line after each `#EXTINF` line, in
      playlist order. */
  lemma {:induction false} SegmentsOfRender(lines: seq<Line>)
    requires forall k :: 0 <= k < |lines| ==> WellFormed(lines[k])
    ensures Segments(Render(lines)) == Uris(lines)
  {
    if |lines| > 0 {
      SegmentsOfRender(lines[1..]);
      FirstLine(lines[0], Render(lines[1..]));
    }
  }

  /** The first rendered line contributes its URI when it is a segment, and
      nothing when it is a tag. */
  lemma FirstLine(l: Line, rest: string)
    requires WellFormed(l)
    ensures Segments(RenderLine(l) + rest) == (if l.Media? then [l.uri] else []) + Segments(rest)
  {
    match l
    case Tag(t) =>
      assert RenderLine(l) + rest == t + "\n" + rest;
      SkipLine(t, rest);
    case Media(d, u) =>
      assert RenderLine(l) + rest == ExtInf + d + "\n" + u + "\n" + rest;
      assert Segments("\n" + rest) == Segments(rest) by {
        SkipLine("", rest);
        assert "" + "\n" + rest == "\n" + rest;
      }
      MatchEntry(d, u, rest);
  }

  /** A line that holds no `#EXTINF:` contributes nothing. */
  lemma {:induction false} SkipLine(t: string, rest: string)
    requires '\n' !in t && !Contains(t, ExtInf)
    ensures Segments(t + "\n" + rest) == Segments(rest)
    decreases |t|
  {
    var s := t + "\n" + rest;
    assert SegmentMatch(s) == None by {
      if |t| >= |ExtInf| {
        if StartsWith(s, ExtInf) {
          assert s[..|ExtInf|] == t[..|ExtInf|];
          assert OccursAt(t, ExtInf, 0);
        }
      } else if |ExtInf| <= |s| {
        assert s[..|ExtInf|][|t|] == '\n';
      }
    }
    if |t| == 0 {
      assert s[1..] == rest;
    } else {
      assert s[1..] == t[1..] + "\n" + rest;
      assert !Contains(t[1..], ExtInf) by {
        if Contains(t[1..], ExtInf) {
          var p :| 0 <= p <= |t[1..]| - |ExtInf| && OccursAt(t[1..], ExtInf, p);
          assert t[p + 1..p + 1 + |ExtInf|] == t[1..][p..p + |ExtInf|];
          assert OccursAt(t, ExtInf, p + 1);
        }
      }
      SkipLine(t[1..], rest);
    }
  }

  /** An `#EXTINF` line followed by a URI line is one match. */
  lemma MatchEntry(d: string, u: string, rest: string)
    requires |d| > 0 && '\n' !in d && |u| > 0 && NoLineTerminator(u)
    ensures Segments(ExtInf + d + "\n" + u + "\n" + rest) == [u] + Segments("\n" + rest)
  {
    var s := ExtInf + d + "\n" + u + "\n" + rest;
    var n := EntryMatch(d, u, "\n" + rest);
    assert s == ExtInf + d + "\n" + u + ("\n" + rest);
  }

  lemma EntryMatch(d: string, u: string, x: string) returns (n: nat)
    requires |d| > 0 && '\n' !in d && |u| > 0 && NoLineTerminator(u)
    requires |x| > 0 && x[0] == '\n'
    ensures n <= |ExtInf + d + "\n" + u + x|
    ensures SegmentMatch(ExtInf + d + "\n" + u + x) == Some((n, u))
    ensures (ExtInf + d + "\n" + u + x)[n..] == x
  {
    var r := d + ("\n" + (u + x));
    var s := ExtInf + r;
    Regroup(ExtInf, d, "\n", u, x);
    PrefixRest(ExtInf, r);
    AfterTag(d, u, x);
    n := SegmentMatchAt(s, |d|, |u|);
    SliceTwice(s, |ExtInf|, |d| + 1 + |u|);
  }

  /** `SegmentMatch` read off the positions of the first newline after the
      tag and of the end of the next line. */
  lemma SegmentMatchAt(s: string, k: nat, m: nat) returns (n: nat)
    requires StartsWith(s, ExtInf)
    requires 0 < k < |s[|ExtInf|..]| && IndexOf(s[|ExtInf|..], '\n') == k
    requires 0 < m && LineRun(s[|ExtInf|..][k + 1..]) == m
    ensures n == |ExtInf| + k + 1 + m && n <= |s|
    ensures SegmentMatch(s) == Some((n, s[|ExtInf|..][k + 1..][..m]))
  {
    n := |ExtInf| + k + 1 + m;
  }

  lemma SliceTwice(s: string, a: nat, b: nat)
    requires a + b <= |s|
    ensures s[a..][b..] == s[a + b..]
  {
  }

  lemma Regroup(a: string, b: string, c: string, d: string, e: string)
    ensures a + b + c + d + e == a + (b + (c + (d + e)))
  {
  }

  /** `(a + b)` starts with `a` and continues with `b`. */
  lemma PrefixRest(a: string, b: string)
    ensures StartsWith(a + b, a) && (a + b)[|a|..] == b
  {
    assert (a + b)[..|a|] == a;
  }

  /** After the tag: the duration runs to the first newline, and the line
      after it is the URI, up to the next line terminator. */
  lemma AfterTag(d: string, u: string, x: string)
    requires '\n' !in d && |u| > 0 && NoLineTerminator(u)
    requires |x| > 0 && x[0] == '\n'
    ensures var r := d + ("\n" + (u + x));
      IndexOf(r, '\n') == |d| && r[|d| + 1..] == u + x && LineRun(u + x) == |u| &&
      (u + x)[..|u|] == u && r[|d| + 1 + |u|..] == x
  {
    var t := u + x;
    var r := d + ("\n" + t);
    assert IndexOf(r, '\n') == |d| by {
      IndexOfPrefix(d, "\n" + t);
    }
    assert r[|d| + 1..] == t by {
      AfterSeparator(d, t);
    }
    assert LineRun(t) == |u| by {
      LineRunPrefix(u, x);
    }
    assert t[..|u|] == u && t[|u|..] == x by {
      PrefixRest(u, x);
    }
    SliceTwice(r, |d| + 1, |u|);
  }

  lemma AfterSeparator(d: string, t: string)
    ensures (d + ("\n" + t))[|d| + 1..] == t
  {
    assert (d + ("\n" + t))[|d| + 1..] == ("\n" + t)[1..];
  }

  lemma {:induction false} IndexOfPrefix(d: string, x: string)
    requires '\n' !in d && |x| > 0 && x[0] == '\n'
    ensures IndexOf(d + x, '\n') == |d|
  {
    if |d| > 0 {
      assert (d + x)[1..] == d[1..] + x;
      IndexOfPrefix(d[1..], x);
    } else {
      assert d + x == x;
    }
  }

  lemma {:induction false} LineRunPrefix(u: string, x: string)
    requires NoLineTerminator(u) && |x| > 0 && IsLineTerminator(x[0])
    ensures LineRun(u + x) == |u|
  {
    if |u| > 0 {
      assert (u + x)[1..] == u[1..] + x;
      LineRunPrefix(u[1..], x);
    } else {
      assert u + x == x;
    }
  }

  // ---------------------------------------------------------------------
  // What the attribute splitting yields on attribute lists written as
  // `KEY="value"` pairs.

  /** `KEY="value"` with neither part holding `,`, `=` or `"`. */
  predicate PlainAttribute(k: string, v: string)
  {
    ',' !in k && '=' !in k && '"' !in k && ',' !in v && '=' !in v && '"' !in v
  }

  function QuotedPair(k: string, v: string): string
  {
    k + "=\"" + v + "\""
  }

  function QuotedPairs(pairs: seq<(string, string)>): (parts: seq<string>)
    ensures |parts| == |pairs|
  {
    if |pairs| == 0 then [] else QuotedPairs(pairs[..|pairs| - 1]) + [QuotedPair(pairs[|pairs| - 1].0, pairs[|pairs| - 1].1)]
  }

  /** The attributes as a map, a later key overwriting an earlier one. */
  function PairMap(pairs: seq<(string, string)>): map<string, Option<string>>
  {
    if |pairs| == 0 then map[] else PairMap(pairs[..|pairs| - 1])[pairs[|pairs| - 1].0 := Some(pairs[|pairs| - 1].1)]
  }

  lemma QuotedPairSplits(k: string, v: string)
    requires PlainAttribute(k, v)
    ensures AttributePair(QuotedPair(k, v)) == (k, Some(v))
  {
    UnquotePair(k, v);
    assert Split(k + "=" + v, '=') == [k, v] by {
      SplitPrefix(k, v, '=');
      SplitNoSeparator(v, '=');
    }
  }

  lemma UnquotePair(k: string, v: string)
    requires '"' !in k && '"' !in v
    ensures RemoveQuotes(QuotedPair(k, v)) == k + "=" + v
  {
    var rest := "=" + ("\"" + (v + "\""));
    assert QuotedPair(k, v) == k + rest;
    assert RemoveQuotes(rest) == "=" + v by {
      RemoveQuotesConcat("=", "\"" + (v + "\""));
      RemoveQuotesPlain("=");
      UnquoteValue(v);
    }
    assert RemoveQuotes(k + rest) == k + ("=" + v) by {
      RemoveQuotesConcat(k, rest);
      RemoveQuotesPlain(k);
    }
    assert k + ("=" + v) == k + "=" + v;
  }

  /** The quotes around a value without quotes are dropped. */
  lemma UnquoteValue(v: string)
    requires '"' !in v
    ensures RemoveQuotes("\"" + (v + "\"")) == v
  {
    RemoveQuotesConcat("\"", v + "\"");
    RemoveQuotesConcat(v, "\"");
    RemoveQuotesPlain(v);
    assert RemoveQuotes("\"") == "";
  }

  lemma {:induction false} RemoveQuotesConcat(a: string, b: string)
    ensures RemoveQuotes(a + b) == RemoveQuotes(a) + RemoveQuotes(b)
  {
    if |a| > 0 {
      assert (a + b)[1..] == a[1..] + b;
      RemoveQuotesConcat(a[1..], b);
    } else {
      assert a + b == b;
    }
  }

  lemma {:induction false} RemoveQuotesPlain(s: string)
    requires '"' !in s
    ensures RemoveQuotes(s) == s
  {
    if |s| > 0 {
      assert '"' !in s[1..];
      RemoveQuotesPlain(s[1..]);
      assert [s[0]] + s[1..] == s;
    }
  }

  lemma {:induction false} CollectQuoted(pairs: seq<(string, string)>)
    requires forall i :: 0 <= i < |pairs| ==> PlainAttribute(pairs[i].0, pairs[i].1)
    ensures CollectPairs(QuotedPairs(pairs)) == PairMap(pairs)
  {
    if |pairs| > 0 {
      var n := |pairs| - 1;
      var qp := QuotedPairs(pairs);
      assert qp[..n] == QuotedPairs(pairs[..n]);
      CollectQuoted(pairs[..n]);
      QuotedPairSplits(pairs[n].0, pairs[n].1);
    }
  }

  /** Splitting a written attribute list gives each key its value, a later
      key overwriting an earlier one. */
  lemma AttributesOfQuoted(pairs: seq<(string, string)>)
    requires |pairs| > 0
    requires forall i :: 0 <= i < |pairs| ==> PlainAttribute(pairs[i].0, pairs[i].1)
    ensures Attributes(Join(QuotedPairs(pairs), ',')) == PairMap(pairs)
  {
    var parts := QuotedPairs(pairs);
    forall i | 0 <= i < |parts|
      ensures ',' !in parts[i]
    {
      QuotedPartNoComma(pairs, i);
    }
    SplitJoin(parts, ',');
    CollectQuoted(pairs);
  }

  lemma {:induction false} QuotedPartNoComma(pairs: seq<(string, string)>, i: nat)
    requires i < |pairs|
    requires forall j :: 0 <= j < |pairs| ==> PlainAttribute(pairs[j].0, pairs[j].1)
    ensures ',' !in QuotedPairs(pairs)[i]
  {
    var n := |pairs| - 1;
    if i < n {
      QuotedPartNoComma(pairs[..n], i);
      assert QuotedPairs(pairs)[i] == QuotedPairs(pairs[..n])[i];
    } else {
      var p := QuotedPair(pairs[n].0, pairs[n].1);
      assert p == pairs[n].0 + "=\"" + pairs[n].1 + "\"";
    }
  }

  lemma AttributePairOf(part: string, k: string, v: string, rest: seq<string>)
    requires Split(RemoveQuotes(part), '=') == [k, v] + rest
    ensures AttributePair(part) == (k, Some(v))
  {
  }

  /** An `=` inside a value cuts it short: only the text up to it is kept. */
  lemma ValueCutAtEquals(k: string, v: string, w: string)
    requires PlainAttribute(k, v) && '"' !in w && ',' !in w
    ensures AttributePair(QuotedPair(k, v + "=" + w)) == (k, Some(v))
  {
    QuotedValueText(k, v, w);
    SplitAtTwoEquals(k, v, w);
    AttributePairOf(QuotedPair(k, v + "=" + w), k, v, Split(w, '='));
  }

  lemma QuotedValueText(k: string, v: string, w: string)
    requires '"' !in k && '"' !in v && '"' !in w
    ensures RemoveQuotes(QuotedPair(k, v + "=" + w)) == k + ['='] + (v + ['='] + w)
  {
    var value := v + "=" + w;
    assert '"' !in value;
    UnquotePair(k, value);
  }

  lemma SplitAtTwoEquals(k: string, v: string, w: string)
    requires '=' !in k && '=' !in v
    ensures Split(k + ['='] + (v + ['='] + w), '=') == [k, v] + Split(w, '=')
  {
    SplitPrefix(k, v + ['='] + w, '=');
    SplitPrefix(v, w, '=');
  }

  /** A tag line is found when it is the first occurrence of the tag with a
      non-empty rest of line. */
  lemma TagLineFound(tag: string, value: string, rest: string)
    requires |value| > 0 && NoLineTerminator(value)
    requires |rest| == 0 || IsLineTerminator(rest[0])
    ensures FirstTagValue(tag + value + rest, tag) == Some(value)
  {
    var s := tag + value + rest;
    assert s[..|tag|] == tag;
    assert s[|tag|..] == value + rest;
    if |rest| == 0 {
      assert value + rest == value;
      LineRunAll(value);
    } else {
      LineRunPrefix(value, rest);
    }
    assert (value + rest)[..|value|] == value;
  }

  lemma {:induction false} LineRunAll(u: string)
    requires NoLineTerminator(u)
    ensures LineRun(u) == |u|
  {
    if |u| > 0 {
      LineRunAll(u[1..]);
    }
  }

  /** A line that does not hold the tag is passed over. */
  lemma {:induction false} TagSkipLine(t: string, rest: string, tag: string)
    requires '\n' !in t && '\n' !in tag && |tag| > 0 && !Contains(t, tag)
    ensures FirstTagValue(t + "\n" + rest, tag) == FirstTagValue(rest, tag)
    decreases |t|
  {
    var s := t + "\n" + rest;
    assert TagMatch(s, tag) == None by {
      if |t| >= |tag| {
        if StartsWith(s, tag) {
          assert s[..|tag|] == t[..|tag|];
          assert OccursAt(t, tag, 0);
        }
      } else if |tag| <= |s| {
        assert s[..|tag|][|t|] == '\n';
      }
    }
    if |t| == 0 {
      assert s[1..] == rest;
    } else {
      assert s[1..] == t[1..] + "\n" + rest;
      assert !Contains(t[1..], tag) by {
        if Contains(t[1..], tag) {
          var p :| 0 <= p <= |t[1..]| - |tag| && OccursAt(t[1..], tag, p);
          assert t[p + 1..p + 1 + |tag|] == t[1..][p..p + |tag|];
          assert OccursAt(t, tag, p + 1);
        }
      }
      TagSkipLine(t[1..], rest, tag);
    }
  }

  /** Lines joined by `\n`, none holding the tag, are passed over. */
  lemma {:induction false} TagSkipLines(lines: seq<string>, rest: string, tag: string)
    requires |lines| >= 1 && '\n' !in tag && |tag| > 0
    requires forall k :: 0 <= k < |lines| ==> '\n' !in lines[k] && !Contains(lines[k], tag)
    ensures FirstTagValue(Join(lines, '\n') + "\n" + rest, tag) == FirstTagValue(rest, tag)
  {
    if |lines| == 1 {
      TagSkipLine(lines[0], rest, tag);
    } else {
      TagSkipLines(lines[1..], rest, tag);
      assert Join(lines, '\n') + "\n" + rest == lines[0] + "\n" + (Join(lines[1..], '\n') + "\n" + rest);
      TagSkipLine(lines[0], Join(lines[1..], '\n') + "\n" + rest, tag);
    }
  }
}
