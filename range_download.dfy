/** The byte accounting of the resumable `downloadFile`: the offset to resume
    from, the write flags and `Range` header it implies, the expected total,
    and the running offset each received chunk advances. The request, the
    file stream and the database are left out: the stored record, the
    `content-length` header and the chunks are inputs, and the calls made
    to the progress callback and the database are recorded. */
module RangeDownload {
  import opened Wrappers
  import opened Strings

  type Byte = bv8

  /** How the file is opened and the request is made. */
  datatype Plan = Plan(start: nat, flags: string, range: Option<string>)

  /** `record?.completedBytes || 0`: a missing record, a missing field and a
      stored 0 all resume from 0. */
  function StartOffset(completedBytes: Option<nat>): nat
  {
    if completedBytes.Some? then completedBytes.value else 0
  }

  /** `{ flags: start ? 'r+' : 'w', start }` and the `Range` header: a
      resumed download (a non-zero stored offset) opens the file for update
      at that offset and asks for the rest from there; otherwise the file is
      truncated and the whole resource is requested. */
  function PlanFor(completedBytes: Option<nat>): (p: Plan)
    ensures p.start == (if completedBytes.Some? then completedBytes.value else 0)
    ensures p.range.Some? <==> p.start > 0
    ensures (p.flags == "r+" <==> p.start > 0) && (p.flags == "w" <==> p.start == 0)
    ensures p.range.Some? ==> p.range.value == "bytes=" + Decimal(p.start) + "-"
  {
    var start := StartOffset(completedBytes);
    Plan(start, if start != 0 then "r+" else "w", if start != 0 then Some("bytes=" + Decimal(start) + "-") else None)
  }

  /** The longest prefix of decimal digits. */
  function DigitPrefix(s: string): (d: string)
    ensures |d| <= |s| && d == s[..|d|] && AllDigits(d)
    ensures |d| < |s| ==> !IsDigit(s[|d|])
  {
    if |s| > 0 && IsDigit(s[0]) then [s[0]] + DigitPrefix(s[1..]) else []
  }

  function SkipSpace(s: string): (t: string)
  {
    if |s| > 0 && IsSpace(s[0]) then SkipSpace(s[1..]) else s
  }

  /** `parseInt(s)` in base 10: leading white space, an optional sign, then
      the longest run of digits; no digits at all is `NaN` (`None`). */
  function ParseInt(s: string): Option<int>
  {
    var t := SkipSpace(s);
    var negative := |t| > 0 && t[0] == '-';
    var body := if |t| > 0 && (t[0] == '-' || t[0] == '+') then t[1..] else t;
    var d := DigitPrefix(body);
    if |d| == 0 then None
    else if negative then Some(-(DigitsValue(d) as int))
    else Some(DigitsValue(d))
  }

  /** `parseInt(res.headers['content-length'] || '0') + start`: an absent or
      empty header counts as 0; a header with no leading digits makes the
      total `NaN`. */
  function Total(contentLength: Option<string>, start: nat): Option<int>
  {
    var header := if contentLength.None? || contentLength.value == "" then "0" else contentLength.value;
    var n := ParseInt(header);
    if n.None? then None else Some(n.value + start)
  }

  /** A decimal length parses to itself: the total is then the length plus
      the resumed offset. */
  lemma TotalOfLength(length: nat, start: nat)
    ensures Total(Some(Decimal(length)), start) == Some(length + start)
    ensures Total(None, start) == Some(start)
  {
    var d := Decimal(length);
    DecimalValue(length);
    assert !IsSpace(d[0]) && d[0] != '-' && d[0] != '+' by { assert IsDigit(d[0]); }
    AllDigitsPrefix(d);
    assert SkipSpace("0") == "0";
    assert DigitPrefix("0") == "0" by { assert DigitPrefix("0"[1..]) == []; }
  }

  lemma {:induction false} AllDigitsPrefix(d: string)
    requires AllDigits(d)
    ensures DigitPrefix(d) == d
  {
    if |d| > 0 {
      AllDigitsPrefix(d[1..]);
    }
  }

  /** The number of bytes in the chunks. */
  function Length(chunks: seq<seq<Byte>>): nat
  {
    if |chunks| == 0 then 0 else Length(chunks[..|chunks| - 1]) + |chunks[|chunks| - 1]|
  }

  function Concat(chunks: seq<seq<Byte>>): seq<Byte>
  {
    if |chunks| == 0 then [] else Concat(chunks[..|chunks| - 1]) + chunks[|chunks| - 1]
  }

  /** The offsets reported after each chunk when the download resumed at
      `start`. */
  function Offsets(start: nat, chunks: seq<seq<Byte>>): seq<nat>
  {
    if |chunks| == 0 then [] else Offsets(start, chunks[..|chunks| - 1]) + [start + Length(chunks)]
  }

  /** After chunk `k` the offset is the resumed offset plus the bytes of the
      first `k + 1` chunks, so the offsets never decrease and the last one
      counts every byte received. */
  lemma {:induction false} OffsetsSpec(start: nat, chunks: seq<seq<Byte>>)
    ensures |Offsets(start, chunks)| == |chunks|
    ensures forall k :: 0 <= k < |chunks| ==> Offsets(start, chunks)[k] == start + Length(chunks[..k + 1])
    ensures forall k :: 0 <= k < |chunks| ==> start <= Offsets(start, chunks)[k]
    ensures forall i, j :: 0 <= i <= j < |chunks| ==> Offsets(start, chunks)[i] <= Offsets(start, chunks)[j]
    ensures |Concat(chunks)| == Length(chunks)
  {
    if |chunks| > 0 {
      var n := |chunks| - 1;
      var init := chunks[..n];
      OffsetsSpec(start, init);
      var o := Offsets(start, chunks);
      assert o == Offsets(start, init) + [start + Length(chunks)];
      forall k | 0 <= k < n
        ensures o[k] == start + Length(chunks[..k + 1])
      {
        assert init[..k + 1] == chunks[..k + 1];
      }
      assert chunks[..n + 1] == chunks;
      forall i, j | 0 <= i <= j < |chunks|
        ensures o[i] <= o[j]
      {
        if j == n && i < n {
          LengthPrefix(chunks, i + 1);
        }
      }
    }
  }

  lemma {:induction false} LengthPrefix(chunks: seq<seq<Byte>>, k: nat)
    requires k <= |chunks|
    ensures Length(chunks[..k]) <= Length(chunks)
    decreases |chunks|
  {
    if k < |chunks| {
      var n := |chunks| - 1;
      assert chunks[..n][..k] == chunks[..k];
      LengthPrefix(chunks[..n], k);
    } else {
      assert chunks[..k] == chunks;
    }
  }

  class Download {
    /** The `start` counter. */
    var start: nat
    /** `total`, `NaN` being `None`. */
    var total: Option<int>
    /** The bytes handed to `fileStream.write`, in order. */
    var written: seq<Byte>
    /** The `onProgress(start, total)` calls. */
    var progress: seq<(nat, Option<int>)>
    /** The `completedBytes` values saved to the database, in order. */
    var saved: seq<Option<int>>

    /** The download as set up when the response arrives: resumed at the
        stored offset, with the total computed from the header. */
    constructor (completedBytes: Option<nat>, contentLength: Option<string>)
      ensures start == StartOffset(completedBytes)
      ensures total == Total(contentLength, start)
      ensures written == [] && progress == [] && saved == []
    {
      start := StartOffset(completedBytes);
      total := Total(contentLength, StartOffset(completedBytes));
      written := [];
      progress := [];
      saved := [];
    }

    /** The `'data'` handler. */
    method OnData(chunk: seq<Byte>)
      modifies this
      ensures start == old(start) + |chunk| && total == old(total)
      ensures written == old(written) + chunk
      ensures progress == old(progress) + [(start, total)]
      ensures saved == old(saved) + [Some(start as int)]
    {
      written := written + chunk;
      start := start + |chunk|;
      progress := progress + [(start, total)];
      saved := saved + [Some(start as int)];
    }

    /** The `'data'` events of the whole response, then `'end'`, which saves
        `total` as the completed byte count. */
    method Receive(chunks: seq<seq<Byte>>)
      modifies this
      ensures start == old(start) + Length(chunks) && total == old(total)
      ensures written == old(written) + Concat(chunks)
      ensures progress == old(progress) + ProgressOf(old(start), chunks, total)
      ensures saved == old(saved) + SavedOf(old(start), chunks) + [total]
    {
      ghost var s0 := start;
      var i := 0;
      while i < |chunks|
        invariant 0 <= i <= |chunks| && total == old(total)
        invariant start == s0 + Length(chunks[..i])
        invariant written == old(written) + Concat(chunks[..i])
        invariant progress == old(progress) + ProgressOf(s0, chunks[..i], total)
        invariant saved == old(saved) + SavedOf(s0, chunks[..i])
      {
        ReceiveStep(s0, chunks, i, total);
        OnData(chunks[i]);
        i := i + 1;
      }
      assert chunks[..i] == chunks;
      saved := saved + [total];
    }
  }

  /** The `onProgress` arguments after each chunk. */
  function ProgressOf(start: nat, chunks: seq<seq<Byte>>, total: Option<int>): seq<(nat, Option<int>)>
  {
    var o := Offsets(start, chunks);
    seq(|o|, k requires 0 <= k < |o| => (o[k], total))
  }

  /** The `completedBytes` saved after each chunk. */
  function SavedOf(start: nat, chunks: seq<seq<Byte>>): seq<Option<int>>
  {
    var o := Offsets(start, chunks);
    seq(|o|, k requires 0 <= k < |o| => Some(o[k] as int))
  }

  lemma ReceiveStep(s0: nat, chunks: seq<seq<Byte>>, i: nat, total: Option<int>)
    requires i < |chunks|
    ensures Length(chunks[..i + 1]) == Length(chunks[..i]) + |chunks[i]|
    ensures Concat(chunks[..i + 1]) == Concat(chunks[..i]) + chunks[i]
    ensures Offsets(s0, chunks[..i + 1]) == Offsets(s0, chunks[..i]) + [s0 + Length(chunks[..i + 1])]
    ensures ProgressOf(s0, chunks[..i + 1], total)
      == ProgressOf(s0, chunks[..i], total) + [(s0 + Length(chunks[..i + 1]), total)]
    ensures SavedOf(s0, chunks[..i + 1]) == SavedOf(s0, chunks[..i]) + [Some((s0 + Length(chunks[..i + 1])) as int)]
  {
    assert chunks[..i + 1][..i] == chunks[..i];
    OffsetsSpec(s0, chunks[..i]);
  }

  /** The completed byte count saved at the end is `total`, which counts the
      bytes actually received exactly when the header's length does. */
  lemma EndRecord(completedBytes: Option<nat>, length: nat, chunks: seq<seq<Byte>>)
    ensures var start := StartOffset(completedBytes);
      Total(Some(Decimal(length)), start) == Some((start + Length(chunks)) as int) <==> length == Length(chunks)
  {
    TotalOfLength(length, StartOffset(completedBytes));
  }
}
