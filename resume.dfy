/** Resume book-keeping of `Extractor.parseM3U` and the segment loop of
    `Extractor.processEpisode`: the persisted per-segment status object, the
    staleness check against the stored `streamURL`, the rebuild from a fresh
    playlist, and the loop that downloads the entries not yet done. Files,
    zlib and base64 are left abstract: what the resume `try` block recovered
    is an input, and so are the outcomes of the network requests. */
module Resume {
  import opened Wrappers
  import opened Strings
  import opened SortedSets
  import opened Playlist

  type Byte = bv8

  const ExtMetadata := "#EXT-X-METADATA:"

  /** One entry `status[i]`: `{url}` or `{url, done: true}`. */
  datatype Entry = Entry(url: string, done: bool)

  /** The status object, keyed by segment index. */
  type Status = map<nat, Entry>

  /** The decoded metadata line `{streamURL, count, key}`. */
  datatype Metadata = Metadata(streamURL: Option<string>, count: nat, key: Option<seq<Byte>>)

  /** What the resume `try` block recovered: nothing; only the status file
      (the playlist file, its metadata line or its decoding failed); or both. */
  datatype Saved = NoState | StatusOnly(status: Status) | Complete(status: Status, meta: Metadata)

  /** The value `parseM3U` returns (without the two file paths). */
  datatype Resolved = Resolved(segments: seq<string>, key: Option<seq<Byte>>, status: Status, meta: Metadata)

  /** `!M3Umetadata.streamURL || M3Umetadata.streamURL !== streamURL.href`. */
  predicate NeedsFetch(saved: Saved, href: string)
  {
    match saved
    case Complete(_, m) => m.streamURL.None? || m.streamURL.value == "" || m.streamURL.value != href
    case _ => true
  }

  /** `status[i] = { url }` for every segment, so no entry is done. */
  function FreshStatus(segments: seq<string>): map<nat, Entry>
  {
    map i | i in Range(|segments|) :: Entry(segments[i], false)
  }

  /** `Object.keys(status).map(k => status[k].url)`: integer-like keys
      enumerate in ascending order. */
  function Urls(status: Status): seq<string>
  {
    var keys := Ascending(status.Keys);
    AscendingSpec(status.Keys);
    seq(|keys|, j requires 0 <= j < |keys| => status[keys[j]].url)
  }

  /** `M3Umetadata.key ? Buffer.from(M3Umetadata.key, 'base64') : null`:
      a missing or empty key (whose base64 text is `''`) gives `null`. */
  function ReturnedKey(meta: Metadata): Option<seq<Byte>>
  {
    if meta.key.Some? && |meta.key.value| > 0 then meta.key else None
  }

  /** The key request: made only when the playlist names a key URI. */
  function FetchKey(uri: Option<string>, keyFile: Result<seq<Byte>, string>): Result<Option<seq<Byte>>, string>
  {
    if uri.None? then Success(None)
    else match keyFile
      case Failure(e) => Failure(e)
      case Success(bytes) => Success(Some(bytes))
  }

  /** `parseM3U(streamURL, dir)`: `manifest` is the outcome of requesting the
      playlist at `href`, `keyFile` that of requesting the key URI; each is
      consulted only if the code makes that request. */
  function ParseM3U(href: string, saved: Saved, manifest: Result<string, string>,
                    keyFile: Result<seq<Byte>, string>): Result<Resolved, string>
  {
    if !NeedsFetch(saved, href) then
      Success(Resolved(Urls(saved.status), ReturnedKey(saved.meta), saved.status, saved.meta))
    else match manifest
      case Failure(e) => Failure(e)
      case Success(text) =>
        var key :- FetchKey(KeyUri(text), keyFile);
        var segments := Segments(text);
        if |segments| == 0 then Failure(NoSegments)
        else Success(Fresh(href, segments, key))
  }

  /** The state rebuilt from a fetched playlist: every segment pending, and
      the metadata `{streamURL: href, count, key}`. */
  function Fresh(href: string, segments: seq<string>, key: Option<seq<Byte>>): Resolved
  {
    var status := FreshStatus(segments);
    var meta := Metadata(Some(href), |segments|, key);
    Resolved(Urls(status), ReturnedKey(meta), status, meta)
  }

  /** The rebuilt state lists the segments in playlist order, each one once
      and not done. */
  lemma FreshSpec(href: string, segments: seq<string>, key: Option<seq<Byte>>)
    ensures var r := Fresh(href, segments, key);
      r.segments == segments &&
      r.status.Keys == Range(|segments|) &&
      (forall i :: 0 <= i < |segments| ==> r.status[i] == Entry(segments[i], false)) &&
      r.meta == Metadata(Some(href), |segments|, key) &&
      r.key == if key.Some? && |key.value| > 0 then key else None
  {
    FreshUrls(segments);
    FreshEntries(segments);
  }

  lemma FreshEntries(segments: seq<string>)
    ensures FreshStatus(segments).Keys == Range(|segments|)
    ensures forall i :: 0 <= i < |segments| ==> i in FreshStatus(segments) && FreshStatus(segments)[i] == Entry(segments[i], false)
  {
  }

  /** A stored `streamURL` equal to the href short-circuits: nothing is
      requested and the saved statuses and metadata come back unchanged. */
  lemma FastPath(href: string, saved: Saved, manifest: Result<string, string>, keyFile: Result<seq<Byte>, string>)
    requires !NeedsFetch(saved, href)
    ensures ParseM3U(href, saved, manifest, keyFile)
         == Success(Resolved(Urls(saved.status), ReturnedKey(saved.meta), saved.status, saved.meta))
  {
  }

  /** Otherwise a failed playlist request, a failed key request (made only
      when the playlist names a key URI, and before the segments are
      counted) and an empty segment list are the three errors, in that order. */
  lemma FetchErrors(href: string, saved: Saved, manifest: Result<string, string>, keyFile: Result<seq<Byte>, string>)
    requires NeedsFetch(saved, href)
    ensures var r := ParseM3U(href, saved, manifest, keyFile);
      if manifest.Failure? then r == Failure(manifest.error)
      else if KeyUri(manifest.value).Some? && keyFile.Failure? then r == Failure(keyFile.error)
      else if |Segments(manifest.value)| == 0 then r == Failure(NoSegments)
      else r.Success?
  {
  }

  /** A rebuild keeps one fresh entry per segment of the playlist, in order,
      and records the href, the count and the key bytes fetched. */
  lemma Rebuild(href: string, saved: Saved, text: string, keyFile: Result<seq<Byte>, string>)
    requires NeedsFetch(saved, href)
    requires ParseM3U(href, saved, Success(text), keyFile).Success?
    ensures var r := ParseM3U(href, saved, Success(text), keyFile).value;
      var segs := Segments(text);
      r.segments == segs &&
      r.status.Keys == Range(|segs|) &&
      (forall i :: 0 <= i < |segs| ==> r.status[i] == Entry(segs[i], false)) &&
      r.meta == Metadata(Some(href), |segs|, if KeyUri(text).Some? then Some(keyFile.value) else None) &&
      r.key == if KeyUri(text).Some? && |keyFile.value| > 0 then Some(keyFile.value) else None
  {
    var segs := Segments(text);
    var key := if KeyUri(text).Some? then Some(keyFile.value) else None;
    assert ParseM3U(href, saved, Success(text), keyFile) == Success(Fresh(href, segs, key));
    FreshSpec(href, segs, key);
  }

  /** The URLs requested, in order: none on the resume fast path; otherwise
      the playlist, then the key file when the playlist names a key URI. */
  function Requests(href: string, saved: Saved, manifest: Result<string, string>): (urls: seq<string>)
    ensures !NeedsFetch(saved, href) <==> urls == []
    ensures NeedsFetch(saved, href) ==> urls[0] == href
    ensures |urls| == 2 <==> NeedsFetch(saved, href) && manifest.Success? && KeyUri(manifest.value).Some?
    ensures |urls| == 2 ==> urls[1] == KeyUri(manifest.value).value
  {
    if !NeedsFetch(saved, href) then []
    else if manifest.Success? && KeyUri(manifest.value).Some? then [href, KeyUri(manifest.value).value]
    else [href]
  }

  /** The requests listed are the only outcomes `parseM3U` depends on: with
      no request the result is the same whatever the playlist and key
      requests would have given, and without the key request it is the same
      whatever the key request would have given. */
  lemma RequestsSuffice(href: string, saved: Saved, manifest: Result<string, string>,
                        keyFile: Result<seq<Byte>, string>, otherManifest: Result<string, string>,
                        otherKey: Result<seq<Byte>, string>)
    ensures Requests(href, saved, manifest) == [] ==>
      ParseM3U(href, saved, manifest, keyFile) == ParseM3U(href, saved, otherManifest, otherKey)
    ensures |Requests(href, saved, manifest)| < 2 ==>
      ParseM3U(href, saved, manifest, keyFile) == ParseM3U(href, saved, manifest, otherKey)
  {
    if NeedsFetch(saved, href) && manifest.Success? && KeyUri(manifest.value).None? {
      assert FetchKey(KeyUri(manifest.value), keyFile) == FetchKey(KeyUri(manifest.value), otherKey);
    }
  }

  /** A rebuilt status lists the segments in playlist order. */
  lemma FreshUrls(segments: seq<string>)
    ensures Urls(FreshStatus(segments)) == segments
  {
    var status := FreshStatus(segments);
    assert status.Keys == Range(|segments|);
    AscendingRange(|segments|);
  }

  /** The playlist text written to `.m3u8`: the segment URLs one per line,
      then the metadata line holding the encoded `{streamURL, count, key}`. */
  function ManifestFile(segments: seq<string>, encodedMeta: string): string
    requires |segments| >= 1
  {
    Join(segments, '\n') + "\n" + ExtMetadata + encodedMeta
  }

  /** The metadata line written is the one `/#EXT-X-METADATA:(.+)/` finds on
      the next run, when the segment URLs do not hold the tag themselves. */
  lemma MetadataLineFound(segments: seq<string>, encodedMeta: string)
    requires |segments| >= 1
    requires forall k :: 0 <= k < |segments| ==> NoLineTerminator(segments[k]) && !Contains(segments[k], ExtMetadata)
    requires |encodedMeta| > 0 && NoLineTerminator(encodedMeta)
    ensures FirstTagValue(ManifestFile(segments, encodedMeta), ExtMetadata) == Some(encodedMeta)
  {
    assert '\n' !in ExtMetadata;
    TagSkipLines(segments, ExtMetadata + encodedMeta, ExtMetadata);
    TagLineFound(ExtMetadata, encodedMeta, "");
    assert ExtMetadata + encodedMeta + "" == ExtMetadata + encodedMeta;
    assert ManifestFile(segments, encodedMeta) == Join(segments, '\n') + "\n" + (ExtMetadata + encodedMeta);
  }

  /** Once a rebuilt state is persisted and loaded back, the next call with the
      same href takes the fast path and returns the same state: the playlist
      is not fetched again. */
  lemma ResumeAfterRebuild(href: string, saved: Saved, manifest: Result<string, string>,
                           keyFile: Result<seq<Byte>, string>, later: Result<string, string>,
                           laterKey: Result<seq<Byte>, string>)
    requires href != ""
    requires ParseM3U(href, saved, manifest, keyFile).Success?
    ensures var r := ParseM3U(href, saved, manifest, keyFile).value;
      Requests(href, Complete(r.status, r.meta), later) == [] &&
      ParseM3U(href, Complete(r.status, r.meta), later, laterKey) == Success(r)
  {
  }

  /** A stored identity that differs from the href discards the saved statuses
      entirely, whatever their number: every rebuilt entry is not done. */
  lemma StaleStateDiscarded(href: string, saved: Saved, text: string, keyFile: Result<seq<Byte>, string>)
    requires saved.Complete? && saved.meta.streamURL.Some? && saved.meta.streamURL.value != href
    requires ParseM3U(href, saved, Success(text), keyFile).Success?
    ensures var r := ParseM3U(href, saved, Success(text), keyFile).value;
      |r.status| == |Segments(text)| && forall i :: i in r.status ==> !r.status[i].done
  {
    Rebuild(href, saved, text, keyFile);
  }

  // ---------------------------------------------------------------------
  // The segment loop.

  /** The keys among `keys` that have an entry and whose entry is not done,
      in order. */
  function PendingAmong(status: Status, keys: seq<nat>): seq<nat>
  {
    if |keys| == 0 then []
    else
      var k := keys[|keys| - 1];
      PendingAmong(status, keys[..|keys| - 1]) + (if k in status && !status[k].done then [k] else [])
  }

  /** The indices the loop downloads: those not done, in ascending order. */
  function Pending(status: Status): seq<nat>
  {
    PendingAmong(status, Ascending(status.Keys))
  }

  /** How many of `p`, from the front, download without failing. */
  function Succeeding(p: seq<nat>, succeeds: nat -> bool): (n: nat)
    ensures n <= |p|
  {
    if |p| == 0 || !succeeds(p[0]) then 0 else 1 + Succeeding(p[1..], succeeds)
  }

  /** `status` with `done` set on the entries `ks`. */
  function MarkDone(status: Status, ks: seq<nat>): Status
  {
    if |ks| == 0 then status
    else
      var m, k := MarkDone(status, ks[..|ks| - 1]), ks[|ks| - 1];
      if k in m then m[k := Entry(m[k].url, true)] else m
  }

  lemma {:induction false} PendingAmongConcat(status: Status, a: seq<nat>, b: seq<nat>)
    ensures PendingAmong(status, a + b) == PendingAmong(status, a) + PendingAmong(status, b)
  {
    if |b| > 0 {
      var n := |b| - 1;
      var k := b[n];
      var last := if k in status && !status[k].done then [k] else [];
      assert (a + b)[..|a + b| - 1] == a + b[..n] && (a + b)[|a + b| - 1] == k;
      assert PendingAmong(status, a + b) == PendingAmong(status, a + b[..n]) + last;
      assert PendingAmong(status, b) == PendingAmong(status, b[..n]) + last;
      PendingAmongConcat(status, a, b[..n]);
    } else {
      assert a + b == a;
    }
  }

  lemma {:induction false} PendingAmongSpec(status: Status, keys: seq<nat>)
    ensures forall x :: x in PendingAmong(status, keys) <==> x in keys && x in status && !status[x].done
  {
    if |keys| > 0 {
      var n := |keys| - 1;
      PendingAmongSpec(status, keys[..n]);
      assert keys == keys[..n] + [keys[n]];
    }
  }

  lemma {:induction false} PendingAmongIncreasing(status: Status, keys: seq<nat>)
    requires StrictlyIncreasing(keys)
    ensures StrictlyIncreasing(PendingAmong(status, keys))
  {
    if |keys| > 0 {
      var n := |keys| - 1;
      PendingAmongIncreasing(status, keys[..n]);
      PendingAmongSpec(status, keys[..n]);
      var p := PendingAmong(status, keys[..n]);
      forall i | 0 <= i < |p|
        ensures p[i] < keys[n]
      {
        assert p[i] in keys[..n];
      }
    }
  }

  /** The loop fetches exactly the entries not yet done, in ascending index
      order; no entry already done is fetched. */
  lemma PendingSpec(status: Status)
    ensures StrictlyIncreasing(Pending(status))
    ensures forall x :: x in Pending(status) <==> x in status && !status[x].done
  {
    var keys := Ascending(status.Keys);
    AscendingSpec(status.Keys);
    PendingAmongSpec(status, keys);
    PendingAmongIncreasing(status, keys);
  }

  /** With indices `0..n-1` of which exactly `0..k-1` are done, the loop
      fetches `k, k+1, …, n-1`: `n - k` downloads. */
  lemma ResumeFromPrefix(status: Status, n: nat, k: nat)
    requires k <= n && status.Keys == Range(n)
    requires forall i :: 0 <= i < n ==> (status[i].done <==> i < k)
    ensures Pending(status) == Interval(k, n)
  {
    forall i | 0 <= i < n
      ensures i in status
    {
      assert i in Range(n);
    }
    assert Ascending(status.Keys) == Interval(0, n) by {
      AscendingRange(n);
    }
    IntervalSplit(0, k, n);
    PendingAmongConcat(status, Interval(0, k), Interval(k, n));
    AllPending(status, Interval(k, n));
    NonePending(status, Interval(0, k));
  }

  lemma {:induction false} AllPending(status: Status, ks: seq<nat>)
    requires forall j :: 0 <= j < |ks| ==> ks[j] in status && !status[ks[j]].done
    ensures PendingAmong(status, ks) == ks
  {
    if |ks| > 0 {
      AllPending(status, ks[..|ks| - 1]);
    }
  }

  lemma {:induction false} NonePending(status: Status, ks: seq<nat>)
    requires forall j :: 0 <= j < |ks| ==> ks[j] in status && status[ks[j]].done
    ensures PendingAmong(status, ks) == []
  {
    if |ks| > 0 {
      NonePending(status, ks[..|ks| - 1]);
    }
  }

  /** One more key seen by the loop. */
  lemma PendingAmongStep(status: Status, keys: seq<nat>, j: nat)
    requires j < |keys|
    ensures PendingAmong(status, keys[..j + 1])
         == PendingAmong(status, keys[..j]) + (if keys[j] in status && !status[keys[j]].done then [keys[j]] else [])
  {
    assert keys[..j + 1][..j] == keys[..j];
  }

  lemma MarkDoneOutside(status: Status, ks: seq<nat>, k: nat)
    requires k in status && k !in ks
    ensures k in MarkDone(status, ks) && MarkDone(status, ks)[k] == status[k]
  {
    MarkDoneSpec(status, ks);
  }

  lemma MarkDoneStep(status: Status, ks: seq<nat>, k: nat)
    requires k in status
    ensures MarkDone(status, ks + [k]) == MarkDone(status, ks)[k := Entry(status[k].url, true)]
  {
    assert (ks + [k])[..|ks|] == ks;
    MarkDoneSpec(status, ks);
  }

  /** Marking keeps every index and URL, never clears a `done` flag, and
      leaves the entries it does not name as they were. */
  lemma {:induction false} MarkDoneSpec(status: Status, ks: seq<nat>)
    ensures MarkDone(status, ks).Keys == status.Keys
    ensures forall k :: k in status ==> MarkDone(status, ks)[k].url == status[k].url
    ensures forall k :: k in status && status[k].done ==> MarkDone(status, ks)[k] == status[k]
    ensures forall k :: k in status && k !in ks ==> MarkDone(status, ks)[k] == status[k]
    ensures forall k :: k in status && k in ks ==> MarkDone(status, ks)[k].done
  {
    if |ks| > 0 {
      var init := ks[..|ks| - 1];
      MarkDoneSpec(status, init);
      assert ks == init + [ks[|ks| - 1]];
    }
  }

  /** After a loop that did not fail, every entry is done. */
  lemma AllDoneAfterLoop(status: Status)
    ensures forall k :: k in MarkDone(status, Pending(status)) ==> MarkDone(status, Pending(status))[k].done
  {
    PendingSpec(status);
    MarkDoneSpec(status, Pending(status));
  }

  /** The episode's status object, as the segment loop updates it. */
  class SegmentLoop {
    var status: Status
    /** The indices downloaded, in order. */
    var fetched: seq<nat>

    constructor (status: Status)
      ensures this.status == status && fetched == []
    {
      this.status := status;
      fetched := [];
    }

    /** `for (const i of Object.keys(status)) if (!status[i].done) { download;
        status[i].done = true; flush }`. The download of index `i` succeeds
        iff `succeeds(i)`; a failure throws out of the loop. */
    method DownloadMissing(succeeds: nat -> bool) returns (ok: bool)
      modifies this
      ensures ok == (Succeeding(Pending(old(status)), succeeds) == |Pending(old(status))|)
      ensures fetched == old(fetched) + Pending(old(status))[..if ok then |Pending(old(status))|
                                                          else Succeeding(Pending(old(status)), succeeds) + 1]
      ensures status == MarkDone(old(status), Pending(old(status))[..Succeeding(Pending(old(status)), succeeds)])
    {
      var keys := Ascending(status.Keys);
      assert StrictlyIncreasing(keys) && forall i :: 0 <= i < |keys| ==> keys[i] in status by {
        AscendingSpec(status.Keys);
      }
      ok := DownloadIn(keys, succeeds);
    }

    /** The loop over the snapshot `keys` of the status object's keys. */
    method DownloadIn(keys: seq<nat>, succeeds: nat -> bool) returns (ok: bool)
      requires StrictlyIncreasing(keys) && forall i :: 0 <= i < |keys| ==> keys[i] in status
      modifies this
      ensures var p := PendingAmong(old(status), keys);
        ok == (Succeeding(p, succeeds) == |p|) &&
        fetched == old(fetched) + p[..if ok then |p| else Succeeding(p, succeeds) + 1] &&
        status == MarkDone(old(status), p[..Succeeding(p, succeeds)])
    {
      var marked, got;
      ok, marked, got := Pass(status, keys, succeeds);
      status := marked;
      fetched := fetched + got;
    }
  }

  /** The segment loop on the status object `status`: the new status object,
      and the indices downloaded, in order. */
  method Pass(status: Status, keys: seq<nat>, succeeds: nat -> bool) returns (ok: bool, marked: Status, got: seq<nat>)
    requires StrictlyIncreasing(keys) && forall i :: 0 <= i < |keys| ==> keys[i] in status
    ensures var p := PendingAmong(status, keys);
      ok == (Succeeding(p, succeeds) == |p|) &&
      got == p[..if ok then |p| else Succeeding(p, succeeds) + 1] &&
      marked == MarkDone(status, p[..Succeeding(p, succeeds)])
  {
    marked, got := status, [];
    var j := 0;
    while j < |keys|
      invariant 0 <= j <= |keys|
      invariant got == PendingAmong(status, keys[..j])
      invariant marked == MarkDone(status, got)
      invariant Succeeding(got, succeeds) == |got|
    {
      var k := keys[j];
      LoopStep(status, keys, j, got);
      if !marked[k].done {
        if !succeeds(k) {
          FailureAt(status, keys, j, succeeds);
          StopOutcome(status, got, k, PendingAmong(status, keys), succeeds);
          return false, marked, got + [k];
        }
        SucceedingSnoc(got, k, succeeds);
        marked := marked[k := Entry(marked[k].url, true)];
        got := got + [k];
      }
      j := j + 1;
    }
    assert keys[..j] == keys;
    assert got[..|got|] == got;
    return true, marked, got;
  }

  /** What the loop learns from visiting `keys[j]`. */
  lemma LoopStep(s0: Status, keys: seq<nat>, j: nat, ks: seq<nat>)
    requires j < |keys| && StrictlyIncreasing(keys) && keys[j] in s0
    requires ks == PendingAmong(s0, keys[..j])
    ensures keys[j] in MarkDone(s0, ks) && MarkDone(s0, ks)[keys[j]] == s0[keys[j]]
    ensures !s0[keys[j]].done ==>
      PendingAmong(s0, keys[..j + 1]) == ks + [keys[j]] &&
      MarkDone(s0, ks + [keys[j]]) == MarkDone(s0, ks)[keys[j] := Entry(MarkDone(s0, ks)[keys[j]].url, true)]
    ensures s0[keys[j]].done ==> PendingAmong(s0, keys[..j + 1]) == ks
  {
    var k := keys[j];
    assert k !in ks by {
      PendingAmongSpec(s0, keys[..j]);
      AscendingFresh(keys, j);
    }
    MarkDoneOutside(s0, ks, k);
    PendingAmongStep(s0, keys, j);
    MarkDoneStep(s0, ks, k);
  }

  /** The state when the download of `k` fails. */
  lemma StopOutcome(s0: Status, ks: seq<nat>, k: nat, p: seq<nat>, succeeds: nat -> bool)
    requires Succeeding(p, succeeds) == |ks| < |p| && p[..|ks| + 1] == ks + [k] && p[..|ks|] == ks
    ensures ks + [k] == p[..Succeeding(p, succeeds) + 1]
    ensures MarkDone(s0, ks) == MarkDone(s0, p[..Succeeding(p, succeeds)])
  {
  }

  /** A strictly increasing sequence does not repeat `keys[j]` before `j`. */
  lemma AscendingFresh(keys: seq<nat>, j: nat)
    requires StrictlyIncreasing(keys) && j < |keys|
    ensures keys[j] !in keys[..j]
  {
  }

  lemma {:induction false} SucceedingSnoc(p: seq<nat>, k: nat, succeeds: nat -> bool)
    requires Succeeding(p, succeeds) == |p| && succeeds(k)
    ensures Succeeding(p + [k], succeeds) == |p| + 1
  {
    if |p| > 0 {
      assert (p + [k])[1..] == p[1..] + [k];
      SucceedingSnoc(p[1..], k, succeeds);
    } else {
      assert (p + [k])[1..] == [];
    }
  }

  lemma {:induction false} FirstFailure(a: seq<nat>, k: nat, b: seq<nat>, succeeds: nat -> bool)
    requires Succeeding(a, succeeds) == |a|
    requires !succeeds(k)
    ensures Succeeding(a + [k] + b, succeeds) == |a|
  {
    if |a| > 0 {
      assert (a + [k] + b)[1..] == a[1..] + [k] + b;
      FirstFailure(a[1..], k, b, succeeds);
    } else {
      assert (a + [k] + b)[0] == k;
    }
  }

  /** The loop stopping at `keys[j]` matches the specification. */
  lemma FailureAt(s0: Status, keys: seq<nat>, j: nat, succeeds: nat -> bool)
    requires j < |keys| && keys[j] in s0
    requires !s0[keys[j]].done && !succeeds(keys[j])
    requires Succeeding(PendingAmong(s0, keys[..j]), succeeds) == |PendingAmong(s0, keys[..j])|
    ensures var a := PendingAmong(s0, keys[..j]);
      var p := PendingAmong(s0, keys);
      Succeeding(p, succeeds) == |a| < |p| && p[..|a| + 1] == a + [keys[j]] && p[..|a|] == a
  {
    var k := keys[j];
    var a := PendingAmong(s0, keys[..j]);
    var b := PendingAmong(s0, keys[j + 1..]);
    PendingAround(s0, keys, j);
    FirstFailure(a, k, b, succeeds);
    CutAfter(a, k, b);
  }

  /** The pending keys around a pending `keys[j]`. */
  lemma PendingAround(s0: Status, keys: seq<nat>, j: nat)
    requires j < |keys| && keys[j] in s0 && !s0[keys[j]].done
    ensures PendingAmong(s0, keys) == PendingAmong(s0, keys[..j]) + [keys[j]] + PendingAmong(s0, keys[j + 1..])
  {
    var k := keys[j];
    assert keys == keys[..j] + ([k] + keys[j + 1..]);
    PendingAmongConcat(s0, keys[..j], [k] + keys[j + 1..]);
    PendingAmongConcat(s0, [k], keys[j + 1..]);
    assert PendingAmong(s0, [k]) == [k] by {
      assert [k][..0] == [];
    }
  }

  lemma CutAfter(a: seq<nat>, k: nat, b: seq<nat>)
    ensures (a + [k] + b)[..|a| + 1] == a + [k] && (a + [k] + b)[..|a|] == a
  {
  }
}
