/**
 * An ETag-caching decorator for the registry's HTTP client: it remembers, per tag,
 * the last entity tag the registry reported for that tag's manifest, and attaches it as an
 * `If-None-Match` precondition to later manifest PUTs for the same tag.
 *
 * The wrapped HTTP client is a `Transport` that records what it is sent and answers from
 * a script of replies; the cache (`sync.Map` in Go) is a plain map updated in sequence.
 */
module EtagClient {
  import opened Wrappers

  const MethodPut: string := "PUT"
  /** Canonical header keys (`http.CanonicalHeaderKey` of "If-None-Match" and "ETag"). */
  const HeaderIfNoneMatch: string := "If-None-Match"
  const HeaderETag: string := "Etag"
  /** The path segment that marks a manifest endpoint: /v2/<name>/manifests/<reference>. */
  const ManifestsSegment: string := "manifests"

  // ---------------------------------------------------------------------------
  // HTTP headers

  /** `http.Header`: canonical key -> values in the order they were added. */
  type Header = map<string, seq<string>>

  /** `Header.Get`: the first value under `key`, or "" when there is none. */
  function HeaderGet(h: Header, key: string): (v: string)
    ensures key in h && |h[key]| > 0 ==> v == h[key][0]
    ensures (key !in h || h[key] == []) ==> v == ""
  {
    if key in h && |h[key]| > 0 then h[key][0] else ""
  }

  /** `Header.Add`: appends `value` to the values under `key`. */
  function HeaderAdd(h: Header, key: string, value: string): (r: Header)
    ensures key in r && r[key] == (if key in h then h[key] else []) + [value]
    ensures forall k :: k != key ==> (k in r <==> k in h) && (k in h ==> r[k] == h[k])
    ensures (key !in h || h[key] == []) ==> HeaderGet(r, key) == value
  {
    h[key := (if key in h then h[key] else []) + [value]]
  }

  // ---------------------------------------------------------------------------
  // Paths: strings.Trim(path, "/") and strings.Split(_, "/")

  /** Drops the leading slashes. */
  function TrimLeft(s: string): string
  {
    if |s| > 0 && s[0] == '/' then TrimLeft(s[1..]) else s
  }

  /** Drops the trailing slashes. */
  function TrimRight(s: string): string
  {
    if |s| > 0 && s[|s| - 1] == '/' then TrimRight(s[..|s| - 1]) else s
  }

  /** `strings.Trim(s, "/")`. */
  function TrimSlashes(s: string): string
  {
    TrimRight(TrimLeft(s))
  }

  /** `TrimLeft` removes a prefix made only of slashes, and no more. */
  lemma {:induction false} TrimLeftRemovesLeadingSlashes(s: string)
    ensures var t := TrimLeft(s);
      && |t| <= |s| && t == s[|s| - |t|..]
      && (forall i :: 0 <= i < |s| - |t| ==> s[i] == '/')
      && (t == [] || t[0] != '/')
  {
    if |s| > 0 && s[0] == '/' {
      TrimLeftRemovesLeadingSlashes(s[1..]);
    }
  }

  /** `TrimRight` removes a suffix made only of slashes, and no more. */
  lemma {:induction false} TrimRightRemovesTrailingSlashes(s: string)
    ensures var t := TrimRight(s);
      && |t| <= |s| && t == s[..|t|]
      && (forall i :: |t| <= i < |s| ==> s[i] == '/')
      && (t == [] || t[|t| - 1] != '/')
  {
    if |s| > 0 && s[|s| - 1] == '/' {
      TrimRightRemovesTrailingSlashes(s[..|s| - 1]);
    }
  }

  /**
   * `strings.Trim(s, "/")` keeps the middle of `s`: what it drops in front and behind is
   * only slashes, and what it keeps neither starts nor ends with one.
   */
  lemma TrimSlashesRemovesOuterSlashes(s: string)
    ensures var t := TrimSlashes(s);
      var k := |s| - |TrimLeft(s)|;
      && 0 <= k && k + |t| <= |s| && t == s[k..k + |t|]
      && (forall i :: 0 <= i < k ==> s[i] == '/')
      && (forall i :: k + |t| <= i < |s| ==> s[i] == '/')
      && (t == [] || (t[0] != '/' && t[|t| - 1] != '/'))
  {
    var u := TrimLeft(s);
    TrimLeftRemovesLeadingSlashes(s);
    TrimRightRemovesTrailingSlashes(u);
    var t := TrimRight(u);
    var k := |s| - |u|;
    assert t == s[k..k + |t|];
    forall i | k + |t| <= i < |s|
      ensures s[i] == '/'
    {
      assert s[i] == u[i - k];
    }
  }

  /** Joins segments with '/' between them: the inverse of `Split`. */
  function Join(parts: seq<string>): string
    requires |parts| >= 1
  {
    if |parts| == 1 then parts[0] else Join(parts[..|parts| - 1]) + "/" + parts[|parts| - 1]
  }

  /** `strings.Split(s, "/")`: the segments between the slashes, one more than there are slashes. */
  function Split(s: string): (parts: seq<string>)
    ensures |parts| >= 1
  {
    if |s| == 0 then [""]
    else
      var init := Split(s[..|s| - 1]);
      var c := s[|s| - 1];
      if c == '/' then init + [""]
      else init[..|init| - 1] + [init[|init| - 1] + [c]]
  }

  /** `Split` yields one segment more than `s` has slashes. */
  lemma {:induction false} SplitCountsSlashes(s: string)
    ensures |Split(s)| == multiset(s)['/'] + 1
    decreases |s|
  {
    if |s| > 0 {
      SplitCountsSlashes(s[..|s| - 1]);
      assert s == s[..|s| - 1] + [s[|s| - 1]];
    }
  }

  /** Every segment `Split` yields is free of '/'. */
  lemma {:induction false} SplitSegmentsSlashFree(s: string)
    ensures forall i :: 0 <= i < |Split(s)| ==> '/' !in Split(s)[i]
    decreases |s|
  {
    if |s| > 0 {
      var init := Split(s[..|s| - 1]);
      SplitSegmentsSlashFree(s[..|s| - 1]);
      var c := s[|s| - 1];
      if c == '/' {
        assert Split(s) == init + [""];
      } else {
        assert Split(s) == init[..|init| - 1] + [init[|init| - 1] + [c]];
      }
    }
  }

  /** Extending the last segment by one character extends the joined string by it. */
  lemma JoinExtendLast(parts: seq<string>, c: char)
    requires |parts| >= 1
    ensures Join(parts[..|parts| - 1] + [parts[|parts| - 1] + [c]]) == Join(parts) + [c]
  {
    var n := |parts|;
    var ext := parts[..n - 1] + [parts[n - 1] + [c]];
    if n > 1 {
      assert ext[..n - 1] == parts[..n - 1];
    }
  }

  /** An empty last segment adds just its separating '/'. */
  lemma JoinAppendEmpty(parts: seq<string>)
    requires |parts| >= 1
    ensures Join(parts + [""]) == Join(parts) + "/"
  {
    assert (parts + [""])[..|parts|] == parts;
  }

  /** `Join` puts the segments `Split` yields back together into the input. */
  lemma {:induction false} JoinSplit(s: string)
    ensures Join(Split(s)) == s
    decreases |s|
  {
    if |s| > 0 {
      var prefix := s[..|s| - 1];
      var init := Split(prefix);
      JoinSplit(prefix);
      var c := s[|s| - 1];
      assert s == prefix + [c];
      if c == '/' {
        assert Split(s) == init + [""];
        JoinAppendEmpty(init);
      } else {
        assert Split(s) == init[..|init| - 1] + [init[|init| - 1] + [c]];
        JoinExtendLast(init, c);
      }
    }
  }

  /** The last two path segments, or two empty strings when the path has fewer than two. */
  function LastTwo(path: string): (r: (string, string))
    ensures '/' !in r.0 && '/' !in r.1
    ensures '/' !in TrimSlashes(path) ==> r == ("", "")
  {
    var parts := Split(TrimSlashes(path));
    var n := |parts|;
    assert forall i :: 0 <= i < n ==> '/' !in parts[i] by {
      SplitSegmentsSlashFree(TrimSlashes(path));
    }
    assert '/' !in TrimSlashes(path) ==> n == 1 by {
      if '/' !in TrimSlashes(path) { SplitSlashFree(TrimSlashes(path)); }
    }
    if n >= 2 then (parts[n - 2], parts[n - 1]) else ("", "")
  }

  /** Appending a slash-free segment after a '/' appends one element to the split. */
  lemma {:induction false} SplitAppend(a: string, b: string)
    requires '/' !in b
    ensures Split(a + "/" + b) == Split(a) + [b]
    decreases |b|
  {
    var s := a + "/" + b;
    if b == [] {
      assert s[..|s| - 1] == a;
    } else {
      var b' := b[..|b| - 1];
      assert s[..|s| - 1] == a + "/" + b';
      SplitAppend(a, b');
      assert b' + [b[|b| - 1]] == b;
    }
  }

  /** A string without '/' is a single segment. */
  lemma {:induction false} SplitSlashFree(s: string)
    requires '/' !in s
    ensures Split(s) == [s]
    decreases |s|
  {
    if |s| > 0 {
      SplitSlashFree(s[..|s| - 1]);
      assert s[..|s| - 1] + [s[|s| - 1]] == s;
    }
  }

  /** Splitting what `Join` built gives back the segments: the other half of the round trip. */
  lemma {:induction false} SplitJoin(parts: seq<string>)
    requires |parts| >= 1 && forall i :: 0 <= i < |parts| ==> '/' !in parts[i]
    ensures Split(Join(parts)) == parts
    decreases |parts|
  {
    if |parts| == 1 {
      SplitSlashFree(parts[0]);
    } else {
      var init := parts[..|parts| - 1];
      SplitJoin(init);
      SplitAppend(Join(init), parts[|parts| - 1]);
      assert init + [parts[|parts| - 1]] == parts;
    }
  }

  /** Leading slashes in front of a part that starts with another character are all trimmed. */
  lemma {:induction false} TrimLeftAppend(x: string, y: string)
    requires y != [] && y[0] != '/'
    ensures TrimLeft(x + y) == TrimLeft(x) + y
    decreases |x|
  {
    if |x| > 0 {
      assert (x + y)[1..] == x[1..] + y;
      TrimLeftAppend(x[1..], y);
    }
  }

  /** Trimming a path that ends in a slash-free, non-empty segment only drops leading slashes. */
  lemma TrimSlashesOfPath(head: string, tail: string)
    requires tail != [] && tail[0] != '/' && tail[|tail| - 1] != '/'
    ensures TrimSlashes(head + tail) == TrimLeft(head) + tail
  {
    TrimLeftAppend(head, tail);
    var u := TrimLeft(head) + tail;
    assert u[|u| - 1] == tail[|tail| - 1];
  }

  /** After nothing or a '/', a slash-free segment is the last one. */
  lemma SplitEndsWithSegment(w: string, seg: string)
    requires w == [] || w[|w| - 1] == '/'
    requires '/' !in seg
    ensures Split(w + seg)[|Split(w + seg)| - 1] == seg
  {
    if w == [] {
      assert w + seg == seg;
      SplitSlashFree(seg);
    } else {
      var w' := w[..|w| - 1];
      assert w + seg == w' + "/" + seg;
      SplitAppend(w', seg);
    }
  }

  /** After nothing or a '/', the last two segments of `<seg>/<last>` are `seg` and `last`. */
  lemma SplitEndsWith(w: string, seg: string, last: string)
    requires w == [] || w[|w| - 1] == '/'
    requires '/' !in seg && '/' !in last
    ensures var p := Split(w + seg + "/" + last);
      |p| >= 2 && p[|p| - 2] == seg && p[|p| - 1] == last
  {
    SplitAppend(w + seg, last);
    SplitEndsWithSegment(w, seg);
  }

  /**
   * `lastTwo` for every path: when the trimmed path ends in `<seg>/<last>`, after nothing or
   * a '/', the result is exactly those two segments. Empty segments count as well, so `a//b`
   * gives ("", "b") and a trailing slash is ignored.
   */
  lemma LastTwoOfTrimmed(path: string, w: string, seg: string, last: string)
    requires TrimSlashes(path) == w + seg + "/" + last
    requires w == [] || w[|w| - 1] == '/'
    requires '/' !in seg && '/' !in last
    ensures LastTwo(path) == (seg, last)
  {
    SplitEndsWith(w, seg, last);
  }

  /**
   * For a request path ending in `<seg>/<last>`, whatever comes before, `LastTwo` yields
   * exactly those two segments; in particular `.../manifests/<tag>` yields ("manifests", tag).
   */
  lemma LastTwoOfPath(prefix: string, seg: string, last: string)
    requires seg != "" && last != "" && '/' !in seg && '/' !in last
    ensures LastTwo(prefix + "/" + seg + "/" + last) == (seg, last)
  {
    var head := prefix + "/";
    var tail := seg + "/" + last;
    assert prefix + "/" + seg + "/" + last == head + tail;
    assert tail[0] == seg[0] && tail[|tail| - 1] == last[|last| - 1];
    TrimSlashesOfPath(head, tail);
    var w := TrimLeft(head);
    TrimLeftRemovesLeadingSlashes(head);
    assert w != [] ==> w[|w| - 1] == head[|head| - 1];
    assert w + tail == w + seg + "/" + last;
    LastTwoOfTrimmed(prefix + "/" + seg + "/" + last, w, seg, last);
  }

  // ---------------------------------------------------------------------------
  // Requests, responses and the wrapped transport

  /** An outgoing `*http.Request`: its method (`verb`) and URL path are fixed, its header can be added to. */
  class Request {
    const verb: string
    const path: string
    var header: Header

    constructor (verb: string, path: string, header: Header)
      ensures this.verb == verb && this.path == path && this.header == header
    {
      this.verb := verb;
      this.path := path;
      this.header := header;
    }

    /** `Clone`: a new request with the same method and URL and a copy of the header. */
    method Clone() returns (c: Request)
      ensures fresh(c) && c.verb == verb && c.path == path && c.header == header
    {
      c := new Request(verb, path, header);
    }
  }

  datatype Response = Response(status: int, header: Header)

  /** A request as the transport received it. */
  datatype Sent = Sent(verb: string, path: string, header: Header)

  /** The wrapped `remote.Client`: logs each request and answers with the next scripted reply. */
  class Transport {
    var sent: seq<Sent>
    var replies: seq<Result<Response, string>>

    constructor (replies: seq<Result<Response, string>>)
      ensures sent == [] && this.replies == replies
    {
      sent := [];
      this.replies := replies;
    }

    method Do(req: Request) returns (r: Result<Response, string>)
      modifies this
      ensures sent == old(sent) + [Sent(req.verb, req.path, req.header)]
      ensures old(replies) == [] ==> r.Err? && replies == []
      ensures old(replies) != [] ==> r == old(replies)[0] && replies == old(replies)[1..]
    {
      sent := sent + [Sent(req.verb, req.path, req.header)];
      if replies == [] {
        r := Err("connection refused");
      } else {
        r := replies[0];
        replies := replies[1..];
      }
    }
  }

  // ---------------------------------------------------------------------------
  // etagClient

  class EtagClient {
    const inner: Transport
    /** tag -> last entity tag seen on that tag's manifest endpoint. */
    var etags: map<string, string>

    constructor (inner: Transport)
      ensures this.inner == inner && etags == map[]
    {
      this.inner := inner;
      etags := map[];
    }

    /**
     * `etagClient.Do`. The caller's request is left untouched; the transport gets a clone
     * that carries the cached entity tag as `If-None-Match` exactly when the request is a
     * PUT to `.../manifests/<tag>` and `<tag>` is cached. The transport's reply is returned
     * as it came. A non-empty `ETag` in any reply the transport returns (whatever its HTTP
     * status) from a `.../manifests/<tag>` endpoint, whatever the method, becomes the cached value for `<tag>`; nothing else is
     * written to the cache.
     */
    method Do(originalReq: Request) returns (r: Result<Response, string>)
      modifies this, inner
      ensures originalReq.header == old(originalReq.header)
      ensures var (seg, tag) := LastTwo(originalReq.path);
        var attach := originalReq.verb == MethodPut && seg == ManifestsSegment && tag in old(etags);
        inner.sent == old(inner.sent) + [Sent(originalReq.verb, originalReq.path,
          if attach then HeaderAdd(originalReq.header, HeaderIfNoneMatch, old(etags)[tag])
          else originalReq.header)]
      ensures old(inner.replies) == [] ==> r.Err? && inner.replies == []
      ensures old(inner.replies) != [] ==> r == old(inner.replies)[0] && inner.replies == old(inner.replies)[1..]
      ensures var (seg, tag) := LastTwo(originalReq.path);
        if r.Ok? && HeaderGet(r.value.header, HeaderETag) != "" && seg == ManifestsSegment
        then etags == old(etags)[tag := HeaderGet(r.value.header, HeaderETag)]
        else etags == old(etags)
    {
      var req := originalReq.Clone();

      var (seg, tag) := LastTwo(req.path);
      if req.verb == MethodPut {
        if seg == ManifestsSegment {
          if tag in etags {
            var etag := etags[tag];
            req.header := HeaderAdd(req.header, HeaderIfNoneMatch, etag);
          }
        }
      }

      r := inner.Do(req);
      if r.Err? {
        return;
      }

      var etag := HeaderGet(r.value.header, HeaderETag);
      if etag != "" {
        if seg == ManifestsSegment {
          etags := etags[tag := etag];
        }
      }
    }
  }

  /**
   * The sequence `Acquire` relies on after initialising a tag: resolving it (a HEAD on its
   * manifest endpoint) caches the entity tag, so the next PUT of that tag's manifest is
   * sent with it as `If-None-Match`.
   */
  method ResolveThenPut(repoName: string, tag: string, etag: string) returns (sentHeader: Header)
    requires repoName != "" && tag != "" && '/' !in tag && etag != ""
    ensures HeaderGet(sentHeader, HeaderIfNoneMatch) == etag
  {
    var path := "/v2/" + repoName + "/" + ManifestsSegment + "/" + tag;
    LastTwoOfPath("/v2/" + repoName, ManifestsSegment, tag);
    assert path == ("/v2/" + repoName) + "/" + ManifestsSegment + "/" + tag;

    var ok := Ok(Response(200, map[HeaderETag := [etag]]));
    var transport := new Transport([ok, ok]);
    var client := new EtagClient(transport);

    var head := new Request("HEAD", path, map[]);
    var _ := client.Do(head);
    assert client.etags == map[tag := etag];

    var put := new Request(MethodPut, path, map[]);
    var _ := client.Do(put);
    sentHeader := transport.sent[1].header;
  }
}
