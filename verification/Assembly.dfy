/**
 Fetching and concatenating stream bodies under a failing network:
 pkg/tidal/download/dash.go (assembleSegments, fetchSegment) and the BTS path of
 download.go (streamURLs, getStream). Every GET, write and context check may fail;
 `content` is what a URL serves when it is read in full.
 */
module Assembly {
  import opened Text

  const ATTEMPTS: nat := 3

  datatype Fetch = Done | ContextCancelled | Exhausted | WriteFailed

  /**
   The HTTP client, with a log of the GETs it was asked to make. When calm it serves all
   it has and the context is never cancelled; otherwise any call may fail.
   */
  class Network {
    const content: map<Str, Str>
    const calm: bool
    var gets: seq<Str>
    var ctxDone: bool // the context has been seen to be done

    constructor (content: map<Str, Str>, calm: bool)
      ensures this.content == content && this.calm == calm && gets == [] && !ctxDone
    {
      this.content, this.calm := content, calm;
      gets, ctxDone := [], false;
    }

    /** One GET read in full: the body, or any failure. */
    method Get(url: Str) returns (ok: bool, body: Str)
      modifies this`gets
      ensures gets == old(gets) + [url]
      ensures ok ==> url in content && body == content[url]
      ensures calm && url in content ==> ok
    {
      gets := gets + [url];
      ok, body := false, [];
      var fails: bool := *;
      if url in content && (calm || !fails) {
        ok, body := true, content[url];
      }
    }

    /** Once the context is done it stays done. */
    method CheckContext() returns (cancelled: bool)
      modifies this`ctxDone
      ensures cancelled == ctxDone && (old(ctxDone) ==> ctxDone)
      ensures calm && !old(ctxDone) ==> !ctxDone
    {
      var ends: bool := *;
      if ends && !calm {
        ctxDone := true;
      }
      return ctxDone;
    }
  }

  /** The part or scratch file being filled. */
  class Sink {
    const calm: bool
    var bytes: Str

    constructor (calm: bool)
      ensures bytes == [] && this.calm == calm
    {
      this.calm := calm;
      bytes := [];
    }

    /** Appends b, or some of it before failing. */
    method Write(b: Str) returns (ok: bool)
      modifies this
      ensures old(bytes) <= bytes <= old(bytes) + b
      ensures ok ==> bytes == old(bytes) + b
      ensures calm ==> ok
    {
      var fails: bool := *;
      if calm || !fails {
        bytes := bytes + b;
        return true;
      }
      var n :| 0 <= n <= |b|;
      assert b[..n] <= b;
      bytes := bytes + b[..n];
      return false;
    }
  }

  function Repeat(url: Str, n: nat): seq<Str> { seq(n, i => url) }

  /** The GET log of fetching urls in order, counts[i] times each. */
  function Runs(urls: seq<Str>, counts: seq<nat>): seq<Str>
    requires |counts| <= |urls|
  {
    if counts == [] then []
    else Repeat(urls[0], counts[0]) + Runs(urls[1..], counts[1..])
  }

  /** The bodies of urls, concatenated in order. */
  function Concat(content: map<Str, Str>, urls: seq<Str>): Str
    requires forall u | u in urls :: u in content
  {
    if urls == [] then [] else content[urls[0]] + Concat(content, urls[1..])
  }

  lemma {:induction false} ConcatSnoc(content: map<Str, Str>, urls: seq<Str>, last: Str)
    requires forall u | u in urls + [last] :: u in content
    ensures Concat(content, urls + [last]) == Concat(content, urls) + content[last]
    decreases |urls|
  {
    if urls == [] {
      assert urls + [last] == [last];
      assert Concat(content, [last][1..]) == [];
    } else {
      assert (urls + [last])[0] == urls[0] && (urls + [last])[1..] == urls[1..] + [last];
      assert forall u | u in urls[1..] + [last] :: u in urls + [last];
      ConcatSnoc(content, urls[1..], last);
    }
  }

  lemma {:induction false} RunsSnoc(urls: seq<Str>, counts: seq<nat>, n: nat)
    requires |counts| < |urls|
    ensures Runs(urls, counts + [n]) == Runs(urls, counts) + Repeat(urls[|counts|], n)
    decreases |counts|
  {
    if counts == [] {
      assert counts + [n] == [n];
      assert Runs(urls[1..], [n][1..]) == [];
    } else {
      assert (counts + [n])[0] == counts[0] && (counts + [n])[1..] == counts[1..] + [n];
      RunsSnoc(urls[1..], counts[1..], n);
      assert urls[1..][|counts| - 1] == urls[|counts|];
    }
  }

  lemma {:induction false} RunsLength(urls: seq<Str>, counts: seq<nat>)
    requires |counts| <= |urls| && forall i | 0 <= i < |counts| :: counts[i] <= 3
    ensures |Runs(urls, counts)| <= 3 * |counts|
    decreases |counts|
  {
    if counts != [] {
      RunsLength(urls[1..], counts[1..]);
    }
  }

  /**
   fetchSegment: a segment is written once, in full, by the attempt that read it;
   cancellation and exhausted retries write nothing.
   */
  method FetchSegment(net: Network, url: Str, dst: Sink) returns (res: Fetch, ghost tries: nat)
    modifies net, dst
    ensures net.gets == old(net.gets) + Repeat(url, tries) && tries <= 3
    ensures res == Done ==> tries >= 1 && url in net.content && dst.bytes == old(dst.bytes) + net.content[url]
    ensures res == Exhausted ==> tries == 3
    ensures res == Exhausted || res == ContextCancelled ==> dst.bytes == old(dst.bytes)
    ensures res == WriteFailed ==>
      url in net.content && old(dst.bytes) <= dst.bytes <= old(dst.bytes) + net.content[url]
    ensures res == ContextCancelled <==> net.ctxDone
    ensures old(net.ctxDone) ==> tries == 0
    ensures net.calm && dst.calm && !old(net.ctxDone) ==>
      if url in net.content then res == Done && tries == 1 else res == Exhausted
  {
    tries := 0;
    for attempt := 0 to ATTEMPTS
      invariant tries == attempt && (net.calm && url in net.content ==> attempt == 0)
      invariant net.gets == old(net.gets) + Repeat(url, tries)
      invariant tries > 0 ==> !net.ctxDone && !old(net.ctxDone)
      invariant tries == 0 ==> net.ctxDone == old(net.ctxDone)
      invariant dst.bytes == old(dst.bytes)
    {
      var cancelled := net.CheckContext();
      if cancelled {
        return ContextCancelled, tries;
      }
      var ok, body := net.Get(url);
      tries := tries + 1;
      assert Repeat(url, tries) == Repeat(url, attempt) + [url];
      if !ok {
        continue;
      }
      var written := dst.Write(body);
      if !written {
        return WriteFailed, tries;
      }
      return Done, tries;
    }
    res := Exhausted;
  }

  /**
   assembleSegments: success writes exactly the bodies in order; whatever happens,
   what was written is those of the first `whole` segments followed by at most part
   of the next, and no segment is asked for more than three times.
   */
  method AssembleSegments(net: Network, urls: seq<Str>, dst: Sink)
    returns (res: Fetch, ghost whole: nat, ghost counts: seq<nat>)
    modifies net, dst
    ensures whole <= |urls| && forall i | 0 <= i < whole :: urls[i] in net.content
    ensures res == Done <==> whole == |urls|
    ensures res == Done ==> dst.bytes == old(dst.bytes) + Concat(net.content, urls)
    ensures res == Exhausted || res == ContextCancelled ==>
      dst.bytes == old(dst.bytes) + Concat(net.content, urls[..whole])
    ensures res == WriteFailed ==>
      var head := old(dst.bytes) + Concat(net.content, urls[..whole]);
      && urls[whole] in net.content
      && head <= dst.bytes <= head + net.content[urls[whole]]
    ensures |counts| == (if res == Done then whole else whole + 1)
    ensures forall i | 0 <= i < |counts| :: counts[i] <= 3
    ensures net.gets == old(net.gets) + Runs(urls, counts)
    ensures res == ContextCancelled ==> net.ctxDone
    ensures net.ctxDone && urls != [] ==> res == ContextCancelled
    ensures net.calm && dst.calm && !old(net.ctxDone) && (forall u | u in urls :: u in net.content) ==> res == Done
  {
    hide Concat, Runs, Repeat;
    whole, counts := 0, [];
    NothingYet(net.content, urls);
    assert urls[..0] == [];
    for i := 0 to |urls|
      invariant whole == i && |counts| == whole
      invariant whole > 0 ==> !net.ctxDone
      invariant whole == 0 ==> net.ctxDone == old(net.ctxDone)
      invariant net.calm && !old(net.ctxDone) ==> !net.ctxDone
      invariant forall k | 0 <= k < whole :: urls[k] in net.content
      invariant forall k | 0 <= k < |counts| :: counts[k] <= 3
      invariant dst.bytes == old(dst.bytes) + Concat(net.content, urls[..whole])
      invariant net.gets == old(net.gets) + Runs(urls, counts)
    {
      ghost var tries;
      res, tries := FetchSegment(net, urls[i], dst);
      RunsSnoc(urls, counts, tries);
      counts := counts + [tries];
      if res != Done {
        return;
      }
      assert urls[..i + 1] == urls[..i] + [urls[i]];
      ConcatSnoc(net.content, urls[..i], urls[i]);
      whole := whole + 1;
    }
    assert urls[..whole] == urls;
    res := Done;
  }

  lemma NothingYet(content: map<Str, Str>, urls: seq<Str>)
    ensures Concat(content, []) == [] && Runs(urls, []) == []
  {
  }

  /**
   streamURL: after a 200 the body is copied straight into the part file, so a
   failure midway leaves a prefix behind and is not retried.
   */
  method StreamURL(net: Network, url: Str, dst: Sink) returns (res: Fetch, ghost tries: nat)
    modifies net, dst
    ensures net.gets == old(net.gets) + Repeat(url, tries) && tries <= 3
    ensures res == Done ==> url in net.content && dst.bytes == old(dst.bytes) + net.content[url]
    ensures res == Exhausted ==> tries == 3
    ensures res == Exhausted || res == ContextCancelled ==> dst.bytes == old(dst.bytes)
    ensures res == WriteFailed ==>
      url in net.content && old(dst.bytes) <= dst.bytes <= old(dst.bytes) + net.content[url]
    ensures res == ContextCancelled <==> net.ctxDone
    ensures old(net.ctxDone) ==> tries == 0
    ensures net.calm && dst.calm && !old(net.ctxDone) ==>
      if url in net.content then res == Done && tries == 1 else res == Exhausted
  {
    tries := 0;
    var found := false;
    var body: Str := [];
    for attempt := 0 to ATTEMPTS
      invariant tries == attempt && !found && (net.calm && url in net.content ==> attempt == 0)
      invariant net.gets == old(net.gets) + Repeat(url, tries)
      invariant tries > 0 ==> !net.ctxDone && !old(net.ctxDone)
      invariant tries == 0 ==> net.ctxDone == old(net.ctxDone)
      invariant dst.bytes == old(dst.bytes)
    {
      var cancelled := net.CheckContext();
      if cancelled {
        return ContextCancelled, tries;
      }
      var ok, b := net.Get(url);
      tries := tries + 1;
      assert Repeat(url, tries) == Repeat(url, attempt) + [url];
      if ok {
        found, body := true, b;
        break;
      }
    }
    if !found {
      return Exhausted, tries;
    }
    var copied := dst.Write(body);
    res := if copied then Done else WriteFailed;
  }

  method StreamURLs(net: Network, urls: seq<Str>, dst: Sink) returns (res: Fetch, ghost whole: nat)
    modifies net, dst
    ensures whole <= |urls| && forall i | 0 <= i < whole :: urls[i] in net.content
    ensures res == Done ==> whole == |urls| && dst.bytes == old(dst.bytes) + Concat(net.content, urls)
    ensures res == Exhausted || res == ContextCancelled ==>
      dst.bytes == old(dst.bytes) + Concat(net.content, urls[..whole])
    ensures res == WriteFailed ==>
      var head := old(dst.bytes) + Concat(net.content, urls[..whole]);
      && whole < |urls| && urls[whole] in net.content
      && head <= dst.bytes <= head + net.content[urls[whole]]
    ensures res == ContextCancelled ==> net.ctxDone
    ensures net.ctxDone && urls != [] ==> res == ContextCancelled
    ensures net.calm && dst.calm && !old(net.ctxDone) && (forall u | u in urls :: u in net.content) ==> res == Done
  {
    hide Concat, Repeat;
    whole := 0;
    NothingYet(net.content, urls);
    assert urls[..0] == [];
    for i := 0 to |urls|
      invariant whole == i
      invariant whole > 0 ==> !net.ctxDone
      invariant whole == 0 ==> net.ctxDone == old(net.ctxDone)
      invariant net.calm && !old(net.ctxDone) ==> !net.ctxDone
      invariant forall k | 0 <= k < whole :: urls[k] in net.content
      invariant dst.bytes == old(dst.bytes) + Concat(net.content, urls[..whole])
    {
      ghost var tries;
      res, tries := StreamURL(net, urls[i], dst);
      if res != Done {
        return;
      }
      assert urls[..i + 1] == urls[..i] + [urls[i]];
      ConcatSnoc(net.content, urls[..i], urls[i]);
      whole := whole + 1;
    }
    assert urls[..whole] == urls;
    res := Done;
  }

  /** A finished assembly never asked more than three times per segment in all. */
  lemma AssemblyBudget(urls: seq<Str>, counts: seq<nat>)
    requires |counts| <= |urls| && forall i | 0 <= i < |counts| :: counts[i] <= 3
    ensures |Runs(urls, counts)| <= 3 * |urls|
  {
    RunsLength(urls, counts);
  }
}
