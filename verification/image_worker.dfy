/**
 * The image-bitmap worker that turns canvas and video frames into base64 data. It keeps two
 * module-level caches: the last encoding sent per canvas id, and the encoding of a blank canvas
 * per "width-height" key. Encodings are opaque strings compared for equality; drawing, blob
 * conversion and base64 encoding are outside the model, so their results arrive as parameters.
 */
module ImageWorker {
  import opened Wrappers

  // ----- the "width-height" cache key -----

  function DigitChar(d: nat): char
    requires d < 10
  {
    "0123456789"[d]
  }

  predicate IsDigitChar(c: char) {
    '0' <= c <= '9'
  }

  /** The decimal text of a number, as a template literal writes it. */
  function Decimal(n: nat): (s: string)
    ensures |s| >= 1 && forall i :: 0 <= i < |s| ==> IsDigitChar(s[i])
  {
    if n < 10 then [DigitChar(n)] else Decimal(n / 10) + [DigitChar(n % 10)]
  }

  function DigitsValue(s: string): nat
    requires forall i :: 0 <= i < |s| ==> IsDigitChar(s[i])
  {
    if s == [] then 0
    else
      assert IsDigitChar(s[|s| - 1]);
      DigitsValue(s[..|s| - 1]) * 10 + (s[|s| - 1] as int - '0' as int)
  }

  /** Reading the decimal text back gives the number. */
  lemma {:induction false} DecimalRoundTrip(n: nat)
    ensures DigitsValue(Decimal(n)) == n
  {
    if n >= 10 {
      DecimalRoundTrip(n / 10);
      var s := Decimal(n);
      assert s[..|s| - 1] == Decimal(n / 10);
    }
  }

  /** `${width}-${height}` */
  function SizeKey(width: nat, height: nat): string {
    Decimal(width) + "-" + Decimal(height)
  }

  /** The index of the first '-' in `s`, or `|s|` when there is none. */
  function FirstDash(s: string): nat {
    if s == [] then 0 else if s[0] == '-' then 0 else 1 + FirstDash(s[1..])
  }

  lemma {:induction false} FirstDashAfterDigits(a: string, b: string)
    requires forall i :: 0 <= i < |a| ==> IsDigitChar(a[i])
    ensures FirstDash(a + "-" + b) == |a|
  {
    if a != [] {
      assert (a + "-" + b)[1..] == a[1..] + "-" + b;
      FirstDashAfterDigits(a[1..], b);
    }
  }

  /** Two sizes share a cache key only when they are the same size. */
  lemma SizeKeyInjective(w1: nat, h1: nat, w2: nat, h2: nat)
    requires SizeKey(w1, h1) == SizeKey(w2, h2)
    ensures w1 == w2 && h1 == h2
  {
    var a1, a2 := Decimal(w1), Decimal(w2);
    var s := SizeKey(w1, h1);
    FirstDashAfterDigits(a1, Decimal(h1));
    FirstDashAfterDigits(a2, Decimal(h2));
    assert a1 == s[..|a1|] == a2;
    assert Decimal(h1) == s[|a1| + 1..] == Decimal(h2);
    DecimalRoundTrip(w1);
    DecimalRoundTrip(w2);
    DecimalRoundTrip(h1);
    DecimalRoundTrip(h2);
  }

  // ----- the worker's decision -----

  /** `ImageBitmapDataURLWorkerParams` without the bitmap itself. */
  datatype Request = Request(id: int, width: nat, height: nat, dx: int, dy: int, dw: int, dh: int, logDebug: bool)

  /** `ImageBitmapDataURLWorkerResponse` */
  datatype Response =
    | Unsupported(id: int)
    | Transparent(id: int)
    | Data(id: int, blobType: string, base64: string, width: nat, height: nat, dx: int, dy: int, dw: int, dh: int)

  /** `getTransparentBlobFor` on the size cache: reuse a cached encoding, else store `blank`. */
  function TransparentLookup(cache: map<string, string>, width: nat, height: nat, offscreen: bool, blank: string)
    : (r: (string, map<string, string>))
    ensures !offscreen ==> r == ("", cache)
    ensures offscreen ==> SizeKey(width, height) in r.1 && r.1[SizeKey(width, height)] == r.0
    ensures offscreen && SizeKey(width, height) in cache ==> r == (cache[SizeKey(width, height)], cache)
    ensures offscreen && SizeKey(width, height) !in cache ==> r == (blank, cache[SizeKey(width, height) := blank])
  {
    var key := SizeKey(width, height);
    if !offscreen then ("", cache)
    else if key in cache then (cache[key], cache)
    else (blank, cache[key := blank])
  }

  /** A second request for the same size reuses the first answer, whatever a new blank would encode to. */
  lemma TransparentCached(cache: map<string, string>, width: nat, height: nat, blank1: string, blank2: string)
    ensures var (r1, c1) := TransparentLookup(cache, width, height, true, blank1);
      TransparentLookup(c1, width, height, true, blank2) == (r1, c1)
  {
  }

  /**
   * `onmessage`: the reply and the new `lastBlobMap`, given whether OffscreenCanvas exists, the
   * blank encoding for this size and the frame's blob type and encoding.
   */
  function Decide(last: map<int, string>, req: Request, offscreen: bool, transparent: string,
                  blobType: string, base64: string): (Response, map<int, string>)
  {
    if !offscreen then (Unsupported(req.id), last)
    else if req.id !in last && transparent == base64 then (Transparent(req.id), last[req.id := base64])
    else (Data(req.id, blobType, base64, req.width, req.height, req.dx, req.dy, req.dw, req.dh), last[req.id := base64])
  }

  /** Without OffscreenCanvas the reply is exactly `unsupported` and nothing is remembered. */
  lemma UnsupportedWithoutOffscreen(last: map<int, string>, req: Request, transparent: string, blobType: string, base64: string)
    ensures Decide(last, req, false, transparent, blobType, base64) == (Unsupported(req.id), last)
  {
  }

  /** A frame is answered `transparent` exactly when it is the id's first and matches the blank encoding. */
  lemma TransparentOnlyOnFirstFrame(last: map<int, string>, req: Request, offscreen: bool, transparent: string,
                                    blobType: string, base64: string)
    ensures Decide(last, req, offscreen, transparent, blobType, base64).0.Transparent? <==>
      offscreen && req.id !in last && transparent == base64
  {
  }

  /** With OffscreenCanvas, whatever the reply, the id's last encoding becomes this frame's; other ids keep theirs. */
  lemma LastBlobRecorded(last: map<int, string>, req: Request, transparent: string, blobType: string, base64: string)
    ensures var (_, last2) := Decide(last, req, true, transparent, blobType, base64);
      last2 == last[req.id := base64]
  {
  }

  /** An unchanged frame is still sent in full. */
  lemma UnchangedFrameStillPosted(last: map<int, string>, req: Request, transparent: string, blobType: string, base64: string)
    requires req.id in last && last[req.id] == base64
    ensures Decide(last, req, true, transparent, blobType, base64).0 ==
      Data(req.id, blobType, base64, req.width, req.height, req.dx, req.dy, req.dw, req.dh)
  {
  }

  /** The worker's module-level state. */
  class Worker {
    var lastBlobMap: map<int, string>
    var transparentBlobMap: map<string, string>
    var logDebug: bool
    /** Every reply posted back, in order. */
    var posted: seq<Response>

    constructor()
      ensures lastBlobMap == map[] && transparentBlobMap == map[] && !logDebug && posted == []
    {
      lastBlobMap := map[];
      transparentBlobMap := map[];
      logDebug := false;
      posted := [];
    }

    /** `getTransparentBlobFor`; `blank` is what encoding an empty canvas of this size produces. */
    method GetTransparentBlobFor(width: nat, height: nat, offscreen: bool, blank: string) returns (r: string)
      modifies this
      ensures (r, transparentBlobMap) == TransparentLookup(old(transparentBlobMap), width, height, offscreen, blank)
      ensures lastBlobMap == old(lastBlobMap) && logDebug == old(logDebug) && posted == old(posted)
    {
      var key := SizeKey(width, height);
      if offscreen {
        if key in transparentBlobMap {
          return transparentBlobMap[key];
        }
        transparentBlobMap := transparentBlobMap[key := blank];
        return blank;
      } else {
        return "";
      }
    }

    /** `onmessage`, with the results of drawing and encoding the frame given as parameters. */
    method OnMessage(req: Request, offscreen: bool, blank: string, blobType: string, base64: string)
      modifies this
      ensures logDebug == req.logDebug
      ensures var transparent := TransparentLookup(old(transparentBlobMap), req.width, req.height, offscreen, blank);
        var (reply, last) := Decide(old(lastBlobMap), req, offscreen, transparent.0, blobType, base64);
        posted == old(posted) + [reply] && lastBlobMap == last && transparentBlobMap == transparent.1
    {
      logDebug := req.logDebug;
      if offscreen {
        var transparentBase64 := GetTransparentBlobFor(req.width, req.height, offscreen, blank);
        if req.id !in lastBlobMap && transparentBase64 == base64 {
          lastBlobMap := lastBlobMap[req.id := base64];
          posted := posted + [Transparent(req.id)];
          return;
        }
        posted := posted + [Data(req.id, blobType, base64, req.width, req.height, req.dx, req.dy, req.dw, req.dh)];
        lastBlobMap := lastBlobMap[req.id := base64];
      } else {
        posted := posted + [Unsupported(req.id)];
      }
    }
  }
}
