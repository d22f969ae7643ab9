/** The screenshot handler, in two phases: the capture starts, then the
    rasterisation's outcome is applied. */
module ScreenshotHandler {
  import opened Text
  import opened WorkspaceState

  /** What rasterising the map container produced: a PNG data URL, or a failure
      (of the rasteriser or of reading the canvas back). */
  datatype CaptureOutcome = Rendered(dataUrl: string) | CaptureFailed

  /** The inline style the capture puts on the map container while it runs. */
  const CaptureWillChange: string := "transform"

  const ScreenshotPrefix: string := "map-screenshot-"
  const ScreenshotSuffix: string := ".png"

  /** The download name for a capture taken at `now` milliseconds: the fixed
      prefix, then the timestamp in decimal digits, then ".png"; reading the
      digits back gives the timestamp. */
  function ScreenshotFileName(now: nat): (r: string)
    ensures |r| > |ScreenshotPrefix| + |ScreenshotSuffix|
    ensures r[..|ScreenshotPrefix|] == ScreenshotPrefix
    ensures r[|r| - |ScreenshotSuffix|..] == ScreenshotSuffix
    ensures IsDigits(r[|ScreenshotPrefix|..|r| - |ScreenshotSuffix|])
    ensures DigitsValue(r[|ScreenshotPrefix|..|r| - |ScreenshotSuffix|]) == now
    ensures r[|ScreenshotPrefix|] == '0' ==> now == 0 && |r| == |ScreenshotPrefix| + 1 + |ScreenshotSuffix|
  {
    var digits := Decimal(now);
    var r := ScreenshotPrefix + digits + ScreenshotSuffix;
    assert r[|ScreenshotPrefix|..|r| - |ScreenshotSuffix|] == digits;
    DecimalRoundTrip(now);
    r
  }

  /** Two captures download under the same name exactly when they were taken
      at the same millisecond. */
  lemma ScreenshotNamesDistinct(t1: nat, t2: nat)
    ensures ScreenshotFileName(t1) == ScreenshotFileName(t2) <==> t1 == t2
  {
  }

  /** Starting a capture: the status says so, the container's `willChange` is
      set to "transform", and rasterisation is requested. Nothing else changes;
      the previous `willChange` is what the capture later restores. */
  function CaptureBegin(ws: Workspace): (r: Step)
    ensures r.ws.willChange == CaptureWillChange
    ensures r.ws.status == "Capturing screenshot..." && r.effects == [Rasterize]
    ensures SameLayers(ws, r.ws) && SameAoisAndMarker(ws, r.ws) && r.ws.busy == ws.busy
  {
    Step(ws.(status := "Capturing screenshot...", willChange := CaptureWillChange), [Rasterize])
  }

  /** Finishing a capture: a rendered image is downloaded under the timestamped
      name with status "Screenshot saved", a failure only reports "Screenshot
      failed"; on both paths `willChange` is put back to `saved`, the value the
      capture found when it started. Layers, AOIs and marker are untouched. */
  function CaptureSettle(ws: Workspace, saved: string, outcome: CaptureOutcome, now: nat): (r: Step)
    ensures r.ws.willChange == saved
    ensures outcome.Rendered? ==>
      r.ws.status == "Screenshot saved"
      && r.effects == [Download(ScreenshotFileName(now), PngDataUrl(outcome.dataUrl))]
    ensures outcome.CaptureFailed? ==> r.ws.status == "Screenshot failed" && r.effects == []
    ensures SameLayers(ws, r.ws) && SameAoisAndMarker(ws, r.ws) && r.ws.busy == ws.busy
  {
    match outcome
    case Rendered(url) =>
      Step(ws.(status := "Screenshot saved", willChange := saved),
           [Download(ScreenshotFileName(now), PngDataUrl(url))])
    case CaptureFailed =>
      Step(ws.(status := "Screenshot failed", willChange := saved), [])
  }

  /** The screenshot handler as one step: AOIs, layers and marker unchanged,
      `willChange` as it was before, and the status tells which way it went. */
  function Screenshot(ws: Workspace, outcome: CaptureOutcome, now: nat): (r: Step)
    ensures r.ws.willChange == ws.willChange
    ensures r.ws.status == (if outcome.Rendered? then "Screenshot saved" else "Screenshot failed")
    ensures outcome.Rendered? ==>
      r.effects == [Rasterize, Download(ScreenshotFileName(now), PngDataUrl(outcome.dataUrl))]
    ensures outcome.CaptureFailed? ==> r.effects == [Rasterize]
    ensures SameLayers(ws, r.ws) && SameAoisAndMarker(ws, r.ws) && r.ws.busy == ws.busy
  {
    var start := CaptureBegin(ws);
    var done := CaptureSettle(start.ws, ws.willChange, outcome, now);
    Step(done.ws, start.effects + done.effects)
  }

  /** Captures are not gated. If a second capture starts before the first ends
      and the first ends first, the second restores the "transform" it found,
      so the container keeps `willChange: transform` afterwards. */
  lemma CrossedCapturesLeaveTransform(ws: Workspace, o1: CaptureOutcome, o2: CaptureOutcome, t1: nat, t2: nat)
    ensures
      var first := CaptureBegin(ws).ws;
      var second := CaptureBegin(first).ws;
      var firstDone := CaptureSettle(second, ws.willChange, o1, t1).ws;
      var secondDone := CaptureSettle(firstDone, first.willChange, o2, t2).ws;
      secondDone.willChange == CaptureWillChange
  {
  }
}
