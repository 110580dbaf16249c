/** The capture handler cam_handler (main/main.c:106-136): it serves GET /cam
    with one camera frame as JPEG. It acquires a frame, sets the content type
    and the Content-Disposition header, sends the frame either whole (when the
    sensor already delivers JPEG) or re-encoded as a chunked body, and gives
    the frame back to the driver.

    HandlerTrace, HandlerResult and HandlerFbLen say, as functions of what the
    platform returns, which calls the handler makes, what it returns and what
    it leaves in fb_len; CamHandler is proved to behave so, and the lemmas
    below state the handler's resource and error-handling promises about
    those functions. */
module Capture {
  import opened Esp
  import opened JpgStream

  const IMAGE_JPEG: string := "image/jpeg"
  const CONTENT_DISPOSITION: string := "Content-Disposition"
  const INLINE_CAPTURE: string := "inline; filename=capture.jpg"

  /** What the platform returns to the handler during one request. */
  datatype Outcomes = Outcomes(
    captured: Option<Frame>,   // esp_camera_fb_get
    typeErr: EspErr,           // httpd_resp_set_type
    hdrErr: EspErr,            // httpd_resp_set_hdr
    sendErr: EspErr,           // httpd_resp_send (JPEG frames)
    chunks: seq<Chunk>,        // the chunks frame2jpg_cb emits (other frames)
    encodeOk: bool,            // the verdict of frame2jpg_cb
    terminatorErr: EspErr)     // the closing zero-length httpd_resp_send_chunk

  /** The result of setting the two response headers; the header is only
      attempted when the content type was set. */
  function HeaderErr(o: Outcomes): EspErr {
    if o.typeErr != ESP_OK then o.typeErr else o.hdrErr
  }

  function HeaderEvents(o: Outcomes): seq<Event> {
    [SetType(IMAGE_JPEG)] + (if o.typeErr == ESP_OK then [SetHdr(CONTENT_DISPOSITION, INLINE_CAPTURE)] else [])
  }

  function BodyEvents(fb: Frame, o: Outcomes): seq<Event> {
    if fb.format == Jpeg then [Send(fb.len)]
    else [Encode(ENCODE_QUALITY)] + ChunkEvents(o.chunks) + [SendChunk(0)]
  }

  /** The platform calls the handler makes, in order. */
  function HandlerTrace(o: Outcomes): seq<Event> {
    match o.captured
    case None => [Acquire(false), Send500]
    case Some(fb) =>
      [Acquire(true)] + HeaderEvents(o)
      + (if HeaderErr(o) == ESP_OK then BodyEvents(fb, o) else [])
      + [Release]
  }

  /** The handler's return value. */
  function HandlerResult(o: Outcomes): EspErr {
    match o.captured
    case None => ESP_FAIL
    case Some(fb) =>
      if HeaderErr(o) != ESP_OK then HeaderErr(o)
      else if fb.format == Jpeg then o.sendErr
      else if o.encodeOk then ESP_OK else ESP_FAIL
  }

  /** fb_len after the handler, given its value before. */
  function HandlerFbLen(o: Outcomes, before: SizeT): SizeT {
    match o.captured
    case None => before
    case Some(fb) =>
      if HeaderErr(o) != ESP_OK then before
      else if fb.format == Jpeg then fb.len
      else RunTotal(0, 0, o.chunks)
  }

  /** No response header is set in t. */
  predicate NoHeaders(t: seq<Event>) {
    forall i :: 0 <= i < |t| ==> !t[i].SetType? && !t[i].SetHdr?
  }

  /** No body is produced in t: nothing sent, whole or chunked, and nothing encoded. */
  predicate NoBody(t: seq<Event>) {
    forall i :: 0 <= i < |t| ==> !t[i].Send? && !t[i].SendChunk? && !t[i].Encode?
  }

  /** cam_handler. */
  method CamHandler(dev: Device, o: Outcomes) returns (res: EspErr)
    modifies dev
    ensures dev.trace == old(dev.trace) + HandlerTrace(o)
    ensures res == HandlerResult(o)
    ensures dev.fbLen == HandlerFbLen(o, old(dev.fbLen))
    ensures dev.outstanding == old(dev.outstanding)
  {
    var fb := dev.CameraFbGet(o.captured);
    if fb.None? {
      dev.RespSend500();
      return ESP_FAIL;
    }
    res := dev.RespSetType(IMAGE_JPEG, o.typeErr);
    if res == ESP_OK {
      res := dev.RespSetHdr(CONTENT_DISPOSITION, INLINE_CAPTURE, o.hdrErr);
    }
    if res == ESP_OK {
      if fb.value.format == Jpeg {
        dev.fbLen := fb.value.len;
        res := dev.RespSend(fb.value.len, o.sendErr);
      } else {
        var jchunk := new JpgChunking(dev);
        var encoded := Frame2JpgCb(fb.value, ENCODE_QUALITY, jchunk, o.chunks, o.encodeOk);
        res := if encoded then ESP_OK else ESP_FAIL;
        var _ := dev.RespSendChunk(0, o.terminatorErr);
        dev.fbLen := jchunk.len;
      }
    }
    dev.CameraFbReturn(fb.value);
  }

  /** A failed capture is answered with a 500 and ESP_FAIL; no header, no
      body, no release, and fb_len is left alone. */
  lemma FailedAcquisition(o: Outcomes, before: SizeT)
    requires o.captured.None?
    ensures HandlerTrace(o) == [Acquire(false), Send500]
    ensures HandlerResult(o) == ESP_FAIL
    ensures HandlerFbLen(o, before) == before
    ensures Count(HandlerTrace(o), Release) == 0
    ensures NoHeaders(HandlerTrace(o)) && NoBody(HandlerTrace(o))
  {
  }

  /** A trace that opens with a successful acquire and closes with the one
      release, with neither in between. */
  lemma {:induction false} Bracketed(middle: seq<Event>)
    requires Release !in middle && Acquire(true) !in middle
    ensures var t := [Acquire(true)] + middle + [Release];
      Count(t, Release) == Count(t, Acquire(true)) == 1 &&
      t[|t| - 1] == Release && Release !in t[..|t| - 1]
  {
    var t := [Acquire(true)] + middle + [Release];
    assert t[..|t| - 1] == [Acquire(true)] + middle;
    CountAppend([Acquire(true)] + middle, [Release], Release);
    CountAppend([Acquire(true)], middle, Release);
    CountAppend([Acquire(true)] + middle, [Release], Acquire(true));
    CountAppend([Acquire(true)], middle, Acquire(true));
  }

  /** Every frame that is acquired is released exactly once, as the last
      call of the request; no frame is released that was not acquired. */
  lemma ReleaseExactlyOnce(o: Outcomes)
    ensures Count(HandlerTrace(o), Release) == Count(HandlerTrace(o), Acquire(true))
    ensures Count(HandlerTrace(o), Release) == (if o.captured.Some? then 1 else 0)
    ensures o.captured.Some? ==>
      var t := HandlerTrace(o);
      t[|t| - 1] == Release && Release !in t[..|t| - 1]
  {
    if o.captured.Some? {
      var body := if HeaderErr(o) == ESP_OK then BodyEvents(o.captured.value, o) else [];
      var middle := HeaderEvents(o) + body;
      assert forall i :: 0 <= i < |middle| ==> middle[i] != Release && middle[i] != Acquire(true);
      assert HandlerTrace(o) == [Acquire(true)] + middle + [Release];
      Bracketed(middle);
    }
  }

  /** When the content type or the header cannot be set, nothing is sent or
      encoded, the handler returns that error, and the frame is still
      released; after a failed content type the header is not attempted. */
  lemma HeaderFailure(o: Outcomes, before: SizeT)
    requires o.captured.Some? && HeaderErr(o) != ESP_OK
    ensures HandlerResult(o) == HeaderErr(o) != ESP_OK
    ensures NoBody(HandlerTrace(o))
    ensures HandlerFbLen(o, before) == before
    ensures o.typeErr != ESP_OK ==> HandlerTrace(o) == [Acquire(true), SetType(IMAGE_JPEG), Release]
    ensures o.typeErr == ESP_OK ==>
      HandlerTrace(o) == [Acquire(true), SetType(IMAGE_JPEG), SetHdr(CONTENT_DISPOSITION, INLINE_CAPTURE), Release]
  {
  }

  /** A JPEG frame goes out as one body of exactly its length, with no
      chunked writes; the handler returns that send's result and records
      the frame's length in fb_len. */
  lemma JpegPassthrough(o: Outcomes, before: SizeT)
    requires o.captured.Some? && o.captured.value.format == Jpeg && HeaderErr(o) == ESP_OK
    ensures HandlerTrace(o) == [Acquire(true), SetType(IMAGE_JPEG), SetHdr(CONTENT_DISPOSITION, INLINE_CAPTURE),
                                Send(o.captured.value.len), Release]
    ensures var t := HandlerTrace(o); forall i :: 0 <= i < |t| ==> !t[i].SendChunk? && !t[i].Encode?
    ensures HandlerResult(o) == o.sendErr
    ensures HandlerFbLen(o, before) == o.captured.value.len
  {
  }

  /** The calls of a request for a non-JPEG frame up to the encoder's first chunk. */
  function StreamPrefix(): seq<Event> {
    [Acquire(true), SetType(IMAGE_JPEG), SetHdr(CONTENT_DISPOSITION, INLINE_CAPTURE), Encode(ENCODE_QUALITY)]
  }

  /** Any other frame is encoded once at quality 80, its chunks are written
      as chunked segments, and the body is closed by a zero-length segment
      whatever the encoder reports; no fixed-length body is sent. */
  lemma StreamEncode(o: Outcomes)
    requires o.captured.Some? && o.captured.value.format != Jpeg && HeaderErr(o) == ESP_OK
    ensures HandlerTrace(o) == StreamPrefix() + ChunkEvents(o.chunks) + [SendChunk(0), Release]
    ensures Count(HandlerTrace(o), Encode(ENCODE_QUALITY)) == 1
    ensures var t := HandlerTrace(o); forall i :: 0 <= i < |t| ==> !t[i].Send?
  {
    var chunks := ChunkEvents(o.chunks);
    var tail := chunks + [SendChunk(0), Release];
    StreamShape(o);
    forall i | 0 <= i < |tail| ensures !tail[i].Encode? && !tail[i].Send? {
      if i < |chunks| {
        assert tail[i] == chunks[i];
      }
    }
    EncodedOnce(tail);
    assert StreamPrefix() + ChunkEvents(o.chunks) + [SendChunk(0), Release] == StreamPrefix() + tail;
  }

  /** The calls for a non-JPEG frame whose headers were set. */
  lemma StreamShape(o: Outcomes)
    requires o.captured.Some? && o.captured.value.format != Jpeg && HeaderErr(o) == ESP_OK
    ensures HandlerTrace(o) == StreamPrefix() + (ChunkEvents(o.chunks) + [SendChunk(0), Release])
  {
  }

  /** The stream prefix followed by calls that neither encode nor send a
      fixed-length body encodes exactly once and sends no such body. */
  lemma EncodedOnce(tail: seq<Event>)
    requires forall i :: 0 <= i < |tail| ==> !tail[i].Encode? && !tail[i].Send?
    ensures Count(StreamPrefix() + tail, Encode(ENCODE_QUALITY)) == 1
    ensures var t := StreamPrefix() + tail; forall i :: 0 <= i < |t| ==> !t[i].Send?
  {
    var pre := [Acquire(true), SetType(IMAGE_JPEG), SetHdr(CONTENT_DISPOSITION, INLINE_CAPTURE)];
    assert StreamPrefix() == pre + [Encode(ENCODE_QUALITY)];
    assert Encode(ENCODE_QUALITY) !in pre;
    assert Encode(ENCODE_QUALITY) !in tail;
    CountAppend(StreamPrefix(), tail, Encode(ENCODE_QUALITY));
    CountAppend(pre, [Encode(ENCODE_QUALITY)], Encode(ENCODE_QUALITY));
    var t := StreamPrefix() + tail;
    forall i | 0 <= i < |t| ensures !t[i].Send? {
      if i >= 4 {
        assert t[i] == tail[i - 4];
      }
    }
  }

  /** For a non-JPEG frame the handler returns ESP_OK exactly when the
      encoder succeeded, whatever the closing segment's write returns, and
      fb_len holds the bytes whose write succeeded: all the encoder's bytes
      when every write succeeded. */
  lemma StreamAccounting(o: Outcomes, before: SizeT)
    requires o.captured.Some? && o.captured.value.format != Jpeg && HeaderErr(o) == ESP_OK
    ensures HandlerResult(o) == (if o.encodeOk then ESP_OK else ESP_FAIL)
    ensures HandlerFbLen(o, before) == WrittenBytes(o.chunks) % SIZE_MOD
    ensures (forall i :: 0 <= i < |o.chunks| ==> Written(o.chunks[i])) ==>
      HandlerFbLen(o, before) == Bytes(o.chunks) % SIZE_MOD
  {
    if o.chunks != [] {
      RunTotalFromStart(0, o.chunks);
    }
    if forall i :: 0 <= i < |o.chunks| ==> Written(o.chunks[i]) {
      AllWritten(o.chunks);
    }
  }

  /** The result of the closing zero-length segment never reaches the
      handler's result, trace or fb_len. */
  lemma TerminatorIgnored(o: Outcomes, err: EspErr, before: SizeT)
    ensures HandlerResult(o.(terminatorErr := err)) == HandlerResult(o)
    ensures HandlerTrace(o.(terminatorErr := err)) == HandlerTrace(o)
    ensures HandlerFbLen(o.(terminatorErr := err), before) == HandlerFbLen(o, before)
  {
  }
}
