/** The ESP-IDF platform as the camera firmware sees it: error codes, the
    32-bit size_t, camera frame buffers, and a Device object whose ghost trace
    records, in order, every call the firmware makes into the camera driver,
    the JPEG encoder and the HTTP server. The driver, the encoder and the
    server themselves are not modelled: what they return is passed in by the
    caller of each operation. */
module Esp {

  /** esp_err_t. ESP_OK is 0 and ESP_FAIL is -1; every other code is passed
      through unchanged by the firmware. */
  type EspErr = int
  const ESP_OK: EspErr := 0
  const ESP_FAIL: EspErr := -1

  /** size_t is 32 bits wide on the ESP32; additions on it wrap modulo 2^32. */
  const SIZE_MOD: int := 0x1_0000_0000
  type SizeT = x: int | 0 <= x < SIZE_MOD

  /** A nullable reference: None stands for C's NULL. */
  datatype Option<+T> = None | Some(value: T)

  /** The pixel formats the sensor can deliver. */
  datatype PixFormat = Jpeg | Rgb565 | Yuv422 | Grayscale

  /** camera_fb_t: one captured image. Its bytes are not modelled, only
      their number, which is what the firmware uses. */
  datatype Frame = Frame(format: PixFormat, len: SizeT, width: nat, height: nat)

  /** One call into the platform, as recorded in a Device's trace. */
  datatype Event =
    | Acquire(got: bool)              // esp_camera_fb_get; got is false when it returned NULL
    | Release                         // esp_camera_fb_return
    | Send500                         // httpd_resp_send_500
    | SetType(contentType: string)    // httpd_resp_set_type
    | SetHdr(field: string, value: string) // httpd_resp_set_hdr
    | Send(n: SizeT)                  // httpd_resp_send: a fixed-length body of n bytes
    | SendChunk(n: SizeT)             // httpd_resp_send_chunk: one chunked segment of n bytes
    | Encode(quality: nat)            // frame2jpg_cb: start of a streaming JPEG encode
    | Start(ok: bool)                 // httpd_start; ok is false when it failed
    | RegisterGet(uri: string)        // httpd_register_uri_handler for a GET route
    | Stop                            // httpd_stop

  /** The number of occurrences of e in t. */
  function Count(t: seq<Event>, e: Event): (n: nat)
    ensures n <= |t|
    ensures n == 0 <==> e !in t
  {
    if t == [] then 0 else (if t[0] == e then 1 else 0) + Count(t[1..], e)
  }

  lemma {:induction false} CountAppend(a: seq<Event>, b: seq<Event>, e: Event)
    ensures Count(a + b, e) == Count(a, e) + Count(b, e)
  {
    if a == [] {
      assert a + b == b;
    } else {
      assert (a + b)[1..] == a[1..] + b;
      CountAppend(a[1..], b, e);
    }
  }

  /** The camera driver and the HTTP response of the current request, as far
      as the firmware can observe them, plus the firmware's global fb_len. */
  class Device {
    /** Every platform call made so far, oldest first. */
    ghost var trace: seq<Event>
    /** Frame buffers the driver has handed out and not yet taken back. */
    ghost var outstanding: nat
    /** fb_len: the number of image bytes the last capture sent. */
    var fbLen: SizeT

    constructor ()
      ensures trace == [] && outstanding == 0 && fbLen == 0
    {
      trace := [];
      outstanding := 0;
      fbLen := 0;
    }

    /** esp_camera_fb_get; `captured` is what the driver produces. */
    method CameraFbGet(captured: Option<Frame>) returns (fb: Option<Frame>)
      modifies this`trace, this`outstanding
      ensures fb == captured
      ensures trace == old(trace) + [Acquire(captured.Some?)]
      ensures outstanding == old(outstanding) + (if captured.Some? then 1 else 0)
    {
      fb := captured;
      trace := trace + [Acquire(captured.Some?)];
      if captured.Some? {
        outstanding := outstanding + 1;
      }
    }

    /** esp_camera_fb_return: only a frame that is out may be given back. */
    method CameraFbReturn(fb: Frame)
      requires outstanding > 0
      modifies this`trace, this`outstanding
      ensures trace == old(trace) + [Release]
      ensures outstanding == old(outstanding) - 1
    {
      trace := trace + [Release];
      outstanding := outstanding - 1;
    }

    /** httpd_resp_send_500. */
    method RespSend500()
      modifies this`trace
      ensures trace == old(trace) + [Send500]
    {
      trace := trace + [Send500];
    }

    /** httpd_resp_set_type; `outcome` is what the server returns. */
    method RespSetType(contentType: string, outcome: EspErr) returns (err: EspErr)
      modifies this`trace
      ensures err == outcome
      ensures trace == old(trace) + [SetType(contentType)]
    {
      trace := trace + [SetType(contentType)];
      err := outcome;
    }

    /** httpd_resp_set_hdr; `outcome` is what the server returns. */
    method RespSetHdr(field: string, value: string, outcome: EspErr) returns (err: EspErr)
      modifies this`trace
      ensures err == outcome
      ensures trace == old(trace) + [SetHdr(field, value)]
    {
      trace := trace + [SetHdr(field, value)];
      err := outcome;
    }

    /** httpd_resp_send of an n-byte body; `outcome` is what the server returns. */
    method RespSend(n: SizeT, outcome: EspErr) returns (err: EspErr)
      modifies this`trace
      ensures err == outcome
      ensures trace == old(trace) + [Send(n)]
    {
      trace := trace + [Send(n)];
      err := outcome;
    }

    /** httpd_resp_send_chunk of an n-byte segment (n = 0 ends the body);
        `outcome` is what the server returns. */
    method RespSendChunk(n: SizeT, outcome: EspErr) returns (err: EspErr)
      modifies this`trace
      ensures err == outcome
      ensures trace == old(trace) + [SendChunk(n)]
    {
      trace := trace + [SendChunk(n)];
      err := outcome;
    }

    /** The start of frame2jpg_cb at the given quality. */
    method EncodeStart(quality: nat)
      modifies this`trace
      ensures trace == old(trace) + [Encode(quality)]
    {
      trace := trace + [Encode(quality)];
    }
  }
}
