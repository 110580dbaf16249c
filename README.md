# ESP32 network camera: capture pipeline and server lifecycle

This project models, in Dafny, the request-handling core of a small ESP32
camera firmware (`main/main.c`): the handler that serves `GET /cam` with one
camera frame as JPEG, the callback that streams a re-encoded frame as an HTTP
chunked body, and the start/stop logic that keeps the HTTP server running
only while the device has a network address.

The camera driver, the JPEG encoder and the HTTP server are ESP-IDF
components whose code is not part of this model. Each call into them is a
method of `Esp.Device` (or of `Lifecycle.Server` for `httpd_start` and
`httpd_stop`). Each method appends an `Event` to a ghost trace and returns
whatever outcome its caller passes in. Every property below is therefore a
statement about all possible platform behaviours.

Files:

- `Esp.dfy`: the platform's types. These are `esp_err_t`, a 32-bit `size_t`,
  frame buffers and the trace events. It also holds the `Device` class. Its
  ghost `outstanding` counts the frames the driver has handed out, and
  `esp_camera_fb_return` may only be called while that count is positive.
- `JpgStream.dfy`: the chunk sink `jpg_encode_stream` and its
  `jpg_chunking_t` state. It also holds the encoder `frame2jpg_cb`, modelled
  as a producer that feeds a given list of chunks to the sink.
- `Capture.dfy`: `cam_handler`. Three functions give its trace, its result
  and the new `fb_len`, as functions of the platform's outcomes. The method
  is proved to match them, and the lemmas state the handler's promises about
  them.
- `Lifecycle.dfy`: `start_webserver`, `stop_webserver`, `connect_handler`
  and `disconnect_handler`. It has a pure state machine (`Step`, `Run`), an
  independent discipline on traces (`Guarded`: start only with no listener
  live, stop only with one live), and the `Server` class holding the shared
  handle.

Notes on the code as written:

- `fb_len` is assigned by `cam_handler` but is declared nowhere in
  `main/main.c`. It is modelled as the field `Device.fbLen`, a record of the
  image bytes sent, and has no other role.
- The sink resets its total on index 0 *before* it attempts the write. So
  a failed write at index 0 leaves the total at 0, not at its old value. A
  failed write at any other index leaves the total unchanged.
  `JpgChunking.EncodeStream` states both cases.
- `size_t` is 32 bits on this target, so `j->len += len` wraps modulo 2^32.
  The totals are stated modulo 2^32.
- `httpd_resp_set_hdr` is only attempted when `httpd_resp_set_type`
  succeeded. A failure of either skips the body entirely. This is what the
  guards on `res` do (main/main.c:117-122).

## Model

| member | source | states |
|---|---|---|
| `JpgStream.JpgChunking.constructor` | main/main.c:127 | the chunking state starts at a total of 0 and points at the request |
| `JpgStream.JpgChunking.EncodeStream` | main/main.c:94-104 | one chunked segment is attempted for every call. The call returns `len` on a successful write and 0 on a failed one. The total is first reset on index 0, then grows by `len` (mod 2^32) only when the write succeeds; otherwise it stays at the reset or old value |
| `JpgStream.RunTotalAfterFirst` | main/main.c:99-103 | after the first call, a run of chunks adds exactly the bytes whose write succeeded to the total (mod 2^32) |
| `JpgStream.RunTotalFromStart` | main/main.c:96-103 | a run that starts at index 0 forgets any earlier total and ends with the bytes successfully written (mod 2^32) |
| `JpgStream.AllWritten` | main/main.c:99-103 | when every write succeeds, the bytes written are the sum of all chunk lengths |
| `JpgStream.FourChunkStream` | main/main.c:94-104 | chunks of 100, 250, 4096 and 37 bytes, all written, leave a total of 4483 |
| `JpgStream.Frame2JpgCb` | main/main.c:127-128 | the encoder is started once at the given quality. Each of its chunks goes through the sink as one segment, with indices 0, 1, 2, ... The sink's total ends as the run's total, and the encoder's verdict is returned |
| `Esp.Device.CameraFbGet` | main/main.c:111 | acquisition yields the driver's frame or NULL, is recorded, and makes one more frame outstanding only on success |
| `Esp.Device.CameraFbReturn` | main/main.c:133 | a frame can only be returned while one is outstanding, and returning it makes one fewer outstanding |
| `Capture.CamHandler` | main/main.c:106-136 | the handler makes exactly the calls of `HandlerTrace`, returns `HandlerResult`, and leaves `HandlerFbLen` in `fb_len`. The number of outstanding frames is the same after the handler as before it |
| `Capture.FailedAcquisition` | main/main.c:111-116 | a NULL frame is answered with a 500 and `ESP_FAIL`. There is no header, no body and no release, and `fb_len` is left alone |
| `Capture.Bracketed` | main/main.c:111-133 | a trace that opens with a successful acquire and closes with a release, with neither in between, has exactly one of each, and the release comes last |
| `Capture.ReleaseExactlyOnce` | main/main.c:111-135 | on every path the number of releases equals the number of successful acquisitions (1 or 0). The release is the last call and nothing before it is a release |
| `Capture.HeaderFailure` | main/main.c:117-135 | if the content type or the header cannot be set, no body is sent or encoded and the handler returns that error code. The header is not attempted after a failed content type, the frame is still released, and `fb_len` is unchanged |
| `Capture.JpegPassthrough` | main/main.c:123-125 | a JPEG frame is sent as one body of exactly `fb->len` bytes, with no chunk and no encode. The result is that send's result, and `fb_len` becomes `fb->len` |
| `Capture.StreamEncode` | main/main.c:126-131 | any other frame is encoded exactly once at quality 80, and its chunks become segments. A zero-length segment closes the body, then comes the release. No fixed-length body is sent |
| `Capture.StreamAccounting` | main/main.c:127-130 | for a non-JPEG frame the result is `ESP_OK` exactly when the encoder succeeded, otherwise `ESP_FAIL`. `fb_len` is the bytes written (all chunk bytes when every write succeeded), mod 2^32 |
| `Capture.TerminatorIgnored` | main/main.c:128-130 | what the closing zero-length segment's write returns does not affect the result, the calls made or `fb_len` |
| `Lifecycle.StartRoutes` | main/main.c:159-168 | a successful start registers exactly the GET routes "/" and "/cam", in that order; a failed one registers none |
| `Lifecycle.ConnectGuard` | main/main.c:188-196 | connect with a non-NULL handle changes nothing and makes no call. With a NULL handle it runs `start_webserver`, and the handle is non-NULL afterwards exactly when the start succeeded |
| `Lifecycle.DisconnectGuard` | main/main.c:177-186 | disconnect always leaves the handle NULL, and it calls `httpd_stop` exactly when the handle was non-NULL |
| `Lifecycle.ConnectTwice` | main/main.c:188-196 | once a connect has left a server running, a second connect is a no-op. Two connects never leave more than one listener live |
| `Lifecycle.DisconnectTwice` | main/main.c:177-186 | two disconnects in a row leave the handle NULL and stop the server at most once |
| `Lifecycle.StartGuarded` | main/main.c:151-169 | a start attempt made with no listener live keeps the discipline, and leaves one live exactly when `httpd_start` succeeded |
| `Lifecycle.StepGuarded` | main/main.c:177-196 | every connectivity event keeps the start/stop discipline and moves the live-listener count in step with the handle |
| `Lifecycle.RunGuarded` | main/main.c:177-196 | every sequence of events keeps the discipline. The listeners left live are exactly those the final handle stands for |
| `Lifecycle.AtMostOneListener` | main/main.c:151-196 | from a NULL handle, every sequence of connectivity events keeps 0 or 1 listeners live at every point, and ends with one exactly when the handle is non-NULL |
| `Lifecycle.Server.StartWebserver` | main/main.c:151-169 | `start_webserver` returns the new handle on success and NULL on failure. On success it starts one listener and registers both routes |
| `Lifecycle.Server.StopWebserver` | main/main.c:171-175 | `stop_webserver` stops one live listener |
| `Lifecycle.Server.ConnectHandler` | main/main.c:188-196 | `connect_handler` follows `Step` and its calls follow `StepEvents`. It keeps the invariant that the live listeners number 1 exactly when the handle is non-NULL, and that the trace is guarded |
| `Lifecycle.Server.DisconnectHandler` | main/main.c:177-186 | `disconnect_handler` follows `Step` and `StepEvents` and keeps the same invariant |
| `Lifecycle.Server.constructor` | main/main.c:201 | the shared handle starts NULL, with no listener live and no calls made |

## Left out

- The camera driver, the JPEG encoder and the HTTP server are not part of
  this model. Their results are parameters. Socket I/O, HTTP framing and the
  bytes of frames and chunks are not modelled; only lengths are.
- `JpgStream.Frame2JpgCb`: the encoder's internals are not modelled. It is a
  producer of a finite chunk list with indices 0, 1, 2, ... and a free
  success verdict. It is not assumed to stop after the sink returns 0, and
  its verdict is not tied to the write results, because neither is shown by
  this code.
- `index_handler` and the linker-embedded page (main/main.c:42-43,
  main/main.c:87-92): a single foreign send of build-time bytes. Only its
  route registration is modelled.
- The camera configuration (main/main.c:24-80): static pin and clock
  constants. The sensor's 0-63 quality scale is unrelated to the encoder's
  quality 80.
- `app_main` (main/main.c:199-229): NVS, netif, event-loop setup,
  `ESP_ERROR_CHECK` aborts and event registration are platform plumbing.
  Its final `server = start_webserver()` (main/main.c:228) bypasses the
  NULL guard. If a "got IP" event has already started a server, that call
  would start a second listener and overwrite the handle. This is a race
  between asynchronous event delivery and `app_main`, and concurrency is not
  modelled. `Lifecycle.Server.StartWebserver` has no guard of its own, so
  calling it directly does not preserve `Server.Valid()`.
- `main/camera.h` declares three prototypes with no definitions; it is not
  part of this model.
- `ESP_LOG*` logging.
