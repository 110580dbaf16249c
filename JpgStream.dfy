/** The chunk sink jpg_encode_stream (main/main.c:94-104) with its state
    jpg_chunking_t (main/main.c:82-85), and the streaming JPEG encoder that
    drives it. The encoder is a foreign library: it is modelled only as a
    producer that hands a given, finite list of chunks to the sink, one call
    per chunk, with chunk indices 0, 1, 2, ... */
module JpgStream {
  import opened Esp

  /** The per-request re-encode quality passed to frame2jpg_cb. */
  const ENCODE_QUALITY: nat := 80

  /** One chunk the encoder produces: its length, and what the socket
      write of that chunk returns. */
  datatype Chunk = Chunk(len: SizeT, writeErr: EspErr)

  predicate Written(c: Chunk) {
    c.writeErr == ESP_OK
  }

  /** The value the sink returns to the encoder for one chunk. */
  function Accepted(c: Chunk): SizeT {
    if Written(c) then c.len else 0
  }

  /** The running total after the sink has been called with chunk c at the
      given index, starting from `total`. */
  function SinkStep(total: SizeT, index: nat, c: Chunk): SizeT {
    var base := if index == 0 then 0 else total;
    if Written(c) then (base + c.len) % SIZE_MOD else base
  }

  /** The running total after the chunks cs are fed to the sink with
      indices index, index + 1, ... */
  function RunTotal(total: SizeT, index: nat, cs: seq<Chunk>): SizeT
    decreases |cs|
  {
    if cs == [] then total else RunTotal(SinkStep(total, index, cs[0]), index + 1, cs[1..])
  }

  /** The number of bytes in the chunks whose write succeeded. */
  function WrittenBytes(cs: seq<Chunk>): nat {
    if cs == [] then 0 else Accepted(cs[0]) + WrittenBytes(cs[1..])
  }

  /** The number of bytes in all the chunks. */
  function Bytes(cs: seq<Chunk>): nat {
    if cs == [] then 0 else cs[0].len + Bytes(cs[1..])
  }

  /** The HTTP segments the sink writes for cs, one per chunk. */
  function ChunkEvents(cs: seq<Chunk>): (t: seq<Event>)
    ensures |t| == |cs|
    ensures forall i :: 0 <= i < |cs| ==> t[i] == SendChunk(cs[i].len)
  {
    seq(|cs|, i requires 0 <= i < |cs| => SendChunk(cs[i].len))
  }

  lemma ModAddLeft(a: nat, b: nat)
    ensures (a % SIZE_MOD + b) % SIZE_MOD == (a + b) % SIZE_MOD
  {
  }

  /** Past the first call, the sink only adds: the total grows by the bytes
      whose write succeeded, modulo 2^32. */
  lemma {:induction false} RunTotalAfterFirst(total: SizeT, index: nat, cs: seq<Chunk>)
    requires index > 0
    ensures RunTotal(total, index, cs) == (total + WrittenBytes(cs)) % SIZE_MOD
    decreases |cs|
  {
    if cs != [] {
      var next := SinkStep(total, index, cs[0]);
      RunTotalAfterFirst(next, index + 1, cs[1..]);
      assert next == (total + Accepted(cs[0])) % SIZE_MOD;
      ModAddLeft(total + Accepted(cs[0]), WrittenBytes(cs[1..]));
    }
  }

  /** A run that starts at index 0 forgets whatever total was there before:
      the total is the number of bytes written during the run, modulo 2^32. */
  lemma RunTotalFromStart(total: SizeT, cs: seq<Chunk>)
    requires cs != []
    ensures RunTotal(total, 0, cs) == WrittenBytes(cs) % SIZE_MOD
  {
    var first := SinkStep(total, 0, cs[0]);
    assert first == Accepted(cs[0]) % SIZE_MOD;
    RunTotalAfterFirst(first, 1, cs[1..]);
    ModAddLeft(Accepted(cs[0]), WrittenBytes(cs[1..]));
  }

  /** When every write succeeds, the written bytes are all the bytes. */
  lemma {:induction false} AllWritten(cs: seq<Chunk>)
    requires forall i :: 0 <= i < |cs| ==> Written(cs[i])
    ensures WrittenBytes(cs) == Bytes(cs)
  {
    if cs != [] {
      AllWritten(cs[1..]);
    }
  }

  /** A stream of chunks of 100, 250, 4096 and 37 bytes, all written,
      leaves a total of 4483. */
  lemma FourChunkStream()
    ensures RunTotal(0, 0, [Chunk(100, ESP_OK), Chunk(250, ESP_OK), Chunk(4096, ESP_OK), Chunk(37, ESP_OK)]) == 4483
  {
    var cs := [Chunk(100, ESP_OK), Chunk(250, ESP_OK), Chunk(4096, ESP_OK), Chunk(37, ESP_OK)];
    RunTotalFromStart(0, cs);
    AllWritten(cs);
    assert Bytes(cs[3..]) == 37 by {
      assert cs[3..][1..] == [];
    }
    assert cs[2..][1..] == cs[3..];
    assert cs[1..][1..] == cs[2..];
    assert Bytes(cs) == 100 + Bytes(cs[1..]) == 350 + Bytes(cs[2..]) == 4446 + Bytes(cs[3..]);
  }

  /** jpg_chunking_t: the response the chunks go to, and the running total. */
  class JpgChunking {
    const req: Device
    var len: SizeT

    constructor (req: Device)
      ensures this.req == req && len == 0
    {
      this.req := req;
      len := 0;
    }

    /** jpg_encode_stream: the encoder's callback for the chunk of n bytes at
        the given index; `writeErr` is what the socket write returns. */
    method EncodeStream(index: nat, n: SizeT, writeErr: EspErr) returns (accepted: SizeT)
      modifies this`len, req`trace
      ensures req.trace == old(req.trace) + [SendChunk(n)]
      ensures accepted == (if writeErr == ESP_OK then n else 0)
      ensures writeErr != ESP_OK ==> len == (if index == 0 then 0 else old(len))
      ensures writeErr == ESP_OK ==> len == ((if index == 0 then 0 else old(len)) + n) % SIZE_MOD
      ensures accepted == Accepted(Chunk(n, writeErr))
      ensures len == SinkStep(old(len), index, Chunk(n, writeErr))
    {
      if index == 0 {
        len := 0;
      }
      var err := req.RespSendChunk(n, writeErr);
      if err != ESP_OK {
        return 0;
      }
      len := (len + n) % SIZE_MOD;
      return n;
    }
  }

  /** frame2jpg_cb as an abstract producer: it emits the chunks cs to the
      sink in order, then reports `encodeOk`. */
  method Frame2JpgCb(fb: Frame, quality: nat, sink: JpgChunking, cs: seq<Chunk>, encodeOk: bool)
    returns (ok: bool)
    modifies sink`len, sink.req`trace
    ensures ok == encodeOk
    ensures sink.len == RunTotal(old(sink.len), 0, cs)
    ensures sink.req.trace == old(sink.req.trace) + [Encode(quality)] + ChunkEvents(cs)
  {
    sink.req.EncodeStart(quality);
    var i := 0;
    while i < |cs|
      invariant 0 <= i <= |cs|
      invariant RunTotal(sink.len, i, cs[i..]) == RunTotal(old(sink.len), 0, cs)
      invariant sink.req.trace == old(sink.req.trace) + [Encode(quality)] + ChunkEvents(cs[..i])
    {
      assert cs[i..][1..] == cs[i + 1..];
      assert cs[..i + 1] == cs[..i] + [cs[i]];
      var _ := sink.EncodeStream(i, cs[i].len, cs[i].writeErr);
      i := i + 1;
    }
    assert cs[..i] == cs;
    ok := encodeOk;
  }
}
