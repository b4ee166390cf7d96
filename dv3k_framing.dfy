/**
 * The byte framing of the DV3K protocol (AMBE-3000 vocoder chip, as on the
 * ThumbDV dongle or behind an AMBEserver): every packet is the start byte
 * 0x61, a two-byte big-endian payload length, a type byte, and then the rest
 * of the payload, so a packet of payload length `n` is `4 + n` bytes long.
 *
 * `AudioCodecAmbeDv3k::callback` cuts the stream received from the device
 * into such packets. `NextFrame` and `Reassemble` state what the cutting is
 * meant to do; `NextFrameAsWritten` states what the loop of `callback`
 * actually does on one pass, including the passes that never end and the
 * ones that read past the data received.
 */
module Dv3kFraming {
  import opened Wrappers

  type Packet = seq<uint8>

  const START_BYTE: uint8 := 0x61
  const HEADER_LEN: nat := 4
  const TYPE_CONTROL: uint8 := 0x00
  const TYPE_AMBE: uint8 := 0x01
  const TYPE_AUDIO: uint8 := 0x02
  const CONTROL_PRODID: uint8 := 0x30
  const CONTROL_VERSTRING: uint8 := 0x31
  /** Bytes of one block of 8 kHz 16-bit speech handed to the encoder. */
  const AUDIO_LEN: nat := 320
  /** Bytes of one AMBE voice frame. */
  const AMBE_FRAME_LEN: nat := 9
  /** Bytes before the AMBE voice frame in a packet from the network. */
  const AMBE_HEADER_IN_LEN: nat := 6

  /** The requests of the init sequence. */
  const REQ_PRODID: Packet := [START_BYTE, 0x00, 0x01, TYPE_CONTROL, CONTROL_PRODID]
  const REQ_VERSID: Packet := [START_BYTE, 0x00, 0x01, TYPE_CONTROL, CONTROL_VERSTRING]
  const REQ_RATEP: Packet := [START_BYTE, 0x00, 0x07, TYPE_CONTROL, 0x40, 0x0b, 0x03, 0x09, 0x21, 0x32, 0x00]

  /** Header of a speech packet to be encoded: payload 0x0142 = 322 bytes,
      type audio, then the sample-count field 0x00 0xa0 (160 samples). */
  const VOICE_HEADER: Packet := [START_BYTE, 0x01, 0x42, TYPE_AUDIO, 0x00, 0xa0]
  /** Header of an AMBE packet to be decoded: payload 0x000e = 14 bytes. */
  const AMBE_HEADER_OUT: Packet := [START_BYTE, 0x00, 0x0e, TYPE_AMBE, 0x40, 0x01, 0x48]
  /** Trailer of an AMBE packet to be decoded. */
  const AMBE_WAIT: Packet := [0x03, 0xa0]

  /** `p` is one complete DV3K packet. */
  predicate IsFrame(p: Packet) {
    && |p| >= HEADER_LEN
    && p[0] == START_BYTE
    && |p| == HEADER_LEN + (p[1] as int) * 256 + p[2]
  }

  /** The reader accepts offset `a` as the start of a packet: a start byte
      with more than a header's worth of bytes from it to the end. */
  predicate IsStartAt(buf: Packet, a: nat) {
    a + HEADER_LEN < |buf| && buf[a] == START_BYTE
  }

  /** The payload length announced by the header at `a`. */
  function PayloadLen(buf: Packet, a: nat): nat
    requires a + 2 < |buf|
  {
    (buf[a + 1] as int) * 256 + buf[a + 2]
  }

  /** The first accepted start offset at or after `from`. */
  function FindStartFrom(buf: Packet, from: nat): (r: Option<nat>)
    requires from <= |buf|
    ensures r.Some? ==> from <= r.value && IsStartAt(buf, r.value)
                        && forall b :: from <= b < r.value ==> !IsStartAt(buf, b)
    ensures r.None? ==> forall b :: from <= b ==> !IsStartAt(buf, b)
    decreases |buf| - from
  {
    if from == |buf| then None
    else if IsStartAt(buf, from) then Some(from)
    else FindStartFrom(buf, from + 1)
  }

  /** The first accepted start offset of `buf`. */
  function FindStart(buf: Packet): Option<nat> {
    FindStartFrom(buf, 0)
  }

  /** The scan for the start byte: the offsets are tried in increasing order. */
  method SeekStart(buf: Packet) returns (r: Option<nat>)
    ensures r == FindStart(buf)
  {
    var a := 0;
    while a < |buf|
      invariant 0 <= a <= |buf|
      invariant FindStartFrom(buf, a) == FindStart(buf)
      decreases |buf| - a
    {
      if buf[a] == START_BYTE && |buf| - a > HEADER_LEN {
        return Some(a);
      }
      a := a + 1;
    }
    return None;
  }

  /** One pass of the reassembly loop: take the packet that starts at the
      first accepted offset when it is complete, or wait for more bytes. */
  datatype Step = Wait | Take(start: nat, tlen: nat)

  function NextFrame(buf: Packet): (s: Step)
    ensures s.Take? ==>
              && FindStart(buf) == Some(s.start)
              && s.tlen == PayloadLen(buf, s.start)
              && s.start + HEADER_LEN + s.tlen <= |buf|
    ensures s.Wait? ==>
              FindStart(buf).Some? ==> FindStart(buf).value + HEADER_LEN + PayloadLen(buf, FindStart(buf).value) > |buf|
  {
    match FindStart(buf)
    case None => Wait
    case Some(a) =>
      var tlen := PayloadLen(buf, a);
      if a + HEADER_LEN + tlen <= |buf| then Take(a, tlen) else Wait
  }

  /** Everything the reader makes of `buf`: the packets it hands on, in
      order, and the bytes it keeps for the next call. */
  function Reassemble(buf: Packet): (r: (seq<Packet>, Packet))
    ensures r.0 == [] <==> NextFrame(buf) == Wait
    ensures |r.1| <= |buf|
    decreases |buf|
  {
    match NextFrame(buf)
    case Wait => ([], buf)
    case Take(a, tlen) =>
      var next := Reassemble(buf[a + HEADER_LEN + tlen..]);
      ([buf[a..a + HEADER_LEN + tlen]] + next.0, next.1)
  }

  /** When no complete packet is found, everything is kept; this is always
      so for fewer than a header's worth of bytes. */
  lemma ReassembleWait(buf: Packet)
    requires |buf| < HEADER_LEN || NextFrame(buf) == Wait
    ensures NextFrame(buf) == Wait
    ensures Reassemble(buf) == ([], buf)
  {
  }

  /** A complete packet at the first start byte is taken, and the bytes
      before it are dropped with it. */
  lemma ReassembleTake(buf: Packet, a: nat, tlen: nat)
    requires FindStart(buf) == Some(a)
    requires tlen == PayloadLen(buf, a) && a + HEADER_LEN + tlen <= |buf|
    ensures NextFrame(buf) == Take(a, tlen)
    ensures Reassemble(buf).0 == [buf[a..a + HEADER_LEN + tlen]] + Reassemble(buf[a + HEADER_LEN + tlen..]).0
    ensures Reassemble(buf).1 == Reassemble(buf[a + HEADER_LEN + tlen..]).1
  {
    assert NextFrame(buf) == Take(a, tlen);
    var next := Reassemble(buf[a + HEADER_LEN + tlen..]);
    assert Reassemble(buf) == ([buf[a..a + HEADER_LEN + tlen]] + next.0, next.1);
  }

  /** Reading `whole` has handed on `done` so far and goes on with `buf`. */
  ghost predicate Resumes(whole: Packet, done: seq<Packet>, buf: Packet) {
    Reassemble(whole) == (done + Reassemble(buf).0, Reassemble(buf).1)
  }

  lemma ResumesStart(buf: Packet)
    ensures Resumes(buf, [], buf)
  {
    assert [] + Reassemble(buf).0 == Reassemble(buf).0;
  }

  lemma ResumesStep(whole: Packet, done: seq<Packet>, buf: Packet, frame: Packet, next: Packet)
    requires Resumes(whole, done, buf)
    requires Reassemble(buf).0 == [frame] + Reassemble(next).0
    requires Reassemble(buf).1 == Reassemble(next).1
    ensures Resumes(whole, done + [frame], next)
  {
    assert done + ([frame] + Reassemble(next).0) == (done + [frame]) + Reassemble(next).0;
  }

  lemma ResumesEnd(whole: Packet, done: seq<Packet>, buf: Packet)
    requires Resumes(whole, done, buf)
    requires |buf| < HEADER_LEN || NextFrame(buf) == Wait
    ensures Reassemble(whole) == (done, buf)
  {
    ReassembleWait(buf);
    assert done + [] == done;
  }

  /** The packet a step takes is complete. */
  lemma TakenIsFrame(buf: Packet)
    requires NextFrame(buf).Take?
    ensures var s := NextFrame(buf); IsFrame(buf[s.start..s.start + HEADER_LEN + s.tlen])
  {
    var s := NextFrame(buf);
    var f := buf[s.start..s.start + HEADER_LEN + s.tlen];
    assert f[0] == buf[s.start] && f[1] == buf[s.start + 1] && f[2] == buf[s.start + 2];
  }

  /** Every packet handed on is complete. */
  lemma {:induction false} ReassembleFrames(buf: Packet)
    ensures forall p :: p in Reassemble(buf).0 ==> IsFrame(p)
    decreases |buf|
  {
    if NextFrame(buf).Take? {
      var s := NextFrame(buf);
      var tail := buf[s.start + HEADER_LEN + s.tlen..];
      ReassembleFrames(tail);
      TakenIsFrame(buf);
      assert Reassemble(buf).0 == [buf[s.start..s.start + HEADER_LEN + s.tlen]] + Reassemble(tail).0;
    }
  }

  /** The kept bytes are the tail of the input, and nothing more can be
      taken from them. */
  lemma {:induction false} ReassembleRest(buf: Packet)
    ensures |Reassemble(buf).1| <= |buf|
    ensures Reassemble(buf).1 == buf[|buf| - |Reassemble(buf).1|..]
    ensures NextFrame(Reassemble(buf).1) == Wait
    decreases |buf|
  {
    if NextFrame(buf).Take? {
      var s := NextFrame(buf);
      var tail := buf[s.start + HEADER_LEN + s.tlen..];
      ReassembleRest(tail);
      var r := Reassemble(tail).1;
      assert Reassemble(buf).1 == r;
      assert tail[|tail| - |r|..] == buf[|buf| - |r|..];
    }
  }

  /** A complete packet at the front of the input is handed on first, and
      the reader goes on after it. */
  lemma FrameFirst(p: Packet, rest: Packet)
    requires IsFrame(p) && |p| > HEADER_LEN
    ensures Reassemble(p + rest) == ([p] + Reassemble(rest).0, Reassemble(rest).1)
  {
    var buf := p + rest;
    assert IsStartAt(buf, 0);
    assert FindStart(buf) == Some(0);
    assert buf[0..|p|] == p;
    assert buf[|p|..] == rest;
  }

  /** The concatenation of a sequence of packets. */
  function Concat(ps: seq<Packet>): (r: Packet)
    ensures |ps| == 1 ==> r == ps[0]
  {
    if ps == [] then [] else ps[0] + Concat(ps[1..])
  }

  /** Packets written back to back, followed by bytes the reader waits on,
      are read back as those packets, with those bytes kept. */
  lemma {:induction false} ReassembleConcat(ps: seq<Packet>, rest: Packet)
    requires forall p :: p in ps ==> IsFrame(p) && |p| > HEADER_LEN
    requires NextFrame(rest) == Wait
    ensures Reassemble(Concat(ps) + rest) == (ps, rest)
    decreases |ps|
  {
    if ps == [] {
      assert Concat(ps) + rest == rest;
    } else {
      var tailBuf := Concat(ps[1..]) + rest;
      assert Reassemble(ps[0] + tailBuf) == (ps, rest) by {
        forall p | p in ps[1..] ensures IsFrame(p) && |p| > HEADER_LEN {
          assert p in ps;
        }
        assert ps[0] in ps;
        ReassembleConcat(ps[1..], rest);
        FrameFirst(ps[0], tailBuf);
        assert [ps[0]] + ps[1..] == ps;
      }
      assert Concat(ps) + rest == ps[0] + tailBuf by {
        ConcatCons(ps, rest);
      }
    }
  }

  lemma ConcatCons(ps: seq<Packet>, rest: Packet)
    requires ps != []
    ensures Concat(ps) + rest == ps[0] + (Concat(ps[1..]) + rest)
  {
  }

  /** One pass of the loop of `callback` as written. */
  datatype PassAsWritten =
    | Return                           // fewer than 4 bytes, or the packet is incomplete: return
    | Spin                             // no accepted start byte: the pass changes nothing and repeats forever
    | Handle(start: nat, tlen: nat)    // a complete packet is handed on and removed
    | Overrun(start: nat, tlen: nat)   // the length check passes although the packet runs past the data

  /** The loop runs while at least a header's worth of bytes is buffered;
      the inner scan breaks out at the first accepted start byte, and the
      packet is taken when `tlen + 4` fits the whole buffer, whatever its
      offset. When the scan finds no start byte nothing changes. */
  function NextFrameAsWritten(buf: Packet): (p: PassAsWritten)
    ensures p.Spin? <==> |buf| >= HEADER_LEN && FindStart(buf) == None
    ensures (p.Handle? || p.Overrun?) ==>
              && IsStartAt(buf, p.start) && p.tlen == PayloadLen(buf, p.start)
              && p.tlen + HEADER_LEN <= |buf|
    ensures p.Overrun? ==> p.start + HEADER_LEN + p.tlen > |buf|
  {
    if |buf| < HEADER_LEN then Return
    else match FindStart(buf)
      case None => Spin
      case Some(a) =>
        var tlen := PayloadLen(buf, a);
        if tlen + HEADER_LEN <= |buf| then
          (if a + HEADER_LEN + tlen <= |buf| then Handle(a, tlen) else Overrun(a, tlen))
        else Return
  }

  /** Exactly four buffered bytes can never hold an accepted start byte
      (which needs more than four bytes from it to the end), so the loop of
      `callback` never ends. */
  lemma FourBytesSpin(buf: Packet)
    requires |buf| == HEADER_LEN
    ensures NextFrameAsWritten(buf) == Spin
  {
  }

  /** Any buffer of four or more bytes without an accepted start byte spins,
      for instance four bytes of noise on the serial line. */
  lemma NoStartSpins(buf: Packet)
    requires |buf| >= HEADER_LEN
    requires forall a :: 0 <= a < |buf| ==> buf[a] != START_BYTE
    ensures NextFrameAsWritten(buf) == Spin
  {
  }

  /** Two bytes of noise before a packet announcing two payload bytes of
      which only one has arrived: the length check compares against the
      whole buffer and passes, so the packet copy reads one byte past the
      data and the removal of `a + 4 + tlen` bytes exceeds the buffer. */
  lemma OffsetIgnoredOverrun()
    ensures NextFrameAsWritten([0x00, 0x00, START_BYTE, 0x00, 0x02, TYPE_CONTROL, 0x39]) == Overrun(2, 2)
  {
    var buf: Packet := [0x00, 0x00, START_BYTE, 0x00, 0x02, TYPE_CONTROL, 0x39];
    assert !IsStartAt(buf, 0) && !IsStartAt(buf, 1) && IsStartAt(buf, 2);
    assert FindStartFrom(buf, 1) == FindStartFrom(buf, 2);
  }

  /** Wherever the loop as written hands a packet on or returns, the
      corrected step does the same; it differs only where the loop spins or
      overruns, and there it waits for more bytes. */
  lemma AsWrittenAgrees(buf: Packet)
    ensures NextFrameAsWritten(buf).Handle? ==>
              NextFrame(buf) == Take(NextFrameAsWritten(buf).start, NextFrameAsWritten(buf).tlen)
    ensures !NextFrameAsWritten(buf).Handle? <==> NextFrame(buf) == Wait
  {
  }

  /** The speech packet built from one block of samples. */
  function VoicePacket(audio: Packet): Packet {
    VOICE_HEADER + audio
  }

  /** A speech packet of one block is a 326-byte DV3K packet whose bytes
      after the header are the samples. */
  lemma VoicePacketIsFrame(audio: Packet)
    requires |audio| == AUDIO_LEN
    ensures |VoicePacket(audio)| == |VOICE_HEADER| + AUDIO_LEN == 326
    ensures IsFrame(VoicePacket(audio)) && VoicePacket(audio)[3] == TYPE_AUDIO
    ensures VoicePacket(audio)[|VOICE_HEADER|..] == audio
  {
  }

  /** The packet that hands the device the AMBE frame found at offset 6 of
      a packet from the network. */
  function AmbePacket(buf: Packet): Packet
    requires |buf| >= AMBE_HEADER_IN_LEN + AMBE_FRAME_LEN
  {
    AMBE_HEADER_OUT + buf[AMBE_HEADER_IN_LEN..AMBE_HEADER_IN_LEN + AMBE_FRAME_LEN] + AMBE_WAIT
  }

  /** It is an 18-byte DV3K packet of type AMBE carrying exactly those nine
      bytes. */
  lemma AmbePacketIsFrame(buf: Packet)
    requires |buf| >= AMBE_HEADER_IN_LEN + AMBE_FRAME_LEN
    ensures |AmbePacket(buf)| == 18
    ensures IsFrame(AmbePacket(buf)) && AmbePacket(buf)[3] == TYPE_AMBE
    ensures AmbePacket(buf)[|AMBE_HEADER_OUT|..|AMBE_HEADER_OUT| + AMBE_FRAME_LEN]
         == buf[AMBE_HEADER_IN_LEN..AMBE_HEADER_IN_LEN + AMBE_FRAME_LEN]
  {
  }

  /** The init requests are well-formed control packets. */
  lemma RequestsAreFrames()
    ensures IsFrame(REQ_PRODID) && REQ_PRODID[3] == TYPE_CONTROL
    ensures IsFrame(REQ_VERSID) && REQ_VERSID[3] == TYPE_CONTROL
    ensures IsFrame(REQ_RATEP) && REQ_RATEP[3] == TYPE_CONTROL
  {
  }
}
