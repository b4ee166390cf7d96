/**
 * `AudioCodecAmbeDv3k`: the driver side of a DV3K vocoder. It runs the init
 * sequence RESET -> PRODID -> VERSID -> RATEP -> READY, one step per control
 * packet the device answers with. It hands AMBE packets from the device on to
 * the network and speech packets to the decoder. It also builds the packets
 * that carry speech to be encoded and AMBE frames to be decoded.
 *
 * What the codec writes to the device (`send`) is appended to `sent`. The
 * AMBE packets passed to `AudioEncoder::writeEncodedSamples` are appended to
 * `encoded`. The speech packets passed to `unpackDecoded` are appended to
 * `decoded`.
 */
module Dv3k {
  import opened Wrappers
  import opened Dv3kFraming

  datatype State = Offline | Reset | Init | ProdId | VersId | RateP | Ready | Warning | Error

  /** The transport chosen by the TYPE option. */
  datatype Kind = AmbeServer | Tty

  /** The part of the codec's state a received packet can change. */
  datatype Outputs = Outputs(state: State, sent: seq<Packet>, encoded: seq<Packet>, decoded: seq<Packet>)

  /** The state after the device answers with a control packet. */
  function ControlNext(s: State): State {
    match s
    case Reset => ProdId
    case ProdId => VersId
    case VersId => RateP
    case RateP => Ready
    case _ => s
  }

  /** The request sent on that answer. */
  function ControlRequest(s: State): seq<Packet> {
    match s
    case Reset => [REQ_PRODID]
    case ProdId => [REQ_VERSID]
    case VersId => [REQ_RATEP]
    case _ => []
  }

  /** `handleBuffer` on one packet: the type byte (offset 3) decides. */
  function HandleFrame(o: Outputs, f: Packet): (r: Outputs)
    requires |f| >= HEADER_LEN
    ensures r.state == o.state || (f[3] == TYPE_CONTROL && r.state == ControlNext(o.state))
    ensures o.sent <= r.sent && o.encoded <= r.encoded && o.decoded <= r.decoded
    ensures |r.sent| + |r.encoded| + |r.decoded| <= |o.sent| + |o.encoded| + |o.decoded| + 1
  {
    if f[3] == TYPE_CONTROL then
      o.(state := ControlNext(o.state), sent := o.sent + ControlRequest(o.state))
    else if f[3] == TYPE_AMBE then o.(encoded := o.encoded + [f])
    else if f[3] == TYPE_AUDIO then o.(decoded := o.decoded + [f])
    else o
  }

  predicate AllHandleable(fs: seq<Packet>) {
    forall f :: f in fs ==> |f| >= HEADER_LEN
  }

  /** `handleBuffer` on each of `fs` in turn. */
  function HandleAll(o: Outputs, fs: seq<Packet>): Outputs
    requires AllHandleable(fs)
    decreases |fs|
  {
    if fs == [] then o else HandleAll(HandleFrame(o, fs[0]), fs[1..])
  }

  lemma {:induction false} HandleAllAppend(o: Outputs, fs: seq<Packet>, f: Packet)
    requires AllHandleable(fs) && |f| >= HEADER_LEN
    ensures AllHandleable(fs + [f])
    ensures HandleAll(o, fs + [f]) == HandleFrame(HandleAll(o, fs), f)
    decreases |fs|
  {
    if fs != [] {
      assert (fs + [f])[1..] == fs[1..] + [f];
      HandleAllAppend(HandleFrame(o, fs[0]), fs[1..], f);
    }
  }

  /** Only the four init states react to a control packet, each by moving
      one step on; all but RATEP send the next request. */
  lemma ControlSteps(s: State)
    ensures ControlNext(s) != s <==> s in {Reset, ProdId, VersId, RateP}
    ensures ControlRequest(s) != [] <==> s in {Reset, ProdId, VersId}
    ensures s == RateP ==> ControlNext(s) == Ready
  {
  }

  /** Four control answers take a device from RESET to READY, and it sends
      the PRODID, VERSID and RATEP requests in that order on the way. */
  lemma {:induction false} InitSequence(o: Outputs, c1: Packet, c2: Packet, c3: Packet, c4: Packet)
    requires o.state == Reset
    requires |c1| >= HEADER_LEN && |c2| >= HEADER_LEN && |c3| >= HEADER_LEN && |c4| >= HEADER_LEN
    requires c1[3] == c2[3] == c3[3] == c4[3] == TYPE_CONTROL
    ensures AllHandleable([c1, c2, c3, c4])
    ensures HandleAll(o, [c1, c2, c3, c4]).state == Ready
    ensures HandleAll(o, [c1, c2, c3, c4]).sent == o.sent + [REQ_PRODID, REQ_VERSID, REQ_RATEP]
  {
    var o1 := HandleFrame(o, c1);
    var o2 := HandleFrame(o1, c2);
    var o3 := HandleFrame(o2, c3);
    var o4 := HandleFrame(o3, c4);
    assert HandleAll(o3, [c4]) == HandleAll(o4, []) == o4;
    assert [c3, c4][1..] == [c4];
    assert HandleAll(o2, [c3, c4]) == o4;
    assert [c2, c3, c4][1..] == [c3, c4];
    assert HandleAll(o1, [c2, c3, c4]) == o4;
    assert [c1, c2, c3, c4][1..] == [c2, c3, c4];
    assert HandleAll(o, [c1, c2, c3, c4]) == o4;
    assert o4.sent == o.sent + [REQ_PRODID] + [REQ_VERSID] + [REQ_RATEP];
  }

  /** Once READY (or in any state outside the init sequence), received
      packets neither change the state nor make the codec send anything. */
  lemma {:induction false} SettledIsStable(o: Outputs, fs: seq<Packet>)
    requires o.state !in {Reset, ProdId, VersId, RateP}
    requires AllHandleable(fs)
    ensures HandleAll(o, fs).state == o.state && HandleAll(o, fs).sent == o.sent
    decreases |fs|
  {
    if fs != [] {
      assert fs[0] in fs;
      assert forall f :: f in fs[1..] ==> f in fs;
      SettledIsStable(HandleFrame(o, fs[0]), fs[1..]);
    }
  }

  /** A packet of an unknown type changes nothing; a packet that is not a
      control packet never changes the state or sends a request. */
  lemma OtherTypes(o: Outputs, f: Packet)
    requires |f| >= HEADER_LEN
    ensures f[3] !in {TYPE_CONTROL, TYPE_AMBE, TYPE_AUDIO} ==> HandleFrame(o, f) == o
    ensures f[3] != TYPE_CONTROL ==> HandleFrame(o, f).state == o.state && HandleFrame(o, f).sent == o.sent
    ensures f[3] == TYPE_AMBE <==> HandleFrame(o, f).encoded == o.encoded + [f]
  {
  }

  /** Whatever the device answers, the codec only ever writes well-formed
      packets to it while handling those answers. */
  lemma {:induction false} SentAreFrames(o: Outputs, fs: seq<Packet>)
    requires forall p :: p in o.sent ==> IsFrame(p)
    requires AllHandleable(fs)
    ensures forall p :: p in HandleAll(o, fs).sent ==> IsFrame(p)
    decreases |fs|
  {
    if fs != [] {
      RequestsAreFrames();
      assert fs[0] in fs;
      assert forall f :: f in fs[1..] ==> f in fs;
      SentAreFrames(HandleFrame(o, fs[0]), fs[1..]);
    }
  }

  class Device {
    const kind: Kind
    var state: State                 // m_state
    var buffer: seq<uint8>           // t_buffer.data[0 .. stored_bufferlen)
    var sent: seq<Packet>
    var encoded: seq<Packet>
    var decoded: seq<Packet>

    function Out(): Outputs
      reads this`state, this`sent, this`encoded, this`decoded
    {
      Outputs(state, sent, encoded, decoded)
    }

    /** A codec as the constructor leaves it, before `init`. */
    constructor (kind: Kind)
      ensures this.kind == kind && state == Offline
      ensures buffer == [] && sent == [] && encoded == [] && decoded == []
    {
      this.kind := kind;
      state := Offline;
      buffer, sent, encoded, decoded := [], [], [], [];
    }

    /** `init`: the device is asked for its product id and waits for the
        answer to the reset in state RESET. */
    method Init()
      modifies this`state, this`sent
      ensures state == Reset && sent == old(sent) + [REQ_PRODID]
    {
      state := Reset;
      sent := sent + [REQ_PRODID];
    }

    /** `prodid`: request the product id. */
    method RequestProdId()
      modifies this`state, this`sent
      ensures state == ProdId && sent == old(sent) + [REQ_PRODID]
    {
      sent := sent + [REQ_PRODID];
      state := ProdId;
    }

    /** `versid`: request the version string. */
    method RequestVersId()
      modifies this`state, this`sent
      ensures state == VersId && sent == old(sent) + [REQ_VERSID]
    {
      sent := sent + [REQ_VERSID];
      state := VersId;
    }

    /** `ratep`: configure the rate parameters. */
    method RequestRateP()
      modifies this`state, this`sent
      ensures state == RateP && sent == old(sent) + [REQ_RATEP]
    {
      sent := sent + [REQ_RATEP];
      state := RateP;
    }

    /** `handleBuffer` on one complete packet. */
    method HandleBuffer(frame: Packet)
      requires |frame| >= HEADER_LEN
      modifies this`state, this`sent, this`encoded, this`decoded
      ensures Out() == HandleFrame(old(Out()), frame)
    {
      var t := frame[3];
      if t == TYPE_CONTROL {
        if state == Reset {
          RequestProdId();
        } else if state == ProdId {
          RequestVersId();
        } else if state == VersId {
          RequestRateP();
        } else if state == RateP {
          state := Ready;
        }
      } else if t == TYPE_AMBE {
        encoded := encoded + [frame];
      } else if t == TYPE_AUDIO {
        decoded := decoded + [frame];
      }
    }

    /** One pass of the loop of `callback`: seek the first start byte and,
        when the packet there is complete, hand it on and remove it together
        with the bytes before it; otherwise leave everything as it is. */
    method CutFrame() returns (waiting: bool, frame: Packet)
      modifies this`buffer, this`state, this`sent, this`encoded, this`decoded
      ensures waiting ==> NextFrame(buffer) == Wait && buffer == old(buffer) && Out() == old(Out())
      ensures !waiting ==>
                && |frame| >= HEADER_LEN && |buffer| < |old(buffer)|
                && Reassemble(old(buffer)).0 == [frame] + Reassemble(buffer).0
                && Reassemble(old(buffer)).1 == Reassemble(buffer).1
                && Out() == HandleFrame(old(Out()), frame)
    {
      var start := SeekStart(buffer);
      if start.None? {
        return true, [];
      }
      var a := start.value;
      var tlen := (buffer[a + 1] as int) * 256 + buffer[a + 2];
      if a + HEADER_LEN + tlen > |buffer| {
        return true, [];
      }
      frame := buffer[a..a + HEADER_LEN + tlen];
      ReassembleTake(buffer, a, tlen);
      HandleBuffer(frame);
      buffer := buffer[a + HEADER_LEN + tlen..];
      waiting := false;
    }

    /** `callback`: the received bytes are appended to the buffer, and
        complete packets are cut from its front and handled in order until
        fewer than a header's worth of bytes are left, no start byte is
        found, or the packet found is incomplete; the rest is kept. */
    method Callback(input: Packet)
      modifies this`buffer, this`state, this`sent, this`encoded, this`decoded
      ensures buffer == Reassemble(old(buffer) + input).1
      ensures AllHandleable(Reassemble(old(buffer) + input).0)
      ensures Out() == HandleAll(old(Out()), Reassemble(old(buffer) + input).0)
    {
      buffer := buffer + input;
      ghost var whole := buffer;
      ghost var o0 := Out();
      ghost var done: seq<Packet> := [];
      ResumesStart(buffer);
      var waiting := false;
      while |buffer| >= HEADER_LEN && !waiting
        invariant Resumes(whole, done, buffer)
        invariant AllHandleable(done)
        invariant Out() == HandleAll(o0, done)
        invariant waiting ==> NextFrame(buffer) == Wait
        decreases |buffer|, !waiting
      {
        ghost var before := buffer;
        var frame;
        waiting, frame := CutFrame();
        if !waiting {
          ResumesStep(whole, done, before, frame, buffer);
          HandleAllAppend(o0, done, frame);
          done := done + [frame];
        }
      }
      ResumesEnd(whole, done, buffer);
    }

    /** `packForEncoding`: one block of speech samples behind the voice
        header, in a new buffer. */
    method PackForEncoding(audio: Packet) returns (p: array<uint8>)
      requires |audio| == AUDIO_LEN
      ensures fresh(p)
      ensures p[..] == VoicePacket(audio)
    {
      p := new uint8[|VOICE_HEADER| + AUDIO_LEN];
      var i := 0;
      while i < |VOICE_HEADER|
        invariant 0 <= i <= |VOICE_HEADER|
        invariant p[..i] == VOICE_HEADER[..i]
      {
        p[i] := VOICE_HEADER[i];
        i := i + 1;
      }
      while i < p.Length
        invariant |VOICE_HEADER| <= i <= p.Length
        invariant p[..i] == VOICE_HEADER + audio[..i - |VOICE_HEADER|]
      {
        p[i] := audio[i - |VOICE_HEADER|];
        i := i + 1;
      }
      assert audio[..AUDIO_LEN] == audio;
      assert p[..] == p[..p.Length];
    }

    /** `writeEncodedSamples`: the AMBE frame at offset 6 of a packet from
        the network is sent to the device in an AMBE packet. */
    method WriteEncodedSamples(buf: Packet)
      requires |buf| >= AMBE_HEADER_IN_LEN + AMBE_FRAME_LEN
      modifies this`sent
      ensures sent == old(sent) + [AmbePacket(buf)]
    {
      var out := new uint8[|AMBE_HEADER_OUT| + AMBE_FRAME_LEN + |AMBE_WAIT|];
      var i := 0;
      while i < |AMBE_HEADER_OUT|
        invariant 0 <= i <= |AMBE_HEADER_OUT|
        invariant out[..i] == AMBE_HEADER_OUT[..i]
        modifies out
      {
        out[i] := AMBE_HEADER_OUT[i];
        i := i + 1;
      }
      while i < |AMBE_HEADER_OUT| + AMBE_FRAME_LEN
        invariant |AMBE_HEADER_OUT| <= i <= |AMBE_HEADER_OUT| + AMBE_FRAME_LEN
        invariant out[..i] == AMBE_HEADER_OUT + buf[AMBE_HEADER_IN_LEN..AMBE_HEADER_IN_LEN + i - |AMBE_HEADER_OUT|]
        modifies out
      {
        out[i] := buf[AMBE_HEADER_IN_LEN + i - |AMBE_HEADER_OUT|];
        assert buf[AMBE_HEADER_IN_LEN..AMBE_HEADER_IN_LEN + i + 1 - |AMBE_HEADER_OUT|]
            == buf[AMBE_HEADER_IN_LEN..AMBE_HEADER_IN_LEN + i - |AMBE_HEADER_OUT|] + [buf[AMBE_HEADER_IN_LEN + i - |AMBE_HEADER_OUT|]];
        i := i + 1;
      }
      while i < out.Length
        invariant |AMBE_HEADER_OUT| + AMBE_FRAME_LEN <= i <= out.Length
        invariant out[..i] == AMBE_HEADER_OUT + buf[AMBE_HEADER_IN_LEN..AMBE_HEADER_IN_LEN + AMBE_FRAME_LEN]
                             + AMBE_WAIT[..i - |AMBE_HEADER_OUT| - AMBE_FRAME_LEN]
        modifies out
      {
        out[i] := AMBE_WAIT[i - |AMBE_HEADER_OUT| - AMBE_FRAME_LEN];
        i := i + 1;
      }
      assert AMBE_WAIT[..2] == AMBE_WAIT;
      var packet := out[..];
      assert packet == out[..out.Length] == AmbePacket(buf);
      sent := sent + [packet];
    }
  }
}
