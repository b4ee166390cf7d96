/**
 * Exchanges with a DV3K codec and with the codec factory, driven through
 * their operations: the init handshake fed back as one byte stream, and two
 * users of the same options sharing one codec.
 */
module AmbeScenarios {
  import opened Wrappers
  import opened Dv3kFraming
  import opened Dv3k
  import opened AmbeCodec

  /** The device's answer to a control request: a control packet with a
      one-byte payload. */
  const ACK: Packet := [START_BYTE, 0x00, 0x01, TYPE_CONTROL, 0x00]

  /** A control packet with a payload, as the device answers each request. */
  predicate IsControlAnswer(c: Packet) {
    IsFrame(c) && |c| > HEADER_LEN && c[3] == TYPE_CONTROL
  }

  /** Four answers back to back are read as four packets. */
  lemma FourAnswers(c: Packet)
    requires IsControlAnswer(c)
    ensures Reassemble([] + Concat([c, c, c, c])) == ([c, c, c, c], [])
  {
    assert NextFrame([]) == Wait;
    ReassembleConcat([c, c, c, c], []);
    ghost var bytes := Concat([c, c, c, c]);
    assert bytes + [] == bytes == [] + bytes;
  }

  /** What four answers do to a device that has just sent PRODID in RESET. */
  lemma HandshakeOutcome(o: Outputs, c: Packet)
    requires o.state == Reset && o.sent == [REQ_PRODID]
    requires IsControlAnswer(c)
    ensures AllHandleable([c, c, c, c])
    ensures HandleAll(o, [c, c, c, c]).state == Ready
    ensures HandleAll(o, [c, c, c, c]).sent == [REQ_PRODID, REQ_PRODID, REQ_VERSID, REQ_RATEP]
  {
    InitSequence(o, c, c, c, c);
    ghost var later: seq<Packet> := [REQ_PRODID, REQ_VERSID, REQ_RATEP];
    assert HandleAll(o, [c, c, c, c]).sent == [REQ_PRODID] + later;
  }

  /** A device whose answers to the reset, the product id, the version and
      the rate parameters arrive in one burst of bytes ends up READY, having
      been sent every request of the init sequence once, in order, and keeps
      no bytes. */
  method InitHandshake(c: Packet) returns (d: Device)
    requires IsControlAnswer(c)
    ensures d.state == Ready && d.buffer == []
    ensures d.sent == [REQ_PRODID, REQ_PRODID, REQ_VERSID, REQ_RATEP]
  {
    d := new Device(Tty);
    d.Init();
    FourAnswers(c);
    HandshakeOutcome(d.Out(), c);
    d.Callback(Concat([c, c, c, c]));
  }

  /** The acknowledgement above is such an answer. */
  lemma AckIsControlAnswer()
    ensures IsControlAnswer(ACK)
  {
  }

  /** Keys that share a prefix are ordered by what follows it. */
  lemma {:induction false} LexLessAfterPrefix(p: string, a: string, b: string)
    requires LexLess(a, b)
    ensures LexLess(p + a, p + b)
    decreases |p|
  {
    if p == [] {
      assert p + a == a && p + b == b;
    } else {
      LexLessAfterPrefix(p[1..], a, b);
      assert (p + a)[0] == p[0] == (p + b)[0];
      assert (p + a)[1..] == p[1..] + a && (p + b)[1..] == p[1..] + b;
    }
  }

  /** Either prefix comes off a prefixed key. */
  lemma StripPrefix(x: string)
    ensures RewriteKey(ENC_PREFIX + x) == x && RewriteKey(DEC_PREFIX + x) == x
  {
    RewriteKeySpec("", x);
  }

  /** Two entries in ascending key order. */
  lemma OrderedPair(e1: (string, string), e2: (string, string))
    requires LexLess(e1.0, e2.0)
    ensures InMapOrder([e1, e2])
  {
  }

  /** The options built from one or two entries. */
  lemma TranslatePair(e1: (string, string), e2: (string, string))
    ensures Translate([e1]) == map[RewriteKey(e1.0) := e1.1]
    ensures Translate([e1, e2]) == map[RewriteKey(e1.0) := e1.1][RewriteKey(e2.0) := e2.1]
  {
    assert [e1][..0] == [];
    assert [e1, e2][..1] == [e1];
  }

  /** A decoder key sorts before the encoder key for the same option. */
  lemma DecoderKeyFirst(x: string)
    ensures LexLess(DEC_PREFIX + x, ENC_PREFIX + x)
  {
    var d: string := "DEC_" + x;
    var e: string := "ENC_" + x;
    assert d[0] == 'D' && e[0] == 'E';
    LexLessAfterPrefix("AMBE_", d, e);
    assert DEC_PREFIX + x == "AMBE_" + d;
    assert ENC_PREFIX + x == "AMBE_" + e;
  }

  /** When both the decoder's and the encoder's entry for an option are
      configured, both become the same codec option and the encoder's,
      later in map order, wins. */
  lemma EncoderEntryWins(x: string, dv: string, ev: string)
    ensures InMapOrder([(DEC_PREFIX + x, dv), (ENC_PREFIX + x, ev)])
    ensures Translate([(DEC_PREFIX + x, dv), (ENC_PREFIX + x, ev)]) == map[x := ev]
  {
    DecoderKeyFirst(x);
    OrderedPair((DEC_PREFIX + x, dv), (ENC_PREFIX + x, ev));
    StripPrefix(x);
    TranslatePair((DEC_PREFIX + x, dv), (ENC_PREFIX + x, ev));
  }

  /** The options of a TTY encoder on serial device `dev`. */
  lemma TtyOptions(dev: string)
    ensures InMapOrder([(ENC_PREFIX + "TTY_DEVICE", dev), (ENC_PREFIX + TYPE_KEY, TYPE_TTY)])
    ensures Translate([(ENC_PREFIX + "TTY_DEVICE", dev), (ENC_PREFIX + TYPE_KEY, TYPE_TTY)])
         == map["TTY_DEVICE" := dev, TYPE_KEY := TYPE_TTY]
  {
    assert LexLess("TTY_DEVICE", TYPE_KEY);
    LexLessAfterPrefix(ENC_PREFIX, "TTY_DEVICE", TYPE_KEY);
    OrderedPair((ENC_PREFIX + "TTY_DEVICE", dev), (ENC_PREFIX + TYPE_KEY, TYPE_TTY));
    StripPrefix("TTY_DEVICE");
    StripPrefix(TYPE_KEY);
    TranslatePair((ENC_PREFIX + "TTY_DEVICE", dev), (ENC_PREFIX + TYPE_KEY, TYPE_TTY));
  }

  /** Two users configured with the same options get the same codec; a
      configuration without TYPE, or with an unknown TYPE, is refused and
      leaves the cache as it was; destroying the options' instance empties
      the cache again. */
  method SharedInstance(dev: string, other: string)
    requires other != TYPE_AMBESERVER && other != TYPE_TTY
  {
    var reg := new Registry();
    var entries := [(ENC_PREFIX + "TTY_DEVICE", dev), (ENC_PREFIX + TYPE_KEY, TYPE_TTY)];
    TtyOptions(dev);
    var t := Translate(entries);
    var r1 := Create(reg, entries);
    var r2 := Create(reg, entries);
    assert r1.Success? && r2.Success? && r1.value == r2.value;
    assert reg.instances.Keys == {t};

    StripPrefix("TTY_DEVICE");
    StripPrefix(TYPE_KEY);
    TranslatePair((ENC_PREFIX + "TTY_DEVICE", dev), (ENC_PREFIX + "TTY_DEVICE", dev));
    TranslatePair((ENC_PREFIX + TYPE_KEY, other), (ENC_PREFIX + TYPE_KEY, other));
    var missing := Create(reg, [(ENC_PREFIX + "TTY_DEVICE", dev)]);
    assert missing == Failure(ERR_UNSPECIFIED_TYPE);
    var unknown := Create(reg, [(ENC_PREFIX + TYPE_KEY, other)]);
    assert unknown == Failure(ERR_UNKNOWN_TYPE);
    assert reg.instances.Keys == {t};

    reg.Destroy(t);
    assert reg.instances == map[];
  }
}
