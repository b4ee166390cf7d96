/**
 * Whole exchanges with the reflector, driven through its operations from a
 * fresh instance: the talker hand-over between three nodes, and a talker
 * that disconnects, with `clientDisconnected` as written and as corrected.
 */
module ReflectorScenarios {
  import opened Wrappers
  import opened ClientOrder
  import opened SvxReflector

  function SendTo(id: ClientId, except: Option<ClientId>, msg: Msg): seq<Sent> {
    if except == Some(id) then [] else [Sent(id, msg)]
  }

  lemma FanOutOne(a: ClientId, except: Option<ClientId>, msg: Msg)
    ensures FanOut([a], except, msg) == SendTo(a, except, msg)
  {
    assert [a][1..] == [];
  }

  lemma FanOutTwo(a: ClientId, b: ClientId, except: Option<ClientId>, msg: Msg)
    ensures FanOut([a, b], except, msg) == SendTo(a, except, msg) + SendTo(b, except, msg)
  {
    assert [a, b][1..] == [b];
    FanOutOne(b, except, msg);
  }

  lemma FanOutThree(a: ClientId, b: ClientId, c: ClientId, except: Option<ClientId>, msg: Msg)
    ensures FanOut([a, b, c], except, msg) == SendTo(a, except, msg) + SendTo(b, except, msg) + SendTo(c, except, msg)
  {
    assert [a, b, c][1..] == [b, c];
    FanOutTwo(b, c, except, msg);
  }

  const A: Client := Client(11, "A", 101, 0, 0, 0)
  const B: Client := Client(12, "B", 102, 0, 0, 0)
  const C: Client := Client(13, "C", 103, 0, 0, 0)

  /** A node connects and logs in as `c`, with `id` as its client id. */
  method Join(r: Reflector, id: ClientId, c: Client)
    requires r.Valid() && c.con !in r.conMap && id !in r.clientMap
    requires c == NewClient(c.con, c.remoteHost).(callsign := c.callsign)
    modifies r`clientMap, r`conMap
    ensures r.Valid()
    ensures r.clientMap == old(r.clientMap)[id := c] && r.conMap == old(r.conMap)[c.con := id]
  {
    r.ClientConnected(c.con, id, c.remoteHost);
    r.ClientLoggedIn(c.con, c.callsign);
  }

  /** Nodes A, B and C (ids 1, 2, 3) connect and log in. */
  method ThreeNodesConnect() returns (r: Reflector)
    ensures fresh(r) && r.Valid() && r.talker == None && r.sent == []
    ensures r.clientMap == map[1 := A, 2 := B, 3 := C]
    ensures r.Ids() == [1, 2, 3]
  {
    r := new Reflector();
    Join(r, 1, A);
    Join(r, 2, B);
    Join(r, 3, C);
    assert r.clientMap.Keys == {1, 2, 3};
    SortedThree(1, 2, 3);
  }

  /** B and C make UDP contact: each gets a heartbeat back and its port and
      next sequence number are recorded. */
  method ThreeNodesContact(r: Reflector)
    requires r.Valid() && r.talker == None && r.sent == []
    requires r.clientMap == map[1 := A, 2 := B, 3 := C]
    modifies r
    ensures r.Valid() && r.talker == None
    ensures r.clientMap == map[1 := A, 2 := B.(remoteUdpPort := 5002, nextUdpRxSeq := 1),
                               3 := C.(remoteUdpPort := 5003, nextUdpRxSeq := 1)]
    ensures r.sent == [Sent(2, Udp(UdpHeartbeat)), Sent(3, Udp(UdpHeartbeat))]
  {
    r.UdpDatagramReceived(102, 5002, Some(UdpHeader(2, 0, UdpHeartbeat)), 0);
    r.UdpDatagramReceived(103, 5003, Some(UdpHeader(3, 0, UdpHeartbeat)), 0);
  }

  /** A's first audio frame makes A the talker: A's port is learned and
      greeted, every node is told TalkerStart(A), and B and C get the audio. */
  method ThreeNodesTalk(r: Reflector)
    requires r.Valid() && r.talker == None && r.Ids() == [1, 2, 3]
    requires 1 in r.clientMap && r.clientMap[1] == A
    modifies r
    ensures r.Valid() && r.talker == Some(1) && r.Ids() == [1, 2, 3]
    ensures r.clientMap == old(r.clientMap)[1 := A.(remoteUdpPort := 5001, nextUdpRxSeq := 1)]
    ensures r.sent == old(r.sent) + [Sent(1, Udp(UdpHeartbeat))]
                      + [Sent(1, Tcp(TalkerStart("A"))), Sent(2, Tcp(TalkerStart("A"))), Sent(3, Tcp(TalkerStart("A")))]
                      + [Sent(2, Udp(UdpAudio([0x2a]))), Sent(3, Udp(UdpAudio([0x2a])))]
  {
    FanOutThree(1, 2, 3, None, Tcp(TalkerStart("A")));
    FanOutThree(1, 2, 3, Some(1), Udp(UdpAudio([0x2a])));
    r.UdpDatagramReceived(101, 5001, Some(UdpHeader(1, 0, UdpAudio([0x2a]))), 1000000);
  }

  /** B's audio while A talks is dropped, and nothing is sent. */
  method ThreeNodesInterrupt(r: Reflector)
    requires r.Valid() && r.talker == Some(1)
    requires 2 in r.clientMap && r.clientMap[2] == B.(remoteUdpPort := 5002, nextUdpRxSeq := 1)
    modifies r
    ensures r.Valid() && r.talker == Some(1) && r.sent == old(r.sent)
    ensures r.clientMap == old(r.clientMap)[2 := B.(remoteUdpPort := 5002, nextUdpRxSeq := 2)]
  {
    r.UdpDatagramReceived(102, 5002, Some(UdpHeader(2, 1, UdpAudio([0x2b]))), 1200000);
  }

  /** A's flush releases the channel: every node is told TalkerStop(A) and
      FlushSamples, and A gets the acknowledgement. */
  method ThreeNodesRelease(r: Reflector)
    requires r.Valid() && r.talker == Some(1) && r.Ids() == [1, 2, 3]
    requires 1 in r.clientMap && r.clientMap[1] == A.(remoteUdpPort := 5001, nextUdpRxSeq := 1)
    modifies r
    ensures r.Valid() && r.talker == None
    ensures r.sent == old(r.sent)
                      + [Sent(1, Tcp(TalkerStop("A"))), Sent(2, Tcp(TalkerStop("A"))), Sent(3, Tcp(TalkerStop("A")))]
                      + [Sent(1, Udp(UdpFlushSamples)), Sent(2, Udp(UdpFlushSamples)), Sent(3, Udp(UdpFlushSamples))]
                      + [Sent(1, Udp(UdpAllSamplesFlushed))]
  {
    FanOutThree(1, 2, 3, None, Tcp(TalkerStop("A")));
    FanOutThree(1, 2, 3, None, Udp(UdpFlushSamples));
    r.UdpDatagramReceived(101, 5001, Some(UdpHeader(1, 1, UdpFlushSamples)), 1400000);
  }

  /** The whole exchange, in order. */
  method ThreeNodes() {
    var r := ThreeNodesConnect();
    ThreeNodesContact(r);
    assert r.clientMap.Keys == {1, 2, 3};
    SortedThree(1, 2, 3);
    ThreeNodesTalk(r);
    ThreeNodesInterrupt(r);
    assert r.clientMap.Keys == {1, 2, 3};
    ThreeNodesRelease(r);
    assert r.talker == None;
  }

  /** A and B (ids 1, 2) are connected and logged in, and A is the talker. */
  method TwoNodesTalking() returns (r: Reflector)
    ensures fresh(r) && r.Valid() && r.talker == Some(1)
    ensures r.clientMap == map[1 := A, 2 := B] && r.conMap == map[11 := 1, 12 := 2]
    ensures r.sent == [Sent(1, Tcp(TalkerStart("A"))), Sent(2, Tcp(TalkerStart("A")))]
  {
    r := new Reflector();
    Join(r, 1, A);
    Join(r, 2, B);
    assert r.clientMap.Keys == {1, 2};
    SortedTwo(1, 2);
    FanOutTwo(1, 2, None, Tcp(TalkerStart("A")));
    r.SetTalker(Some(1));
  }

  /** As corrected: when the talker's connection drops, B is told that A
      left and that A stopped talking, and the channel is free. */
  method TalkerLeaves() returns (r: Reflector)
    ensures r.Valid() && r.talker == None && r.clientMap == map[2 := B]
    ensures r.sent == [Sent(1, Tcp(TalkerStart("A"))), Sent(2, Tcp(TalkerStart("A")))]
                      + [Sent(2, Tcp(NodeLeft("A")))]
                      + [Sent(2, Tcp(TalkerStop("A"))), Sent(2, Udp(UdpFlushSamples))]
  {
    r := TwoNodesTalking();
    assert r.clientMap - {1} == map[2 := B];
    SortedIdsFirst({2}, 2);
    assert {2} - {2} == {};
    assert SortedIds({2}) == [2];
    FanOutOne(2, Some(1), Tcp(NodeLeft("A")));
    FanOutOne(2, None, Tcp(TalkerStop("A")));
    FanOutOne(2, None, Udp(UdpFlushSamples));
    r.ClientDisconnected(11);
    assert r.clientMap.Keys == {2};
    assert r.Ids() == [2];
    assert ReleaseMsgs([2], "A") == [Sent(2, Tcp(TalkerStop("A"))), Sent(2, Udp(UdpFlushSamples))];
  }

  /** As written: the talker's connection drops, A leaves both indices but
      stays the talker, so the talker no longer names a registered client
      and the next release or timeout check reaches a deleted client. */
  method TalkerLeavesAsWritten() returns (r: Reflector)
    ensures r.talker == Some(1) && 1 !in r.clientMap && !r.Valid()
  {
    r := TwoNodesTalking();
    r.ClientDisconnectedAsWritten(11);
  }
}
