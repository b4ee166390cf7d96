/**
 * The SvxReflector core: the client registry (two indices kept in step), the
 * admission of UDP datagrams, the single-talker arbiter with its audio-idle
 * timeout and squelch-timeout block, and the broadcast fan-out.
 *
 * A `ReflectorClient *` is represented by the client's id, which is unique
 * among registered clients; the per-client state the reflector reads and
 * updates through the client's accessors is the `Client` value stored under
 * that id. Everything the reflector hands to a client's `sendMsg` (TCP) or
 * `sendUdpMsg` (UDP) is appended to the log `sent`.
 */
module SvxReflector {
  import opened Wrappers
  import opened SeqNum
  import opened ClientOrder

  type ClientId = nat
  /** Identity of an `Async::TcpConnection`. */
  type Con = nat
  type IpAddr = nat

  /** Seconds without talker audio after which the talker is released. */
  const TALKER_AUDIO_TIMEOUT: int := 3
  const USEC_PER_SEC: int := 1000000
  const DEFAULT_AUTH_KEY: string := "Change this key now!"
  const DEFAULT_LISTEN_PORT: string := "5300"
  const DEFAULT_SQL_TIMEOUT_BLOCKTIME: nat := 60

  /** The state of one connected node as the reflector sees it. */
  datatype Client = Client(
    con: Con,
    callsign: string,          // empty until the node has logged in
    remoteHost: IpAddr,        // address of the TCP peer
    remoteUdpPort: uint16,     // 0 until learned from the first datagram
    nextUdpRxSeq: uint16,      // next expected UDP sequence number
    remainingBlocktime: nat)   // seconds the node is still blocked from talking
  {
    predicate IsBlocked() { remainingBlocktime > 0 }
  }

  /** A client as `new ReflectorClient(this, con, ...)` creates it. */
  function NewClient(con: Con, host: IpAddr): Client {
    Client(con, "", host, 0, 0, 0)
  }

  datatype TcpMsg = NodeLeft(callsign: string) | TalkerStart(callsign: string) | TalkerStop(callsign: string)

  datatype UdpMsg =
    | UdpHeartbeat
    | UdpAudio(audio: seq<uint8>)
    | UdpFlushSamples
    | UdpAllSamplesFlushed
    | UdpUnknown(msgType: uint16)

  datatype Msg = Tcp(tcp: TcpMsg) | Udp(udp: UdpMsg)

  /** One message handed to the client `to`. */
  datatype Sent = Sent(to: ClientId, msg: Msg)

  /** An already unpacked UDP header with the message it carries. */
  datatype UdpHeader = UdpHeader(clientId: ClientId, seqNum: uint16, msg: UdpMsg)

  /** The configuration values `initialize` reads; `None` when absent. */
  datatype Config = Config(
    listenPort: Option<string>,
    authKey: Option<string>,
    sqlTimeout: Option<nat>,
    sqlTimeoutBlocktime: Option<nat>)

  datatype InitError = CryptoInitFailed | UdpSocketFailed | AuthKeyMissing | AuthKeyIsDefault

  function GetOr<T>(o: Option<T>, default: T): T {
    if o.Some? then o.value else default
  }

  /** What a broadcast loop over the ids `ids` hands out: `msg` to every id
      except `except` (a null `except` excludes nobody). */
  function FanOut(ids: seq<ClientId>, except: Option<ClientId>, msg: Msg): seq<Sent>
    decreases |ids|
  {
    if ids == [] then []
    else (if except == Some(ids[0]) then [] else [Sent(ids[0], msg)]) + FanOut(ids[1..], except, msg)
  }

  /** A fan-out sends `msg` to exactly the ids of `ids` other than `except`. */
  lemma {:induction false} FanOutMembers(ids: seq<ClientId>, except: Option<ClientId>, msg: Msg)
    ensures forall s :: s in FanOut(ids, except, msg) ==> s.msg == msg && s.to in ids && except != Some(s.to)
    ensures forall id :: id in ids && except != Some(id) ==> Sent(id, msg) in FanOut(ids, except, msg)
    decreases |ids|
  {
    if ids != [] {
      FanOutMembers(ids[1..], except, msg);
      assert forall id :: id in ids ==> id == ids[0] || id in ids[1..];
    }
  }

  function Recipients(r: seq<Sent>): (ids: seq<nat>)
    ensures |ids| == |r| && forall i :: 0 <= i < |r| ==> ids[i] == r[i].to
  {
    seq(|r|, i requires 0 <= i < |r| => r[i].to)
  }

  /** Over the ids of a `std::map` each recipient gets the message exactly once,
      in id order. */
  lemma {:induction false} FanOutOnce(ids: seq<ClientId>, except: Option<ClientId>, msg: Msg)
    requires StrictlyIncreasing(ids)
    ensures StrictlyIncreasing(Recipients(FanOut(ids, except, msg)))
    decreases |ids|
  {
    if ids != [] {
      var tail := FanOut(ids[1..], except, msg);
      assert StrictlyIncreasing(ids[1..]);
      FanOutOnce(ids[1..], except, msg);
      FanOutMembers(ids[1..], except, msg);
      if except != Some(ids[0]) {
        forall s | s in tail ensures ids[0] < s.to {
          var j :| 0 <= j < |ids[1..]| && ids[1..][j] == s.to;
          assert ids[0] < ids[j + 1];
        }
        PrependRecipient(Sent(ids[0], msg), tail);
      }
    }
  }

  /** A message to an id below every recipient of `tail` keeps the
      recipients strictly increasing. */
  lemma PrependRecipient(s: Sent, tail: seq<Sent>)
    requires StrictlyIncreasing(Recipients(tail))
    requires forall t :: t in tail ==> s.to < t.to
    ensures StrictlyIncreasing(Recipients([s] + tail))
  {
    var rs := Recipients([s] + tail);
    var ts := Recipients(tail);
    forall i, j | 0 <= i < j < |rs| ensures rs[i] < rs[j] {
      assert rs[j] == ts[j - 1] == tail[j - 1].to;
      assert tail[j - 1] in tail;
      if i > 0 {
        assert rs[i] == ts[i - 1];
      }
    }
  }

  /** A fan-out over one more id ends with that id's message. */
  lemma {:induction false} FanOutAppend(ids: seq<ClientId>, id: ClientId, except: Option<ClientId>, msg: Msg)
    ensures FanOut(ids + [id], except, msg)
         == FanOut(ids, except, msg) + (if except == Some(id) then [] else [Sent(id, msg)])
    decreases |ids|
  {
    if ids == [] {
      assert [id][1..] == [];
    } else {
      assert (ids + [id])[1..] == ids[1..] + [id];
      FanOutAppend(ids[1..], id, except, msg);
    }
  }

  /** What releasing the talker `callsign` sends: TalkerStop over TCP and
      FlushSamples over UDP, each to every registered client. */
  function ReleaseMsgs(ids: seq<ClientId>, callsign: string): seq<Sent> {
    FanOut(ids, None, Tcp(TalkerStop(callsign))) + FanOut(ids, None, Udp(UdpFlushSamples))
  }

  /** The non-empty callsigns of the clients `ids`, in that order. */
  function Callsigns(m: map<ClientId, Client>, ids: seq<ClientId>): seq<string>
    decreases |ids|
  {
    if ids == [] then []
    else (if ids[0] !in m || m[ids[0]].callsign == "" then [] else [m[ids[0]].callsign])
         + Callsigns(m, ids[1..])
  }

  /** The callsigns listed for `ids` are exactly the non-empty callsigns of
      the registered clients among them. */
  lemma {:induction false} CallsignsMembers(m: map<ClientId, Client>, ids: seq<ClientId>)
    ensures forall cs :: cs in Callsigns(m, ids) <==>
              cs != "" && exists id :: id in ids && id in m && m[id].callsign == cs
    decreases |ids|
  {
    if ids != [] {
      CallsignsMembers(m, ids[1..]);
      assert forall id :: id in ids ==> id == ids[0] || id in ids[1..];
    }
  }

  /** The node list of a `client_map` holds every non-empty callsign of a
      registered client and nothing else. */
  lemma NodeListMembers(m: map<ClientId, Client>)
    ensures forall cs :: cs in Callsigns(m, SortedIds(m.Keys)) <==>
              cs != "" && exists id :: id in m && m[id].callsign == cs
  {
    SortedIdsSpec(m.Keys);
    CallsignsMembers(m, SortedIds(m.Keys));
  }

  lemma {:induction false} CallsignsAppend(m: map<ClientId, Client>, ids: seq<ClientId>, id: ClientId)
    ensures Callsigns(m, ids + [id])
         == Callsigns(m, ids) + (if id !in m || m[id].callsign == "" then [] else [m[id].callsign])
    decreases |ids|
  {
    if ids == [] {
      assert [id][1..] == [];
    } else {
      assert (ids + [id])[1..] == ids[1..] + [id];
      CallsignsAppend(m, ids[1..], id);
    }
  }

  /** The talker's last audio is more than TALKER_AUDIO_TIMEOUT whole seconds
      old; `timersub` normalises, so its `tv_sec` is the floor of the
      difference. Times are in microseconds. */
  predicate AudioTimedOut(lastAudio: int, now: int) {
    (now - lastAudio) / USEC_PER_SEC > TALKER_AUDIO_TIMEOUT
  }

  /** The datagram passes the client-id, source-address and source-port checks. */
  ghost predicate Admitted(m: map<ClientId, Client>, addr: IpAddr, port: uint16, header: Option<UdpHeader>) {
    && header.Some?
    && header.value.clientId in m
    && addr == m[header.value.clientId].remoteHost
    && (m[header.value.clientId].remoteUdpPort == 0 || m[header.value.clientId].remoteUdpPort == port)
  }

  /** The datagram is admitted and its sequence number is not out of sequence. */
  ghost predicate Accepted(m: map<ClientId, Client>, addr: IpAddr, port: uint16, header: Option<UdpHeader>) {
    && Admitted(m, addr, port, header)
    && Classify(header.value.seqNum, m[header.value.clientId].nextUdpRxSeq) != OutOfSequence
  }

  /** The client after its UDP port has been learned from `port` if unknown. */
  function Learn(c: Client, port: uint16): Client {
    if c.remoteUdpPort == 0 then c.(remoteUdpPort := port) else c
  }

  /** The heartbeat answered to the first datagram of a client. */
  function Greeting(id: ClientId, c: Client): seq<Sent> {
    if c.remoteUdpPort == 0 then [Sent(id, Udp(UdpHeartbeat))] else []
  }

  class Reflector {
    var clientMap: map<ClientId, Client>     // client_map
    var conMap: map<Con, ClientId>           // m_client_con_map
    var talker: Option<ClientId>             // m_talker
    var sqlTimeout: nat                      // m_sql_timeout, in ticks
    var sqlTimeoutCnt: nat                   // m_sql_timeout_cnt
    var sqlTimeoutBlocktime: nat             // m_sql_timeout_blocktime, in seconds
    var lastTalkerTimestamp: int             // m_last_talker_timestamp, in microseconds
    var authKey: string                      // m_auth_key
    var listenPort: string
    var sent: seq<Sent>

    /** Both indices hold the same clients: each connection names a client
        bound to it, and each client's connection names it back. */
    ghost predicate Indexed()
      reads this
    {
      && (forall con :: con in conMap ==> conMap[con] in clientMap && clientMap[conMap[con]].con == con)
      && (forall id :: id in clientMap ==> clientMap[id].con in conMap && conMap[clientMap[id].con] == id)
    }

    ghost predicate Valid()
      reads this
    {
      && Indexed()
      && (talker.Some? ==> talker.value in clientMap)
      && (talker.None? ==> sqlTimeoutCnt == 0)
      && sqlTimeoutBlocktime >= 1
    }

    /** The registered client ids in `client_map` order. */
    ghost function Ids(): seq<ClientId>
      reads this`clientMap
    {
      SortedIds(clientMap.Keys)
    }

    constructor ()
      ensures Valid()
      ensures clientMap == map[] && conMap == map[] && talker == None
      ensures sqlTimeout == 0 && sqlTimeoutCnt == 0
      ensures sqlTimeoutBlocktime == DEFAULT_SQL_TIMEOUT_BLOCKTIME
      ensures lastTalkerTimestamp == 0 && sent == []
    {
      clientMap, conMap, talker := map[], map[], None;
      sqlTimeout, sqlTimeoutCnt, sqlTimeoutBlocktime := 0, 0, DEFAULT_SQL_TIMEOUT_BLOCKTIME;
      lastTalkerTimestamp := 0;
      authKey, listenPort := "", DEFAULT_LISTEN_PORT;
      sent := [];
    }

    /** The checks of `initialize`: the crypto library and the UDP socket must
        come up, and the authentication key must be set and changed from the
        placeholder. The squelch block time is raised to at least one second. */
    method Initialize(cfg: Config, cryptoOk: bool, udpSocketOk: bool) returns (err: Option<InitError>)
      requires Valid()
      modifies this`authKey, this`listenPort, this`sqlTimeout, this`sqlTimeoutBlocktime
      ensures Valid()
      ensures err == None <==>
                cryptoOk && udpSocketOk && cfg.authKey.Some? && cfg.authKey.value != ""
                && cfg.authKey.value != DEFAULT_AUTH_KEY
      ensures !cryptoOk ==> err == Some(CryptoInitFailed)
      ensures cryptoOk && !udpSocketOk ==> err == Some(UdpSocketFailed)
      ensures cryptoOk && udpSocketOk && GetOr(cfg.authKey, "") == "" ==> err == Some(AuthKeyMissing)
      ensures cryptoOk && udpSocketOk && cfg.authKey == Some(DEFAULT_AUTH_KEY) ==> err == Some(AuthKeyIsDefault)
      ensures cryptoOk ==> listenPort == GetOr(cfg.listenPort, old(listenPort))
      ensures err == None ==>
                && authKey == cfg.authKey.value
                && sqlTimeout == GetOr(cfg.sqlTimeout, old(sqlTimeout))
                && var b := GetOr(cfg.sqlTimeoutBlocktime, old(sqlTimeoutBlocktime));
                   sqlTimeoutBlocktime == if b < 1 then 1 else b
      ensures err != None ==> sqlTimeout == old(sqlTimeout) && sqlTimeoutBlocktime == old(sqlTimeoutBlocktime)
    {
      if !cryptoOk {
        return Some(CryptoInitFailed);
      }
      listenPort := GetOr(cfg.listenPort, listenPort);
      if !udpSocketOk {
        return Some(UdpSocketFailed);
      }
      if cfg.authKey.Some? {
        authKey := cfg.authKey.value;
      }
      if cfg.authKey.None? || authKey == "" {
        return Some(AuthKeyMissing);
      }
      if authKey == DEFAULT_AUTH_KEY {
        return Some(AuthKeyIsDefault);
      }
      sqlTimeout := GetOr(cfg.sqlTimeout, sqlTimeout);
      var b := GetOr(cfg.sqlTimeoutBlocktime, sqlTimeoutBlocktime);
      sqlTimeoutBlocktime := if b < 1 then 1 else b;
      return None;
    }

    /** A new TCP connection: one new client, entered in both indices. */
    method ClientConnected(con: Con, id: ClientId, host: IpAddr)
      requires Valid()
      requires con !in conMap     // the server reports each connection once
      requires id !in clientMap   // a new client gets an id not in use
      modifies this`clientMap, this`conMap
      ensures Valid()
      ensures clientMap == old(clientMap)[id := NewClient(con, host)]
      ensures conMap == old(conMap)[con := id]
    {
      clientMap := clientMap[id := NewClient(con, host)];
      conMap := conMap[con := id];
    }

    /** The login of a client sets its callsign (done by the client's own
        handshake, which only hands the reflector the result). */
    method ClientLoggedIn(con: Con, callsign: string)
      requires Valid()
      requires con in conMap
      modifies this`clientMap
      ensures Valid()
      ensures clientMap == old(clientMap)[conMap[con] := old(clientMap)[conMap[con]].(callsign := callsign)]
    {
      var id := conMap[con];
      clientMap := clientMap[id := clientMap[id].(callsign := callsign)];
    }

    /** A TCP disconnect: the client leaves both indices, the others are told
        the node left when it had a callsign, and a departing talker is
        released (TalkerStop and FlushSamples go to the remaining clients). */
    method ClientDisconnected(con: Con)
      requires Valid()
      requires con in conMap
      modifies this`clientMap, this`conMap, this`talker, this`sqlTimeoutCnt, this`sent
      ensures Valid()
      ensures var id := old(conMap)[con];
              var c := old(clientMap)[id];
              && clientMap == old(clientMap) - {id}
              && conMap == old(conMap) - {con}
              && talker == (if old(talker) == Some(id) then None else old(talker))
              && sqlTimeoutCnt == (if old(talker) == Some(id) then 0 else old(sqlTimeoutCnt))
              && sent == old(sent)
                 + (if c.callsign != "" then FanOut(Ids(), Some(id), Tcp(NodeLeft(c.callsign))) else [])
                 + (if old(talker) == Some(id) then ReleaseMsgs(Ids(), c.callsign) else [])
      ensures talker.Some? ==> talker.value in clientMap
    {
      var id := conMap[con];
      var c := clientMap[id];
      clientMap := clientMap - {id};
      conMap := conMap - {con};
      if c.callsign != "" {
        BroadcastMsgExcept(NodeLeft(c.callsign), Some(id));
      }
      if talker == Some(id) {
        ReleaseTalker(c.callsign);
      }
    }

    /** `clientDisconnected` as the source writes it: the talker slot is not
        released, so a departing talker stays the talker although it is no
        longer registered. */
    method ClientDisconnectedAsWritten(con: Con)
      requires Valid()
      requires con in conMap
      modifies this`clientMap, this`conMap, this`sent
      ensures Indexed()
      ensures var id := old(conMap)[con];
              var c := old(clientMap)[id];
              && clientMap == old(clientMap) - {id}
              && conMap == old(conMap) - {con}
              && sent == old(sent)
                 + (if c.callsign != "" then FanOut(Ids(), Some(id), Tcp(NodeLeft(c.callsign))) else [])
      ensures old(talker) == Some(old(conMap)[con]) ==> talker.Some? && talker.value !in clientMap
    {
      var id := conMap[con];
      var c := clientMap[id];
      clientMap := clientMap - {id};
      conMap := conMap - {con};
      if c.callsign != "" {
        BroadcastMsgExcept(NodeLeft(c.callsign), Some(id));
      }
    }

    /** The next id of a `client_map` iteration that still has `rest` to visit. */
    method LeastOf(rest: set<ClientId>) returns (id: ClientId)
      requires rest != {}
      ensures IsLeast(id, rest)
    {
      LeastExists(rest);
      id :| IsLeast(id, rest);
    }

    /** `nodeList`: appends the non-empty callsigns of the registered clients,
        in client-id order. */
    method NodeList(nodes0: seq<string>) returns (nodes: seq<string>)
      ensures nodes == nodes0 + Callsigns(clientMap, Ids())
      ensures forall cs :: cs in nodes[|nodes0|..] <==>
                cs != "" && exists id :: id in clientMap && clientMap[id].callsign == cs
    {
      nodes := nodes0;
      var rest := clientMap.Keys;
      ghost var order := Ids();
      ghost var done: seq<ClientId> := [];
      while rest != {}
        invariant order == done + SortedIds(rest)
        invariant nodes == nodes0 + Callsigns(clientMap, done)
        decreases rest
      {
        var id := LeastOf(rest);
        if clientMap[id].callsign != "" {
          nodes := nodes + [clientMap[id].callsign];
        }
        VisitLeast(order, done, rest, id);
        CallsignsAppend(clientMap, done, id);
        done := done + [id];
        rest := rest - {id};
      }
      assert done == order;
      assert nodes[|nodes0|..] == Callsigns(clientMap, order);
      NodeListMembers(clientMap);
    }

    /** `broadcastMsgExcept`: `msg` over TCP to every registered client except `except`. */
    method BroadcastMsgExcept(msg: TcpMsg, except: Option<ClientId>)
      modifies this`sent
      ensures sent == old(sent) + FanOut(Ids(), except, Tcp(msg))
    {
      var rest := clientMap.Keys;
      ghost var order := Ids();
      ghost var done: seq<ClientId> := [];
      while rest != {}
        invariant order == done + SortedIds(rest)
        invariant sent == old(sent) + FanOut(done, except, Tcp(msg))
        decreases rest
      {
        var id := LeastOf(rest);
        if except != Some(id) {
          sent := sent + [Sent(id, Tcp(msg))];
        }
        VisitLeast(order, done, rest, id);
        FanOutAppend(done, id, except, Tcp(msg));
        done := done + [id];
        rest := rest - {id};
      }
      assert done == order;
    }

    /** `broadcastUdpMsgExcept`: `msg` over UDP to every registered client except `except`. */
    method BroadcastUdpMsgExcept(except: Option<ClientId>, msg: UdpMsg)
      modifies this`sent
      ensures sent == old(sent) + FanOut(Ids(), except, Udp(msg))
    {
      var rest := clientMap.Keys;
      ghost var order := Ids();
      ghost var done: seq<ClientId> := [];
      while rest != {}
        invariant order == done + SortedIds(rest)
        invariant sent == old(sent) + FanOut(done, except, Udp(msg))
        decreases rest
      {
        var id := LeastOf(rest);
        if except != Some(id) {
          sent := sent + [Sent(id, Udp(msg))];
        }
        VisitLeast(order, done, rest, id);
        FanOutAppend(done, id, except, Udp(msg));
        done := done + [id];
        rest := rest - {id};
      }
      assert done == order;
    }

    /** The release half of `setTalker(0)`, for the talker named `callsign`. */
    method ReleaseTalker(callsign: string)
      modifies this`talker, this`sqlTimeoutCnt, this`sent
      ensures talker == None && sqlTimeoutCnt == 0
      ensures sent == old(sent) + ReleaseMsgs(Ids(), callsign)
    {
      BroadcastMsgExcept(TalkerStop(callsign), None);
      BroadcastUdpMsgExcept(None, UdpFlushSamples);
      sqlTimeoutCnt := 0;
      talker := None;
    }

    /** `setTalker`: no-op when nothing changes; clearing releases the talker;
        assigning needs a free slot, arms the squelch counter and tells every
        client the talker started. */
    method SetTalker(client: Option<ClientId>)
      requires Valid()
      requires client.Some? ==> client.value in clientMap
      requires client.Some? && client != talker ==> talker == None
      modifies this`talker, this`sqlTimeoutCnt, this`sent
      ensures Valid()
      ensures client == old(talker) ==>
                talker == old(talker) && sqlTimeoutCnt == old(sqlTimeoutCnt) && sent == old(sent)
      ensures client != old(talker) && client == None ==>
                && talker == None && sqlTimeoutCnt == 0
                && sent == old(sent) + ReleaseMsgs(Ids(), clientMap[old(talker).value].callsign)
      ensures client != old(talker) && client.Some? ==>
                && talker == client && sqlTimeoutCnt == sqlTimeout
                && sent == old(sent) + FanOut(Ids(), None, Tcp(TalkerStart(clientMap[client.value].callsign)))
    {
      if client == talker {
        return;
      }
      if client == None {
        ReleaseTalker(clientMap[talker.value].callsign);
      } else {
        sqlTimeoutCnt := sqlTimeout;
        talker := client;
        BroadcastMsgExcept(TalkerStart(clientMap[client.value].callsign), None);
      }
    }

    /** The admission half of `udpDatagramReceived`: the client-id, source
        address and source port checks (a client's UDP port is learned, and
        answered with a heartbeat, on its first datagram), then the sequence
        filter, which moves the expected sequence number past an accepted frame. */
    method AdmitDatagram(addr: IpAddr, port: uint16, header: Option<UdpHeader>) returns (accepted: bool)
      requires Valid()
      modifies this`clientMap, this`sent
      ensures Valid()
      ensures accepted <==> Accepted(old(clientMap), addr, port, header)
      ensures !Admitted(old(clientMap), addr, port, header) ==> clientMap == old(clientMap) && sent == old(sent)
      ensures Admitted(old(clientMap), addr, port, header) ==>
                var id := header.value.clientId;
                var c := Learn(old(clientMap)[id], port);
                && sent == old(sent) + Greeting(id, old(clientMap)[id])
                && clientMap == old(clientMap)[id := if accepted then c.(nextUdpRxSeq := Succ(header.value.seqNum)) else c]
    {
      if header.None? {
        return false;
      }
      var h := header.value;
      if h.clientId !in clientMap {
        return false;
      }
      var id := h.clientId;
      var c := clientMap[id];
      if addr != c.remoteHost {
        return false;
      }
      if c.remoteUdpPort == 0 {
        c := c.(remoteUdpPort := port);
        clientMap := clientMap[id := c];
        sent := sent + [Sent(id, Udp(UdpHeartbeat))];
      } else if port != c.remoteUdpPort {
        return false;
      }
      if Classify(h.seqNum, c.nextUdpRxSeq) == OutOfSequence {
        return false;
      }
      clientMap := clientMap[id := c.(nextUdpRxSeq := Succ(h.seqNum))];
      return true;
    }

    /** The dispatch half of `udpDatagramReceived` for an accepted datagram of
        client `id`: non-empty audio from a client that is not blocked takes a
        free talker slot and is relayed when its sender is the talker; a flush
        from the talker releases it and every flush is acknowledged; all other
        types are ignored. */
    method DispatchDatagram(id: ClientId, msg: UdpMsg, now: int)
      requires Valid()
      requires id in clientMap
      modifies this`talker, this`sqlTimeoutCnt, this`lastTalkerTimestamp, this`sent
      ensures Valid()
      ensures (match msg
               case UdpAudio(a) => a == [] || clientMap[id].IsBlocked()
               case UdpFlushSamples => false
               case _ => true) ==>
                && talker == old(talker) && sqlTimeoutCnt == old(sqlTimeoutCnt)
                && lastTalkerTimestamp == old(lastTalkerTimestamp) && sent == old(sent)
      ensures msg.UdpAudio? && msg.audio != [] && !clientMap[id].IsBlocked() && old(talker) == None ==>
                && talker == Some(id) && sqlTimeoutCnt == sqlTimeout && lastTalkerTimestamp == now
                && sent == old(sent) + FanOut(Ids(), None, Tcp(TalkerStart(clientMap[id].callsign)))
                   + FanOut(Ids(), Some(id), Udp(msg))
      ensures msg.UdpAudio? && msg.audio != [] && !clientMap[id].IsBlocked() && old(talker) == Some(id) ==>
                && talker == old(talker) && sqlTimeoutCnt == old(sqlTimeoutCnt) && lastTalkerTimestamp == now
                && sent == old(sent) + FanOut(Ids(), Some(id), Udp(msg))
      ensures msg.UdpAudio? && old(talker).Some? && old(talker) != Some(id) ==>
                && talker == old(talker) && sqlTimeoutCnt == old(sqlTimeoutCnt)
                && lastTalkerTimestamp == old(lastTalkerTimestamp) && sent == old(sent)
      ensures msg == UdpFlushSamples ==>
                && talker == (if old(talker) == Some(id) then None else old(talker))
                && sqlTimeoutCnt == (if old(talker) == Some(id) then 0 else old(sqlTimeoutCnt))
                && lastTalkerTimestamp == old(lastTalkerTimestamp)
                && sent == old(sent) + (if old(talker) == Some(id) then ReleaseMsgs(Ids(), clientMap[id].callsign) else [])
                   + [Sent(id, Udp(UdpAllSamplesFlushed))]
    {
      match msg {
        case UdpAudio(audio) =>
          if !clientMap[id].IsBlocked() && audio != [] {
            if talker == None {
              SetTalker(Some(id));
            }
            if talker == Some(id) {
              lastTalkerTimestamp := now;
              BroadcastUdpMsgExcept(Some(id), msg);
            }
          }
        case UdpFlushSamples =>
          if talker == Some(id) {
            SetTalker(None);
          }
          sent := sent + [Sent(id, Udp(UdpAllSamplesFlushed))];
        case _ =>
      }
    }

    /** `udpDatagramReceived`: admission (client id, source address, source
        port learned on first contact), the sequence filter, then dispatch.
        A datagram whose header does not unpack arrives as `None`. */
    method UdpDatagramReceived(addr: IpAddr, port: uint16, header: Option<UdpHeader>, now: int)
      requires Valid()
      modifies this`clientMap, this`talker, this`sqlTimeoutCnt, this`lastTalkerTimestamp, this`sent
      ensures Valid()
      ensures clientMap.Keys == old(clientMap).Keys
      // Dropped by the id, address or port check: nothing changes.
      ensures !Admitted(old(clientMap), addr, port, header) ==>
                && clientMap == old(clientMap) && talker == old(talker)
                && sqlTimeoutCnt == old(sqlTimeoutCnt)
                && lastTalkerTimestamp == old(lastTalkerTimestamp) && sent == old(sent)
      // Dropped by the sequence filter: only the port learning happened.
      ensures Admitted(old(clientMap), addr, port, header) && !Accepted(old(clientMap), addr, port, header) ==>
                var id := header.value.clientId;
                && clientMap == old(clientMap)[id := Learn(old(clientMap)[id], port)]
                && talker == old(talker) && sqlTimeoutCnt == old(sqlTimeoutCnt)
                && lastTalkerTimestamp == old(lastTalkerTimestamp)
                && sent == old(sent) + Greeting(id, old(clientMap)[id])
      // Accepted: the expected sequence number moves past this frame.
      ensures Accepted(old(clientMap), addr, port, header) ==>
                var id := header.value.clientId;
                clientMap == old(clientMap)[id := Learn(old(clientMap)[id], port).(nextUdpRxSeq := Succ(header.value.seqNum))]
      // Heartbeat, AllSamplesFlushed, unknown types, empty or blocked audio: no arbitration.
      ensures Accepted(old(clientMap), addr, port, header)
              && (match header.value.msg
                  case UdpAudio(a) => a == [] || old(clientMap)[header.value.clientId].IsBlocked()
                  case UdpFlushSamples => false
                  case _ => true) ==>
                && talker == old(talker) && sqlTimeoutCnt == old(sqlTimeoutCnt)
                && lastTalkerTimestamp == old(lastTalkerTimestamp)
                && sent == old(sent) + Greeting(header.value.clientId, old(clientMap)[header.value.clientId])
      // Audio with no talker: the sender becomes the talker and its audio is relayed.
      ensures Accepted(old(clientMap), addr, port, header)
              && header.value.msg.UdpAudio? && header.value.msg.audio != []
              && !old(clientMap)[header.value.clientId].IsBlocked() && old(talker) == None ==>
                var id := header.value.clientId;
                var c := old(clientMap)[id];
                && talker == Some(id) && sqlTimeoutCnt == sqlTimeout && lastTalkerTimestamp == now
                && sent == old(sent) + Greeting(id, c)
                   + FanOut(Ids(), None, Tcp(TalkerStart(c.callsign)))
                   + FanOut(Ids(), Some(id), Udp(header.value.msg))
      // Audio from the talker: relayed to every other client.
      ensures Accepted(old(clientMap), addr, port, header)
              && header.value.msg.UdpAudio? && header.value.msg.audio != []
              && !old(clientMap)[header.value.clientId].IsBlocked() && old(talker) == Some(header.value.clientId) ==>
                var id := header.value.clientId;
                && talker == old(talker) && sqlTimeoutCnt == old(sqlTimeoutCnt) && lastTalkerTimestamp == now
                && sent == old(sent) + Greeting(id, old(clientMap)[id]) + FanOut(Ids(), Some(id), Udp(header.value.msg))
      // Audio while another client talks: dropped.
      ensures Accepted(old(clientMap), addr, port, header)
              && header.value.msg.UdpAudio? && old(talker).Some? && old(talker) != Some(header.value.clientId) ==>
                && talker == old(talker) && sqlTimeoutCnt == old(sqlTimeoutCnt)
                && lastTalkerTimestamp == old(lastTalkerTimestamp)
                && sent == old(sent) + Greeting(header.value.clientId, old(clientMap)[header.value.clientId])
      // FlushSamples: releases the talker if it came from the talker; always acknowledged to the sender.
      ensures Accepted(old(clientMap), addr, port, header) && header.value.msg == UdpFlushSamples ==>
                var id := header.value.clientId;
                var c := old(clientMap)[id];
                && talker == (if old(talker) == Some(id) then None else old(talker))
                && sqlTimeoutCnt == (if old(talker) == Some(id) then 0 else old(sqlTimeoutCnt))
                && lastTalkerTimestamp == old(lastTalkerTimestamp)
                && sent == old(sent) + Greeting(id, c)
                   + (if old(talker) == Some(id) then ReleaseMsgs(Ids(), c.callsign) else [])
                   + [Sent(id, Udp(UdpAllSamplesFlushed))]
    {
      var accepted := AdmitDatagram(addr, port, header);
      if accepted {
        DispatchDatagram(header.value.clientId, header.value.msg, now);
      }
    }

    /** `checkTalkerTimeout`, run once a second: release a talker whose audio
        stopped more than three seconds ago; count the squelch timeout down and,
        when it reaches zero, block the talker and release it. */
    method CheckTalkerTimeout(now: int)
      requires Valid()
      modifies this`clientMap, this`talker, this`sqlTimeoutCnt, this`sent
      ensures Valid()
      ensures old(talker) == None ==>
                clientMap == old(clientMap) && talker == None && sqlTimeoutCnt == old(sqlTimeoutCnt) && sent == old(sent)
      ensures old(talker).Some? && AudioTimedOut(lastTalkerTimestamp, now) ==>
                && talker == None && sqlTimeoutCnt == 0 && clientMap == old(clientMap)
                && sent == old(sent) + ReleaseMsgs(Ids(), old(clientMap)[old(talker).value].callsign)
      ensures old(talker).Some? && !AudioTimedOut(lastTalkerTimestamp, now) && old(sqlTimeoutCnt) == 1 ==>
                var t := old(talker).value;
                && talker == None && sqlTimeoutCnt == 0
                && clientMap == old(clientMap)[t := old(clientMap)[t].(remainingBlocktime := sqlTimeoutBlocktime)]
                && clientMap[t].IsBlocked()
                && sent == old(sent) + ReleaseMsgs(Ids(), old(clientMap)[t].callsign)
      ensures old(talker).Some? && !AudioTimedOut(lastTalkerTimestamp, now) && old(sqlTimeoutCnt) != 1 ==>
                && talker == old(talker) && clientMap == old(clientMap) && sent == old(sent)
                && sqlTimeoutCnt == (if old(sqlTimeoutCnt) > 0 then old(sqlTimeoutCnt) - 1 else 0)
    {
      if talker != None {
        if AudioTimedOut(lastTalkerTimestamp, now) {
          SetTalker(None);
        }
        if sqlTimeoutCnt > 0 {
          sqlTimeoutCnt := sqlTimeoutCnt - 1;
          if sqlTimeoutCnt == 0 {
            var t := talker.value;
            clientMap := clientMap[t := clientMap[t].(remainingBlocktime := sqlTimeoutBlocktime)];
            SetTalker(None);
          }
        }
      }
    }
  }
}
