# SvxReflector talker engine and DV3K codec driver, in Dafny

This project models two parts of SvxLink.

**SvxReflector.** This is the server that links SvxLink nodes into one
talk group. Its model covers:

- the two client indices, kept in step (`client_map` by client id and
  `m_client_con_map` by TCP connection);
- the admission of UDP datagrams: client id, source address, UDP port
  learned on first contact, then the 16-bit wrap-around sequence filter;
- the single-talker arbiter: `setTalker`, the dispatch of audio and flush
  messages, and the once-a-second check for audio and squelch timeouts;
- the broadcast of a message to every client but one;
- the configuration checks of `initialize`.

`Reflector` is a class whose methods update its fields in place. Every
message the reflector sends is appended to a log `sent` of
(recipient, message) pairs. The log follows the iteration order of
`client_map`, which is ascending client id.

**DV3K codec driver.** This is `AudioCodecAmbeDv3k`, the driver for an
AMBE-3000 vocoder (a ThumbDV dongle or an AMBEserver). Its model covers:

- cutting the byte stream from the device into packets (`callback`);
- the init state machine RESET → PRODID → VERSID → RATEP → READY
  (`handleBuffer`, `init`, `prodid`, `versid`, `ratep`);
- the two packet builders (`packForEncoding`, `writeEncodedSamples`);
- `AudioCodecAmbe::create`, which rewrites the option keys, checks TYPE and
  shares one codec per set of options through the `Multiton` cache.

`Device` and `Registry` are classes. Bytes are `uint8` and packets are
`seq<uint8>`. The packet builders fill fresh arrays.

Files:

| file | module | what it holds |
|---|---|---|
| wrappers.dfy | Wrappers | `Option`, `Result`, `uint8`, `uint16` |
| seqnum.dfy | SeqNum | the receive-sequence filter |
| client_order.dfy | ClientOrder | the ascending-id iteration order of `client_map` |
| reflector.dfy | SvxReflector | the `Reflector` class and its specification functions |
| reflector_scenarios.dfy | ReflectorScenarios | talker hand-over between three nodes; a talker that disconnects, as written and as corrected |
| dv3k_framing.dfy | Dv3kFraming | the packet format, reassembly, the loop of `callback` as written, and the packet builders |
| dv3k.dfy | Dv3k | the init state machine and the `Device` class |
| ambe_codec.dfy | AmbeCodec | key rewriting, the TYPE check, the `Registry` (`Multiton`) class and `Create` |
| ambe_scenarios.dfy | AmbeScenarios | the init handshake from one burst of bytes; option sets sharing a codec |

## Model

| member | source | states |
|---|---|---|
| SvxReflector.Reflector.constructor | src/svxlink/reflector/Reflector.cpp:124-133 | A new reflector has no clients and no talker, its squelch counter is 0, and the squelch block time is the default of 60 s. |
| SvxReflector.Reflector.Initialize | src/svxlink/reflector/Reflector.cpp:148-208 | Fails with a distinct error, in source order, when the crypto library fails, the UDP socket fails, AUTH_KEY is missing or empty, or AUTH_KEY is still the placeholder. It succeeds exactly when none of these holds. On success it takes SQL_TIMEOUT and raises SQL_TIMEOUT_BLOCKTIME to at least 1. |
| SvxReflector.Reflector.ClientConnected | src/svxlink/reflector/Reflector.cpp:262-269 | The new client is entered under its id in `client_map` and under its connection in the connection index. Both indices stay consistent (`Valid`). |
| SvxReflector.Reflector.ClientDisconnected | src/svxlink/reflector/Reflector.cpp:272-294 | As corrected (see Findings): the client leaves both indices, and NodeLeft goes to every other client exactly when its callsign is non-empty. A departing talker is released, so TalkerStop and FlushSamples go to the remaining clients. `Valid` is kept. |
| SvxReflector.Reflector.ClientDisconnectedAsWritten | src/svxlink/reflector/Reflector.cpp:272-294 | As written: the same removal and NodeLeft, but a departing talker stays `m_talker` while no longer registered. |
| SvxReflector.Reflector.NodeList | src/svxlink/reflector/Reflector.cpp:211-222 | Appends exactly the non-empty callsigns of the registered clients, in client-id order. A callsign is listed if and only if some registered client has it. |
| SvxReflector.NodeListMembers | src/svxlink/reflector/Reflector.cpp:211-222 | The node list of a client map holds a string if and only if it is the non-empty callsign of a registered client. |
| SvxReflector.CallsignsMembers | src/svxlink/reflector/Reflector.cpp:213-221 | The callsigns collected over a sequence of ids are exactly the non-empty callsigns of the registered clients among them. |
| SvxReflector.Reflector.BroadcastMsgExcept | src/svxlink/reflector/Reflector.cpp:225-238 | The log grows by the TCP message sent to every registered client except `except`, in client-id order. |
| SvxReflector.Reflector.BroadcastUdpMsgExcept | src/svxlink/reflector/Reflector.cpp:458-469 | The same over UDP. |
| SvxReflector.FanOutMembers | src/svxlink/reflector/Reflector.cpp:225-238 | A broadcast reaches a client if and only if the client is registered and is not the excluded one, and it carries only that message. |
| SvxReflector.FanOutOnce | src/svxlink/reflector/Reflector.cpp:458-469 | Over the ascending ids of a `std::map`, the recipients of a broadcast are strictly increasing, so nobody gets a message twice. |
| ClientOrder.SortedIdsSpec | src/svxlink/reflector/Reflector.cpp:213-214 | Iterating `client_map` visits every registered id exactly once, in strictly ascending order. |
| SvxReflector.Reflector.ReleaseTalker | src/svxlink/reflector/Reflector.cpp:506-512 | The release branch of `setTalker(0)`. TalkerStop for the talker's callsign and then FlushSamples go to every client in client-id order. The squelch counter is zeroed and the slot is freed. |
| SvxReflector.Reflector.SetTalker | src/svxlink/reflector/Reflector.cpp:499-520 | Setting the current talker again changes nothing. Clearing sends TalkerStop and FlushSamples to every client and zeroes the squelch counter. Assigning needs a free slot, sets the counter to `m_sql_timeout` and sends TalkerStart to every client. |
| SvxReflector.Reflector.AdmitDatagram | src/svxlink/reflector/Reflector.cpp:306-361 | Drops a datagram whose header does not unpack, whose client id is unknown, whose source address differs from the client's host, or whose port differs from a known UDP port. On first contact it learns the port and answers with a heartbeat. It accepts exactly the datagrams that pass these checks and the sequence filter, and an accepted one moves the expected number to seq+1 mod 2^16. |
| SvxReflector.Reflector.DispatchDatagram | src/svxlink/reflector/Reflector.cpp:365-428 | Non-empty audio from an unblocked client takes a free talker slot. It is relayed over UDP to all other clients only when its sender is the talker, and audio from anyone else is dropped. FlushSamples from the talker releases it. Every FlushSamples is answered with AllSamplesFlushed to its sender. Other types change nothing. |
| SvxReflector.Reflector.UdpDatagramReceived | src/svxlink/reflector/Reflector.cpp:297-429 | The whole receive path, one postcondition per outcome: dropped, out of sequence, no arbitration, new talker, talker audio, audio while another client talks, flush. The set of clients never changes, and `Valid` is kept. |
| SvxReflector.Reflector.CheckTalkerTimeout | src/svxlink/reflector/Reflector.cpp:472-496 | Without a talker nothing happens. More than 3 whole seconds since the last audio releases the talker. Otherwise the squelch counter counts down, and on reaching 0 the talker is blocked for `m_sql_timeout_blocktime` and released. |
| SeqNum.Diff | src/svxlink/reflector/Reflector.cpp:346 | The 16-bit difference is the forward distance: `next + d ≡ seq (mod 2^16)`. |
| SeqNum.Classify | src/svxlink/reflector/Reflector.cpp:346-359 | A frame is out of sequence if and only if the distance exceeds 0x7fff, and in order if and only if seq equals next. Otherwise it reports `diff` lost frames, between 1 and 0x7fff. |
| SeqNum.Advance | src/svxlink/reflector/Reflector.cpp:347-359 | The expected number is unchanged after a dropped frame and is seq+1 mod 2^16 after an accepted one. |
| SeqNum.BehindIsDropped | src/svxlink/reflector/Reflector.cpp:346-354 | A frame 1 to 0x8000 behind the expected number is dropped. |
| SeqNum.AheadIsAccepted | src/svxlink/reflector/Reflector.cpp:346-359 | A frame 0 to 0x7fff ahead is accepted, reporting that many frames lost, and the expected number moves past it. |
| SeqNum.ConsecutiveInOrder | src/svxlink/reflector/Reflector.cpp:346-359 | Consecutively numbered frames are all in order across any number of wrap-arounds. |
| SeqNum.DuplicateIsDropped | src/svxlink/reflector/Reflector.cpp:346-359 | Once a frame is accepted, a copy of it is dropped while the expected number has moved at most 0x7fff further: a copy arriving next, or after up to 0x7fff further in-order frames. |
| SeqNum.WrapStaleGapExamples | src/svxlink/reflector/Reflector.cpp:346-359 | A wrap-around, a stale frame and a gap of five frames: the wrap 65534, 65535, 0, 1 is in order; a frame at 50 after 100 is dropped; 106 after 100 reports 5 lost (frames 101 to 105). |
| ReflectorScenarios.ThreeNodesContact | src/svxlink/reflector/Reflector.cpp:332-336 | The first datagram from B and from C records its UDP port and next sequence number, and is answered with a heartbeat. |
| ReflectorScenarios.ThreeNodesTalk | src/svxlink/reflector/Reflector.cpp:371-396 | A's first audio makes A the talker. TalkerStart(A) goes to A, B and C, and the audio is relayed to B and C only. |
| ReflectorScenarios.ThreeNodesInterrupt | src/svxlink/reflector/Reflector.cpp:371-396 | B's audio while A talks is dropped. Nothing is sent, and only B's sequence number moves. |
| ReflectorScenarios.ThreeNodesRelease | src/svxlink/reflector/Reflector.cpp:399-414 | A's flush releases the channel. Every node gets TalkerStop(A) and FlushSamples, then A gets AllSamplesFlushed. |
| ReflectorScenarios.TalkerLeaves | src/svxlink/reflector/Reflector.cpp:272-294 | As corrected: when the talker's connection drops, the remaining node is told the talker left and stopped, and the channel is free. |
| ReflectorScenarios.TalkerLeavesAsWritten | src/svxlink/reflector/Reflector.cpp:272-294 | As written: the talker slot names a client that is no longer registered, so `Valid` fails. |
| Dv3kFraming.FindStartFrom | src/async/audio/AsyncAudioCodecAmbe.cpp:343-345 | The result is the first offset at or after `from` that holds 0x61 with at least 4 bytes after it, or none if there is no such offset. |
| Dv3kFraming.SeekStart | src/async/audio/AsyncAudioCodecAmbe.cpp:343-345 | The scan loop finds that first accepted start offset. |
| Dv3kFraming.NextFrame | src/async/audio/AsyncAudioCodecAmbe.cpp:341-366 | One pass as corrected. It takes the packet at the first start byte only when it ends within the buffer, and waits otherwise. The header announces a payload of `data[a+1]*256 + data[a+2]` bytes, and the packet is 4 bytes longer. |
| Dv3kFraming.Reassemble | src/async/audio/AsyncAudioCodecAmbe.cpp:331-368 | `callback` as corrected, repeated until it waits. Nothing is handed on exactly when the first pass waits, and the bytes kept are never more than those given. |
| Dv3kFraming.NextFrameAsWritten | src/async/audio/AsyncAudioCodecAmbe.cpp:341-366 | One pass of the loop as written. It spins exactly when 4 or more bytes hold no accepted start byte. A packet handed on, or one that overruns, is at an accepted start with `tlen + 4` fitting the whole buffer, and an overrun is a packet that ends past the data. |
| Dv3kFraming.ReassembleWait | src/async/audio/AsyncAudioCodecAmbe.cpp:341-366 | With fewer than 4 bytes, or an incomplete packet, everything is kept and nothing is handed on. |
| Dv3kFraming.ReassembleTake | src/async/audio/AsyncAudioCodecAmbe.cpp:348-358 | A complete packet at offset `a` is handed on, and bytes `[0, a+4+tlen)` are removed. |
| Dv3kFraming.ReassembleFrames | src/async/audio/AsyncAudioCodecAmbe.cpp:348-352 | Every packet handed on is a well-formed DV3K packet. |
| Dv3kFraming.ReassembleRest | src/async/audio/AsyncAudioCodecAmbe.cpp:355-358 | The bytes kept are a suffix of the input, and no complete packet can be cut from them. |
| Dv3kFraming.ReassembleConcat | src/async/audio/AsyncAudioCodecAmbe.cpp:331-368 | Round trip: packets written back to back, then bytes the reader waits on, read back as exactly those packets with those bytes kept. |
| Dv3kFraming.FourBytesSpin | src/async/audio/AsyncAudioCodecAmbe.cpp:341-366 | As written: exactly 4 buffered bytes make the loop spin forever (see Findings). |
| Dv3kFraming.NoStartSpins | src/async/audio/AsyncAudioCodecAmbe.cpp:341-366 | As written: 4 or more bytes with no start byte make the loop spin forever. |
| Dv3kFraming.OffsetIgnoredOverrun | src/async/audio/AsyncAudioCodecAmbe.cpp:348-356 | As written: the guard `tlen+4 <= length` passes for a packet at offset 2 that runs past the data. |
| Dv3kFraming.AsWrittenAgrees | src/async/audio/AsyncAudioCodecAmbe.cpp:341-366 | The corrected pass takes the same packet wherever the loop as written hands one on. It waits exactly where the loop as written returns, spins or overruns. |
| Dv3kFraming.VoicePacketIsFrame | src/async/audio/AsyncAudioCodecAmbe.cpp:271-289 | The speech packet is 326 bytes: the header `61 01 42 02 00 a0`, then the 320 samples unchanged, forming a well-formed audio packet. |
| Dv3kFraming.AmbePacketIsFrame | src/async/audio/AsyncAudioCodecAmbe.cpp:301-327 | The AMBE packet is 18 bytes: the 7-byte header, the 9 bytes from input offset 6, then `03 a0`, forming a well-formed AMBE packet. |
| Dv3kFraming.RequestsAreFrames | src/async/audio/AsyncAudioCodecAmbe.cpp:204-243 | The PRODID, VERSID and RATEP requests are well-formed control packets. |
| Dv3k.HandleFrame | src/async/audio/AsyncAudioCodecAmbe.cpp:375-434 | One `handleBuffer` call. Only a control packet moves the state, by one init step. The sent, encoded and decoded records only grow, by at most one packet in all. |
| Dv3k.ControlSteps | src/async/audio/AsyncAudioCodecAmbe.cpp:384-410 | A control packet moves the state if and only if it is RESET, PRODID, VERSID or RATEP. It sends a request if and only if the state is one of the first three, and RATEP goes to READY. |
| Dv3k.InitSequence | src/async/audio/AsyncAudioCodecAmbe.cpp:204-243 | Four control answers take RESET to READY, sending PRODID, VERSID and RATEP in that order. |
| Dv3k.SettledIsStable | src/async/audio/AsyncAudioCodecAmbe.cpp:384-410 | Outside the init states (READY in particular), received packets neither change the state nor send anything. |
| Dv3k.OtherTypes | src/async/audio/AsyncAudioCodecAmbe.cpp:375-433 | A packet of unknown type changes nothing, and a non-control packet never changes the state. A packet is handed to the network if and only if it is of type AMBE. |
| Dv3k.SentAreFrames | src/async/audio/AsyncAudioCodecAmbe.cpp:384-410 | Whatever the device answers, the codec writes only well-formed packets to it. |
| Dv3k.HandleAllAppend | src/async/audio/AsyncAudioCodecAmbe.cpp:331-368 | Handling one more packet is one more `handleBuffer` step. |
| Dv3k.Device.constructor | src/async/audio/AsyncAudioCodecAmbe.cpp:504-505 | A new codec is OFFLINE with an empty buffer and nothing sent or received. |
| Dv3k.Device.Init | src/async/audio/AsyncAudioCodecAmbe.cpp:204-212 | Sends the PRODID request and enters RESET. |
| Dv3k.Device.RequestProdId | src/async/audio/AsyncAudioCodecAmbe.cpp:214-222 | Sends PRODID and enters PRODID. |
| Dv3k.Device.RequestVersId | src/async/audio/AsyncAudioCodecAmbe.cpp:224-232 | Sends VERSID and enters VERSID. |
| Dv3k.Device.RequestRateP | src/async/audio/AsyncAudioCodecAmbe.cpp:234-243 | Sends RATEP and enters RATEP. |
| Dv3k.Device.HandleBuffer | src/async/audio/AsyncAudioCodecAmbe.cpp:375-434 | The codec's new state and outputs are one `HandleFrame` step of the old ones. |
| Dv3k.Device.CutFrame | src/async/audio/AsyncAudioCodecAmbe.cpp:343-365 | One loop pass: either it waits with nothing changed, or it hands on the first packet `Reassemble` yields and shrinks the buffer. |
| Dv3k.Device.Callback | src/async/audio/AsyncAudioCodecAmbe.cpp:331-368 | As corrected: the buffer becomes the bytes `Reassemble` keeps from old buffer + input. Every packet it yields is handled in order. |
| Dv3k.Device.PackForEncoding | src/async/audio/AsyncAudioCodecAmbe.cpp:271-289 | The new array holds exactly the speech packet for the block. |
| Dv3k.Device.WriteEncodedSamples | src/async/audio/AsyncAudioCodecAmbe.cpp:301-327 | Exactly the AMBE packet for the input is sent. |
| AmbeScenarios.InitHandshake | src/async/audio/AsyncAudioCodecAmbe.cpp:204-243 | After `init`, four answers in one burst of bytes leave the device READY with no bytes kept. It has sent PRODID, PRODID, VERSID, RATEP. |
| AmbeCodec.RewriteKey | src/async/audio/AsyncAudioCodecAmbe.cpp:738-746 | A key is kept, or loses exactly its first nine characters. A key shorter than nine characters is always kept. |
| AmbeCodec.Translate | src/async/audio/AsyncAudioCodecAmbe.cpp:738-747 | Every entry's rewritten key is a codec option, and the last entry in map order always keeps its value. |
| AmbeCodec.RewriteKeySpec | src/async/audio/AsyncAudioCodecAmbe.cpp:738-746 | An `AMBE_ENC_` or `AMBE_DEC_` prefix comes off a key. A key is kept unchanged if and only if it contains neither prefix. |
| AmbeCodec.PrefixInMiddle | src/async/audio/AsyncAudioCodecAmbe.cpp:741-744 | The erase counts from the front of the key, not from the prefix: `X_AMBE_ENC_TYPE` becomes `C_TYPE`. |
| AmbeCodec.TranslateKeys | src/async/audio/AsyncAudioCodecAmbe.cpp:738-747 | The codec options have exactly the rewritten keys. |
| AmbeCodec.TranslateValue | src/async/audio/AsyncAudioCodecAmbe.cpp:738-747 | Each codec option holds the value of the last entry, in map order, whose key is rewritten to it. |
| AmbeCodec.TranslateOptions | src/async/audio/AsyncAudioCodecAmbe.cpp:738-747 | The loop that fills `t_options` computes `Translate`. |
| AmbeScenarios.EncoderEntryWins | src/async/audio/AsyncAudioCodecAmbe.cpp:738-747 | With both `AMBE_DEC_x` and `AMBE_ENC_x` configured, both become `x`, and the encoder's value wins because it comes later in map order. |
| AmbeCodec.TypeGuardAsWritten | src/async/audio/AsyncAudioCodecAmbe.cpp:749-750 | As written: the guard compares the iterator into the codec options with the end of the configuration options, so it passes for every set of options. |
| AmbeCodec.TypeGuard | src/async/audio/AsyncAudioCodecAmbe.cpp:749-750 | As corrected: the guard compares with the end of the codec options, and passes if and only if TYPE is among them. |
| AmbeCodec.TypeGuardAsWrittenPasses | src/async/audio/AsyncAudioCodecAmbe.cpp:749-750 | As written: the guard compares with the wrong container's end and always passes, so a missing TYPE dereferences the end iterator. |
| AmbeCodec.TypeGuardSpec | src/async/audio/AsyncAudioCodecAmbe.cpp:749-750 | As corrected: the guard passes if and only if TYPE is among the codec options. |
| AmbeCodec.Registry.constructor | src/async/audio/AsyncAudioCodecAmbe.cpp:138-168 | The cache starts empty. |
| AmbeCodec.Registry.GetPtr | src/async/audio/AsyncAudioCodecAmbe.cpp:158-168 | Returns the stored instance for the key, leaving the cache unchanged. Otherwise it creates an OFFLINE codec of the transport TYPE names and stores it under the key. |
| AmbeCodec.Registry.Destroy | src/async/audio/AsyncAudioCodecAmbe.cpp:148-156 | Exactly that key goes, and nothing happens when it is absent. |
| AmbeCodec.Registry.DestroyAll | src/async/audio/AsyncAudioCodecAmbe.cpp:141-146 | The cache is empty afterwards. |
| AmbeCodec.Create | src/async/audio/AsyncAudioCodecAmbe.cpp:733-763 | Fails with "unspecified Ambe codec TYPE" or "unknown Ambe codec TYPE", leaving the cache alone. Otherwise it returns the codec shared by everyone with the same rewritten options. |

## Left out

- Sockets, DNS, the serial port and libgcrypt are left out. So are the `send`, `sendMsg` and `sendUdpMsg` implementations: what is sent is appended to a log instead. Whether the crypto library and the UDP socket come up is a parameter of `Initialize`.
- Wall-clock time is a parameter `now`, in microseconds, of the datagram handler and the timeout tick. `timersub`'s whole seconds are the floor of the difference.
- `ReflectorClient` is not part of this model. Its id allocation, its login handshake (modelled only by its result, `ClientLoggedIn`), the block-time countdown, `udpMsgReceived` and its transmit sequence are left out. A new client is assumed to expect UDP sequence number 0.
- Message payload (un)packing is left out. A datagram arrives as an already decoded header, or as `None` when the header does not unpack.
- The deferred deletion of clients and all logging to `cout`/`cerr` are left out.
- Setting a talker sends TalkerStart, TalkerStop and FlushSamples to every client. The calls pass no client to exclude, so the talker receives them too.
- `unpackDecoded` and `writeSamples` are left out because they are floating-point conversions. A decoded speech packet is recorded as received raw.
- `char` signedness is left out: bytes are unsigned, so length bytes of 0x80 and above are read as positive.
- The fixed 512-byte `t_buffer` is left out: the model's buffer is unbounded, so the overflow of more than 512 buffered bytes is not captured. So is the reallocation of `t_buffer` in `init`.
- `stored_bufferlen` is never initialised in the source. The model starts with an empty buffer.
- The constructors' option handling (host, port, device, baud rate) and their later call of `init` are left out.
- Dv3k.Device.PackForEncoding requires a block of exactly 320 bytes. The source only logs a wrong length and copies the block anyway, past its 330-byte buffer for blocks longer than 324 bytes, and leaving uninitialised bytes for shorter ones.
- Dv3k.Device.WriteEncodedSamples requires at least 15 input bytes. The source reads bytes 6 to 14 of whatever it is given.
- AmbeCodec.Registry.GetPtr requires a valid TYPE. On any other TYPE, `AudioCodecAmbeDv3k::create` runs `throw;` with no exception active, which terminates the program.
- `Registry.Destroy` and `DestroyAll` only drop entries from the cache. Deleting the codec objects, and references to them kept elsewhere, are not modelled.
- The configuration entries reach `Create` as a sequence of (key, value) pairs in ascending key order, the order in which a `std::map` yields them.

## Findings

| source | as written | input that shows it | evidently intended | confidence | as-written member | corrected member |
|---|---|---|---|---|---|---|
| src/svxlink/reflector/Reflector.cpp:272-294 | A disconnecting client is erased from both indices, but `m_talker` is not released when it was the talker. | Client A is talking and its TCP connection drops. `m_talker` then points at a client queued for deletion, and the next `setTalker(0)` or timeout check reads it. | Release the talker on disconnect: TalkerStop and FlushSamples go to the remaining clients, and the channel is free. | medium, not executed | SvxReflector.Reflector.ClientDisconnectedAsWritten, ReflectorScenarios.TalkerLeavesAsWritten | SvxReflector.Reflector.ClientDisconnected, ReflectorScenarios.TalkerLeaves |
| src/async/audio/AsyncAudioCodecAmbe.cpp:341-366 | While at least 4 bytes are buffered and no byte 0x61 has at least 4 bytes after it, the `for` loop finds nothing and the `while` loop repeats forever. | Exactly 4 buffered bytes, e.g. `61 00 01 00`, or 4 bytes of line noise. | Wait for more bytes (return) when no complete packet can be found. | high, not executed | Dv3kFraming.FourBytesSpin, Dv3kFraming.NoStartSpins | Dv3kFraming.NextFrame, Dv3k.Device.Callback |
| src/async/audio/AsyncAudioCodecAmbe.cpp:348-356 | The completeness check `tlen + 4 <= length` ignores the packet's offset `a`. | `00 00 61 00 02 00 39`: a packet at offset 2 announcing 2 payload bytes with one present passes the check. The copy reads past the data, and `length - pos` underflows. | Take the packet only when `a + 4 + tlen <= length`. | high, not executed | Dv3kFraming.OffsetIgnoredOverrun | Dv3kFraming.NextFrame, Dv3kFraming.AsWrittenAgrees |
| src/async/audio/AsyncAudioCodecAmbe.cpp:749-750 | The iterator found in `t_options` is compared with `options.end()`, the end of a different map. | Options with no TYPE key: the guard passes and `type_it->second` dereferences `t_options.end()`. | Compare with `t_options.end()` and throw "unspecified Ambe codec TYPE". | high, not executed | AmbeCodec.TypeGuardAsWritten, AmbeCodec.TypeGuardAsWrittenPasses | AmbeCodec.TypeGuard, AmbeCodec.TypeGuardSpec, AmbeCodec.Create |
