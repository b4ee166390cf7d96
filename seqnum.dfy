/**
 * The per-client receive sequence filter of the reflector's UDP channel.
 * Sequence numbers are `uint16_t` and wrap around; the reflector computes the
 * forward distance `seq - next` in 16-bit arithmetic and drops a frame whose
 * distance lies in the upper half of the number space.
 */
module SeqNum {
  import opened Wrappers

  const SEQ_MOD: int := 0x1_0000
  /** Largest forward distance still accepted (the test `diff > 0x7fff`). */
  const MAX_FORWARD: int := 0x7fff

  /** `uint16_t diff = seq - next`: the distance forward from `next` to `sn`. */
  function Diff(sn: uint16, next: uint16): (d: uint16)
    ensures (next + d) % SEQ_MOD == sn
  {
    (sn - next) % SEQ_MOD
  }

  /** The sequence number following `seq`, `seq + 1` truncated to 16 bits. */
  function Succ(sn: uint16): (n: uint16)
    ensures Diff(n, sn) == 1
  {
    (sn + 1) % SEQ_MOD
  }

  /** How the reflector classifies an inbound frame. */
  datatype Verdict =
    | InOrder              // exactly the expected number
    | Lost(count: nat)     // accepted; `count` frames were skipped
    | OutOfSequence        // dropped: stale, duplicated or reordered

  function Classify(sn: uint16, next: uint16): (v: Verdict)
    ensures v == OutOfSequence <==> Diff(sn, next) > MAX_FORWARD
    ensures v == InOrder <==> sn == next
    ensures v.Lost? ==> v.count == Diff(sn, next) && 0 < v.count <= MAX_FORWARD
  {
    var d := Diff(sn, next);
    if d > MAX_FORWARD then OutOfSequence
    else if d > 0 then Lost(d)
    else InOrder
  }

  /** The expected number after a frame numbered `sn` has been classified. */
  function Advance(sn: uint16, next: uint16): (n: uint16)
    ensures Classify(sn, next) == OutOfSequence ==> n == next
    ensures Classify(sn, next) != OutOfSequence ==> Diff(n, sn) == 1
  {
    if Classify(sn, next) == OutOfSequence then next else Succ(sn)
  }

  /** A frame numbered `k` behind the expected one, for `k` up to half the
      number space, is always dropped. */
  lemma BehindIsDropped(next: uint16, k: int)
    requires 1 <= k <= MAX_FORWARD + 1
    ensures Classify((next - k) % SEQ_MOD, next) == OutOfSequence
  {
    assert Diff((next - k) % SEQ_MOD, next) == SEQ_MOD - k;
  }

  /** A frame up to half the number space ahead is accepted, reporting the
      frames in between as lost. */
  lemma AheadIsAccepted(next: uint16, k: int)
    requires 0 <= k <= MAX_FORWARD
    ensures Classify((next + k) % SEQ_MOD, next) == (if k == 0 then InOrder else Lost(k))
    ensures Advance((next + k) % SEQ_MOD, next) == (next + k + 1) % SEQ_MOD
  {
    assert Diff((next + k) % SEQ_MOD, next) == k;
  }

  /** The receive filter run over a stream of sequence numbers: the verdicts
      and the expected number it ends with. */
  function Track(next: uint16, seqs: seq<uint16>): (r: (seq<Verdict>, uint16))
    ensures |r.0| == |seqs|
    decreases |seqs|
  {
    if seqs == [] then ([], next)
    else
      var rest := Track(Advance(seqs[0], next), seqs[1..]);
      ([Classify(seqs[0], next)] + rest.0, rest.1)
  }

  /** The numbers `start, start + 1, ...` taken modulo 2^16. */
  function Consecutive(start: uint16, n: nat): (s: seq<uint16>)
    ensures |s| == n
    ensures forall i :: 0 <= i < n ==> s[i] == (start + i) % SEQ_MOD
  {
    seq(n, i => (start + i) % SEQ_MOD)
  }

  /** A sender numbering its frames consecutively is seen in order across
      any number of wrap-arounds (`..., 65534, 65535, 0, 1, ...`). */
  lemma {:induction false} ConsecutiveInOrder(start: uint16, n: nat)
    ensures forall i :: 0 <= i < n ==> Track(start, Consecutive(start, n)).0[i] == InOrder
    ensures Track(start, Consecutive(start, n)).1 == (start + n) % SEQ_MOD
    decreases n
  {
    if n > 0 {
      var s := Consecutive(start, n);
      var next := Succ(start);
      var tail := Consecutive(next, n - 1);
      forall i | 0 <= i < n - 1 ensures s[1..][i] == tail[i] {
        assert (start + 1 + i) % SEQ_MOD == ((start + 1) % SEQ_MOD + i) % SEQ_MOD;
      }
      assert s[1..] == tail;
      assert Advance(s[0], start) == next;
      ConsecutiveInOrder(next, n - 1);
      assert (next + (n - 1)) % SEQ_MOD == (start + n) % SEQ_MOD;
    }
  }

  /** Once a frame is accepted, a copy of it is dropped as long as the
      expected number has moved on by at most 0x7fff more: a copy that
      arrives next, or after up to 0x7fff further in-order frames. */
  lemma DuplicateIsDropped(sn: uint16, next: uint16, k: int)
    requires Classify(sn, next) != OutOfSequence
    requires 0 <= k <= MAX_FORWARD
    ensures Classify(sn, (Advance(sn, next) + k) % SEQ_MOD) == OutOfSequence
  {
    var later := (Advance(sn, next) + k) % SEQ_MOD;
    assert later == (sn + 1 + k) % SEQ_MOD;
    assert Diff(sn, later) == SEQ_MOD - 1 - k;
  }

  /** A wrap-around, a stale frame and a gap of five frames. */
  lemma WrapStaleGapExamples()
    ensures Track(65534, [65534, 65535, 0, 1]).0 == [InOrder, InOrder, InOrder, InOrder]
    ensures Track(100, [100, 50]).0 == [InOrder, OutOfSequence]
    ensures Track(100, [100, 106]).0 == [InOrder, Lost(5)]
  {
  }
}
