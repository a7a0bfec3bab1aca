/** Delta payloads (pkg/raft/raft.go) and the framed delta file that holds them
    (pkg/persister/file.go). CRC32 is an arbitrary 32-bit function of the payload. */
module DeltaFrames {
  import opened Bytes

  type u32 = x: int | 0 <= x < 0x1_0000_0000
  type Crc = seq<byte> -> u32

  const STATE_HEADER: nat := 44
  const PAYLOAD_MAGIC: nat := 0x52504131 // "RPA1"
  const PAYLOAD_HEADER: nat := 28
  const FRAME_MAGIC: nat := 0x52414644 // "RAFD"
  const FRAME_HEADER: nat := 16

  // ---------------------------------------------------------------- payloads

  /** canUsePersistAppend */
  predicate CanAppend(state: seq<byte>, prevLen: nat) {
    prevLen >= STATE_HEADER && |state| >= prevLen
  }

  function PayloadFields(prevLen: nat, newLen: nat, deltaLen: nat): (b: seq<byte>)
    ensures |b| == PAYLOAD_HEADER
  {
    U32(PAYLOAD_MAGIC) + U64(prevLen) + U64(newLen) + U32(STATE_HEADER) + U32(deltaLen)
  }

  /** buildPersistAppendPayload: the whole header and everything beyond prevLen. */
  function BuildPayload(state: seq<byte>, prevLen: nat): (p: seq<byte>)
    requires CanAppend(state, prevLen)
    ensures |p| == PAYLOAD_HEADER + STATE_HEADER + |state| - prevLen
  {
    PayloadFields(prevLen, |state|, |state| - prevLen) + state[..STATE_HEADER] + state[prevLen..]
  }

  datatype Applied = Refused | Applied(state: seq<byte>)

  /** applyRaftAppendPayload; a refused payload leaves the state as it was. */
  function ApplyPayload(state: seq<byte>, payload: seq<byte>): (r: Applied) {
    if |payload| < PAYLOAD_HEADER || Value(payload[..4]) != PAYLOAD_MAGIC then Refused
    else
      var prevLen := ValueI64(payload[4..12]);
      var newLen := ValueI64(payload[12..20]);
      var headerLen := Value(payload[20..24]);
      var deltaLen := Value(payload[24..28]);
      if prevLen != |state| || headerLen <= 0 || headerLen > prevLen then Refused
      else if PAYLOAD_HEADER + headerLen + deltaLen != |payload| || newLen != prevLen + deltaLen then Refused
      else
        Applied(payload[PAYLOAD_HEADER..PAYLOAD_HEADER + headerLen] + state[headerLen..]
          + payload[PAYLOAD_HEADER + headerLen..])
  }

  lemma PayloadLayout(prevLen: nat, newLen: nat, deltaLen: nat, rest: seq<byte>)
    ensures var p := PayloadFields(prevLen, newLen, deltaLen) + rest;
      && p[..4] == U32(PAYLOAD_MAGIC)
      && p[4..12] == U64(prevLen)
      && p[12..20] == U64(newLen)
      && p[20..24] == U32(STATE_HEADER)
      && p[24..28] == U32(deltaLen)
      && p[28..] == rest
  {
    hide U32, U64;
  }

  lemma U64AsI64(x: nat)
    requires x < TWO63
    ensures ValueI64(U64(x)) == x
  {
    U64Value(x);
    DivModUnique(x, TWO64, 0, x);
  }

  lemma U32Fits(x: nat)
    ensures x < TWO32 ==> Value(U32(x)) == x
    ensures x >= TWO32 ==> Value(U32(x)) != x
  {
    U32Value(x);
    if x < TWO32 {
      DivModUnique(x, TWO32, 0, x);
    }
  }

  /** A payload built against the previous state turns that state into the new one,
      exactly when the delta's length fits the 32-bit field. */
  lemma PayloadApplies(prev: seq<byte>, next: seq<byte>)
    requires CanAppend(next, |prev|) && |next| < TWO63
    requires prev[STATE_HEADER..] == next[STATE_HEADER..|prev|]
    ensures |next| - |prev| < TWO32 ==> ApplyPayload(prev, BuildPayload(next, |prev|)) == Applied(next)
    ensures |next| - |prev| >= TWO32 ==> ApplyPayload(prev, BuildPayload(next, |prev|)) == Refused
  {
    hide U32, U64, Value, ValueI64, PayloadFields;
    var deltaLen := |next| - |prev|;
    var rest := next[..STATE_HEADER] + next[|prev|..];
    var p := BuildPayload(next, |prev|);
    assert p == PayloadFields(|prev|, |next|, deltaLen) + rest;
    PayloadLayout(|prev|, |next|, deltaLen, rest);
    U32Fits(PAYLOAD_MAGIC);
    U32Fits(STATE_HEADER);
    U32Fits(deltaLen);
    U64AsI64(|prev|);
    U64AsI64(|next|);
    if deltaLen < TWO32 {
      assert p[28..72] == rest[..44] == next[..44];
      assert p[72..] == rest[44..] == next[|prev|..];
      assert next == next[..44] + next[44..|prev|] + next[|prev|..];
    }
  }

  // ---------------------------------------------------------------- frames

  function FrameFields(len: nat, sum: nat): (b: seq<byte>)
    ensures |b| == FRAME_HEADER
  {
    U32(FRAME_MAGIC) + U32(len) + U32(sum) + U32(0)
  }

  /** buildAppendFrame */
  function Frame(crc: Crc, payload: seq<byte>): (f: seq<byte>)
    ensures |f| == FRAME_HEADER + |payload|
  {
    FrameFields(|payload|, crc(payload)) + payload
  }

  datatype Step = Stop | Next(state: seq<byte>, len: nat)

  /** One round of replayDeltaFrames at the start of delta. */
  function ReplayOne(crc: Crc, state: seq<byte>, delta: seq<byte>): (r: Step)
    ensures r.Next? ==> FRAME_HEADER <= r.len <= |delta|
  {
    if |delta| < FRAME_HEADER || Value(delta[..4]) != FRAME_MAGIC then Stop
    else
      var payloadLen := Value(delta[4..8]);
      var expectedCrc := Value(delta[8..12]);
      if |delta| < FRAME_HEADER + payloadLen then Stop
      else
        var payload := delta[FRAME_HEADER..FRAME_HEADER + payloadLen];
        if crc(payload) != expectedCrc then Stop
        else
          match ApplyPayload(state, payload)
          case Refused => Stop
          case Applied(s) => Next(s, FRAME_HEADER + payloadLen)
  }

  datatype Replayed = Replayed(state: seq<byte>, offset: nat)

  function Replay(crc: Crc, state: seq<byte>, delta: seq<byte>): (r: Replayed)
    ensures r.offset <= |delta|
    decreases |delta|
  {
    match ReplayOne(crc, state, delta)
    case Stop => Replayed(state, 0)
    case Next(s, len) =>
      var rest := Replay(crc, s, delta[len..]);
      Replayed(rest.state, len + rest.offset)
  }

  /** replayDeltaFrames */
  method ReplayDeltaFrames(crc: Crc, base: seq<byte>, delta: seq<byte>) returns (state: seq<byte>, offset: nat)
    ensures Replayed(state, offset) == Replay(crc, base, delta)
  {
    hide ReplayOne;
    state := base;
    offset := 0;
    assert delta[0..] == delta;
    while true
      invariant offset <= |delta|
      invariant var rest := Replay(crc, state, delta[offset..]);
        Replay(crc, base, delta) == Replayed(rest.state, offset + rest.offset)
      decreases |delta| - offset
    {
      match ReplayOne(crc, state, delta[offset..])
      case Stop =>
        break;
      case Next(next, len) =>
        assert delta[offset..][len..] == delta[offset + len..];
        state := next;
        offset := offset + len;
    }
  }

  lemma FrameLayout(len: nat, sum: nat, rest: seq<byte>)
    ensures var f := FrameFields(len, sum) + rest;
      && f[..4] == U32(FRAME_MAGIC)
      && f[4..8] == U32(len)
      && f[8..12] == U32(sum)
      && f[16..] == rest
  {
    hide U32;
  }

  /** A complete frame is replayed by applying its payload, whatever follows it. */
  lemma ReplayFrame(crc: Crc, state: seq<byte>, payload: seq<byte>, rest: seq<byte>)
    requires |payload| < TWO32
    ensures ReplayOne(crc, state, Frame(crc, payload) + rest) ==
      match ApplyPayload(state, payload)
      case Refused => Stop
      case Applied(s) => Next(s, FRAME_HEADER + |payload|)
  {
    hide U32, Value, FrameFields, ApplyPayload;
    var d := Frame(crc, payload) + rest;
    assert d == FrameFields(|payload|, crc(payload)) + (payload + rest);
    FrameLayout(|payload|, crc(payload), payload + rest);
    U32Fits(FRAME_MAGIC);
    U32Fits(|payload|);
    U32Fits(crc(payload));
    assert d[16..16 + |payload|] == (payload + rest)[..|payload|];
  }

  /** The payload read from a frame whose length field has wrapped is refused. */
  lemma WrappedPayload(prev: seq<byte>, next: seq<byte>)
    requires CanAppend(next, |prev|) && |next| < TWO63
    requires |BuildPayload(next, |prev|)| >= TWO32
    ensures var p := BuildPayload(next, |prev|);
      p[..|p| % TWO32] < p && ApplyPayload(prev, p[..|p| % TWO32]) == Refused
  {
    hide U32, U64, Value, ValueI64, PayloadFields;
    var deltaLen := |next| - |prev|;
    var rest := next[..STATE_HEADER] + next[|prev|..];
    var p := BuildPayload(next, |prev|);
    assert p == PayloadFields(|prev|, |next|, deltaLen) + rest;
    PayloadLayout(|prev|, |next|, deltaLen, rest);
    var w := |p| % TWO32;
    var q := p[..w];
    if w >= PAYLOAD_HEADER {
      assert q[..4] == p[..4] && q[4..12] == p[4..12] && q[12..20] == p[12..20] && q[20..24] == p[20..24]
        && q[24..28] == p[24..28];
      U32Fits(STATE_HEADER);
      U32Fits(deltaLen);
      U64AsI64(|prev|);
      U64AsI64(|next|);
      if deltaLen < TWO32 {
        DivModUnique(|p|, TWO32, 1, |p| - TWO32);
      }
    }
  }

  /** A delta reaches the reader exactly when the frame that carries it can state its length:
      from 2^32 - 72 bytes on, replay stops at the frame, whatever the checksum function is and
      whatever follows. */
  lemma FrameReplays(crc: Crc, prev: seq<byte>, next: seq<byte>, rest: seq<byte>)
    requires CanAppend(next, |prev|) && |next| < TWO63
    requires prev[STATE_HEADER..] == next[STATE_HEADER..|prev|]
    ensures var payload := BuildPayload(next, |prev|);
      ReplayOne(crc, prev, Frame(crc, payload) + rest) ==
        if |next| - |prev| + 72 < TWO32 then Next(next, FRAME_HEADER + |payload|) else Stop
  {
    hide U32, Value, FrameFields, ApplyPayload, BuildPayload;
    var payload := BuildPayload(next, |prev|);
    if |payload| < TWO32 {
      PayloadApplies(prev, next);
      ReplayFrame(crc, prev, payload, rest);
    } else {
      WrappedPayload(prev, next);
      var d := Frame(crc, payload) + rest;
      assert d == FrameFields(|payload|, crc(payload)) + (payload + rest);
      FrameLayout(|payload|, crc(payload), payload + rest);
      U32Value(|payload|);
      var w := |payload| % TWO32;
      assert d[16..16 + w] == (payload + rest)[..w] == payload[..w];
    }
  }

  /** Whatever its length, a frame built against a state of another length than the reader has
      stops the reader, and everything behind it stays unread. */
  lemma RefusedFrame(crc: Crc, state: seq<byte>, prev: seq<byte>, next: seq<byte>, rest: seq<byte>)
    requires CanAppend(next, |prev|) && |next| < TWO63 && |state| != |prev|
    ensures ReplayOne(crc, state, Frame(crc, BuildPayload(next, |prev|)) + rest) == Stop
  {
    hide U32, Value, FrameFields, ApplyPayload, BuildPayload;
    var payload := BuildPayload(next, |prev|);
    var w := |payload| % TWO32;
    RefusedPayload(state, prev, next, w);
    var d := Frame(crc, payload) + rest;
    assert d == FrameFields(|payload|, crc(payload)) + (payload + rest);
    FrameLayout(|payload|, crc(payload), payload + rest);
    U32Value(|payload|);
    assert d[16..16 + w] == (payload + rest)[..w] == payload[..w];
  }

  lemma RefusedPayload(state: seq<byte>, prev: seq<byte>, next: seq<byte>, n: nat)
    requires CanAppend(next, |prev|) && |next| < TWO63 && |state| != |prev| && n <= |BuildPayload(next, |prev|)|
    ensures ApplyPayload(state, BuildPayload(next, |prev|)[..n]) == Refused
  {
    hide U32, U64, Value, ValueI64, PayloadFields;
    var rest := next[..STATE_HEADER] + next[|prev|..];
    var p := BuildPayload(next, |prev|);
    assert p == PayloadFields(|prev|, |next|, |next| - |prev|) + rest;
    PayloadLayout(|prev|, |next|, |next| - |prev|, rest);
    if n >= PAYLOAD_HEADER {
      assert p[..n][4..12] == p[4..12];
      U64AsI64(|prev|);
    }
  }

  /** A frame cut anywhere before its end is not replayed. */
  lemma TornFrame(crc: Crc, state: seq<byte>, payload: seq<byte>, n: nat)
    requires |payload| < TWO32 && n < FRAME_HEADER + |payload|
    ensures ReplayOne(crc, state, Frame(crc, payload)[..n]) == Stop
  {
    hide U32, Value, FrameFields, ApplyPayload;
    if n >= FRAME_HEADER {
      FrameLayout(|payload|, crc(payload), payload);
      U32Fits(|payload|);
      var f := Frame(crc, payload);
      assert f[..n][4..8] == f[4..8];
    }
  }

  /** What a reader makes of a frame torn after its header, with more bytes behind it: nothing
      until they fill up the stated length, and then they count as payload, which is applied
      exactly if its checksum equals the torn payload's. */
  function TornRead(crc: Crc, state: seq<byte>, payload: seq<byte>, kept: nat, more: seq<byte>): (r: Step)
    requires kept <= |payload|
  {
    if kept + |more| < |payload| then Stop
    else
      var body := payload[..kept] + more[..|payload| - kept];
      if crc(body) != crc(payload) then Stop
      else
        match ApplyPayload(state, body)
        case Refused => Stop
        case Applied(s) => Next(s, FRAME_HEADER + |payload|)
  }

  lemma TornThenMore(crc: Crc, state: seq<byte>, payload: seq<byte>, kept: nat, more: seq<byte>)
    requires |payload| < TWO32 && kept <= |payload|
    ensures ReplayOne(crc, state, Frame(crc, payload)[..FRAME_HEADER + kept] + more) ==
      TornRead(crc, state, payload, kept, more)
  {
    hide U32, Value, FrameFields, ApplyPayload;
    var d := Frame(crc, payload)[..FRAME_HEADER + kept] + more;
    assert d == FrameFields(|payload|, crc(payload)) + (payload[..kept] + more);
    FrameLayout(|payload|, crc(payload), payload[..kept] + more);
    U32Fits(FRAME_MAGIC);
    U32Fits(|payload|);
    U32Fits(crc(payload));
    if kept + |more| >= |payload| {
      assert d[16..16 + |payload|] == (payload[..kept] + more)[..|payload|] ==
        payload[..kept] + more[..|payload| - kept];
    }
  }

  /** Bytes appended behind a complete frame do not change how it is replayed. */
  lemma ReplayOneExtends(crc: Crc, state: seq<byte>, delta: seq<byte>, more: seq<byte>)
    requires ReplayOne(crc, state, delta).Next?
    ensures ReplayOne(crc, state, delta + more) == ReplayOne(crc, state, delta)
  {
    hide Value, ApplyPayload;
    var d := delta + more;
    assert d[..4] == delta[..4] && d[4..8] == delta[4..8] && d[8..12] == delta[8..12];
    var payloadLen := Value(delta[4..8]);
    assert d[FRAME_HEADER..FRAME_HEADER + payloadLen] == delta[FRAME_HEADER..FRAME_HEADER + payloadLen];
  }

  /** A frame that is not read is not read in part either. */
  lemma PrefixStops(crc: Crc, state: seq<byte>, frame: seq<byte>, n: nat)
    requires ReplayOne(crc, state, frame) == Stop && n <= |frame|
    ensures ReplayOne(crc, state, frame[..n]) == Stop
  {
    hide ReplayOne;
    assert frame[..n] + frame[n..] == frame;
    if ReplayOne(crc, state, frame[..n]).Next? {
      ReplayOneExtends(crc, state, frame[..n], frame[n..]);
    }
  }

  /** Replay of a fully consumed file continues with whatever is appended to it. */
  lemma {:induction false} ReplayAppended(crc: Crc, base: seq<byte>, delta: seq<byte>, more: seq<byte>)
    requires Replay(crc, base, delta).offset == |delta|
    ensures var mid := Replay(crc, base, delta);
      var rest := Replay(crc, mid.state, more);
      Replay(crc, base, delta + more) == Replayed(rest.state, |delta| + rest.offset)
    decreases |delta|
  {
    hide ReplayOne;
    if delta == [] {
      assert delta + more == more;
    } else {
      var first := ReplayOne(crc, base, delta);
      ReplayOneExtends(crc, base, delta, more);
      assert (delta + more)[first.len..] == delta[first.len..] + more;
      ReplayAppended(crc, first.state, delta[first.len..], more);
    }
  }

  // ---------------------------------------------------------------- a file of chained frames

  /** The bytes of a delta file holding these payloads in order. */
  function File(crc: Crc, payloads: seq<seq<byte>>): (f: seq<byte>) {
    if payloads == [] then [] else Frame(crc, payloads[0]) + File(crc, payloads[1..])
  }

  /** Each payload applies to the state its predecessors produce. */
  ghost predicate Chained(state: seq<byte>, payloads: seq<seq<byte>>)
    decreases |payloads|
  {
    payloads != [] ==>
      && |payloads[0]| < TWO32
      && ApplyPayload(state, payloads[0]).Applied?
      && Chained(ApplyPayload(state, payloads[0]).state, payloads[1..])
  }

  ghost function ApplyAll(state: seq<byte>, payloads: seq<seq<byte>>): (r: seq<byte>)
    requires Chained(state, payloads)
    decreases |payloads|
  {
    if payloads == [] then state
    else ApplyAll(ApplyPayload(state, payloads[0]).state, payloads[1..])
  }

  /** How many frames end within the first n bytes of the file. */
  function CompleteFrames(payloads: seq<seq<byte>>, n: nat): (k: nat)
    ensures k <= |payloads|
  {
    if payloads == [] || n < FRAME_HEADER + |payloads[0]| then 0
    else 1 + CompleteFrames(payloads[1..], n - FRAME_HEADER - |payloads[0]|)
  }

  lemma {:induction false} ChainedPrefix(state: seq<byte>, payloads: seq<seq<byte>>, k: nat)
    requires Chained(state, payloads) && k <= |payloads|
    ensures Chained(state, payloads[..k])
    decreases |payloads|
  {
    hide ApplyPayload;
    if k > 0 {
      ChainedPrefix(ApplyPayload(state, payloads[0]).state, payloads[1..], k - 1);
      assert payloads[..k][1..] == payloads[1..][..k - 1];
    }
  }

  /** Torn tail: after a crash that leaves any byte prefix of the file, replay stops
      at the end of the last complete frame, with exactly the state after it. */
  lemma {:induction false} TornTail(crc: Crc, base: seq<byte>, payloads: seq<seq<byte>>, n: nat)
    requires Chained(base, payloads) && n <= |File(crc, payloads)|
    ensures var k := CompleteFrames(payloads, n);
      && Chained(base, payloads[..k])
      && Replay(crc, base, File(crc, payloads)[..n]) ==
           Replayed(ApplyAll(base, payloads[..k]), |File(crc, payloads[..k])|)
      && |File(crc, payloads[..k])| <= n
      && (k < |payloads| ==> n < |File(crc, payloads[..k + 1])|)
    decreases |payloads|
  {
    hide ReplayOne, Frame, ApplyPayload;
    var k := CompleteFrames(payloads, n);
    ChainedPrefix(base, payloads, k);
    var file := File(crc, payloads);
    if payloads == [] {
      assert ReplayOne(crc, base, file[..n]) == Stop by { NoFrame(crc, base); }
    } else {
      var p, rest := payloads[0], payloads[1..];
      var len := FRAME_HEADER + |p|;
      if n < len {
        assert file[..n] == Frame(crc, p)[..n];
        TornFrame(crc, base, p, n);
        assert |payloads[..1][1..]| == 0;
        assert File(crc, payloads[..1]) == Frame(crc, p) + [];
      } else {
        var s := ApplyPayload(base, p).state;
        assert file[..n] == Frame(crc, p) + File(crc, rest)[..n - len];
        ReplayFrame(crc, base, p, File(crc, rest)[..n - len]);
        assert file[..n][len..] == File(crc, rest)[..n - len];
        TornTail(crc, s, rest, n - len);
        assert payloads[..k][1..] == rest[..k - 1];
        if k < |payloads| {
          assert payloads[..k + 1][1..] == rest[..k];
        }
      }
    }
  }

  lemma NoFrame(crc: Crc, state: seq<byte>)
    ensures ReplayOne(crc, state, []) == Stop
  {}

  /** A file without a torn tail is replayed to its end. */
  lemma {:induction false} ReplayWhole(crc: Crc, base: seq<byte>, payloads: seq<seq<byte>>)
    requires Chained(base, payloads)
    ensures Replay(crc, base, File(crc, payloads)) == Replayed(ApplyAll(base, payloads), |File(crc, payloads)|)
    decreases |payloads|
  {
    hide ReplayOne, Frame, ApplyPayload;
    if payloads == [] {
      NoFrame(crc, base);
    } else {
      var p, rest := payloads[0], payloads[1..];
      ReplayFrame(crc, base, p, File(crc, rest));
      assert File(crc, payloads)[FRAME_HEADER + |p|..] == File(crc, rest);
      ReplayWhole(crc, ApplyPayload(base, p).state, rest);
    }
  }

  lemma {:induction false} FileSnoc(crc: Crc, payloads: seq<seq<byte>>, p: seq<byte>)
    ensures File(crc, payloads + [p]) == File(crc, payloads) + Frame(crc, p)
    decreases |payloads|
  {
    hide Frame;
    if payloads == [] {
      assert |([p] + payloads)[1..]| == 0;
      assert payloads + [p] == [p] + payloads;
    } else {
      assert (payloads + [p])[1..] == payloads[1..] + [p];
      FileSnoc(crc, payloads[1..], p);
    }
  }

  /** Appending behind a torn tail, as reopening allows: the file is not cut. Frames written
      there are not read while they only fill the torn frame, and what is read once they do is
      exactly what TornRead says. */
  lemma AppendedBehindTorn(crc: Crc, base: seq<byte>, payloads: seq<seq<byte>>, kept: nat, torn: seq<byte>,
                           more: seq<byte>)
    requires Chained(base, payloads) && |torn| < TWO32 && kept < |torn|
    ensures var state := ApplyAll(base, payloads);
      var file := File(crc, payloads) + Frame(crc, torn)[..FRAME_HEADER + kept] + more;
      Replay(crc, base, file) ==
        match TornRead(crc, state, torn, kept, more)
        case Stop => Replayed(state, |File(crc, payloads)|)
        case Next(s, len) =>
          var rest := Replay(crc, s, more[|torn| - kept..]);
          Replayed(rest.state, |File(crc, payloads)| + len + rest.offset)
  {
    hide ReplayOne, ApplyAll, File, Frame;
    var whole, tail := File(crc, payloads), Frame(crc, torn)[..FRAME_HEADER + kept];
    ReplayWhole(crc, base, payloads);
    ReplayAppended(crc, base, whole, tail + more);
    assert whole + (tail + more) == whole + tail + more;
    TornThenMore(crc, ApplyAll(base, payloads), torn, kept, more);
    if TornRead(crc, ApplyAll(base, payloads), torn, kept, more).Next? {
      assert (tail + more)[FRAME_HEADER + |torn|..] == more[|torn| - kept..];
    }
  }

  // ---------------------------------------------------------------- frames behind a torn one

  /** The least length a header cut inside its length field can state, once the next frame's
      magic number fills it up. */
  const MIXED_LENGTH: nat := 0x4100_0000

  lemma MagicBytes(crc: Crc, payload: seq<byte>)
    ensures Frame(crc, payload)[..4] == [0x44, 0x46, 0x41, 0x52]
  {
    hide Value;
    FrameLayout(|payload|, crc(payload), payload);
  }

  /** A header cut inside its magic number or its length field, with another frame behind it. */
  lemma MixedFields(crc: Crc, torn: seq<byte>, n: nat, more: seq<byte>)
    requires 0 < n < 8 && 8 <= n + |more| && |more| >= 4 && more[..4] == [0x44, 0x46, 0x41, 0x52]
    ensures var d := Frame(crc, torn)[..n] + more;
      && (n < 4 ==> Value(d[..4]) != FRAME_MAGIC)
      && (n >= 4 ==> Value(d[4..8]) >= MIXED_LENGTH)
  {
    hide Frame;
    MagicBytes(crc, torn);
    var d := Frame(crc, torn)[..n] + more;
    var m := more[..4];
    assert forall i | 0 <= i < 4 :: more[i] == m[i];
    if n < 4 {
      var h := Frame(crc, torn)[..4];
      assert forall i | 0 <= i < n :: d[i] == h[i];
      assert forall i | n <= i < 4 :: d[i] == m[i - n];
      FourBytes(d[..4]);
    } else {
      assert forall i | n <= i < 8 :: d[i] == m[i - n];
      FourBytes(d[4..8]);
    }
  }

  lemma FourBytes(b: seq<byte>)
    requires |b| == 4
    ensures Value(b) == b[0] as int + 0x100 * b[1] as int + 0x1_0000 * b[2] as int + 0x100_0000 * b[3] as int
  {
    var c := b[1..];
    var d := c[1..];
    var e := d[1..];
    assert c[0] == b[1] && d[0] == b[2] && e[0] == b[3] && e[1..] == [];
    assert Value(e) == b[3] && Value(d) == b[2] + 0x100 * Value(e) && Value(c) == b[1] + 0x100 * Value(d);
  }

  /** Frames appended behind one torn at any byte, its header included, stay unread while the
      file is too short for the length the torn header seems to state, and for good if the
      magic number itself is torn. */
  lemma HiddenBehindTorn(crc: Crc, state: seq<byte>, torn: seq<byte>, n: nat, later: seq<seq<byte>>)
    requires |torn| < TWO32 && 0 < n < FRAME_HEADER + |torn|
    requires n < 4 || n + |File(crc, later)| < FRAME_HEADER + if n < 8 then MIXED_LENGTH else |torn|
    ensures ReplayOne(crc, state, Frame(crc, torn)[..n] + File(crc, later)) == Stop
  {
    hide U32, Value, FrameFields, ApplyPayload, Frame;
    var more := File(crc, later);
    var head := Frame(crc, torn);
    var d := head[..n] + more;
    if later == [] {
      assert d == head[..n];
      TornFrame(crc, state, torn, n);
    } else if |d| >= FRAME_HEADER {
      if n < 8 {
        assert more[..4] == Frame(crc, later[0])[..4];
        MagicBytes(crc, later[0]);
        MixedFields(crc, torn, n, more);
      } else {
        assert d[4..8] == head[4..8] == U32(|torn|) by { TornLength(crc, torn); }
        U32Fits(|torn|);
      }
    }
  }

  lemma TornLength(crc: Crc, torn: seq<byte>)
    ensures Frame(crc, torn)[4..8] == U32(|torn|)
  {
    hide U32, FrameFields;
    FrameLayout(|torn|, crc(torn), torn);
  }
}
