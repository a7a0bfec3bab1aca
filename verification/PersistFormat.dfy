/** The on-disk form of the persistent Raft state (pkg/raft/raft.go): a 44-byte
    header followed by the log entries, all integers little-endian. */
module PersistFormat {
  import opened Bytes

  const MAGIC: nat := 0x4b565233 // "KVR3"
  const HEADER_SIZE: nat := 44

  /** A log entry with its command in gob-encoded form; a nil command is empty. */
  datatype LogEntry = LogEntry(term: int, command: seq<byte>)

  datatype Persisted = Persisted(term: int, vote: int, snapIndex: int, snapTerm: int, log: seq<LogEntry>)

  function Header(p: Persisted): (b: seq<byte>)
    ensures |b| == HEADER_SIZE
  {
    U32(MAGIC) + I64(p.term) + I64(p.vote) + I64(p.snapIndex) + I64(p.snapTerm) + I64(|p.log|)
  }

  function EncodeEntry(e: LogEntry): (b: seq<byte>)
    ensures |b| == 16 + |e.command|
  {
    I64(e.term) + I64(|e.command|) + e.command
  }

  function EncodeLog(log: seq<LogEntry>): (b: seq<byte>)
    ensures log == [] ==> b == []
  {
    if log == [] then [] else EncodeLog(log[..|log| - 1]) + EncodeEntry(log[|log| - 1])
  }

  /** The whole state encoded from scratch. */
  function Encode(p: Persisted): (b: seq<byte>)
    ensures |b| >= HEADER_SIZE
  {
    Header(p) + EncodeLog(p.log)
  }

  /** Where each entry ends in the encoded state. */
  function Ends(log: seq<LogEntry>): (ends: seq<nat>)
    ensures |ends| == |log|
  {
    if log == [] then []
    else Ends(log[..|log| - 1]) + [HEADER_SIZE + |EncodeLog(log)|]
  }

  lemma {:induction false} EncodeLogConcat(a: seq<LogEntry>, b: seq<LogEntry>)
    ensures EncodeLog(a + b) == EncodeLog(a) + EncodeLog(b)
    decreases |b|
  {
    hide EncodeEntry;
    if b == [] {
      assert a + b == a;
    } else {
      var m := |b| - 1;
      assert (a + b)[..|a + b| - 1] == a + b[..m];
      EncodeLogConcat(a, b[..m]);
      var e := EncodeEntry(b[m]);
      assert EncodeLog(a + b) == EncodeLog(a + b[..m]) + e;
      assert EncodeLog(a) + EncodeLog(b[..m]) + e == EncodeLog(a) + (EncodeLog(b[..m]) + e);
    }
  }

  lemma EncodeLogHead(log: seq<LogEntry>)
    requires log != []
    ensures EncodeLog(log) == EncodeEntry(log[0]) + EncodeLog(log[1..])
  {
    assert log == [log[0]] + log[1..];
    EncodeLogConcat([log[0]], log[1..]);
    assert [log[0]][..0] == [];
    assert EncodeLog([log[0]]) == EncodeEntry(log[0]);
  }

  lemma {:induction false} EndsAt(log: seq<LogEntry>, i: nat)
    requires i < |log|
    ensures Ends(log)[i] == HEADER_SIZE + |EncodeLog(log[..i + 1])|
    decreases |log|
  {
    if i == |log| - 1 {
      assert log[..i + 1] == log;
    } else {
      var shorter := log[..|log| - 1];
      EndsAt(shorter, i);
      assert shorter[..i + 1] == log[..i + 1];
    }
  }

  lemma {:induction false} EndsPrefix(log: seq<LogEntry>, n: nat)
    requires n <= |log|
    ensures Ends(log[..n]) == Ends(log)[..n]
  {
    forall i | 0 <= i < n
      ensures Ends(log[..n])[i] == Ends(log)[i]
    {
      EndsAt(log, i);
      EndsAt(log[..n], i);
      assert log[..n][..i + 1] == log[..i + 1];
    }
  }

  // ---------------------------------------------------------------- decoding

  /** decodeCommandFromBytes: an empty command is nil; otherwise gob decides. */
  predicate CommandAccepted(gob: seq<byte> -> bool, command: seq<byte>) {
    command == [] || gob(command)
  }

  /** What the field widths of the Go types already guarantee, plus a decodable command. */
  ghost predicate EntryFits(gob: seq<byte> -> bool, e: LogEntry) {
    && -TWO63 <= e.term < TWO63
    && |e.command| < TWO63
    && CommandAccepted(gob, e.command)
  }

  ghost predicate Fits(gob: seq<byte> -> bool, p: Persisted) {
    && -TWO63 <= p.term < TWO63
    && -TWO63 <= p.vote < TWO63
    && -TWO63 <= p.snapIndex < TWO63
    && -TWO63 <= p.snapTerm < TWO63
    && |p.log| < TWO63
    && (forall i | 0 <= i < |p.log| :: EntryFits(gob, p.log[i]))
  }

  datatype EntryRead = NoEntry | Entry(entry: LogEntry, next: nat)

  /** One round of the decoder's loop: the entry starting at off. */
  function ReadEntry(gob: seq<byte> -> bool, data: seq<byte>, off: nat): (r: EntryRead)
    requires off <= |data|
    ensures r.Entry? ==> r.next == off + 16 + |r.entry.command| <= |data|
  {
    if off + 16 > |data| then NoEntry
    else
      var term := ValueI64(data[off..off + 8]);
      var len := ValueI64(data[off + 8..off + 16]);
      if len < 0 || len > |data| - (off + 16) then NoEntry
      else
        var command := data[off + 16..off + 16 + len];
        if CommandAccepted(gob, command) then Entry(LogEntry(term, command), off + 16 + len) else NoEntry
  }

  datatype Parse = Bad | Good(log: seq<LogEntry>, end: nat)

  /** Reads n entries starting at off. */
  function ParseLog(gob: seq<byte> -> bool, data: seq<byte>, off: nat, n: nat): (r: Parse)
    requires off <= |data|
    ensures r.Good? ==> |r.log| == n && off <= r.end <= |data|
    decreases n
  {
    if n == 0 then Good([], off)
    else
      match ReadEntry(gob, data, off)
      case NoEntry => Bad
      case Entry(e, next) => Prepend([e], ParseLog(gob, data, next, n - 1))
  }

  function Prepend(front: seq<LogEntry>, r: Parse): (s: Parse) {
    match r
    case Bad => Bad
    case Good(log, end) => Good(front + log, end)
  }

  datatype Decoded =
    | Rejected
    | Accepted(state: Persisted, ends: seq<nat>, cacheReady: bool)

  function HeaderField(data: seq<byte>, off: nat): (x: int64)
    requires off + 8 <= |data|
  {
    ValueI64(data[off..off + 8])
  }

  /** readPersistBinary. A state without entries gets one dummy entry, and then
      the persist cache is not loaded. */
  function Decode(gob: seq<byte> -> bool, data: seq<byte>): (r: Decoded)
  {
    if |data| < HEADER_SIZE || Value(data[..4]) != MAGIC || HeaderField(data, 36) < 0 then Rejected
    else
      match ParseLog(gob, data, HEADER_SIZE, HeaderField(data, 36))
      case Bad => Rejected
      case Good(log, end) =>
        if end != |data| then Rejected
        else
          var p := Persisted(HeaderField(data, 4), HeaderField(data, 12), HeaderField(data, 20), HeaderField(data, 28),
            log);
          if log == [] then Accepted(p.(log := [LogEntry(p.snapTerm, [])]), [], false)
          else Accepted(p, Ends(log), true)
  }

  lemma HeaderFields(p: Persisted, rest: seq<byte>)
    ensures var data := Header(p) + rest;
      && data[..4] == U32(MAGIC)
      && data[4..12] == I64(p.term)
      && data[12..20] == I64(p.vote)
      && data[20..28] == I64(p.snapIndex)
      && data[28..36] == I64(p.snapTerm)
      && data[36..44] == I64(|p.log|)
      && data[44..] == rest
  {
    hide U32, I64;
  }

  lemma ReadEncodedEntry(gob: seq<byte> -> bool, data: seq<byte>, off: nat, e: LogEntry, rest: seq<byte>)
    requires off <= |data|
    requires data[off..] == EncodeEntry(e) + rest
    requires EntryFits(gob, e)
    ensures ReadEntry(gob, data, off) == Entry(e, off + 16 + |e.command|)
    ensures data[off + 16 + |e.command|..] == rest
  {
    var tail := data[off..];
    EntryFields(e, rest);
    assert data[off..off + 8] == tail[..8];
    assert data[off + 8..off + 16] == tail[8..16];
    I64RoundTrip(e.term);
    I64RoundTrip(|e.command|);
    var next := off + 16 + |e.command|;
    assert data[off + 16..next] == tail[16..16 + |e.command|];
    assert data[next..] == tail[16 + |e.command|..];
  }

  lemma EntryFields(e: LogEntry, rest: seq<byte>)
    ensures var b := EncodeEntry(e) + rest;
      && |b| >= 16 + |e.command|
      && b[..8] == I64(e.term)
      && b[8..16] == I64(|e.command|)
      && b[16..16 + |e.command|] == e.command
      && b[16 + |e.command|..] == rest
  {}

  lemma ReadEntryIsEncoding(gob: seq<byte> -> bool, data: seq<byte>, off: nat)
    requires off <= |data| < TWO63
    requires ReadEntry(gob, data, off).Entry?
    ensures var r := ReadEntry(gob, data, off);
      && data[off..r.next] == EncodeEntry(r.entry)
      && EntryFits(gob, r.entry)
  {
    var r := ReadEntry(gob, data, off);
    var t, l, c := data[off..off + 8], data[off + 8..off + 16], data[off + 16..r.next];
    I64Surjective(t);
    I64Surjective(l);
    assert data[off..r.next] == t + l + c;
  }

  /** Parsing an encoded log gives the log back, wherever it sits in the file. */
  lemma {:induction false} ParseEncoded(gob: seq<byte> -> bool, data: seq<byte>, off: nat, log: seq<LogEntry>)
    requires off <= |data| < TWO63
    requires data[off..] == EncodeLog(log)
    requires forall i | 0 <= i < |log| :: EntryFits(gob, log[i])
    ensures ParseLog(gob, data, off, |log|) == Good(log, |data|)
    decreases |log|
  {
    hide ReadEntry, EncodeEntry;
    if log == [] {
    } else {
      EncodeLogHead(log);
      ReadEncodedEntry(gob, data, off, log[0], EncodeLog(log[1..]));
      ParseEncoded(gob, data, off + 16 + |log[0].command|, log[1..]);
      assert log == [log[0]] + log[1..];
    }
  }

  /** Whatever the parser consumes is the encoding of what it returns. */
  lemma {:induction false} ParseIsEncoding(gob: seq<byte> -> bool, data: seq<byte>, off: nat, n: nat)
    requires off <= |data| < TWO63
    requires ParseLog(gob, data, off, n).Good?
    ensures var r := ParseLog(gob, data, off, n);
      && data[off..r.end] == EncodeLog(r.log)
      && (forall i | 0 <= i < n :: EntryFits(gob, r.log[i]))
    decreases n
  {
    hide ReadEntry, EncodeEntry, EntryFits;
    if n > 0 {
      var first := ReadEntry(gob, data, off);
      ReadEntryIsEncoding(gob, data, off);
      ParseIsEncoding(gob, data, first.next, n - 1);
      var r := ParseLog(gob, data, off, n);
      var rest := ParseLog(gob, data, first.next, n - 1);
      assert r.log[1..] == rest.log;
      EncodeLogHead(r.log);
      assert data[off..r.end] == data[off..first.next] + data[first.next..r.end];
    }
  }

  /** Persisted-state round trip: term, vote, snapshot metadata, log and entry ends. */
  lemma DecodeEncoded(gob: seq<byte> -> bool, p: Persisted)
    requires Fits(gob, p) && p.log != [] && |Encode(p)| < TWO63
    ensures Decode(gob, Encode(p)) == Accepted(p, Ends(p.log), true)
  {
    var data := Encode(p);
    HeaderFields(p, EncodeLog(p.log));
    U32Value(MAGIC);
    I64RoundTrip(p.term);
    I64RoundTrip(p.vote);
    I64RoundTrip(p.snapIndex);
    I64RoundTrip(p.snapTerm);
    I64RoundTrip(|p.log|);
    ParseEncoded(gob, data, HEADER_SIZE, p.log);
  }

  /** The other direction: an accepted byte string re-encodes to itself exactly
      when it holds at least one entry. */
  lemma EncodeDecoded(gob: seq<byte> -> bool, data: seq<byte>)
    requires |data| < TWO63
    requires Decode(gob, data).Accepted?
    ensures var r := Decode(gob, data);
      && (Encode(r.state) == data <==> HeaderField(data, 36) > 0)
      && (r.cacheReady <==> HeaderField(data, 36) > 0)
      && r.state.log != []
      && Fits(gob, r.state)
  {
    var r := Decode(gob, data);
    var n := HeaderField(data, 36);
    ParseIsEncoding(gob, data, HEADER_SIZE, n);
    if n == 0 {
      assert |Encode(r.state)| > |data| by {
        assert r.state.log[..0] == [];
        assert |EncodeLog(r.state.log)| == 16;
      }
    } else {
      HeaderReencodes(data, r.state);
      assert data[44..] == data[44..|data|];
      assert data == data[..44] + data[44..];
    }
  }

  /** Such a byte string: the 44 bytes of a header that counts no entries. */
  lemma EmptyLogAccepted(gob: seq<byte> -> bool)
    ensures var data := Header(Persisted(0, -1, 0, 0, []));
      && |data| == HEADER_SIZE && Decode(gob, data).Accepted?
      && Decode(gob, data).state == Persisted(0, -1, 0, 0, [LogEntry(0, [])])
      && Encode(Decode(gob, data).state) != data
  {
    hide U32, I64;
    var p := Persisted(0, -1, 0, 0, []);
    var data := Header(p);
    assert data + [] == data;
    HeaderFields(p, []);
    U32Value(MAGIC);
    I64RoundTrip(0);
    I64RoundTrip(-1);
    EncodeDecoded(gob, data);
  }

  lemma MagicBytes(b: seq<byte>)
    requires |b| == 4 && Value(b) == MAGIC
    ensures b == U32(MAGIC)
  {
    LEOfValue(b);
  }

  lemma HeaderReencodes(data: seq<byte>, p: Persisted)
    requires |data| >= HEADER_SIZE && Value(data[..4]) == MAGIC
    requires p.term == HeaderField(data, 4) && p.vote == HeaderField(data, 12)
    requires p.snapIndex == HeaderField(data, 20) && p.snapTerm == HeaderField(data, 28)
    requires |p.log| == HeaderField(data, 36)
    ensures Header(p) == data[..44]
  {
    hide U32, I64, ValueI64;
    assert U32(MAGIC) == data[..4] by { MagicBytes(data[..4]); }
    I64Surjective(data[4..12]);
    I64Surjective(data[12..20]);
    I64Surjective(data[20..28]);
    I64Surjective(data[28..36]);
    I64Surjective(data[36..44]);
    assert data[..44] == data[..4] + data[4..12] + data[12..20] + data[20..28] + data[28..36] + data[36..44];
  }

  /** Different states have different encodings. */
  lemma EncodeInjective(gob: seq<byte> -> bool, p: Persisted, q: Persisted)
    requires Fits(gob, p) && Fits(gob, q) && p.log != [] && q.log != []
    requires |Encode(p)| < TWO63
    requires Encode(p) == Encode(q)
    ensures p == q
  {
    DecodeEncoded(gob, p);
    DecodeEncoded(gob, q);
  }

  /** readPersistBinary */
  method ReadPersistBinary(gob: seq<byte> -> bool, data: seq<byte>) returns (r: Decoded)
    ensures r == Decode(gob, data)
  {
    hide ParseLog, Value, HeaderField, EncodeLog, Ends;
    if |data| < HEADER_SIZE || Value(data[..4]) != MAGIC {
      return Rejected;
    }
    var logCount := HeaderField(data, 36);
    if logCount < 0 {
      return Rejected;
    }
    var parsed, ends := ReadEntries(gob, data, logCount);
    if parsed == Bad || parsed.end != |data| {
      return Rejected;
    }
    var log := parsed.log;
    var p := Persisted(HeaderField(data, 4), HeaderField(data, 12), HeaderField(data, 20), HeaderField(data, 28), log);
    if |log| == 0 {
      r := Accepted(p.(log := [LogEntry(p.snapTerm, [])]), [], false);
    } else {
      r := Accepted(p, ends, true);
    }
  }

  /** Its loop over the entries, which stops at the first unreadable one. */
  method ReadEntries(gob: seq<byte> -> bool, data: seq<byte>, logCount: nat) returns (r: Parse, ends: seq<nat>)
    requires |data| >= HEADER_SIZE
    ensures r == ParseLog(gob, data, HEADER_SIZE, logCount)
    ensures r.Good? ==> ends == Ends(r.log)
  {
    hide ReadEntry, EncodeEntry;
    var log: seq<LogEntry> := [];
    ends := [];
    var offset := HEADER_SIZE;
    ghost var whole := ParseLog(gob, data, HEADER_SIZE, logCount);
    assert whole == Prepend(log, whole);
    for i := 0 to logCount
      invariant i == |log|
      invariant HEADER_SIZE <= offset <= |data|
      invariant offset == HEADER_SIZE + |EncodeLog(log)|
      invariant ends == Ends(log)
      invariant whole == Prepend(log, ParseLog(gob, data, offset, logCount - i))
    {
      var read := ReadEntry(gob, data, offset);
      if read.NoEntry? {
        return Bad, ends;
      }
      PrependAssoc(log, read.entry, ParseLog(gob, data, read.next, logCount - i - 1));
      assert (log + [read.entry])[..|log + [read.entry]| - 1] == log;
      log := log + [read.entry];
      offset := read.next;
      ends := ends + [offset];
    }
    assert Prepend(log, Good([], offset)) == Good(log, offset) by { assert log + [] == log; }
    return Good(log, offset), ends;
  }

  lemma PrependAssoc(front: seq<LogEntry>, e: LogEntry, r: Parse)
    ensures Prepend(front, Prepend([e], r)) == Prepend(front + [e], r)
  {
    if r.Good? {
      assert front + ([e] + r.log) == (front + [e]) + r.log;
    }
  }
}
