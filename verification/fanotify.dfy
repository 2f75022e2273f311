/** Parsing the kernel's event buffer: variable-length records behind a fixed header. */
module Fanotify {
  import opened Base
  import opened Bytes
  import opened Intake

  const FANOTIFY_METADATA_VERSION: Byte := 3
  const HEADER: nat := 24

  /** event_len u32, vers u8, reserved u8, metadata_len u16, mask u64, fd i32, pid i32, little-endian. */
  function EventLen(h: seq<Byte>): nat
    requires |h| >= HEADER
  {
    FromLittleEndian(h[..4])
  }

  function EventOf(h: seq<Byte>): Event
    requires |h| >= HEADER
  {
    Event(FromLittleEndian(h[8..16]), Signed32(FromLittleEndian(h[16..20])), Signed32(FromLittleEndian(h[20..24])))
  }

  predicate GoodHeader(h: seq<Byte>)
    requires |h| >= HEADER
  {
    h[4] == FANOTIFY_METADATA_VERSION && EventLen(h) >= HEADER
  }

  /** The events of the bytes that were read, up to the first header that does not fit or does not make sense. */
  function Parsed(bytes: seq<Byte>): seq<Event> {
    if |bytes| < HEADER || !GoodHeader(bytes) then []
    else
      [EventOf(bytes)] + if EventLen(bytes) <= |bytes| then Parsed(bytes[EventLen(bytes)..]) else []
  }

  datatype ReadResult = Events(events: seq<Event>) | IoError

  /** `read_events`: n is what `read` returned. */
  method ReadEvents(buf: array<Byte>, n: int) returns (r: ReadResult)
    requires n <= buf.Length
    ensures n < 0 <==> r.IoError?
    ensures n >= 0 ==> r == Events(Parsed(buf[..n]))
  {
    if n < 0 {
      return IoError;
    }
    var bytes := buf[..n];
    var events := ParseBytes(bytes);
    return Events(events);
  }

  /** The loop over the part of the buffer that was filled: nothing past it is looked at. */
  method ParseBytes(bytes: seq<Byte>) returns (events: seq<Event>)
    ensures events == Parsed(bytes)
  {
    hide Parsed, EventLen, EventOf, FromLittleEndian;
    events := [];
    var offset := 0;
    assert bytes[0..] == bytes;
    while offset + HEADER <= |bytes|
      invariant 0 <= offset
      invariant Parsed(bytes) == events + ParsedFrom(bytes, offset)
    {
      var meta := bytes[offset..offset + HEADER];
      ParsedAt(bytes, offset);
      if meta[4] != FANOTIFY_METADATA_VERSION || EventLen(meta) < HEADER {
        return;
      }
      events := events + [EventOf(meta)];
      offset := offset + EventLen(meta);
    }
    if offset <= |bytes| {
      ParsedShort(bytes[offset..]);
    }
  }

  function ParsedFrom(bytes: seq<Byte>, offset: nat): seq<Event> {
    if offset <= |bytes| then Parsed(bytes[offset..]) else []
  }

  lemma ParsedShort(bytes: seq<Byte>)
    ensures |bytes| < HEADER ==> Parsed(bytes) == []
  {
  }

  /** One turn of the loop: only the header at the offset matters. */
  lemma ParsedAt(bytes: seq<Byte>, offset: nat)
    requires offset + HEADER <= |bytes|
    ensures var meta := bytes[offset..offset + HEADER];
            ParsedFrom(bytes, offset) ==
              if meta[4] != FANOTIFY_METADATA_VERSION || EventLen(meta) < HEADER then []
              else [EventOf(meta)] + ParsedFrom(bytes, offset + EventLen(meta))
  {
    hide EventLen, EventOf;
    var rest := bytes[offset..];
    SliceOfTail(bytes, offset, HEADER);
    SameHeader(rest);
    if EventLen(rest) <= |rest| {
      TailOfTail(bytes, offset, EventLen(rest));
    }
  }

  lemma SliceOfTail(bytes: seq<Byte>, a: nat, b: nat)
    requires a + b <= |bytes|
    ensures bytes[a..][..b] == bytes[a..a + b]
  {
  }

  lemma TailOfTail(bytes: seq<Byte>, a: nat, b: nat)
    requires a + b <= |bytes|
    ensures bytes[a..][b..] == bytes[a + b..]
  {
  }

  lemma SameHeader(bytes: seq<Byte>)
    requires |bytes| >= HEADER
    ensures EventLen(bytes[..HEADER]) == EventLen(bytes) && EventOf(bytes[..HEADER]) == EventOf(bytes)
    ensures GoodHeader(bytes[..HEADER]) == GoodHeader(bytes)
  {
    hide FromLittleEndian;
    var h := bytes[..HEADER];
    assert h[..4] == bytes[..4] && h[8..16] == bytes[8..16] && h[16..20] == bytes[16..20] && h[20..24] == bytes[20..24];
  }

  // ------------------------------------------------------------------
  // Well-formed records

  /** A record as the kernel writes it: the header and whatever follows it. */
  datatype Record = Record(event: Event, reserved: Byte, extra: seq<Byte>)

  predicate Encodable(r: Record) {
    && r.event.mask < 0x1_0000_0000_0000_0000
    && -0x8000_0000 <= r.event.fd < 0x8000_0000 && -0x8000_0000 <= r.event.pid < 0x8000_0000
    && HEADER + |r.extra| < 0x1_0000_0000
  }

  function Encode(r: Record): (s: seq<Byte>)
    requires Encodable(r)
    ensures |s| == HEADER + |r.extra|
  {
    LittleEndian(HEADER + |r.extra|, 4) + [FANOTIFY_METADATA_VERSION, r.reserved] + LittleEndian(HEADER, 2)
    + LittleEndian(r.event.mask, 8) + LittleEndian(Unsigned32(r.event.fd), 4) + LittleEndian(Unsigned32(r.event.pid), 4)
    + r.extra
  }

  function EncodeAll(records: seq<Record>): seq<Byte>
    requires forall i :: 0 <= i < |records| ==> Encodable(records[i])
  {
    if records == [] then [] else Encode(records[0]) + EncodeAll(records[1..])
  }

  function EventsOf(records: seq<Record>): seq<Event> {
    if records == [] then [] else [records[0].event] + EventsOf(records[1..])
  }

  lemma EncodeDecode(r: Record, rest: seq<Byte>)
    requires Encodable(r)
    ensures var s := Encode(r) + rest;
            GoodHeader(s) && EventLen(s) == |Encode(r)| && EventOf(s) == r.event
  {
    PowValues();
    LittleEndianRoundTrip(HEADER + |r.extra|, 4);
    LittleEndianRoundTrip(r.event.mask, 8);
    LittleEndianRoundTrip(Unsigned32(r.event.fd), 4);
    LittleEndianRoundTrip(Unsigned32(r.event.pid), 4);
    Fields(r, rest);
  }

  lemma Fields(r: Record, rest: seq<Byte>)
    requires Encodable(r)
    ensures var s := Encode(r) + rest;
            && s[..4] == LittleEndian(HEADER + |r.extra|, 4) && s[4] == FANOTIFY_METADATA_VERSION
            && s[8..16] == LittleEndian(r.event.mask, 8)
            && s[16..20] == LittleEndian(Unsigned32(r.event.fd), 4)
            && s[20..24] == LittleEndian(Unsigned32(r.event.pid), 4)
  {
    hide LittleEndian;
  }

  /** What can follow the last record without adding an event: too few bytes, or a header of another version. */
  predicate Ends(tail: seq<Byte>) {
    |tail| < HEADER || !GoodHeader(tail)
  }

  /** On any sequence of well-formed records of any lengths, exactly their events come out, in order. */
  lemma {:induction false} ParseAll(records: seq<Record>, tail: seq<Byte>)
    requires (forall i :: 0 <= i < |records| ==> Encodable(records[i])) && Ends(tail)
    ensures Parsed(EncodeAll(records) + tail) == EventsOf(records)
  {
    if records == [] {
      assert EncodeAll(records) + tail == tail;
    } else {
      var first := Encode(records[0]);
      var rest := EncodeAll(records[1..]) + tail;
      assert EncodeAll(records) + tail == first + rest;
      EncodeDecode(records[0], rest);
      assert (first + rest)[|first|..] == rest;
      ParseAll(records[1..], tail);
    }
  }

  /** Anything else ends the parse: too few bytes for a header, another version, a length below the header's.
      A record that claims more bytes than there are is still delivered, as the last. */
  lemma ParseStops(bytes: seq<Byte>)
    ensures |bytes| < 24 || bytes[4] != 3 || FromLittleEndian(bytes[..4]) < 24 ==> Parsed(bytes) == []
    ensures |bytes| >= 24 && bytes[4] == 3 && FromLittleEndian(bytes[..4]) >= 24 ==>
              Parsed(bytes) != [] && Parsed(bytes)[0] == EventOf(bytes)
    ensures |bytes| >= 24 && bytes[4] == 3 && FromLittleEndian(bytes[..4]) > |bytes| ==> |Parsed(bytes)| == 1
  {
    hide FromLittleEndian, EventOf;
  }
}
