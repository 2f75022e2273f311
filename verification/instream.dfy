/** Streaming a file to the engine in length-prefixed chunks, and reading the engine's reply. */
module Instream {
  import opened Base
  import opened Text
  import opened Triage
  import opened Bytes

  const INSTREAM_CHUNK: nat := 64 * 1024

  /** "zINSTREAM\0" */
  const COMMAND: seq<Byte> := [122, 73, 78, 83, 84, 82, 69, 65, 77, 0]

  datatype Decoded = Complete(file: seq<Byte>, rest: seq<Byte>) | Incomplete

  /** The receiving end: chunks until one of length zero. */
  function Decode(s: seq<Byte>): Decoded {
    if |s| < 4 then Incomplete
    else
      var n := FromBigEndian(s[..4]);
      if n == 0 then Complete([], s[4..])
      else if |s| < 4 + n then Incomplete
      else
        match Decode(s[4 + n..])
        case Incomplete => Incomplete
        case Complete(file, rest) => Complete(s[4..4 + n] + file, rest)
  }

  function Chunk(data: seq<Byte>): seq<Byte> {
    BigEndian(|data|, 4) + data
  }

  function Chunks(pieces: seq<seq<Byte>>): seq<Byte> {
    if pieces == [] then [] else Chunk(pieces[0]) + Chunks(pieces[1..])
  }

  function Joined(pieces: seq<seq<Byte>>): seq<Byte> {
    if pieces == [] then [] else pieces[0] + Joined(pieces[1..])
  }

  ghost predicate ReadPieces(pieces: seq<seq<Byte>>) {
    forall i :: 0 <= i < |pieces| ==> 1 <= |pieces[i]| <= INSTREAM_CHUNK
  }

  const TERMINATOR: seq<Byte> := BigEndian(0, 4)

  lemma DecodeTerminator(rest: seq<Byte>)
    ensures Decode(TERMINATOR + rest) == Complete([], rest)
  {
    var s := TERMINATOR + rest;
    PowValues();
    BigEndianRoundTrip(0, 4);
    assert s[..4] == TERMINATOR && s[4..] == rest;
  }

  /** A data chunk is never taken for the terminator, and its length survives the 32-bit field. */
  lemma DecodeChunk(data: seq<Byte>, rest: seq<Byte>)
    requires 1 <= |data| <= INSTREAM_CHUNK
    ensures Decode(Chunk(data) + rest) ==
            match Decode(rest)
            case Incomplete => Incomplete
            case Complete(file, more) => Complete(data + file, more)
  {
    var s := Chunk(data) + rest;
    PowValues();
    BigEndianRoundTrip(|data|, 4);
    assert s[..4] == BigEndian(|data|, 4);
    assert s[4..4 + |data|] == data && s[4 + |data|..] == rest;
  }

  /** However the readCount fell, the engine gets the file back exactly, and stops where it ends. */
  lemma {:induction false} StreamRoundTrip(pieces: seq<seq<Byte>>, rest: seq<Byte>)
    requires ReadPieces(pieces)
    ensures Decode(Chunks(pieces) + (TERMINATOR + rest)) == Complete(Joined(pieces), rest)
  {
    if pieces == [] {
      assert Chunks(pieces) + (TERMINATOR + rest) == TERMINATOR + rest;
      DecodeTerminator(rest);
    } else {
      StreamRoundTrip(pieces[1..], rest);
      DecodeChunk(pieces[0], Chunks(pieces[1..]) + (TERMINATOR + rest));
      assert Chunks(pieces) + (TERMINATOR + rest) == Chunk(pieces[0]) + (Chunks(pieces[1..]) + (TERMINATOR + rest));
    }
  }

  /** A stream cut off before the terminator is never taken for a whole file. */
  lemma {:induction false} CutStreamIncomplete(pieces: seq<seq<Byte>>)
    requires ReadPieces(pieces)
    ensures Decode(Chunks(pieces)) == Incomplete
  {
    if pieces != [] {
      CutStreamIncomplete(pieces[1..]);
      DecodeChunk(pieces[0], Chunks(pieces[1..]));
    }
  }

  lemma {:induction false} DecodeExtends(s: seq<Byte>, more: seq<Byte>)
    ensures Decode(s).Complete? ==> Decode(s + more) == Complete(Decode(s).file, Decode(s).rest + more)
    decreases |s|
  {
    if Decode(s).Complete? {
      var n := FromBigEndian(s[..4]);
      assert (s + more)[..4] == s[..4];
      if n == 0 {
        assert (s + more)[4..] == s[4..] + more;
      } else {
        DecodeExtends(s[4 + n..], more);
        assert (s + more)[4 + n..] == s[4 + n..] + more;
        assert (s + more)[4..4 + n] == s[4..4 + n];
      }
    }
  }

  /** Nor is any proper prefix of a whole stream, wherever it is cut. */
  lemma PrefixIncomplete(pieces: seq<seq<Byte>>, cut: nat)
    requires ReadPieces(pieces) && cut < |Chunks(pieces) + TERMINATOR|
    ensures Decode((Chunks(pieces) + TERMINATOR)[..cut]) == Incomplete
  {
    var whole := Chunks(pieces) + TERMINATOR;
    StreamRoundTrip(pieces, []);
    assert TERMINATOR + [] == TERMINATOR;
    DecodeExtends(whole[..cut], whole[cut..]);
    assert whole[..cut] + whole[cut..] == whole;
  }

  lemma {:induction false} JoinedAppend(pieces: seq<seq<Byte>>, last: seq<Byte>)
    ensures Joined(pieces + [last]) == Joined(pieces) + last
    ensures Chunks(pieces + [last]) == Chunks(pieces) + Chunk(last)
  {
    if pieces == [] {
      assert [last][1..] == [];
      assert pieces + [last] == [last];
    } else {
      JoinedAppend(pieces[1..], last);
      assert (pieces + [last])[1..] == pieces[1..] + [last];
    }
  }

  /** An open file: each read returns what the system likes, up to a buffer's worth, or fails. */
  class Reader {
    const content: seq<Byte>
    const sizes: nat -> nat
    const failsAt: Option<nat>
    var pos: nat
    var readCount: nat

    constructor (content: seq<Byte>, sizes: nat -> nat, failsAt: Option<nat>)
      ensures this.content == content && this.sizes == sizes && this.failsAt == failsAt && pos == 0 && readCount == 0
    {
      this.content, this.sizes, this.failsAt, pos, readCount := content, sizes, failsAt, 0, 0;
    }

    method Read() returns (r: Option<seq<Byte>>)
      requires pos <= |content|
      modifies this
      ensures old(pos) <= pos <= |content| && readCount == old(readCount) + 1
      ensures r.Some? ==> r.value == content[old(pos)..pos] && |r.value| <= INSTREAM_CHUNK
      ensures r.Some? ==> (r.value == [] <==> old(pos) == |content|)
      ensures r.None? ==> failsAt.Some?
    {
      readCount := readCount + 1;
      if failsAt == Some(readCount - 1) {
        return None;
      }
      var wanted := if 1 <= sizes(readCount) <= INSTREAM_CHUNK then sizes(readCount) else INSTREAM_CHUNK;
      var n := if wanted <= |content| - pos then wanted else |content| - pos;
      r := Some(content[pos..pos + n]);
      pos := pos + n;
    }
  }

  /** `instream`, up to the reply: what has been written to the socket when it is done or a read failed. */
  method Stream(reader: Reader) returns (ok: bool, sent: seq<Byte>)
    requires reader.pos == 0
    modifies reader
    ensures |sent| >= |COMMAND| && sent[..|COMMAND|] == COMMAND
    ensures ok ==> Decode(sent[|COMMAND|..]) == Complete(reader.content, [])
    ensures !ok ==> Decode(sent[|COMMAND|..]) == Incomplete && reader.failsAt.Some?
  {
    assert Joined([]) == [] && Chunks([]) == [];
    hide Decode, Chunks, Joined;
    sent := COMMAND;
    ghost var pieces: seq<seq<Byte>> := [];
    while true
      invariant reader.pos <= |reader.content|
      invariant ReadPieces(pieces) && Joined(pieces) == reader.content[..reader.pos]
      invariant sent == COMMAND + Chunks(pieces)
      decreases |reader.content| - reader.pos
    {
      ghost var was := reader.pos;
      var buf := reader.Read();
      if buf.None? {
        CutStreamIncomplete(pieces);
        assert sent[|COMMAND|..] == Chunks(pieces);
        return false, sent;
      }
      if buf.value == [] {
        break;
      }
      JoinedAppend(pieces, buf.value);
      pieces := pieces + [buf.value];
      assert reader.content[..reader.pos] == reader.content[..was] + buf.value;
      sent := sent + BigEndian(|buf.value|, 4);
      sent := sent + buf.value;
    }
    StreamRoundTrip(pieces, []);
    assert TERMINATOR + [] == TERMINATOR;
    sent := sent + BigEndian(0, 4);
    assert sent[|COMMAND|..] == Chunks(pieces) + TERMINATOR;
    return true, sent;
  }
}
