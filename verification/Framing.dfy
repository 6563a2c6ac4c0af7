/** Newline framing of a connection (pkg/server.go): the line scanner with its bounded buffer,
    and the encoder's side of it. */
module Framing {
  import opened Basics
  import opened Protocol

  const NEWLINE: Byte := 10
  const RETURN: Byte := 13
  const INITIAL_BUFFER := 64 * 1024
  const MAX_LINE := 1024 * 1024

  // ----- What a stream means ----------------------------------------------------------

  /** Position of the first newline from `i` on, or the length. */
  function NewlineFrom(s: Bytes, i: nat): (k: nat)
    requires i <= |s|
    ensures i <= k <= |s|
    ensures k < |s| ==> s[k] == NEWLINE
    ensures forall j :: i <= j < k ==> s[j] != NEWLINE
    decreases |s| - i
  {
    if i == |s| || s[i] == NEWLINE then i else NewlineFrom(s, i + 1)
  }

  function NewlineAt(s: Bytes): (k: nat)
    ensures k <= |s|
    ensures k < |s| ==> s[k] == NEWLINE
    ensures forall j :: 0 <= j < k ==> s[j] != NEWLINE
  {
    NewlineFrom(s, 0)
  }

  function DropReturn(line: Bytes): Bytes
  {
    if line != [] && Last(line) == RETURN then Init(line) else line
  }

  datatype Scan = Token(line: Bytes, rest: Bytes) | End | TooLong

  /** The next token of a stream: the buffer must see a newline within MAX_LINE bytes, or
      fewer bytes than that before the end. */
  function Next(stream: Bytes): (r: Scan)
    ensures r.Token? ==> |r.rest| < |stream|
  {
    var k := NewlineAt(stream);
    if k >= MAX_LINE then TooLong
    else if k < |stream| then Token(DropReturn(stream[..k]), stream[k + 1..])
    else if stream == [] then End
    else Token(DropReturn(stream), [])
  }

  /** All tokens a connection's stream delivers. */
  function Lines(stream: Bytes): seq<Bytes>
    decreases |stream|
  {
    match Next(stream)
    case Token(line, rest) => [line] + Lines(rest)
    case End => []
    case TooLong => []
  }

  lemma LinesUnfold(stream: Bytes)
    ensures Lines(stream) == if Next(stream).Token? then [Next(stream).line] + Lines(Next(stream).rest) else []
  {
  }

  // ----- The connection and the scanner -----------------------------------------------

  /** A connection. `sizes` decides how many bytes each read gives and `failing` which
      writes fail; they stand for every behaviour of the transport. */
  class Connection {
    var unread: Bytes
    var sent: seq<Response>
    var readCount: nat
    var writeCount: nat
    const sizes: nat -> nat
    const failing: nat -> bool

    constructor (stream: Bytes, sizes: nat -> nat, failing: nat -> bool)
      ensures unread == stream && sent == [] && readCount == 0 && writeCount == 0
      ensures this.sizes == sizes && this.failing == failing
    {
      unread, sent, readCount, writeCount := stream, [], 0, 0;
      this.sizes, this.failing := sizes, failing;
    }

    method Read(room: nat) returns (chunk: Bytes)
      requires room > 0 && unread != []
      modifies this`unread, this`readCount
      ensures 0 < |chunk| <= room && old(unread) == chunk + unread
    {
      var most := if room < |unread| then room else |unread|;
      var n := 1 + sizes(readCount) % most;
      chunk, unread, readCount := unread[..n], unread[n..], readCount + 1;
    }

    method Encode(response: Response) returns (ok: bool)
      modifies this`sent, this`writeCount
      ensures ok == !failing(old(writeCount)) && writeCount == old(writeCount) + 1
      ensures sent == old(sent) + (if ok then [response] else [])
    {
      ok, writeCount := !failing(writeCount), writeCount + 1;
      if ok { sent := sent + [response]; }
    }
  }

  /** bufio.Scanner over lines: `data` holds the bytes read and not yet delivered, and
      `size` is the current size of the buffer. */
  class Scanner {
    const conn: Connection
    var data: Bytes
    var size: nat
    var eof: bool

    constructor (conn: Connection)
      ensures this.conn == conn && data == [] && Valid()
    {
      this.conn := conn;
      data, size, eof := [], INITIAL_BUFFER, false;
      new;
    }

    ghost predicate Valid()
      reads this, conn
    {
      && 0 < size <= MAX_LINE && |data| <= size
      && (eof ==> conn.unread == [] && |data| < MAX_LINE)
    }

    ghost function Stream(): Bytes
      reads this, conn
    {
      data + conn.unread
    }

    /** The next token does not depend on how the stream is cut into reads. */
    method Scan() returns (more: bool, line: Bytes)
      requires Valid()
      modifies this`data, this`size, this`eof, conn`unread, conn`readCount
      ensures Valid()
      ensures more <==> Next(old(Stream())).Token?
      ensures more ==> Next(old(Stream())) == Token(line, Stream())
    {
      hide Next, NewlineAt, DropReturn;
      ghost var stream := Stream();
      while true
        invariant Valid() && Stream() == stream
        decreases |conn.unread|, !eof
      {
        var k := NewlineAt(data);
        if k < |data| {
          NextFound(data, k, conn.unread);
          line := DropReturn(data[..k]);
          data := data[k + 1..];
          return true, line;
        }
        if eof {
          assert stream == data;
          NextAtEnd(data);
          if data == [] { return false, []; }
          line := DropReturn(data);
          data := [];
          assert Stream() == [];
          return true, line;
        }
        if |data| == size {
          if size >= MAX_LINE {
            NextTooLong(data, conn.unread);
            return false, [];
          }
          size := if 2 * size < MAX_LINE then 2 * size else MAX_LINE;
        }
        if conn.unread == [] {
          eof := true;
        } else {
          var chunk := conn.Read(size - |data|);
          assert data + (chunk + conn.unread) == (data + chunk) + conn.unread;
          data := data + chunk;
        }
      }
    }
  }

  lemma NewlineInPrefix(a: Bytes, b: Bytes)
    ensures NewlineAt(a + b) == if NewlineAt(a) < |a| then NewlineAt(a) else |a| + NewlineAt(b)
  {
    var k := if NewlineAt(a) < |a| then NewlineAt(a) else |a| + NewlineAt(b);
    assert k < |a + b| ==> (a + b)[k] == NEWLINE;
    assert forall j :: 0 <= j < k ==> (a + b)[j] != NEWLINE;
  }

  lemma NextWithNewline(line: Bytes, rest: Bytes)
    requires NewlineAt(line) == |line| < MAX_LINE
    ensures Next(line + ([NEWLINE] + rest)) == Token(DropReturn(line), rest)
  {
    var stream := line + ([NEWLINE] + rest);
    NewlineInPrefix(line, [NEWLINE] + rest);
    assert stream[..|line|] == line && stream[|line| + 1..] == rest;
  }

  lemma CutAtNewline(data: Bytes, k: nat)
    requires k == NewlineAt(data) < |data|
    ensures data == data[..k] + ([NEWLINE] + data[k + 1..])
    ensures NewlineAt(data[..k]) == k
  {
  }

  lemma Regroup(line: Bytes, rest: Bytes, unread: Bytes)
    ensures line + ([NEWLINE] + rest) + unread == line + ([NEWLINE] + (rest + unread))
  {
  }

  lemma NextFound(data: Bytes, k: nat, unread: Bytes)
    requires k == NewlineAt(data) < |data| <= MAX_LINE
    ensures Next(data + unread) == Token(DropReturn(data[..k]), data[k + 1..] + unread)
  {
    CutAtNewline(data, k);
    Regroup(data[..k], data[k + 1..], unread);
    NextWithNewline(data[..k], data[k + 1..] + unread);
  }

  lemma NextAtEnd(data: Bytes)
    requires NewlineAt(data) == |data| < MAX_LINE
    ensures Next(data) == if data == [] then End else Token(DropReturn(data), [])
  {
  }

  lemma NextTooLong(data: Bytes, unread: Bytes)
    requires NewlineAt(data) == |data| == MAX_LINE
    ensures Next(data + unread).TooLong?
  {
    NewlineInPrefix(data, unread);
  }

  // ----- The encoder's side -----------------------------------------------------------

  /** json.Encoder writes each value followed by one newline. */
  function Encoded(frames: seq<Bytes>): Bytes
  {
    if frames == [] then [] else frames[0] + [NEWLINE] + Encoded(frames[1..])
  }

  /** A text that survives framing: one line that fits the buffer and has no return at its
      end. JSON objects written by the encoder have no raw newline (section 7 of RFC 8259)
      and end in a brace. */
  predicate Framable(frame: Bytes)
  {
    NEWLINE !in frame && |frame| < MAX_LINE && (frame != [] ==> Last(frame) != RETURN)
  }

  lemma NoNewline(frame: Bytes)
    ensures NEWLINE !in frame <==> NewlineAt(frame) == |frame|
  {
  }

  lemma {:induction false} LinesHaveNoNewline(stream: Bytes)
    ensures forall i :: 0 <= i < |Lines(stream)| ==> NEWLINE !in Lines(stream)[i]
    decreases |stream|
  {
    if Next(stream).Token? {
      NoNewline(Next(stream).line);
      LinesHaveNoNewline(Next(stream).rest);
    }
  }

  lemma LineOfFrame(frame: Bytes, rest: Bytes)
    requires NEWLINE !in frame
    ensures Lines(frame + ([NEWLINE] + rest))
      == if |frame| < MAX_LINE then [DropReturn(frame)] + Lines(rest) else []
  {
    NoNewline(frame);
    if |frame| < MAX_LINE {
      NextWithNewline(frame, rest);
    } else {
      NewlineInPrefix(frame, [NEWLINE] + rest);
    }
  }

  /** What the scanner makes of one text without a newline, in front of other input: one line,
      without a return at its end, if it is shorter than 1 MiB; else the connection ends. */
  lemma LinesOfOne(frame: Bytes, rest: Bytes)
    requires 10 !in frame
    ensures Lines(frame + ([10] + rest)) ==
      if |frame| >= 1_048_576 then []
      else if frame != [] && frame[|frame| - 1] == 13 then [frame[..|frame| - 1]] + Lines(rest)
      else [frame] + Lines(rest)
  {
    hide Lines, NewlineAt;
    LineOfFrame(frame, rest);
  }

  /** The end of the input: a last line need not end in a newline. */
  lemma LinesAtEnd(frame: Bytes)
    requires 10 !in frame
    ensures Lines(frame) ==
      if frame == [] || |frame| >= 1_048_576 then []
      else if frame[|frame| - 1] == 13 then [frame[..|frame| - 1]] else [frame]
  {
    NoNewline(frame);
    if frame != [] && |frame| < MAX_LINE {
      NextAtEnd(frame);
      assert Lines([]) == [];
    }
  }

  lemma EncodedFirst(frames: seq<Bytes>)
    requires frames != []
    ensures Encoded(frames) == frames[0] + ([NEWLINE] + Encoded(frames[1..]))
  {
  }

  lemma HeadAndTail<T>(x: T, xs: seq<T>, ys: seq<T>)
    requires ys != []
    ensures [x] + xs == ys <==> x == ys[0] && xs == ys[1..]
  {
    assert ys == [ys[0]] + ys[1..];
    assert ([x] + xs)[1..] == xs;
  }

  /** Round trip, exactly: a stream of encoded texts is delivered as those texts iff each of
      them is framable. */
  lemma {:induction false} RoundTripIffFramable(frames: seq<Bytes>)
    ensures Lines(Encoded(frames)) == frames
      <==> forall i :: 0 <= i < |frames| ==> Framable(frames[i])
    decreases |frames|
  {
    if frames != [] {
      var frame, rest := frames[0], Encoded(frames[1..]);
      EncodedFirst(frames);
      RoundTripIffFramable(frames[1..]);
      if NEWLINE in frame {
        LinesHaveNoNewline(Encoded(frames));
      } else {
        LineOfFrame(frame, rest);
        HeadAndTail(DropReturn(frame), Lines(rest), frames);
      }
    }
  }
}
