/**
 * The cancellable protocol reader (src/cacheprog/mod.rs:67-120 and 313-331). Input arrives in
 * arbitrary non-empty chunks, and the future driving the reader may be dropped at any await and
 * started again; a read may fail. JSON parsing is an arbitrary function.
 */
module ProtocolReader {
  import opened Words
  import opened Bytes

  const NEWLINE: Byte := 10

  datatype Request = Request(id: int, command: Text, actionId: Text, outputId: Text, bodySize: U64)

  datatype Parsed = Valid(request: Request) | Malformed(error: Text)

  type Parser = Text -> Parsed

  datatype Message = Message(request: Request, encodedBody: Text) | Invalid(error: Text)

  const PUT: Text := [112, 117, 116]

  predicate Whitespace(b: Byte) {
    b == 9 || b == 10 || b == 12 || b == 13 || b == 32
  }

  predicate Blank(line: Text) {
    forall i :: 0 <= i < |line| ==> Whitespace(line[i])
  }

  predicate AwaitsBody(r: Request) {
    r.command == PUT && r.bodySize > 0
  }

  // ----- the stream as a pure value -----

  /** Length of the first line, its newline included; everything when there is none. */
  function LineLength(s: Text): (n: nat)
    ensures n <= |s| && (s != [] ==> n > 0)
  {
    if s == [] then 0 else if s[0] == NEWLINE then 1 else 1 + LineLength(s[1..])
  }

  datatype NextLine = Line(line: Text, rest: Text) | EndOfStream

  /** The first line that is not blank, and what follows it. */
  function FirstLine(s: Text): (r: NextLine)
    ensures r.Line? ==> |r.rest| < |s| && r.line != []
    decreases |s|
  {
    if s == [] then EndOfStream
    else
      var n := LineLength(s);
      if Blank(s[..n]) then FirstLine(s[n..]) else Line(s[..n], s[n..])
  }

  datatype Outcome = Produced(message: Message, rest: Text) | Ended | BodyMissing

  /** The next message of a stream, given the put whose body line is still due. */
  function Next(parse: Parser, pending: Option<Request>, s: Text): (r: Outcome)
    ensures r.Produced? ==> |r.rest| < |s|
    decreases |s|
  {
    var next := FirstLine(s);
    if pending.Some? then
      if next.EndOfStream? then BodyMissing else Produced(Message(pending.value, next.line), next.rest)
    else if next.EndOfStream? then Ended
    else
      match parse(next.line)
      case Malformed(error) => Produced(Invalid(error), next.rest)
      case Valid(request) =>
        if AwaitsBody(request) then Next(parse, Some(request), next.rest)
        else Produced(Message(request, []), next.rest)
  }

  datatype Transcript = Transcript(messages: seq<Message>, complete: bool)

  /** Every message of a whole stream, and whether it ended cleanly. */
  function Messages(parse: Parser, pending: Option<Request>, s: Text): Transcript
    decreases |s|
  {
    match Next(parse, pending, s)
    case Ended => Transcript([], true)
    case BodyMissing => Transcript([], false)
    case Produced(message, rest) =>
      var later := Messages(parse, None, rest);
      Transcript([message] + later.messages, later.complete)
  }

  // ----- lines across chunk boundaries -----

  lemma {:induction false} LineExtends(a: Text, b: Text)
    requires NEWLINE !in a
    ensures LineLength(a + b) == |a| + LineLength(b)
  {
    if a == [] {
      assert a + b == b;
    } else {
      LineExtends(a[1..], b);
      assert (a + b)[1..] == a[1..] + b;
    }
  }

  /** The first newline of a chunk ends the line that the chunk completes. */
  lemma {:induction false} LineEnds(a: Text, rest: Text)
    requires Closed(a)
    ensures LineLength(a + rest) == |a|
  {
    var front := a[..|a| - 1];
    assert a + rest == front + ([NEWLINE] + rest);
    LineExtends(front, [NEWLINE] + rest);
  }

  lemma LineAtEnd(a: Text)
    requires NEWLINE !in a
    ensures LineLength(a) == |a|
  {
    LineExtends(a, []);
    assert a + [] == a;
  }

  lemma MovedBytes(before: Text, chunk: Text, n: nat, later: Text)
    requires n <= |chunk|
    ensures (before + chunk[..n]) + (chunk[n..] + later) == before + (chunk + later)
  {
    assert chunk == chunk[..n] + chunk[n..];
  }

  ghost predicate Closed(line: Text) {
    line != [] && line[|line| - 1] == NEWLINE && NEWLINE !in line[..|line| - 1]
  }

  lemma ClosedLine(before: Text, chunk: Text, n: nat)
    requires 0 < n <= |chunk| && chunk[n - 1] == NEWLINE && NEWLINE !in before && NEWLINE !in chunk[..n - 1]
    ensures Closed(before + chunk[..n])
  {
    var line := before + chunk[..n];
    assert line[..|line| - 1] == before + chunk[..n - 1];
  }

  function Join(chunks: seq<Text>): Text {
    if chunks == [] then [] else chunks[0] + Join(chunks[1..])
  }

  // ----- the same messages, read off the list of lines -----

  function Lines(s: Text): (lines: seq<Text>)
    decreases |s|
  {
    if s == [] then [] else
      var n := LineLength(s);
      [s[..n]] + Lines(s[n..])
  }

  function Significant(lines: seq<Text>): seq<Text> {
    if lines == [] then []
    else (if Blank(lines[0]) then [] else [lines[0]]) + Significant(lines[1..])
  }

  /** One pass over the lines: a put with a body takes the line after it, every other line stands alone. */
  function OfLines(parse: Parser, pending: Option<Request>, lines: seq<Text>): Transcript
    decreases |lines|
  {
    if lines == [] then Transcript([], pending.None?)
    else
      var parsed := parse(lines[0]);
      if pending.None? && parsed.Valid? && AwaitsBody(parsed.request) then
        OfLines(parse, Some(parsed.request), lines[1..])
      else
        var message :=
          if pending.Some? then Message(pending.value, lines[0])
          else if parsed.Malformed? then Invalid(parsed.error)
          else Message(parsed.request, []);
        var later := OfLines(parse, None, lines[1..]);
        Transcript([message] + later.messages, later.complete)
  }

  lemma {:induction false} FirstLineIsSignificant(s: Text)
    ensures FirstLine(s).EndOfStream? ==> Significant(Lines(s)) == []
    ensures FirstLine(s).Line? ==> Significant(Lines(s)) == [FirstLine(s).line] + Significant(Lines(FirstLine(s).rest))
    decreases |s|
  {
    if s != [] {
      var n := LineLength(s);
      assert Lines(s)[1..] == Lines(s[n..]);
      FirstLineIsSignificant(s[n..]);
    }
  }

  /** Wherever blank lines stand, the messages are those of the significant lines alone. */
  lemma {:induction false} MessagesOfSignificantLines(parse: Parser, pending: Option<Request>, s: Text)
    ensures Messages(parse, pending, s) == OfLines(parse, pending, Significant(Lines(s)))
    decreases |s|
  {
    FirstLineIsSignificant(s);
    var first := FirstLine(s);
    if first.Line? {
      var lines := Significant(Lines(s));
      assert lines[0] == first.line && lines[1..] == Significant(Lines(first.rest));
      var parsed := parse(first.line);
      if pending.None? && parsed.Valid? && AwaitsBody(parsed.request) {
        MessagesOfSignificantLines(parse, Some(parsed.request), first.rest);
        assert Next(parse, pending, s) == Next(parse, Some(parsed.request), first.rest);
      } else {
        MessagesOfSignificantLines(parse, None, first.rest);
      }
    }
  }

  /** What a peer wrote line by line is read back line by line. */
  lemma {:induction false} LinesRoundTrip(lines: seq<Text>)
    requires forall i :: 0 <= i < |lines| ==> Closed(lines[i])
    ensures Lines(Join(lines)) == lines
  {
    if lines != [] {
      var rest := Join(lines[1..]);
      LineEnds(lines[0], rest);
      assert (lines[0] + rest)[..|lines[0]|] == lines[0] && (lines[0] + rest)[|lines[0]|..] == rest;
      LinesRoundTrip(lines[1..]);
    }
  }

  /** `memchr`: where the first newline of a chunk is. */
  method FindNewline(chunk: Text) returns (at: Option<nat>)
    ensures at.Some? ==> at.value < |chunk| && chunk[at.value] == NEWLINE && NEWLINE !in chunk[..at.value]
    ensures at.None? ==> NEWLINE !in chunk
  {
    for i := 0 to |chunk|
      invariant NEWLINE !in chunk[..i]
    {
      if chunk[i] == NEWLINE {
        return Some(i);
      }
      assert chunk[..i + 1] == chunk[..i] + [chunk[i]];
    }
    assert chunk[..|chunk|] == chunk;
    return None;
  }

  /** One call: how many polls it is given, and whether its future is then dropped or its read fails. */
  datatype Attempt = Attempt(patience: nat, failing: bool)

  /** A schedule that gives every call time to finish, and has a call for every message. */
  predicate Enough(schedule: seq<Attempt>, bytes: nat) {
    |schedule| > bytes && forall i :: 0 <= i < |schedule| ==> schedule[i].patience > 2 * bytes
  }

  datatype ReadStatus = GotLine | Eof | Stopped

  datatype Poll = Delivered(message: Message) | Finished | Failed | Dropped | ReadFailed

  class Reader {
    const parse: Parser
    /** What the buffered reader will still hand out, chunk by chunk; empty means end of file. */
    var chunks: seq<Text>
    var line: Text
    var pendingPut: Option<Request>

    /** Bytes not yet turned into messages, however they are split. */
    ghost function Unread(): Text
      reads this
    {
      line + Join(chunks)
    }

    /** Bounds the polls still needed: every poll moves a byte, drops a line or meets the end. */
    ghost function Work(): nat
      reads this
    {
      2 * |Join(chunks)| + |line|
    }

    /** Between calls the line buffer holds at most a partial line. */
    ghost predicate Ready()
      reads this
    {
      (forall i :: 0 <= i < |chunks| ==> chunks[i] != []) && NEWLINE !in line
    }

    constructor (parse: Parser, chunks: seq<Text>)
      requires forall i :: 0 <= i < |chunks| ==> chunks[i] != []
      ensures Ready() && this.parse == parse && pendingPut == None && Unread() == Join(chunks)
    {
      this.parse := parse;
      this.chunks := chunks;
      line := [];
      pendingPut := None;
    }

    /** One poll: moves the buffered chunk into the line, through its first newline if it has one. */
    method TakeChunk() returns (ended: bool)
      requires Ready() && chunks != []
      modifies this`chunks, this`line
      ensures Unread() == old(Unread()) && Work() < old(Work())
      ensures forall i :: 0 <= i < |chunks| ==> chunks[i] != []
      ensures if ended then Closed(line) else Ready()
    {
      var chunk, rest, before := chunks[0], chunks[1..], line;
      ghost var later := Join(rest);
      assert Join(chunks) == chunk + later;
      var at := FindNewline(chunk);
      ended := at.Some?;
      if !ended {
        line, chunks := before + chunk, rest;
        MovedBytes(before, chunk, |chunk|, later);
        assert chunk[..|chunk|] == chunk && chunk[|chunk|..] + later == later;
        return;
      }
      var n := at.value + 1;
      line := before + chunk[..n];
      chunks := if n == |chunk| then rest else [chunk[n..]] + rest;
      assert Join(chunks) == chunk[n..] + later;
      MovedBytes(before, chunk, n, later);
      ClosedLine(before, chunk, n);
    }

    /** `read_until`: appends through the next newline; dropping it, or an error, keeps what was appended. */
    method ReadUntil(patience: nat) returns (status: ReadStatus, left: nat)
      requires Ready()
      modifies this`chunks, this`line
      ensures Unread() == old(Unread()) && (forall i :: 0 <= i < |chunks| ==> chunks[i] != [])
      ensures status.Stopped? ==> Ready()
      ensures status.Eof? ==> chunks == [] && line == old(Unread()) && NEWLINE !in line
      ensures status.GotLine? ==> Closed(line)
      ensures if status.Stopped? then left == 0 else left < patience
      ensures patience - left <= old(Work()) - Work() + if status.Eof? then 1 else 0
    {
      left := patience;
      while true
        invariant Ready() && Unread() == old(Unread())
        invariant left <= patience && patience - left <= old(Work()) - Work()
        decreases left
      {
        if left == 0 {
          return Stopped, left;
        }
        left := left - 1;
        if chunks == [] {
          assert Join(chunks) == [];
          return Eof, left;
        }
        var ended := TakeChunk();
        if ended {
          return GotLine, left;
        }
      }
    }

    /** Skips blank lines; resumes by appending to whatever an earlier cancelled call left. */
    method ReadProtocolLine(patience: nat) returns (status: ReadStatus, left: nat)
      requires Ready()
      modifies this`chunks, this`line
      ensures forall i :: 0 <= i < |chunks| ==> chunks[i] != []
      ensures |Unread()| <= |old(Unread())|
      ensures left <= patience && (status.Stopped? ==> left == 0)
      ensures patience - left <= old(Work()) - Work() + if status.Stopped? then 0 else 1
      ensures status.Stopped? ==> Ready() && FirstLine(Unread()) == FirstLine(old(Unread()))
      ensures status.Eof? ==> Ready() && FirstLine(old(Unread())).EndOfStream? && Unread() == []
      ensures status.GotLine? ==> FirstLine(old(Unread())) == Line(line, Join(chunks))
    {
      left := patience;
      while true
        invariant Ready() && |Unread()| <= |old(Unread())| && FirstLine(Unread()) == FirstLine(old(Unread()))
        invariant left <= patience && patience - left <= old(Work()) - Work()
        decreases left
      {
        ghost var unread := Unread();
        var existing := |line|;
        var read;
        read, left := ReadUntil(left);
        if read.Stopped? {
          return Stopped, left;
        }
        ghost var rest := Join(chunks);
        assert unread == line + rest;
        if read.GotLine? {
          LineEnds(line, rest);
        } else {
          assert rest == [] && line + rest == line;
          LineAtEnd(line);
          if |line| == existing && existing == 0 {
            return Eof, left;
          }
        }
        assert unread[..|line|] == line && unread[|line|..] == rest;
        var blank := BlankNow();
        if !blank {
          return GotLine, left;
        }
        line := [];
        assert Unread() == rest;
      }
    }

    method BlankNow() returns (blank: bool)
      ensures blank == Blank(line)
    {
      blank := true;
      for i := 0 to |line|
        invariant blank <==> forall k :: 0 <= k < i ==> Whitespace(line[k])
      {
        blank := blank && Whitespace(line[i]);
      }
    }

    /** `next_message`, driven until it yields or is dropped. */
    method NextMessage(attempt: Attempt) returns (poll: Poll)
      requires Ready()
      modifies this
      ensures (poll.Dropped? ==> !attempt.failing) && (poll.ReadFailed? ==> attempt.failing)
      ensures poll.Dropped? || poll.ReadFailed? ==>
                && attempt.patience <= old(Work()) && |Unread()| <= |old(Unread())| && Ready()
                && Next(parse, pendingPut, Unread()) == Next(parse, old(pendingPut), old(Unread()))
      ensures poll.Delivered? ==>
                Ready() && pendingPut == None &&
                Next(parse, old(pendingPut), old(Unread())) == Produced(poll.message, Unread())
      ensures poll.Finished? ==> Next(parse, old(pendingPut), old(Unread())) == Ended
      ensures poll.Failed? ==> Next(parse, old(pendingPut), old(Unread())) == BodyMissing
    {
      var left: nat := attempt.patience;
      while true
        invariant Ready() && Next(parse, pendingPut, Unread()) == Next(parse, old(pendingPut), old(Unread()))
        invariant |Unread()| <= |old(Unread())|
        invariant left <= attempt.patience && attempt.patience - left <= old(Work()) - Work()
        decreases |Unread()|
      {
        ghost var unread := Unread();
        var status;
        status, left := ReadProtocolLine(left);
        if status.Stopped? {
          NextByLine(parse, pendingPut, unread, Unread());
          return if attempt.failing then ReadFailed else Dropped;
        }
        if pendingPut.Some? {
          if status.Eof? {
            return Failed;
          }
          var request, body := pendingPut.value, line;
          pendingPut := None;
          line := [];
          assert Unread() == Join(chunks);
          return Delivered(Message(request, body));
        }
        if status.Eof? {
          return Finished;
        }
        var parsed := parse(line);
        line := [];
        assert Unread() == Join(chunks);
        if parsed.Malformed? {
          return Delivered(Invalid(parsed.error));
        }
        if !AwaitsBody(parsed.request) {
          return Delivered(Message(parsed.request, []));
        }
        pendingPut := Some(parsed.request);
      }
    }

    /**
     * Drives the reader through any schedule of dropped and resumed calls, ending at a read error.
     * What it has delivered, followed by the messages of what is left, is the transcript of the
     * whole stream; patient enough calls reach its end.
     */
    method Drive(schedule: seq<Attempt>) returns (delivered: seq<Message>, finished: bool, failed: bool)
      requires Ready()
      modifies this
      ensures finished ==> Messages(parse, old(pendingPut), old(Unread())) == Transcript(delivered, true)
      ensures failed ==> Messages(parse, old(pendingPut), old(Unread())) == Transcript(delivered, false)
      ensures !finished && !failed ==>
                var later := Messages(parse, pendingPut, Unread());
                Messages(parse, old(pendingPut), old(Unread()))
                == Transcript(delivered + later.messages, later.complete)
      ensures !(finished && failed)
      ensures Enough(schedule, |old(Unread())|) ==> finished || failed
    {
      delivered, finished, failed := [], false, false;
      ghost var whole := Messages(parse, pendingPut, Unread());
      for i := 0 to |schedule|
        invariant Ready() && !finished && !failed
        invariant whole == Transcript(delivered + Messages(parse, pendingPut, Unread()).messages,
                                      Messages(parse, pendingPut, Unread()).complete)
        invariant |Unread()| <= |old(Unread())|
        invariant Enough(schedule, |old(Unread())|) ==> |Unread()| + i <= |old(Unread())|
      {
        ghost var pending, unread := pendingPut, Unread();
        var poll := NextMessage(schedule[i]);
        match poll {
          case Finished =>
            assert delivered + [] == delivered;
            return delivered, true, false;
          case Failed =>
            assert delivered + [] == delivered;
            return delivered, false, true;
          case ReadFailed =>
            MessagesByNext(parse, pending, unread, pendingPut, Unread());
            return delivered, false, false;
          case Dropped =>
            MessagesByNext(parse, pending, unread, pendingPut, Unread());
          case Delivered(message) =>
            assert delivered + ([message] + Messages(parse, None, Unread()).messages)
                == delivered + [message] + Messages(parse, None, Unread()).messages;
            delivered := delivered + [message];
        }
      }
    }
  }

  /** The next message depends on the stream only through its first line. */
  lemma NextByLine(parse: Parser, pending: Option<Request>, a: Text, b: Text)
    requires FirstLine(a) == FirstLine(b)
    ensures Next(parse, pending, a) == Next(parse, pending, b)
  {
  }

  lemma MessagesByNext(parse: Parser, p: Option<Request>, a: Text, q: Option<Request>, b: Text)
    requires Next(parse, p, a) == Next(parse, q, b)
    ensures Messages(parse, p, a) == Messages(parse, q, b)
  {
  }

  /**
   * Two readers of the same bytes, chunked and cancelled differently, deliver the same messages and
   * agree on whether a put body was missing.
   */
  method ChunkingIsInvisible(
    parse: Parser, a: seq<Text>, b: seq<Text>, scheduleA: seq<Attempt>, scheduleB: seq<Attempt>)
    returns (first: seq<Message>, second: seq<Message>, brokeA: bool, brokeB: bool, both: bool)
    requires Join(a) == Join(b)
    requires (forall i :: 0 <= i < |a| ==> a[i] != []) && (forall i :: 0 <= i < |b| ==> b[i] != [])
    ensures first <= Messages(parse, None, Join(a)).messages && second <= Messages(parse, None, Join(a)).messages
    ensures both ==> first == second == Messages(parse, None, Join(a)).messages
    ensures both ==> brokeA == brokeB == !Messages(parse, None, Join(a)).complete
    ensures Enough(scheduleA, |Join(a)|) && Enough(scheduleB, |Join(b)|) ==> both
  {
    var ra := new Reader(parse, a);
    var rb := new Reader(parse, b);
    var doneA, doneB;
    first, doneA, brokeA := ra.Drive(scheduleA);
    second, doneB, brokeB := rb.Drive(scheduleB);
    both := (doneA || brokeA) && (doneB || brokeB);
  }

  // ----- what a peer writes is what the reader delivers -----

  /** A line feed ends the line and stands nowhere else in it. */
  ghost predicate OneLine(line: Text) {
    line != [] && forall i :: 0 <= i < |line| ==> (line[i] == 10 <==> i == |line| - 1)
  }

  /** Tab, line feed, form feed, carriage return and space: the ASCII whitespace of the source's language. */
  ghost predicate Space(line: Text) {
    OneLine(line) && forall i :: 0 <= i < |line| ==> line[i] in [9, 10, 12, 13, 32]
  }

  ghost predicate Content(line: Text) {
    OneLine(line) && exists i :: 0 <= i < |line| && line[i] !in [9, 10, 12, 13, 32]
  }

  /** One thing a peer writes; `spaces` stand between a put and its body. */
  datatype Item =
    | Spacing(line: Text)
    | Plain(line: Text, request: Request)
    | Put(line: Text, request: Request, spaces: seq<Text>, body: Text)
    | Garbled(line: Text, error: Text)

  /** Only a put that announces a body of at least one byte is followed by a body line. */
  ghost predicate WellWritten(parse: Parser, item: Item) {
    match item
    case Spacing(line) => Space(line)
    case Plain(line, request) =>
      && Content(line) && parse(line) == Valid(request)
      && (request.command == [112, 117, 116] ==> request.bodySize == 0)
    case Put(line, request, spaces, body) =>
      && Content(line) && parse(line) == Valid(request)
      && request.command == [112, 117, 116] && request.bodySize >= 1
      && (forall i :: 0 <= i < |spaces| ==> Space(spaces[i])) && Content(body)
    case Garbled(line, error) => Content(line) && parse(line) == Malformed(error)
  }

  function LinesOf(item: Item): seq<Text> {
    match item
    case Spacing(line) => [line]
    case Plain(line, _) => [line]
    case Put(line, _, spaces, body) => [line] + spaces + [body]
    case Garbled(line, _) => [line]
  }

  function MessagesOf(item: Item): seq<Message> {
    match item
    case Spacing(_) => []
    case Plain(_, request) => [Message(request, [])]
    case Put(_, request, _, body) => [Message(request, body)]
    case Garbled(_, error) => [Invalid(error)]
  }

  function Written(items: seq<Item>): seq<Text> {
    if items == [] then [] else LinesOf(items[0]) + Written(items[1..])
  }

  function Meant(items: seq<Item>): seq<Message> {
    if items == [] then [] else MessagesOf(items[0]) + Meant(items[1..])
  }

  lemma LineKinds(line: Text)
    requires OneLine(line)
    ensures Closed(line)
    ensures Space(line) ==> Blank(line)
    ensures Content(line) ==> !Blank(line)
  {
  }

  lemma {:induction false} SignificantSplit(a: seq<Text>, b: seq<Text>)
    ensures Significant(a + b) == Significant(a) + Significant(b)
  {
    if a == [] {
      assert a + b == b;
    } else {
      assert (a + b)[1..] == a[1..] + b;
      SignificantSplit(a[1..], b);
    }
  }

  lemma {:induction false} NothingInSpaces(spaces: seq<Text>)
    requires forall i :: 0 <= i < |spaces| ==> Space(spaces[i])
    ensures Significant(spaces) == []
  {
    if spaces != [] {
      LineKinds(spaces[0]);
      NothingInSpaces(spaces[1..]);
    }
  }

  /** The lines of an item that are not blank. */
  function Core(item: Item): seq<Text> {
    match item
    case Spacing(_) => []
    case Plain(line, _) => [line]
    case Put(line, _, _, body) => [line, body]
    case Garbled(line, _) => [line]
  }

  lemma SignificantOfItem(parse: Parser, item: Item)
    requires WellWritten(parse, item)
    ensures Significant(LinesOf(item)) == Core(item)
    ensures forall i :: 0 <= i < |LinesOf(item)| ==> Closed(LinesOf(item)[i])
  {
    forall i | 0 <= i < |LinesOf(item)| ensures Closed(LinesOf(item)[i]) {
      LineKinds(LinesOf(item)[i]);
    }
    LineKinds(item.line);
    assert Significant([item.line]) == (if Blank(item.line) then [] else [item.line]) + Significant([item.line][1..]);
    if item.Put? {
      LineKinds(item.body);
      NothingInSpaces(item.spaces);
      SignificantSplit(item.spaces, [item.body]);
      SignificantSplit([item.line], item.spaces + [item.body]);
      assert LinesOf(item) == [item.line] + (item.spaces + [item.body]);
      assert Significant([item.body]) == [item.body] + Significant([item.body][1..]);
    }
  }

  lemma ItemRead(parse: Parser, item: Item, lines: seq<Text>)
    requires WellWritten(parse, item)
    ensures OfLines(parse, None, Core(item) + lines) ==
            Transcript(MessagesOf(item) + OfLines(parse, None, lines).messages, OfLines(parse, None, lines).complete)
  {
    var later := OfLines(parse, None, lines);
    match item {
      case Spacing(_) =>
        assert Core(item) + lines == lines && [] + later.messages == later.messages;
      case Plain(line, request) =>
        assert (Core(item) + lines)[1..] == lines;
      case Garbled(line, error) =>
        assert (Core(item) + lines)[1..] == lines;
      case Put(line, request, spaces, body) =>
        assert (Core(item) + lines)[1..] == [body] + lines;
        assert ([body] + lines)[1..] == lines;
        assert OfLines(parse, Some(request), [body] + lines) ==
          Transcript([Message(request, body)] + later.messages, later.complete);
    }
  }

  lemma {:induction false} WrittenSignificant(parse: Parser, items: seq<Item>)
    requires forall i :: 0 <= i < |items| ==> WellWritten(parse, items[i])
    ensures forall i :: 0 <= i < |Written(items)| ==> Closed(Written(items)[i])
    ensures OfLines(parse, None, Significant(Written(items))) == Transcript(Meant(items), true)
  {
    if items != [] {
      WrittenSignificant(parse, items[1..]);
      SignificantOfItem(parse, items[0]);
      SignificantSplit(LinesOf(items[0]), Written(items[1..]));
      ItemRead(parse, items[0], Significant(Written(items[1..])));
    }
  }

  lemma ReadOff(parse: Parser, lines: seq<Text>)
    requires forall i :: 0 <= i < |lines| ==> Closed(lines[i])
    ensures Messages(parse, None, Join(lines)) == OfLines(parse, None, Significant(lines))
  {
    LinesRoundTrip(lines);
    MessagesOfSignificantLines(parse, None, Join(lines));
  }

  /** A peer's requests, puts with bodies and garbled lines are delivered as it meant them, in order. */
  lemma WhatIsMeantIsRead(parse: Parser, items: seq<Item>)
    requires forall i :: 0 <= i < |items| ==> WellWritten(parse, items[i])
    ensures Messages(parse, None, Join(Written(items))) == Transcript(Meant(items), true)
  {
    WrittenSignificant(parse, items);
    ReadOff(parse, Written(items));
  }

  /** A stream that ends after the line of a put with a body is broken, and delivers what came before. */
  lemma BodyIsMissed(parse: Parser, items: seq<Item>, line: Text, request: Request)
    requires forall i :: 0 <= i < |items| ==> WellWritten(parse, items[i])
    requires Content(line) && parse(line) == Valid(request)
    requires request.command == [112, 117, 116] && request.bodySize >= 1
    ensures Messages(parse, None, Join(Written(items) + [line])) == Transcript(Meant(items), false)
  {
    SignificantEnd(items, line);
    PutPending(parse, items, line, request);
    WrittenClosed(parse, items, line);
    ReadOff(parse, Written(items) + [line]);
  }

  lemma SignificantEnd(items: seq<Item>, line: Text)
    requires Content(line)
    ensures Significant(Written(items) + [line]) == Significant(Written(items)) + [line]
  {
    LineKinds(line);
    SignificantSplit(Written(items), [line]);
    assert Significant([line][1..]) == [];
  }

  lemma WrittenClosed(parse: Parser, items: seq<Item>, line: Text)
    requires Content(line) && forall i :: 0 <= i < |items| ==> WellWritten(parse, items[i])
    ensures forall i :: 0 <= i < |Written(items) + [line]| ==> Closed((Written(items) + [line])[i])
  {
    LineKinds(line);
    WrittenSignificant(parse, items);
  }

  lemma {:induction false} PutPending(parse: Parser, items: seq<Item>, line: Text, request: Request)
    requires forall i :: 0 <= i < |items| ==> WellWritten(parse, items[i])
    requires parse(line) == Valid(request) && request.command == [112, 117, 116] && request.bodySize >= 1
    ensures OfLines(parse, None, Significant(Written(items)) + [line]) == Transcript(Meant(items), false)
  {
    if items == [] {
      assert Significant([]) + [line] == [line];
      assert OfLines(parse, Some(request), [line][1..]) == Transcript([], false);
    } else {
      PutPending(parse, items[1..], line, request);
      SignificantOfItem(parse, items[0]);
      SignificantSplit(LinesOf(items[0]), Written(items[1..]));
      var rest := Significant(Written(items[1..])) + [line];
      assert Significant(Written(items)) + [line] == Core(items[0]) + rest;
      ItemRead(parse, items[0], rest);
    }
  }
}
