/** Event frames: the printer, and the incremental parser that undoes it whatever the chunking. */
module EventFraming {
  import opened Domain

  datatype StepEvent = StepEvent(step: string, status: string, sequence: nat)

  /** What `JSON.parse` and the shape check make of a data text. */
  datatype Parsed = Step(event: StepEvent) | OtherValue | Malformed

  /** The JSON text codec, a parameter of the model. */
  datatype Codec = Codec(render: StepEvent -> string, parse: string -> Parsed)

  /** White space and line terminators, as `trimStart` sees them. */
  predicate IsSpace(ch: char) {
    var n := ch as int;
    || n in {0x09, 0x0A, 0x0B, 0x0C, 0x0D, 0x20, 0xA0, 0x1680, 0x2028, 0x2029, 0x202F, 0x205F, 0x3000, 0xFEFF}
    || 0x2000 <= n <= 0x200A
  }

  /** The codec round-trips, and its texts are nonempty, on one line and do not begin with white space. */
  ghost predicate Faithful(c: Codec) {
    forall e: StepEvent {:trigger c.render(e)} ::
      && c.parse(c.render(e)) == Step(e)
      && c.render(e) != "" && !IsSpace(c.render(e)[0])
      && '\n' !in c.render(e) && '\r' !in c.render(e)
  }

  // ---------------------------------------------------------------- the printer

  function Digit(n: nat): char
    requires n < 10
  {
    ('0' as int + n) as char
  }

  function Decimal(n: nat): string {
    if n < 10 then [Digit(n)] else Decimal(n / 10) + [Digit(n % 10)]
  }

  /** `_encode_event`. */
  function EncodeEvent(c: Codec, e: StepEvent): string {
    "id: " + Decimal(e.sequence) + "\nevent: operation.step\ndata: " + c.render(e) + "\n\n"
  }

  /** What an empty replay sends before a blank line. */
  const COMMENT: string := ": replay complete"

  // ---------------------------------------------------------------- one block

  /** `block.split("\n")`. */
  function Lines(block: string): (lines: seq<string>)
    ensures lines != []
  {
    if block == "" then [""]
    else
      var rest := Lines(block[1..]);
      if block[0] == '\n' then [""] + rest else [[block[0]] + rest[0]] + rest[1..]
  }

  function TrimStart(s: string): string {
    if s != "" && IsSpace(s[0]) then TrimStart(s[1..]) else s
  }

  const DATA: string := "data:"

  /** The trimmed contents of the `data:` lines. */
  function DataLines(lines: seq<string>): seq<string> {
    if lines == [] then []
    else if DATA <= lines[0] then [TrimStart(lines[0][5..])] + DataLines(lines[1..])
    else DataLines(lines[1..])
  }

  function Join(lines: seq<string>): string {
    if lines == [] then "" else if |lines| == 1 then lines[0] else lines[0] + "\n" + Join(lines[1..])
  }

  datatype Outcome = Event(event: StepEvent) | Skip | Throw

  /** `decodeEvent`. */
  function DecodeEvent(c: Codec, block: string): Outcome {
    var data := Join(DataLines(Lines(block)));
    if data == "" then Skip
    else
      match c.parse(data)
      case Step(e) => Event(e)
      case OtherValue => Skip
      case Malformed => Throw
  }

  // ---------------------------------------------------------------- the stream

  /** Whether a blank line starts at `i`: two newlines in a row. */
  predicate BoundaryAt(s: string, i: nat) {
    i + 1 < |s| && s[i] == '\n' && s[i + 1] == '\n'
  }

  /** `buffer.indexOf("\n\n")`, or the length of the buffer when there is none. */
  function FindBoundary(s: string): (i: nat)
    ensures i <= |s|
    ensures i < |s| ==> BoundaryAt(s, i)
    ensures forall j :: 0 <= j < i ==> !BoundaryAt(s, j)
    ensures i == |s| ==> forall j :: 0 <= j ==> !BoundaryAt(s, j)
  {
    if s == "" then 0
    else if BoundaryAt(s, 0) then 0
    else
      var i := FindBoundary(s[1..]);
      assert forall j :: 0 < j ==> BoundaryAt(s, j) == BoundaryAt(s[1..], j - 1);
      i + 1
  }

  /** The events in the complete frames of a text, what is left over, and whether parsing threw. */
  datatype Drained = Drained(events: seq<StepEvent>, rest: string, thrown: bool)

  function Drain(c: Codec, s: string): Drained
    decreases |s|
  {
    var b := FindBoundary(s);
    if b == |s| then Drained([], s, false)
    else
      match DecodeEvent(c, s[..b])
      case Throw => Drained([], s, true)
      case Skip => Drain(c, s[b + 2..])
      case Event(e) =>
        var later := Drain(c, s[b + 2..]);
        later.(events := [e] + later.events)
  }

  /** `replaceAll("\r\n", "\n")`. */
  function ReplaceCrlf(s: string): string {
    if |s| >= 2 && s[0] == '\r' && s[1] == '\n' then "\n" + ReplaceCrlf(s[2..])
    else if s == "" then ""
    else [s[0]] + ReplaceCrlf(s[1..])
  }

  /** What the parser sees of a chunked text: line ends are replaced chunk by chunk. */
  function Joined(chunks: seq<string>): string {
    if chunks == [] then "" else ReplaceCrlf(chunks[0]) + Joined(chunks[1..])
  }

  function Concat(chunks: seq<string>): string {
    if chunks == [] then "" else chunks[0] + Concat(chunks[1..])
  }

  /** A boundary found stays where it is when text is appended. */
  lemma BoundaryStays(s: string, t: string)
    requires FindBoundary(s) < |s|
    ensures FindBoundary(s + t) == FindBoundary(s)
  {
    var b := FindBoundary(s);
    assert forall j :: 0 <= j < b ==> BoundaryAt(s + t, j) == BoundaryAt(s, j);
    assert BoundaryAt(s + t, b);
  }

  /** The first frame of a text decides the first turn, whatever follows. */
  lemma FirstFrame(c: Codec, s: string, t: string)
    requires FindBoundary(s) < |s|
    ensures var b := FindBoundary(s); var later := Drain(c, s[b + 2..] + t);
      Drain(c, s + t) ==
        match DecodeEvent(c, s[..b])
        case Throw => Drained([], s + t, true)
        case Skip => later
        case Event(e) => later.(events := [e] + later.events)
  {
    var b := FindBoundary(s);
    BoundaryStays(s, t);
    assert (s + t)[..b] == s[..b] && (s + t)[b + 2..] == s[b + 2..] + t;
  }

  /** Draining a text in two steps is draining it at once; an exception stops at the same event. */
  lemma {:induction false} DrainAppend(c: Codec, s: string, t: string)
    ensures !Drain(c, s).thrown ==>
      && Drain(c, s + t).events == Drain(c, s).events + Drain(c, Drain(c, s).rest + t).events
      && Drain(c, s + t).rest == Drain(c, Drain(c, s).rest + t).rest
      && Drain(c, s + t).thrown == Drain(c, Drain(c, s).rest + t).thrown
    ensures Drain(c, s).thrown ==> Drain(c, s + t).thrown && Drain(c, s + t).events == Drain(c, s).events
    decreases |s|
  {
    var b := FindBoundary(s);
    if b < |s| {
      FirstFrame(c, s, t);
      FirstFrame(c, s, "");
      assert s + "" == s && s[b + 2..] + "" == s[b + 2..];
      DrainAppend(c, s[b + 2..], t);
      var o := DecodeEvent(c, s[..b]);
      if o.Event? && !Drain(c, s).thrown {
        DrainedMore(o, Drain(c, s[b + 2..]), Drain(c, Drain(c, s).rest + t), Drain(c, s[b + 2..] + t));
      }
    } else {
      assert [] + Drain(c, s + t).events == Drain(c, s + t).events;
    }
  }

  lemma DrainedMore(o: Outcome, first: Drained, then': Drained, all: Drained)
    requires o.Event? && all.events == first.events + then'.events
    ensures [o.event] + all.events == ([o.event] + first.events) + then'.events
  {
  }

  // ---------------------------------------------------------------- the loops

  /** The loop that cuts complete frames off the buffer. */
  method DrainBuffer(c: Codec, buffer0: string) returns (events: seq<StepEvent>, buffer: string, thrown: bool)
    ensures Drained(events, buffer, thrown) == Drain(c, buffer0)
  {
    events, buffer := [], buffer0;
    var boundary := FindBoundary(buffer);
    while boundary < |buffer|
      invariant boundary == FindBoundary(buffer)
      invariant Drain(c, buffer0) == Drain(c, buffer).(events := events + Drain(c, buffer).events)
      decreases |buffer|
    {
      var outcome := DecodeEvent(c, buffer[..boundary]);
      ghost var later := Drain(c, buffer[boundary + 2..]).events;
      if outcome.Throw? {
        return events, buffer, true;
      }
      buffer := buffer[boundary + 2..];
      if outcome.Event? {
        assert events + ([outcome.event] + later) == (events + [outcome.event]) + later;
        events := events + [outcome.event];
      }
      boundary := FindBoundary(buffer);
    }
    thrown := false;
  }

  lemma {:induction false} JoinedMore(chunks: seq<string>, k: nat)
    requires k < |chunks|
    ensures Joined(chunks[..k + 1]) == Joined(chunks[..k]) + ReplaceCrlf(chunks[k])
    decreases k
  {
    if k > 0 {
      JoinedMore(chunks[1..], k - 1);
      assert chunks[..k + 1][1..] == chunks[1..][..k] && chunks[..k][1..] == chunks[1..][..k - 1];
    }
  }

  /** `decodeBody`: the events of a chunked text are those of the joined text. */
  method DecodeBody(c: Codec, chunks: seq<string>) returns (events: seq<StepEvent>, thrown: bool)
    ensures events == Drain(c, Joined(chunks)).events && thrown == Drain(c, Joined(chunks)).thrown
  {
    events := [];
    var buffer := "";
    for k := 0 to |chunks|
      invariant Drain(c, Joined(chunks[..k])) == Drained(events, buffer, false)
    {
      JoinedMore(chunks, k);
      DrainAppend(c, Joined(chunks[..k]), ReplaceCrlf(chunks[k]));
      var more, rest, failed := DrainBuffer(c, buffer + ReplaceCrlf(chunks[k]));
      events, buffer := events + more, rest;
      if failed {
        ThrownEarly(c, chunks, k + 1);
        return events, true;
      }
    }
    TakeAll(chunks);
    thrown := false;
  }

  lemma {:induction false} ThrownEarly(c: Codec, chunks: seq<string>, k: nat)
    requires k <= |chunks| && Drain(c, Joined(chunks[..k])).thrown
    ensures Drain(c, Joined(chunks)).thrown
    ensures Drain(c, Joined(chunks)).events == Drain(c, Joined(chunks[..k])).events
    decreases |chunks| - k
  {
    if k < |chunks| {
      JoinedMore(chunks, k);
      DrainAppend(c, Joined(chunks[..k]), ReplaceCrlf(chunks[k]));
      ThrownEarly(c, chunks, k + 1);
    } else {
      TakeAll(chunks);
    }
  }

  // ---------------------------------------------------------------- line ends

  lemma {:induction false} ReplaceNothing(s: string)
    requires '\r' !in s
    ensures ReplaceCrlf(s) == s
    decreases |s|
  {
    if s != "" {
      assert s == [s[0]] + s[1..];
      ReplaceNothing(s[1..]);
    }
  }

  /** A text with both characters at the end of each line. */
  function WithCrlf(s: string): string {
    if s == "" then "" else (if s[0] == '\n' then "\r\n" else [s[0]]) + WithCrlf(s[1..])
  }

  /** A text reads the same with both characters at its line ends as with a bare newline. */
  lemma {:induction false} CrlfReads(s: string)
    requires '\r' !in s
    ensures ReplaceCrlf(WithCrlf(s)) == s
    decreases |s|
  {
    if s != "" {
      assert s == [s[0]] + s[1..];
      CrlfReads(s[1..]);
      var rest := WithCrlf(s[1..]);
      if s[0] == '\n' {
        assert ("\r\n" + rest)[2..] == rest;
      } else {
        assert ([s[0]] + rest)[1..] == rest;
      }
    }
  }

  /** A text whose lines end in a bare newline reads the same however it is chunked. */
  lemma {:induction false} ChunkingIrrelevant(chunks: seq<string>)
    requires '\r' !in Concat(chunks)
    ensures Joined(chunks) == Concat(chunks)
    decreases |chunks|
  {
    if chunks != [] {
      assert Concat(chunks) == chunks[0] + Concat(chunks[1..]);
      ReplaceNothing(chunks[0]);
      ChunkingIrrelevant(chunks[1..]);
    }
  }

  /** The chunk boundary falls inside a CRLF pair. */
  ghost predicate SplitCrlf(s: string, t: string) {
    s != "" && t != "" && s[|s| - 1] == '\r' && t[0] == '\n'
  }

  lemma {:induction false} ReplaceJoin(s: string, t: string)
    requires !SplitCrlf(s, t)
    ensures ReplaceCrlf(s + t) == ReplaceCrlf(s) + ReplaceCrlf(t)
    decreases |s|
  {
    if s == "" {
      assert s + t == t;
    } else if |s| >= 2 && s[0] == '\r' && s[1] == '\n' {
      assert (s + t)[2..] == s[2..] + t;
      ReplaceJoin(s[2..], t);
      assert "\n" + (ReplaceCrlf(s[2..]) + ReplaceCrlf(t)) == ("\n" + ReplaceCrlf(s[2..])) + ReplaceCrlf(t);
    } else {
      assert (s + t)[1..] == s[1..] + t;
      ReplaceJoin(s[1..], t);
      assert [s[0]] + (ReplaceCrlf(s[1..]) + ReplaceCrlf(t)) == ([s[0]] + ReplaceCrlf(s[1..])) + ReplaceCrlf(t);
    }
  }

  /** Replacing line ends chunk by chunk is replacing them in the whole text exactly when no CRLF is split. */
  lemma CrlfAcrossChunks(s: string, t: string)
    ensures ReplaceCrlf(s) + ReplaceCrlf(t) == ReplaceCrlf(s + t) <==> !SplitCrlf(s, t)
  {
    if SplitCrlf(s, t) {
      var init := s[..|s| - 1];
      assert s == init + "\r" && s + t == init + ("\r" + t);
      ReplaceJoin(init, "\r");
      ReplaceJoin(init, "\r" + t);
      assert ReplaceCrlf("\r") == "\r";
      assert ("\r" + t)[2..] == t[1..];
      assert |ReplaceCrlf(s) + ReplaceCrlf(t)| == |ReplaceCrlf(s + t)| + 1;
    } else {
      ReplaceJoin(s, t);
    }
  }

  // ---------------------------------------------------------------- printing and parsing undo each other

  ghost predicate NoBoundary(s: string) {
    forall i :: 0 <= i ==> !BoundaryAt(s, i)
  }

  /** A line, a newline and a text that begins with something else have no boundary if the text has none. */
  lemma LineThen(line: string, rest: string)
    requires '\n' !in line && NoBoundary(rest) && rest != "" && rest[0] != '\n'
    ensures NoBoundary(line + "\n" + rest)
  {
    var s := line + "\n" + rest;
    forall i | 0 <= i
      ensures !BoundaryAt(s, i)
    {
      if i < |line| {
        assert s[i] == line[i];
      } else if |line| < i {
        assert !BoundaryAt(rest, i - |line| - 1);
      }
    }
  }

  lemma OneLine(line: string)
    requires '\n' !in line
    ensures NoBoundary(line) && Lines(line) == [line]
    decreases |line|
  {
    if line != "" {
      assert line == [line[0]] + line[1..];
      OneLine(line[1..]);
    }
  }

  lemma {:induction false} LinesOfLine(line: string, rest: string)
    requires '\n' !in line
    ensures Lines(line + "\n" + rest) == [line] + Lines(rest)
    decreases |line|
  {
    var s := line + "\n" + rest;
    if line == "" {
      assert s[1..] == rest;
    } else {
      assert line == [line[0]] + line[1..];
      assert s[1..] == line[1..] + "\n" + rest;
      LinesOfLine(line[1..], rest);
    }
  }

  /** The first boundary of a block without one, closed by a blank line, is at its end. */
  lemma ClosedBlock(block: string, rest: string)
    requires NoBoundary(block) && block != "" && block[|block| - 1] != '\n'
    ensures FindBoundary(block + "\n\n" + rest) == |block|
  {
    var s := block + "\n\n" + rest;
    assert BoundaryAt(s, |block|);
    forall i | 0 <= i < |block|
      ensures !BoundaryAt(s, i)
    {
      assert !BoundaryAt(block, i);
    }
  }

  lemma {:induction false} DecimalOneLine(n: nat)
    ensures '\n' !in Decimal(n) && '\r' !in Decimal(n) && Decimal(n) != ""
    decreases n
  {
    if n >= 10 {
      DecimalOneLine(n / 10);
    }
  }

  /** The block of a frame: everything before its blank line. */
  function Block(c: Codec, e: StepEvent): string {
    "id: " + Decimal(e.sequence) + "\nevent: operation.step\ndata: " + c.render(e)
  }

  lemma ThreeLines(first: string, second: string, third: string)
    requires '\n' !in first && '\n' !in second && '\n' !in third && second != "" && third != ""
    ensures var block := first + "\n" + (second + "\n" + third);
      && NoBoundary(block) && block[|block| - 1] != '\n'
      && Lines(block) == [first, second, third]
  {
    var tail := second + "\n" + third;
    OneLine(third);
    LineThen(second, third);
    LinesOfLine(second, third);
    assert second[0] in second;
    LineThen(first, tail);
    LinesOfLine(first, tail);
    assert third[|third| - 1] in third;
  }

  function IdLine(e: StepEvent): string {
    "id: " + Decimal(e.sequence)
  }

  const EVENT_LINE: string := "event: operation.step"

  function DataLine(c: Codec, e: StepEvent): string {
    "data: " + c.render(e)
  }

  lemma BlockIsLines(c: Codec, e: StepEvent)
    ensures Block(c, e) == IdLine(e) + "\n" + (EVENT_LINE + "\n" + DataLine(c, e))
  {
    MiddleLine();
    Reassociate(IdLine(e), "\n", EVENT_LINE, "data: ", c.render(e));
  }

  lemma MiddleLine()
    ensures "\nevent: operation.step\ndata: " == "\n" + EVENT_LINE + "\n" + "data: "
  {
  }

  lemma Reassociate(id: string, newline: string, event: string, tag: string, text: string)
    ensures id + (newline + event + newline + tag) + text == id + newline + (event + newline + (tag + text))
  {
  }

  lemma BlockLines(c: Codec, e: StepEvent)
    requires Faithful(c)
    ensures NoBoundary(Block(c, e)) && Block(c, e) != "" && Block(c, e)[|Block(c, e)| - 1] != '\n'
    ensures Lines(Block(c, e)) == [IdLine(e), EVENT_LINE, DataLine(c, e)]
  {
    DecimalOneLine(e.sequence);
    assert '\n' !in c.render(e);
    ThreeLines(IdLine(e), EVENT_LINE, DataLine(c, e));
    BlockIsLines(c, e);
  }

  /** Decoding a printed block gives the event back. */
  lemma DecodeEncoded(c: Codec, e: StepEvent)
    requires Faithful(c)
    ensures DecodeEvent(c, Block(c, e)) == Event(e)
  {
    var text := c.render(e);
    var id, event, data := IdLine(e), EVENT_LINE, DataLine(c, e);
    BlockLines(c, e);
    var lines := [id, event, data];
    assert id[0] == 'i' && event[0] == 'e' && DATA[0] == 'd';
    assert data[5..] == " " + text && (" " + text)[1..] == text;
    assert DATA <= data;
    assert TrimStart(" " + text) == TrimStart(text) == text;
    assert lines[1..] == [event, data] && lines[1..][1..] == [data];
    assert DataLines([data]) == [text];
    assert DataLines([event, data]) == DataLines([data]);
    assert DataLines(lines) == [text];
  }

  /** Frame by frame, the parser undoes the printer. */
  lemma DrainFrame(c: Codec, e: StepEvent, rest: string)
    requires Faithful(c)
    ensures FindBoundary(EncodeEvent(c, e) + rest) == |EncodeEvent(c, e)| - 2
    ensures Drain(c, EncodeEvent(c, e) + rest) == Drain(c, rest).(events := [e] + Drain(c, rest).events)
  {
    var block := Block(c, e);
    BlockLines(c, e);
    ClosedBlock(block, rest);
    DecodeEncoded(c, e);
    var s := EncodeEvent(c, e) + rest;
    assert s == block + "\n\n" + rest;
    assert s[..|block|] == block && s[|block| + 2..] == rest;
  }

  /** Splitting a text into lines and joining the lines gives the text back. */
  lemma {:induction false} JoinLines(s: string)
    ensures Join(Lines(s)) == s
    decreases |s|
  {
    if s != "" {
      var rest := Lines(s[1..]);
      JoinLines(s[1..]);
      assert s == [s[0]] + s[1..];
      if s[0] == '\n' {
        assert ([""] + rest)[1..] == rest;
        assert "" + "\n" + s[1..] == s;
      } else {
        JoinFirst(s[0], rest);
      }
    }
  }

  lemma JoinFirst(ch: char, lines: seq<string>)
    requires lines != []
    ensures Join([[ch] + lines[0]] + lines[1..]) == [ch] + Join(lines)
  {
    var more := [[ch] + lines[0]] + lines[1..];
    assert more[1..] == lines[1..];
    if |lines| > 1 {
      assert ([ch] + lines[0]) + "\n" + Join(lines[1..]) == [ch] + (lines[0] + "\n" + Join(lines[1..]));
    }
  }
}
