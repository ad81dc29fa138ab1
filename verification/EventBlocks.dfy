/** What the parser makes of any block: its data lines, wherever they stand and however they are indented. */
module EventBlocks {
  import opened Domain
  import opened EventFraming

  /** A line of a block: data after some white space, or anything else. */
  datatype Field = Data(space: string, text: string) | Other(line: string)

  function LineOf(f: Field): string {
    match f
    case Data(space, text) => "data:" + (space + text)
    case Other(line) => line
  }

  ghost predicate Blank(space: string) {
    forall i :: 0 <= i < |space| ==> IsSpace(space[i])
  }

  /** Spaces and tabs are trimmed; a visible character is not. */
  lemma SpaceMeans(ch: char)
    ensures ch in " \t" ==> IsSpace(ch)
    ensures '!' <= ch <= '~' ==> !IsSpace(ch)
  {
  }

  ghost predicate FieldOk(f: Field) {
    && '\n' !in LineOf(f)
    && match f
       case Data(space, text) => Blank(space) && (text != "" ==> !IsSpace(text[0]))
       case Other(line) => !("data:" <= line)
  }

  ghost predicate AllOk(fields: seq<Field>) {
    forall i {:trigger FieldOk(fields[i])} :: 0 <= i < |fields| ==> FieldOk(fields[i])
  }

  function LinesOf(fields: seq<Field>): seq<string> {
    if fields == [] then [] else [LineOf(fields[0])] + LinesOf(fields[1..])
  }

  /** The texts of the data lines, in order. */
  function TextsOf(fields: seq<Field>): seq<string> {
    if fields == [] then []
    else if fields[0].Data? then [fields[0].text] + TextsOf(fields[1..])
    else TextsOf(fields[1..])
  }

  lemma TailOk(fields: seq<Field>)
    requires AllOk(fields) && fields != []
    ensures FieldOk(fields[0]) && AllOk(fields[1..])
  {
    forall i | 0 <= i < |fields[1..]|
      ensures FieldOk(fields[1..][i])
    {
      assert FieldOk(fields[i + 1]);
    }
  }

  lemma {:induction false} Trimmed(space: string, text: string)
    requires Blank(space) && (text != "" ==> !IsSpace(text[0]))
    ensures TrimStart(space + text) == text
    decreases |space|
  {
    if space == "" {
      assert space + text == text;
    } else {
      assert (space + text)[1..] == space[1..] + text;
      Trimmed(space[1..], text);
    }
  }

  lemma {:induction false} DataOf(fields: seq<Field>)
    requires AllOk(fields)
    ensures DataLines(LinesOf(fields)) == TextsOf(fields)
    decreases |fields|
  {
    if fields != [] {
      TailOk(fields);
      DataOf(fields[1..]);
      var first, rest := LineOf(fields[0]), LinesOf(fields[1..]);
      assert ([first] + rest)[1..] == rest;
      if fields[0].Data? {
        assert first[..5] == "data:" && first[5..] == fields[0].space + fields[0].text;
        Trimmed(fields[0].space, fields[0].text);
      }
    }
  }

  lemma {:induction false} SplitJoined(fields: seq<Field>)
    requires AllOk(fields) && fields != []
    ensures Lines(Join(LinesOf(fields))) == LinesOf(fields)
    decreases |fields|
  {
    TailOk(fields);
    var first, rest := LineOf(fields[0]), LinesOf(fields[1..]);
    assert LinesOf(fields) == [first] + rest && ([first] + rest)[1..] == rest;
    if |fields| == 1 {
      OneLine(first);
    } else {
      SplitJoined(fields[1..]);
      LinesOfLine(first, Join(rest));
    }
  }

  /**
   A block of any lines means what its data lines, joined, parse to: a step, nothing, or an error. Lines of other kinds
   and white space before data do not matter.
   */
  lemma BlockMeans(c: Codec, fields: seq<Field>)
    requires AllOk(fields) && fields != []
    ensures var data, o := Join(TextsOf(fields)), DecodeEvent(c, Join(LinesOf(fields)));
      && (data == "" ==> o == Skip)
      && (data != "" && c.parse(data) == OtherValue ==> o == Skip)
      && (data != "" && c.parse(data) == Malformed ==> o == Throw)
      && (forall e :: data != "" && c.parse(data) == Step(e) ==> o == Event(e))
  {
    SplitJoined(fields);
    DataOf(fields);
  }

  /** A closed block yields its step, or nothing, before what follows; one that throws ends the stream. */
  lemma ClosedBlockMeans(c: Codec, block: string, rest: string)
    requires NoBoundary(block) && block != "" && block[|block| - 1] != '\n'
    ensures var all, later := Drain(c, block + "\n\n" + rest), Drain(c, rest);
      && (DecodeEvent(c, block) == Throw ==> all.events == [] && all.thrown)
      && (DecodeEvent(c, block) == Skip ==> all == later)
      && (forall e :: DecodeEvent(c, block) == Event(e) ==>
            all == Drained([e] + later.events, later.rest, later.thrown))
  {
    var s := block + "\n\n" + rest;
    ClosedBlock(block, rest);
    assert s[..|block|] == block && s[|block| + 2..] == rest;
  }
}
