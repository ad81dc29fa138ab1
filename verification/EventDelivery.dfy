/** Replay and reconnect: whatever the drops, a client yields the stored steps in order, each once. */
module EventDelivery {
  import opened Domain
  import opened EventFraming

  // ---------------------------------------------------------------- the stored log

  predicate KnownStep(step: string) {
    step in ["OBSERVE", "INTERPRET", "RETRIEVE", "PLAN", "CRITIQUE",
             "AUTHORIZE", "ACT", "VERIFY", "EXPLAIN", "LEARN"]
  }

  /** Each stored step carries its position. */
  ghost predicate Numbered(events: seq<StepEvent>) {
    forall i :: 0 <= i < |events| ==> events[i].sequence == i
  }

  /** `AgentOperationService._append`: the log afterwards; unknown steps are refused. */
  function Appended(events: seq<StepEvent>, step: string, status: string): seq<StepEvent> {
    if KnownStep(step) then events + [StepEvent(step, status, |events|)] else events
  }

  class OperationLog {
    var events: seq<StepEvent>

    constructor ()
      ensures events == []
    {
      events := [];
    }

    method Append(step: string, status: string) returns (appended: Option<StepEvent>)
      requires Numbered(events)
      modifies this
      ensures events == Appended(old(events), step, status) && Numbered(events)
      ensures appended.Some? <==> KnownStep(step)
      ensures appended.Some? ==> events == old(events) + [appended.value]
    {
      if !KnownStep(step) {
        return None;
      }
      var event := StepEvent(step, status, |events|);
      events := events + [event];
      appended := Some(event);
    }
  }

  // ---------------------------------------------------------------- the replay endpoint

  /** A decimal numeral read back; anything else is no cursor the server accepts. */
  function ReadDecimal(text: string): Option<nat> {
    if text == "" then None
    else
      var last := text[|text| - 1] as int - '0' as int;
      if !(0 <= last < 10) then None
      else if |text| == 1 then Some(last)
      else
        match ReadDecimal(text[..|text| - 1])
        case None => None
        case Some(n) => Some(10 * n + last)
  }

  /** `String(sequence)` and the server's integer parameter undo each other. */
  lemma {:induction false} DecimalRead(n: nat)
    ensures Decimal(n) != "" && ReadDecimal(Decimal(n)) == Some(n)
    decreases n
  {
    if n >= 10 {
      DecimalRead(n / 10);
      var text := Decimal(n / 10) + [Digit(n % 10)];
      assert text[..|text| - 1] == Decimal(n / 10);
    }
  }

  /** The cursor the server filters by: the empty text is no cursor, and then everything is sent. */
  function CursorValue(text: string): Option<int> {
    if text == "" then Some(-1)
    else if ReadDecimal(text).Some? then Some(ReadDecimal(text).value as int)
    else None
  }

  function After(events: seq<StepEvent>, cursor: int): seq<StepEvent> {
    if events == [] then []
    else if events[0].sequence > cursor then [events[0]] + After(events[1..], cursor)
    else After(events[1..], cursor)
  }

  /** The frames of a list of steps, in order. */
  function Frames(c: Codec, events: seq<StepEvent>): (frames: seq<string>)
    ensures |frames| == |events|
    ensures forall i :: 0 <= i < |events| ==> frames[i] == EncodeEvent(c, events[i])
  {
    if events == [] then [] else [EncodeEvent(c, events[0])] + Frames(c, events[1..])
  }


  /** The body `stream_operation` sends. */
  function Response(c: Codec, events: seq<StepEvent>, cursor: int): string {
    var pending := After(events, cursor);
    if pending == [] then COMMENT + "\n\n" else Concat(Frames(c, pending))
  }

  /** The steps of a numbered log beyond a cursor are its tail. */
  lemma {:induction false} AfterIsTail(events: seq<StepEvent>, base: nat, cursor: int)
    requires forall i :: 0 <= i < |events| ==> events[i].sequence == base + i
    requires -1 <= cursor
    ensures After(events, cursor) ==
      if cursor < base then events else if cursor - base + 1 <= |events| then events[cursor - base + 1..] else []
    decreases |events|
  {
    if events != [] {
      AfterIsTail(events[1..], base + 1, cursor);
      assert events == [events[0]] + events[1..];
    }
  }

  // ---------------------------------------------------------------- a body cut anywhere

  /** How many whole frames the first `k` characters hold. */
  function WholeFrames(frames: seq<string>, k: nat): (n: nat)
    ensures n <= |frames|
  {
    if frames == [] || k < |frames[0]| then 0 else 1 + WholeFrames(frames[1..], k - |frames[0]|)
  }

  /** A text cut before the end of its first blank line has no complete frame. */
  lemma CutBeforeBoundary(c: Codec, s: string, k: nat)
    requires FindBoundary(s) + 1 < |s| && k < FindBoundary(s) + 2
    ensures Drain(c, s[..k]) == Drained([], s[..k], false)
  {
    forall j | 0 <= j < k
      ensures !BoundaryAt(s[..k], j)
    {
      assert j < FindBoundary(s) ==> !BoundaryAt(s, j);
    }
  }

  /** A text that reads as one frame, whatever follows. */
  ghost predicate IsFrame(c: Codec, frame: string, e: StepEvent) {
    && |frame| >= 2
    && forall rest: string {:trigger frame + rest} ::
      && FindBoundary(frame + rest) == |frame| - 2
      && Drain(c, frame + rest) == Drain(c, rest).(events := [e] + Drain(c, rest).events)
  }

  ghost predicate AreFrames(c: Codec, frames: seq<string>, events: seq<StepEvent>) {
    && |frames| == |events|
    && forall i :: 0 <= i < |frames| ==> IsFrame(c, frames[i], events[i])
  }

  lemma EncodedIsFrame(c: Codec, e: StepEvent)
    requires Faithful(c)
    ensures IsFrame(c, EncodeEvent(c, e), e)
  {
    forall rest: string {
      DrainFrame(c, e, rest);
    }
  }

  lemma EncodedAreFrames(c: Codec, events: seq<StepEvent>)
    requires Faithful(c)
    ensures AreFrames(c, Frames(c, events), events)
  {
    forall i | 0 <= i < |events|
      ensures IsFrame(c, Frames(c, events)[i], events[i])
    {
      EncodedIsFrame(c, events[i]);
    }
  }

  lemma CutInFrame(c: Codec, frame: string, e: StepEvent, rest: string, k: nat)
    requires IsFrame(c, frame, e) && k <= |frame + rest|
    ensures k < |frame| ==> Drain(c, (frame + rest)[..k]) == Drained([], (frame + rest)[..k], false)
    ensures |frame| <= k ==>
      var later := Drain(c, rest[..k - |frame|]);
      Drain(c, (frame + rest)[..k]) == later.(events := [e] + later.events)
  {
    if k < |frame| {
      CutBeforeBoundary(c, frame + rest, k);
    } else {
      assert (frame + rest)[..k] == frame + rest[..k - |frame|];
    }
  }

  /** A body of frames cut after `k` characters yields exactly the steps whose frames came whole, and never throws. */
  lemma {:induction false} CutFrames(c: Codec, frames: seq<string>, events: seq<StepEvent>, k: nat)
    requires AreFrames(c, frames, events) && k <= |Concat(frames)|
    ensures Drain(c, Concat(frames)[..k]).events == events[..WholeFrames(frames, k)]
    ensures !Drain(c, Concat(frames)[..k]).thrown
    decreases |frames|
  {
    if frames != [] {
      FramesTail(c, frames, events);
      if |frames[0]| <= k {
        CutFrames(c, frames[1..], events[1..], k - |frames[0]|);
        CutPast(c, frames[0], events[0], Concat(frames[1..]), k);
        CutFramesCons(frames, events, k, Drain(c, Concat(frames)[..k]), Drain(c, Concat(frames[1..])[..k - |frames[0]|]));
      } else {
        CutFirst(c, frames, events, k);
      }
    }
  }

  /** A cut within the first frame yields nothing. */
  lemma CutFirst(c: Codec, frames: seq<string>, events: seq<StepEvent>, k: nat)
    requires frames != [] && |frames| == |events| && IsFrame(c, frames[0], events[0]) && k < |frames[0]|
    requires k <= |Concat(frames)|
    ensures WholeFrames(frames, k) == 0
    ensures Drain(c, Concat(frames)[..k]).events == [] && !Drain(c, Concat(frames)[..k]).thrown
  {
    CutInFrame(c, frames[0], events[0], Concat(frames[1..]), k);
  }

  /** What a cut past the first frame yields, given what its rest yields. */
  lemma CutFramesCons(frames: seq<string>, events: seq<StepEvent>, k: nat, all: Drained, later: Drained)
    requires frames != [] && |frames| == |events| && |frames[0]| <= k
    requires all.events == [events[0]] + later.events && (all.thrown <==> later.thrown)
    requires later.events == events[1..][..WholeFrames(frames[1..], k - |frames[0]|)] && !later.thrown
    ensures all.events == events[..WholeFrames(frames, k)] && !all.thrown
  {
    EventsTaken(events, WholeFrames(frames[1..], k - |frames[0]|));
  }

  lemma FramesTail(c: Codec, frames: seq<string>, events: seq<StepEvent>)
    requires AreFrames(c, frames, events) && frames != []
    ensures IsFrame(c, frames[0], events[0]) && AreFrames(c, frames[1..], events[1..])
  {
    forall i | 0 <= i < |frames[1..]|
      ensures IsFrame(c, frames[1..][i], events[1..][i])
    {
      assert IsFrame(c, frames[i + 1], events[i + 1]);
    }
  }

  /** A cut past a frame yields its step and what the cut rest yields. */
  lemma CutPast(c: Codec, frame: string, e: StepEvent, rest: string, k: nat)
    requires IsFrame(c, frame, e) && |frame| <= k <= |frame + rest|
    ensures var later := Drain(c, rest[..k - |frame|]);
      && Drain(c, (frame + rest)[..k]).events == [e] + later.events
      && (Drain(c, (frame + rest)[..k]).thrown <==> later.thrown)
  {
    CutInFrame(c, frame, e, rest, k);
  }

  lemma EventsTaken(events: seq<StepEvent>, n: nat)
    requires events != [] && n <= |events| - 1
    ensures events[..1 + n] == [events[0]] + events[1..][..n]
  {
    assert events == [events[0]] + events[1..];
  }

  lemma {:induction false} AllFrames(frames: seq<string>)
    ensures WholeFrames(frames, |Concat(frames)|) == |frames|
    decreases |frames|
  {
    if frames != [] {
      AllFrames(frames[1..]);
    }
  }

  /** A line that is no data line, closed by a blank line, yields nothing, wherever it is cut. */
  lemma CutOther(c: Codec, line: string, k: nat)
    requires '\n' !in line && line != "" && line[0] != DATA[0] && k <= |line + "\n\n"|
    ensures Drain(c, (line + "\n\n")[..k]).events == [] && !Drain(c, (line + "\n\n")[..k]).thrown
  {
    var s := line + "\n\n";
    OneLine(line);
    assert line[|line| - 1] in line;
    ClosedBlock(line, "");
    assert line + "\n\n" + "" == s;
    if k < |s| {
      CutBeforeBoundary(c, s, k);
    } else {
      assert s[..k] == s && s[..|line|] == line && s[|line| + 2..] == "";
      NoData(c, line);
    }
  }

  lemma NoData(c: Codec, line: string)
    requires Lines(line) == [line] && line != "" && line[0] != DATA[0]
    ensures DecodeEvent(c, line) == Skip
  {
    assert [line][1..] == [];
    assert !(DATA <= line);
    assert DataLines([line]) == [];
  }

  /** The comment sent when nothing is pending. */
  lemma CutComment(c: Codec, k: nat)
    requires k <= |COMMENT + "\n\n"|
    ensures Drain(c, (COMMENT + "\n\n")[..k]).events == [] && !Drain(c, (COMMENT + "\n\n")[..k]).thrown
  {
    CutOther(c, COMMENT, k);
  }

  lemma EncodedPlain(c: Codec, e: StepEvent)
    requires Faithful(c)
    ensures '\r' !in EncodeEvent(c, e)
  {
    DecimalOneLine(e.sequence);
    assert '\r' !in c.render(e);
  }

  lemma {:induction false} ConcatPlain(frames: seq<string>)
    requires forall i :: 0 <= i < |frames| ==> '\r' !in frames[i]
    ensures '\r' !in Concat(frames)
    decreases |frames|
  {
    if frames != [] {
      assert forall i :: 0 <= i < |frames[1..]| ==> frames[1..][i] == frames[i + 1];
      ConcatPlain(frames[1..]);
    }
  }

  lemma FramesPlain(c: Codec, events: seq<StepEvent>)
    requires Faithful(c)
    ensures '\r' !in Concat(Frames(c, events))
  {
    forall i | 0 <= i < |events|
      ensures '\r' !in Frames(c, events)[i]
    {
      EncodedPlain(c, events[i]);
    }
    ConcatPlain(Frames(c, events));
  }

  lemma ResponsePlain(c: Codec, events: seq<StepEvent>, cursor: int)
    requires Faithful(c)
    ensures '\r' !in Response(c, events, cursor)
  {
    FramesPlain(c, After(events, cursor));
  }

  /** How many pending steps the first `k` characters of a body deliver. */
  function Delivered(c: Codec, events: seq<StepEvent>, cursor: int, k: nat): (n: nat)
    ensures n <= |After(events, cursor)|
  {
    WholeFrames(Frames(c, After(events, cursor)), k)
  }

  /** Any body cut after `k` characters, however chunked, yields the first pending steps and never throws. */
  lemma CutBody(c: Codec, events: seq<StepEvent>, cursor: int, k: nat, chunks: seq<string>)
    requires Faithful(c) && k <= |Response(c, events, cursor)|
    requires Concat(chunks) == Response(c, events, cursor)[..k]
    ensures Drain(c, Joined(chunks)).events == After(events, cursor)[..Delivered(c, events, cursor, k)]
    ensures !Drain(c, Joined(chunks)).thrown
  {
    ResponsePlain(c, events, cursor);
    ChunkingIrrelevant(chunks);
    var pending := After(events, cursor);
    if pending == [] {
      CutComment(c, k);
    } else {
      EncodedAreFrames(c, pending);
      CutFrames(c, Frames(c, pending), pending, k);
    }
  }

  // ---------------------------------------------------------------- the reconnecting client

  /** One turn of the client's loop: the stream is refused for good, is not to be had, or sends (part of) a body. */
  datatype Attempt = Rejected | Unavailable | Body(chunks: seq<string>)

  /** What the client keeps between turns; an empty cursor is none. */
  datatype Client = Client(cursor: string, yielded: seq<StepEvent>, rejected: bool)

  function CursorAfter(cursor: string, events: seq<StepEvent>): string {
    if events == [] then cursor else Decimal(events[|events| - 1].sequence)
  }

  /** The client after it has yielded some more steps. */
  function Yielding(client: Client, events: seq<StepEvent>): Client {
    Client(CursorAfter(client.cursor, events), client.yielded + events, client.rejected)
  }

  function Received(c: Codec, client: Client, attempt: Attempt): Client {
    match attempt
    case Rejected => client.(rejected := true)
    case Unavailable => client
    case Body(chunks) =>
      Yielding(client, Drain(c, Joined(chunks)).events)
  }

  function ReceivedAll(c: Codec, client: Client, attempts: seq<Attempt>): Client
    decreases |attempts|
  {
    if attempts == [] || client.rejected then client
    else ReceivedAll(c, Received(c, client, attempts[0]), attempts[1..])
  }

  class StreamClient {
    var cursor: string
    var yielded: seq<StepEvent>
    var rejected: bool

    function State(): Client
      reads this
    {
      Client(cursor, yielded, rejected)
    }

    constructor (lastEventId: string)
      ensures State() == Client(lastEventId, [], false)
    {
      cursor, yielded, rejected := lastEventId, [], false;
    }

    /** One turn: every decoded step moves the cursor and is yielded; a throwing body only ends the turn. */
    method Turn(c: Codec, attempt: Attempt)
      modifies this
      ensures State() == Received(c, old(State()), attempt)
    {
      match attempt
      case Rejected => rejected := true;
      case Unavailable =>
      case Body(chunks) =>
        var events, thrown := DecodeBody(c, chunks);
        for i := 0 to |events|
          invariant State() == Client(CursorAfter(old(cursor), events[..i]), old(yielded) + events[..i], old(rejected))
        {
          TakeOneMore(events, i);
          cursor := Decimal(events[i].sequence);
          yielded := yielded + [events[i]];
        }
        TakeAll(events);
    }

    /** `streamOperationEvents`, given what each turn meets, until the stream is refused. */
    method Stream(c: Codec, attempts: seq<Attempt>)
      modifies this
      ensures State() == ReceivedAll(c, old(State()), attempts)
    {
      var i := 0;
      while i < |attempts| && !rejected
        invariant 0 <= i <= |attempts|
        invariant ReceivedAll(c, old(State()), attempts) == ReceivedAll(c, State(), attempts[i..])
      {
        assert attempts[i..][0] == attempts[i] && attempts[i..][1..] == attempts[i + 1..];
        Turn(c, attempts[i]);
        i := i + 1;
      }
    }
  }

  // ---------------------------------------------------------------- whole runs

  /** The stored log and one client of it. */
  datatype System = System(log: seq<StepEvent>, client: Client)

  /**
   * One event of a run: a step is appended; a connection reads a snapshot of the log and delivers the
   * first `k` characters of the body, in some chunks; a connection fails; or the stream is refused.
   */
  datatype Action =
    | Append(step: string, status: string)
    | Connect(snapshot: nat, k: nat, chunks: seq<string>)
    | Fail
    | Refuse

  ghost predicate Enabled(c: Codec, sys: System, action: Action) {
    match action
    case Append(_, _) => true
    case Fail => !sys.client.rejected
    case Refuse => !sys.client.rejected
    case Connect(snapshot, k, chunks) =>
      && !sys.client.rejected
      && snapshot <= |sys.log|
      && CursorValue(sys.client.cursor).Some?
      && var body := Response(c, sys.log[..snapshot], CursorValue(sys.client.cursor).value);
      && k <= |body| && Concat(chunks) == body[..k]
  }

  function Next(c: Codec, sys: System, action: Action): System {
    match action
    case Append(step, status) => sys.(log := Appended(sys.log, step, status))
    case Connect(_, _, chunks) => sys.(client := Received(c, sys.client, Body(chunks)))
    case Fail => sys.(client := Received(c, sys.client, Unavailable))
    case Refuse => sys.(client := Received(c, sys.client, Rejected))
  }

  function Run(c: Codec, sys: System, actions: seq<Action>): System
    decreases |actions|
  {
    if actions == [] then sys else Run(c, Next(c, sys, actions[0]), actions[1..])
  }

  ghost predicate EnabledAll(c: Codec, sys: System, actions: seq<Action>)
    decreases |actions|
  {
    actions == [] || (Enabled(c, sys, actions[0]) && EnabledAll(c, Next(c, sys, actions[0]), actions[1..]))
  }

  /** A list of steps is the stretch of the log from some position. */
  ghost predicate Stretch(log: seq<StepEvent>, from: nat, events: seq<StepEvent>) {
    events != [] ==> from + |events| <= |log| && events == log[from..from + |events|]
  }

  /** The yielded steps are the log from position `first` on, with no gap and no repeat, and the cursor is the last. */
  ghost predicate InOrder(sys: System, first: nat) {
    && Stretch(sys.log, first, sys.client.yielded)
    && CursorValue(sys.client.cursor) == Some(first + |sys.client.yielded| - 1)
  }

  ghost predicate Sane(sys: System, first: nat) {
    Numbered(sys.log) && InOrder(sys, first)
  }

  /** What is pending for a client is the log right after what it has yielded. */
  lemma Pending(sys: System, first: nat, snapshot: nat)
    requires Sane(sys, first) && snapshot <= |sys.log|
    ensures var from := first + |sys.client.yielded|;
      After(sys.log[..snapshot], from - 1) == if from <= snapshot then sys.log[from..snapshot] else []
  {
    AfterIsTail(sys.log[..snapshot], 0, first + |sys.client.yielded| - 1);
  }

  lemma Extended(log: seq<StepEvent>, first: nat, yielded: seq<StepEvent>, more: seq<StepEvent>)
    requires Stretch(log, first, yielded) && Stretch(log, first + |yielded|, more)
    ensures Stretch(log, first, yielded + more)
  {
  }

  lemma Moved(cursor: string, log: seq<StepEvent>, from: nat, more: seq<StepEvent>)
    requires Numbered(log) && Stretch(log, from, more)
    ensures more != [] ==> CursorValue(CursorAfter(cursor, more)) == Some(from + |more| - 1)
  {
    if more != [] {
      assert more[|more| - 1] == log[from + |more| - 1];
      DecimalRead(from + |more| - 1);
    }
  }

  /** What a cut body yields is the next stretch of the log. */
  lemma NextStretch(c: Codec, sys: System, first: nat, snapshot: nat, k: nat, chunks: seq<string>)
    requires Faithful(c) && Sane(sys, first) && Enabled(c, sys, Connect(snapshot, k, chunks))
    ensures Stretch(sys.log, first + |sys.client.yielded|, Drain(c, Joined(chunks)).events)
  {
    var from := first + |sys.client.yielded|;
    CutBody(c, sys.log[..snapshot], from - 1, k, chunks);
    Pending(sys, first, snapshot);
    StretchTake(sys.log, from, snapshot, Delivered(c, sys.log[..snapshot], from - 1, k));
  }

  lemma StretchTake(log: seq<StepEvent>, from: nat, to: nat, n: nat)
    requires to <= |log|
    ensures from <= to && n <= to - from ==> Stretch(log, from, log[from..to][..n])
  {
  }

  lemma ConnectKeeps(c: Codec, sys: System, first: nat, snapshot: nat, k: nat, chunks: seq<string>)
    requires Faithful(c) && Sane(sys, first) && Enabled(c, sys, Connect(snapshot, k, chunks))
    ensures Sane(Next(c, sys, Connect(snapshot, k, chunks)), first)
  {
    NextStretch(c, sys, first, snapshot, k, chunks);
    MoreKeeps(sys, first, Drain(c, Joined(chunks)).events);
  }

  lemma MoreKeeps(sys: System, first: nat, more: seq<StepEvent>)
    requires Sane(sys, first) && Stretch(sys.log, first + |sys.client.yielded|, more)
    ensures Sane(sys.(client := Yielding(sys.client, more)), first)
  {
    Extended(sys.log, first, sys.client.yielded, more);
    Moved(sys.client.cursor, sys.log, first + |sys.client.yielded|, more);
  }

  lemma AppendKeeps(sys: System, first: nat, step: string, status: string)
    requires Sane(sys, first)
    ensures Sane(sys.(log := Appended(sys.log, step, status)), first)
  {
  }

  lemma StepKeeps(c: Codec, sys: System, first: nat, action: Action)
    requires Faithful(c) && Sane(sys, first) && Enabled(c, sys, action)
    ensures Sane(Next(c, sys, action), first)
  {
    match action
    case Append(step, status) => AppendKeeps(sys, first, step, status);
    case Connect(snapshot, k, chunks) => ConnectKeeps(c, sys, first, snapshot, k, chunks);
    case Fail =>
    case Refuse =>
  }

  /**
   * Over any run of appends, connections cut at any character and chunked in any way, failures and
   * reconnects, the client has yielded consecutive stored steps from its starting point: in order, none
   * missing and none twice.
   */
  lemma {:induction false} DeliveredInOrder(c: Codec, sys: System, first: nat, actions: seq<Action>)
    requires Faithful(c) && Sane(sys, first) && EnabledAll(c, sys, actions)
    ensures Sane(Run(c, sys, actions), first)
    decreases |actions|
  {
    if actions != [] {
      StepKeeps(c, sys, first, actions[0]);
      DeliveredInOrder(c, Next(c, sys, actions[0]), first, actions[1..]);
    }
  }

  /** A client that starts without a cursor has always yielded a prefix of the log. */
  lemma FreshClient(c: Codec, log: seq<StepEvent>, actions: seq<Action>)
    requires Faithful(c) && Numbered(log)
    requires EnabledAll(c, System(log, Client("", [], false)), actions)
    ensures var sys := Run(c, System(log, Client("", [], false)), actions);
      sys.client.yielded <= sys.log
  {
    DeliveredInOrder(c, System(log, Client("", [], false)), 0, actions);
  }

  /** What a whole body yields is everything pending. */
  lemma WholeBody(c: Codec, events: seq<StepEvent>, cursor: int, chunks: seq<string>)
    requires Faithful(c) && Concat(chunks) == Response(c, events, cursor)
    ensures Drain(c, Joined(chunks)).events == After(events, cursor)
  {
    var body := Response(c, events, cursor);
    var pending := After(events, cursor);
    TakeAll(body);
    CutBody(c, events, cursor, |body|, chunks);
    if pending != [] {
      AllFrames(Frames(c, pending));
      TakeAll(pending);
    }
  }

  lemma StretchJoin(log: seq<StepEvent>, first: nat, from: nat, to: nat)
    requires first <= from <= to <= |log|
    ensures log[first..from] + log[from..to] == log[first..to]
  {
  }

  /** Yielding everything pending brings the client up to date. */
  lemma CaughtUp(sys: System, first: nat, snapshot: nat, more: seq<StepEvent>)
    requires Sane(sys, first) && first + |sys.client.yielded| <= snapshot <= |sys.log|
    requires more == After(sys.log[..snapshot], first + |sys.client.yielded| - 1)
    ensures Yielding(sys.client, more).yielded == sys.log[first..snapshot]
  {
    var from := first + |sys.client.yielded|;
    Pending(sys, first, snapshot);
    StretchJoin(sys.log, first, from, snapshot);
    if sys.client.yielded == [] {
      assert sys.log[first..from] == [];
    }
  }

  /** A connection that is not cut short brings the client up to date with its snapshot. */
  lemma WholeBodyCatchesUp(c: Codec, sys: System, first: nat, snapshot: nat, chunks: seq<string>)
    requires Faithful(c) && Sane(sys, first) && first + |sys.client.yielded| <= snapshot <= |sys.log|
    requires Concat(chunks) == Response(c, sys.log[..snapshot], first + |sys.client.yielded| - 1)
    ensures Received(c, sys.client, Body(chunks)).yielded == sys.log[first..snapshot]
  {
    var more := ReceivedWhole(c, sys.client, sys.log[..snapshot], first + |sys.client.yielded| - 1, chunks);
    CaughtUp(sys, first, snapshot, more);
  }

  lemma ReceivedWhole(c: Codec, client: Client, events: seq<StepEvent>, cursor: int, chunks: seq<string>)
    returns (more: seq<StepEvent>)
    requires Faithful(c) && Concat(chunks) == Response(c, events, cursor)
    ensures more == After(events, cursor) && Received(c, client, Body(chunks)) == Yielding(client, more)
  {
    WholeBody(c, events, cursor, chunks);
    more := Drain(c, Joined(chunks)).events;
  }

  // ---------------------------------------------------------------- turns that fail

  ghost predicate NoRefusal(attempts: seq<Attempt>) {
    forall i :: 0 <= i < |attempts| ==> !attempts[i].Rejected?
  }

  lemma {:induction false} ReceivedOn(c: Codec, client: Client, before: seq<Attempt>, after: seq<Attempt>)
    requires NoRefusal(before) && !client.rejected
    ensures !ReceivedAll(c, client, before).rejected
    ensures ReceivedAll(c, client, before + after) == ReceivedAll(c, ReceivedAll(c, client, before), after)
    decreases |before|
  {
    if before == [] {
      assert before + after == after;
    } else {
      var next := Received(c, client, before[0]);
      assert (before + after)[1..] == before[1..] + after;
      assert !before[0].Rejected?;
      assert forall i :: 0 <= i < |before[1..]| ==> before[1..][i] == before[i + 1];
      ReceivedOn(c, next, before[1..], after);
    }
  }

  /** A refusal ends the stream: what was yielded stays, and nothing after it is read. */
  lemma RefusalEnds(c: Codec, client: Client, before: seq<Attempt>, after: seq<Attempt>)
    requires NoRefusal(before) && !client.rejected
    ensures var end, then' := ReceivedAll(c, client, before + ([Rejected] + after)), ReceivedAll(c, client, before);
      end == Client(then'.cursor, then'.yielded, true)
  {
    ReceivedOn(c, client, before, [Rejected] + after);
    assert ([Rejected] + after)[1..] == after;
  }

  /** A turn that meets no stream changes nothing, and the next one goes on. */
  lemma FailureGoesOn(c: Codec, client: Client, before: seq<Attempt>, after: seq<Attempt>)
    requires NoRefusal(before) && !client.rejected
    ensures ReceivedAll(c, client, before + ([Unavailable] + after)) == ReceivedAll(c, client, before + after)
  {
    ReceivedOn(c, client, before, [Unavailable] + after);
    ReceivedOn(c, client, before, after);
    assert ([Unavailable] + after)[1..] == after;
  }

  lemma FrameThen(c: Codec, frame: string, e: StepEvent, rest: string)
    requires IsFrame(c, frame, e)
    ensures Drain(c, frame + rest).events == [e] + Drain(c, rest).events
    ensures Drain(c, frame + rest).thrown == Drain(c, rest).thrown
  {
  }

  /** What frames before a text yield, given what the later ones and the text do. */
  lemma FramesCons(events: seq<StepEvent>, all: Drained, rest: Drained, last: Drained)
    requires events != [] && all.events == [events[0]] + rest.events && all.thrown == rest.thrown
    requires rest.events == events[1..] + last.events && rest.thrown == last.thrown
    ensures all.events == events + last.events && all.thrown == last.thrown
  {
    assert [events[0]] + (events[1..] + last.events) == events + last.events;
  }

  lemma ConcatFront(frames: seq<string>, tail: string)
    requires frames != []
    ensures Concat(frames) + tail == frames[0] + (Concat(frames[1..]) + tail)
  {
  }

  /** Frames before any text yield their steps before what the text yields. */
  lemma {:induction false} FramesThen(c: Codec, frames: seq<string>, events: seq<StepEvent>, tail: string)
    requires AreFrames(c, frames, events)
    ensures Drain(c, Concat(frames) + tail).events == events + Drain(c, tail).events
    ensures Drain(c, Concat(frames) + tail).thrown == Drain(c, tail).thrown
    decreases |frames|
  {
    if frames == [] {
      assert Concat(frames) + tail == tail && events == [];
    } else {
      var rest := Concat(frames[1..]) + tail;
      FramesTail(c, frames, events);
      FramesThen(c, frames[1..], events[1..], tail);
      FrameThen(c, frames[0], events[0], rest);
      ConcatFront(frames, tail);
      FramesCons(events, Drain(c, frames[0] + rest), Drain(c, rest), Drain(c, tail));
    }
  }

  /** What breaks a body: a closed block that does not parse, whatever follows. */
  ghost predicate Breaks(c: Codec, tail: string) {
    Drain(c, tail).events == [] && Drain(c, tail).thrown
  }

  lemma BlockBreaks(c: Codec, block: string, rest: string)
    requires NoBoundary(block) && block != "" && block[|block| - 1] != '\n' && DecodeEvent(c, block) == Throw
    ensures Breaks(c, block + "\n\n" + rest)
  {
    ClosedBlock(block, rest);
    var tail := block + "\n\n" + rest;
    assert tail[..|block|] == block;
  }

  lemma EncodedThen(c: Codec, events: seq<StepEvent>, tail: string)
    requires Faithful(c)
    ensures Drain(c, Concat(Frames(c, events)) + tail).events == events + Drain(c, tail).events
  {
    EncodedAreFrames(c, events);
    FramesThen(c, Frames(c, events), events, tail);
  }

  lemma BrokenText(c: Codec, events: seq<StepEvent>, tail: string, text: string)
    requires Faithful(c) && Breaks(c, tail) && text == Concat(Frames(c, events)) + tail
    ensures Drain(c, text).events == events
  {
    EncodedThen(c, events, tail);
    assert events + [] == events;
  }

  /** A turn whose body breaks after some frames yields their steps, moves the cursor to the last, and goes on. */
  lemma BrokenTurnKeeps(c: Codec, client: Client, events: seq<StepEvent>, tail: string, chunks: seq<string>,
                        text: string)
    requires Faithful(c) && Breaks(c, tail) && Joined(chunks) == text && text == Concat(Frames(c, events)) + tail
    ensures Received(c, client, Body(chunks)) ==
            Client(if events == [] then client.cursor else Decimal(events[|events| - 1].sequence),
                   client.yielded + events, client.rejected)
  {
    BrokenText(c, events, tail, text);
    BodyYields(c, client, chunks, events);
  }

  lemma BodyYields(c: Codec, client: Client, chunks: seq<string>, events: seq<StepEvent>)
    requires Drain(c, Joined(chunks)).events == events
    ensures Received(c, client, Body(chunks)) == Yielding(client, events)
  {
  }
}
