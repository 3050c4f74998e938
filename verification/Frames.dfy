/**
 Event-stream framing between the Codex worker and the API: the writer
 (services/codex-worker/src/server.ts), the bounded buffer behind it
 (services/codex-worker/src/eventBuffer.ts), and the reader that cuts frames out of arbitrary chunks
 (services/api/src/runtime/codex-runtime.ts, `consumeTurn`). The format is the subset of sections 9.2.5
 and 9.2.6 of the WHATWG HTML Standard that the two use: a `data: ` line or a comment, then a blank line.
 */
module Frames {
  import opened Wrappers
  import opened CronText

  datatype Frame = Data(payload: string) | Heartbeat

  /** What the writer emits before the blank line. A payload is serialised JSON: no raw newlines, never empty. */
  function Body(f: Frame): string {
    match f
    case Data(payload) => "data: " + payload
    case Heartbeat => ": heartbeat"
  }

  predicate Writable(f: Frame) {
    f.Data? ==> f.payload != "" && '\n' !in f.payload
  }

  function Text(frames: seq<Frame>): string {
    if frames == [] then "" else Body(frames[0]) + "\n\n" + Text(frames[1..])
  }

  function Payloads(frames: seq<Frame>): seq<string> {
    if frames == [] then []
    else (if frames[0].Data? then [frames[0].payload] else []) + Payloads(frames[1..])
  }

  // ---------- cutting ----------

  predicate BreakAt(s: string, i: int) {
    0 <= i && i + 1 < |s| && s[i] == '\n' && s[i + 1] == '\n'
  }

  /** The first position of the separator, or -1. */
  function FirstBreak(s: string): (i: int)
    ensures i == -1 || BreakAt(s, i)
    ensures forall j :: j < (if i == -1 then |s| else i) ==> !BreakAt(s, j)
  {
    if |s| < 2 then -1
    else if BreakAt(s, 0) then 0
    else
      var i := FirstBreak(s[1..]);
      assert forall j :: 1 <= j ==> (BreakAt(s, j) <==> BreakAt(s[1..], j - 1));
      if i == -1 then -1 else i + 1
  }

  /** `split("\n\n")` followed by `pop()`: the complete frames and the unfinished tail. */
  datatype Cut = Cut(frames: seq<string>, tail: string)

  function CutText(s: string): (c: Cut)
    ensures FirstBreak(c.tail) == -1
    decreases |s|
  {
    var i := FirstBreak(s);
    if i == -1 then Cut([], s)
    else
      var rest := CutText(s[i + 2..]);
      Cut([s[..i]] + rest.frames, rest.tail)
  }

  lemma BreakUnique(s: string, i: int)
    requires BreakAt(s, i) && forall j :: j < i ==> !BreakAt(s, j)
    ensures FirstBreak(s) == i
  {
    assert FirstBreak(s) != -1 && FirstBreak(s) <= i;
  }

  lemma BreakInPrefix(a: string, b: string)
    requires FirstBreak(a) != -1
    ensures FirstBreak(a + b) == FirstBreak(a)
  {
    var i := FirstBreak(a);
    assert BreakAt(a + b, i);
    forall j | j < i
      ensures !BreakAt(a + b, j)
    {
      assert !BreakAt(a, j);
    }
    BreakUnique(a + b, i);
  }

  lemma CutAtFirst(s: string, i: int)
    requires FirstBreak(s) == i != -1
    ensures CutText(s).frames == [s[..i]] + CutText(s[i + 2..]).frames && CutText(s).tail == CutText(s[i + 2..]).tail
  {
  }

  /** Cutting a text in two pieces, carrying the first piece's tail into the second, cuts the whole text. */
  lemma {:induction false} CutConcat(a: string, b: string)
    ensures CutText(a + b).frames == CutText(a).frames + CutText(CutText(a).tail + b).frames
    ensures CutText(a + b).tail == CutText(CutText(a).tail + b).tail
    decreases |a|
  {
    var i := FirstBreak(a);
    if i == -1 {
      assert [] + CutText(a + b).frames == CutText(a + b).frames;
    } else {
      var rest := a[i + 2..];
      CutConcat(rest, b);
      BreakInPrefix(a, b);
      assert (a + b)[i + 2..] == rest + b && (a + b)[..i] == a[..i];
      CutAtFirst(a, i);
      CutAtFirst(a + b, i);
      JoinFrames(a[..i], CutText(rest).frames, CutText(CutText(rest).tail + b).frames);
    }
  }

  lemma JoinFrames(first: string, middle: seq<string>, last: seq<string>)
    ensures [first] + (middle + last) == ([first] + middle) + last
  {
  }

  // ---------- the reader ----------

  predicate IsDataLine(line: string) { "data: " <= line }

  function FirstDataLine(lines: seq<string>): Option<string> {
    if lines == [] then None
    else if IsDataLine(lines[0]) then Some(lines[0][6..])
    else FirstDataLine(lines[1..])
  }

  /** The payload of a frame; a frame without one is skipped. */
  function PayloadOf(frame: string): seq<string> {
    match FirstDataLine(Split(frame, '\n'))
    case None => []
    case Some(data) => if data == "" then [] else [data]
  }

  /** The first line that begins with "data: ". */
  ghost predicate FirstOfData(lines: seq<string>, k: int) {
    0 <= k < |lines| && "data: " <= lines[k] && forall i :: 0 <= i < k ==> !("data: " <= lines[i])
  }

  lemma {:induction false} DataLineFirst(lines: seq<string>, k: int)
    requires FirstOfData(lines, k)
    ensures FirstDataLine(lines) == Some(lines[k][6..])
    decreases |lines|
  {
    if k > 0 {
      var rest := lines[1..];
      assert forall i :: 0 <= i < k - 1 ==> rest[i] == lines[i + 1];
      DataLineFirst(rest, k - 1);
    }
  }

  lemma {:induction false} NoDataLine(lines: seq<string>)
    requires forall i :: 0 <= i < |lines| ==> !("data: " <= lines[i])
    ensures FirstDataLine(lines) == None
  {
    if lines != [] {
      NoDataLine(lines[1..]);
    }
  }

  /** A frame's payload is what follows "data: " in its first line that begins so, if anything does. */
  lemma PayloadExactly(frame: string, k: int)
    requires FirstOfData(Split(frame, '\n'), k)
    ensures PayloadOf(frame) == if |Split(frame, '\n')[k]| == 6 then [] else [Split(frame, '\n')[k][6..]]
  {
    DataLineFirst(Split(frame, '\n'), k);
  }

  /** Without such a line it has none. */
  lemma NoPayload(frame: string)
    requires forall i :: 0 <= i < |Split(frame, '\n')| ==> !("data: " <= Split(frame, '\n')[i])
    ensures PayloadOf(frame) == []
  {
    NoDataLine(Split(frame, '\n'));
  }

  function PayloadsOf(frames: seq<string>): seq<string> {
    if frames == [] then [] else PayloadOf(frames[0]) + PayloadsOf(frames[1..])
  }

  /** The reader's buffer between chunks. */
  class Reader {
    var buffer: string

    constructor ()
      ensures buffer == ""
    {
      buffer := "";
    }

    /** One turn of the read loop. */
    method Feed(chunk: string) returns (payloads: seq<string>)
      modifies this
      ensures buffer == CutText(old(buffer) + chunk).tail
      ensures payloads == PayloadsOf(CutText(old(buffer) + chunk).frames)
    {
      var cut := CutText(buffer + chunk);
      buffer := cut.tail;
      payloads := [];
      assert cut.frames[0..] == cut.frames;
      for i := 0 to |cut.frames|
        invariant buffer == cut.tail
        invariant payloads + PayloadsOf(cut.frames[i..]) == PayloadsOf(cut.frames)
      {
        assert cut.frames[i..][1..] == cut.frames[i + 1..];
        payloads := payloads + PayloadOf(cut.frames[i]);
      }
    }
  }

  datatype Read = Read(payloads: seq<string>, buffer: string)

  /** What a reader has seen after a list of chunks. */
  function FeedAll(chunks: seq<string>): Read {
    if chunks == [] then Read([], "")
    else
      var before := FeedAll(chunks[..|chunks| - 1]);
      var cut := CutText(before.buffer + chunks[|chunks| - 1]);
      Read(before.payloads + PayloadsOf(cut.frames), cut.tail)
  }

  function Concat(chunks: seq<string>): string {
    if chunks == [] then "" else Concat(chunks[..|chunks| - 1]) + chunks[|chunks| - 1]
  }

  lemma {:induction false} PayloadsConcat(a: seq<string>, b: seq<string>)
    ensures PayloadsOf(a + b) == PayloadsOf(a) + PayloadsOf(b)
  {
    if a == [] {
      assert a + b == b;
    } else {
      PayloadsConcat(a[1..], b);
      assert (a + b)[1..] == a[1..] + b;
      Grouped(PayloadOf(a[0]), PayloadsOf(a[1..]), PayloadsOf(b));
    }
  }

  /** Any text reads the same however it is chunked, and the buffer never holds a separator. */
  lemma {:induction false} ChunkingIsInvisible(chunks: seq<string>)
    ensures FeedAll(chunks) == Read(PayloadsOf(CutText(Concat(chunks)).frames), CutText(Concat(chunks)).tail)
    ensures FirstBreak(FeedAll(chunks).buffer) == -1
  {
    if chunks == [] {
      assert CutText("") == Cut([], "");
    } else {
      var front, last := chunks[..|chunks| - 1], chunks[|chunks| - 1];
      ChunkingIsInvisible(front);
      CutConcat(Concat(front), last);
      PayloadsConcat(CutText(Concat(front)).frames, CutText(CutText(Concat(front)).tail + last).frames);
    }
  }

  // ---------- the writer's streams ----------

  lemma BodyPlain(f: Frame)
    requires Writable(f)
    ensures '\n' !in Body(f) && Body(f) != ""
  {
  }

  lemma FirstFrame(body: string, rest: string)
    requires '\n' !in body && body != ""
    ensures CutText(body + "\n\n" + rest) == Cut([body] + CutText(rest).frames, CutText(rest).tail)
  {
    var s := body + "\n\n" + rest;
    assert BreakAt(s, |body|);
    forall j | j < |body|
      ensures !BreakAt(s, j)
    {
      if 0 <= j { assert s[j] == body[j] && body[j] in body; }
    }
    BreakUnique(s, |body|);
    assert s[..|body|] == body && s[|body| + 2..] == rest;
  }

  lemma PayloadOfBody(f: Frame)
    requires Writable(f)
    ensures PayloadOf(Body(f)) == if f.Data? then [f.payload] else []
  {
    BodyPlain(f);
    SplitPlain(Body(f), '\n');
    var lines := [Body(f)];
    match f
    case Data(payload) =>
      assert Body(f)[..6] == "data: " && Body(f)[6..] == payload;
    case Heartbeat =>
      assert Body(f)[0] == ':' && "data: "[0] == 'd';
      assert !IsDataLine(lines[0]);
      assert lines[1..] == [];
      assert FirstDataLine(lines) == FirstDataLine([]);
  }

  lemma {:induction false} StreamCuts(frames: seq<Frame>)
    requires forall i :: 0 <= i < |frames| ==> Writable(frames[i])
    ensures CutText(Text(frames)).tail == ""
    ensures PayloadsOf(CutText(Text(frames)).frames) == Payloads(frames)
  {
    if frames == [] {
      assert CutText("") == Cut([], "");
    } else {
      StreamCuts(frames[1..]);
      BodyPlain(frames[0]);
      FirstFrame(Body(frames[0]), Text(frames[1..]));
      PayloadOfBody(frames[0]);
      var rest := CutText(Text(frames[1..])).frames;
      assert ([Body(frames[0])] + rest)[1..] == rest;
    }
  }

  /** For every way of cutting a written stream into chunks, the reader gets exactly the written payloads, in
      order, and ends with an empty buffer. */
  lemma ReaderGetsWhatWasWritten(frames: seq<Frame>, chunks: seq<string>)
    requires forall i :: 0 <= i < |frames| ==> Writable(frames[i])
    requires Concat(chunks) == Text(frames)
    ensures FeedAll(chunks) == Read(Payloads(frames), "")
  {
    ChunkingIsInvisible(chunks);
    StreamCuts(frames);
  }

  /** While the stream is still arriving, the reader has a prefix of the payloads. */
  lemma ReaderIsNeverAhead(frames: seq<Frame>, chunks: seq<string>)
    requires forall i :: 0 <= i < |frames| ==> Writable(frames[i])
    requires Concat(chunks) <= Text(frames)
    ensures FeedAll(chunks).payloads <= Payloads(frames)
  {
    var rest := Text(frames)[|Concat(chunks)|..];
    var all := chunks + [rest];
    assert all[..|all| - 1] == chunks;
    assert Concat(all) == Concat(chunks) + rest == Text(frames);
    ReaderGetsWhatWasWritten(frames, all);
  }

  // ---------- the bounded buffer ----------

  const CAPACITY: nat := 10_000

  datatype WorkerEvent = WorkerEvent(cursor: nat, kind: Label, payload: Label)

  /** The events of a history that a buffer still holds. */
  function Kept(history: seq<WorkerEvent>): seq<WorkerEvent> {
    if |history| <= CAPACITY then history else history[|history| - CAPACITY..]
  }

  ghost predicate Numbered(history: seq<WorkerEvent>) {
    forall i :: 0 <= i < |history| ==> history[i].cursor == i + 1
  }

  /** Where a reader that asks for everything past `after` starts in the history. */
  function StartOf(history: seq<WorkerEvent>, after: nat): nat {
    var asked := if after <= |history| then after else |history|;
    if |history| <= CAPACITY || asked > |history| - CAPACITY then asked else |history| - CAPACITY
  }

  function EventsPast(events: seq<WorkerEvent>, after: nat): seq<WorkerEvent> {
    if events == [] then []
    else (if events[0].cursor > after then [events[0]] else []) + EventsPast(events[1..], after)
  }

  lemma {:induction false} PastOfNumbered(history: seq<WorkerEvent>, from: nat, after: nat)
    requires Numbered(history) && from <= |history|
    ensures EventsPast(history[from..], after) ==
      history[(if from >= after then from else if after <= |history| then after else |history|)..]
    decreases |history| - from
  {
    if from < |history| {
      assert history[from..][1..] == history[from + 1..];
      PastOfNumbered(history, from + 1, after);
    }
  }

  class EventBuffer {
    var cursor: nat
    var events: seq<WorkerEvent>
    ghost var history: seq<WorkerEvent>

    ghost predicate Valid()
      reads this
    {
      cursor == |history| && Numbered(history) && events == Kept(history)
    }

    constructor ()
      ensures Valid() && history == []
    {
      cursor, events, history := 0, [], [];
    }

    method Append(kind: Label, payload: Label) returns (event: WorkerEvent)
      requires Valid()
      modifies this
      ensures Valid() && event == WorkerEvent(cursor, kind, payload) && history == old(history) + [event]
      ensures |events| == Min(|history|, 10_000) && events == history[|history| - |events|..]
    {
      cursor := cursor + 1;
      event := WorkerEvent(cursor, kind, payload);
      events := events + [event];
      if |events| > CAPACITY {
        events := events[|events| - CAPACITY..];
      }
      history := history + [event];
    }

    method After(after: nat) returns (r: seq<WorkerEvent>)
      requires Valid()
      ensures r == history[StartOf(history, after)..]
    {
      r := EventsPast(events, after);
      PastOfNumbered(history, if |history| <= CAPACITY then 0 else |history| - CAPACITY, after);
    }
  }

  /** What a connection has been sent: `after(cursor)` when it joined, then each event as it is appended. */
  function Sent(history: seq<WorkerEvent>, joined: nat, after: nat): seq<WorkerEvent>
    requires joined <= |history|
  {
    if |history| == joined then history[StartOf(history, after)..]
    else Sent(history[..|history| - 1], joined, after) + [history[|history| - 1]]
  }

  lemma {:induction false} SentIsSuffix(history: seq<WorkerEvent>, joined: nat, after: nat)
    requires joined <= |history|
    ensures Sent(history, joined, after) == history[StartOf(history[..joined], after)..]
    decreases |history|
  {
    if |history| == joined {
      assert history[..joined] == history;
    } else {
      var front := history[..|history| - 1];
      assert front[..joined] == history[..joined];
      SentIsSuffix(front, joined, after);
    }
  }

  /** A connection is sent a gapless stretch of the history up to the present; it is everything that was
      asked for exactly when the buffer had not yet dropped any of it at the time of opening. */
  lemma ConnectionIsGapless(history: seq<WorkerEvent>, joined: nat, after: nat)
    requires Numbered(history) && joined <= |history|
    ensures Sent(history, joined, after) == history[StartOf(history[..joined], after)..]
    ensures Sent(history, joined, after) == history[(if after <= joined then after else joined)..] <==>
      joined <= CAPACITY || after >= joined - CAPACITY
  {
    SentIsSuffix(history, joined, after);
    assert |Sent(history, joined, after)| == |history| - StartOf(history[..joined], after);
  }
}
