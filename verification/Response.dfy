/**
 Assembling an agent's response: on the server while the turn runs
 (services/api/src/runtime/codex-runtime.ts, `consumeTurn`, `responseToolPart`), and on the client from
 the events that the server emits meanwhile (apps/mobile/src/hooks/useRelay.ts, `captureLiveResponse`).

 The server starts a new text part after every tool update, even one that lands in an earlier position,
 and may hold empty text parts; the client appends to whatever text part comes last. The two agree after
 dropping empty text and merging adjacent text, tools compared by id, type and status.
 */
module Response {
  import opened Wrappers
  import CronText

  datatype ToolStatus = Running | Failed | Completed

  /** A tool's data is its command output, which later events extend, and the rest. */
  datatype Part = Text(text: string) | Tool(id: string, toolType: string, status: ToolStatus, output: string, rest: string)

  /** A worker item: an agent message, or a tool item with the fields that `responseToolPart` reads.
      `redacted` marks an item that mentions a connector secret; only its type and status are kept. */
  datatype Item =
    | Untyped
    | AgentMessage(text: Option<string>)
    | ToolItem(id: Option<string>, toolType: string, rawStatus: string, hasError: bool, output: string, rest: string, redacted: bool)

  datatype WorkerEvent =
    | AgentDelta(delta: string)
    | ItemStarted(item: Item)
    | ItemCompleted(item: Item)
    | CommandOutput(itemId: Option<string>, delta: string)
    | PatchUpdated(itemId: Option<string>, changes: Option<string>)
    | ApprovalRequested
    | TurnCompleted(failed: bool)
    | ErrorEvent
    | OtherEvent

  /** What reaches the clients. */
  datatype Emitted = Delta(text: string) | ToolChanged(part: Part) | Unrelated

  const OUTPUT_LIMIT: nat := 100_000

  function Clip(s: string): string { if |s| <= OUTPUT_LIMIT then s else s[..OUTPUT_LIMIT] }

  function Digits(n: nat): string {
    if n < 10 then [('0' as int + n) as char] else Digits(n / 10) + [('0' as int + n % 10) as char]
  }

  /** What a decimal numeral denotes. */
  function Decimal(s: string): int {
    if s == "" then 0 else 10 * Decimal(s[..|s| - 1]) + (s[|s| - 1] as int - '0' as int)
  }

  /** Numbers are written in decimal digits without leading zeros. */
  lemma {:induction false} DigitsDenote(n: nat)
    ensures Decimal(Digits(n)) == n
    ensures |Digits(n)| >= 1 && (n > 0 ==> Digits(n)[0] != '0')
    ensures forall i :: 0 <= i < |Digits(n)| ==> '0' <= Digits(n)[i] <= '9'
  {
    var last := [('0' as int + n % 10) as char];
    if n >= 10 {
      DigitsDenote(n / 10);
      assert Digits(n)[..|Digits(n)| - 1] == Digits(n / 10);
      assert n == 10 * (n / 10) + n % 10;
    } else {
      assert last[..|last| - 1] == "";
      assert Digits(n) == last;
    }
  }

  predicate Includes(s: string, word: string) {
    word <= s || (s != "" && Includes(s[1..], word))
  }

  /** `responseToolPart`. */
  function ToolPart(item: Item, fallbackId: string, running: bool): (p: Part)
    requires item.ToolItem?
    ensures p.Tool?
  {
    var id := if item.redacted then None else item.id;
    var raw := CronText.Lower(item.rawStatus);
    var status :=
      if running || Includes(raw, "progress") || raw == "running" then Running
      else if Includes(raw, "fail") || Includes(raw, "declin") || (item.hasError && !item.redacted) then Failed
      else Completed;
    Tool(if id.Some? then id.value else fallbackId, item.toolType, status,
      if item.redacted then "" else Clip(item.output), item.rest)
  }

  /** The position of the tool part with the id, or -1 (`findIndex`). */
  function FindTool(parts: seq<Part>, id: string): (r: int)
    ensures -1 <= r < |parts|
    ensures r >= 0 ==> parts[r].Tool? && parts[r].id == id
    ensures forall i :: 0 <= i < (if r >= 0 then r else |parts|) ==> !(parts[i].Tool? && parts[i].id == id)
  {
    if parts == [] then -1
    else if parts[0].Tool? && parts[0].id == id then 0
    else
      var r := FindTool(parts[1..], id);
      if r < 0 then -1 else r + 1
  }

  // ---------- the server ----------

  /** `active` is the position of the open text part. `silent` collects text that was appended without being
      emitted; it is history only. */
  datatype Server = Server(
    content: string, parts: seq<Part>, active: Option<nat>, messages: nat, emitted: seq<Emitted>, silent: string)

  const START := Server("", [], None, 0, [], "")

  predicate Sane(s: Server) {
    s.active.Some? ==> s.active.value == |s.parts| - 1 && s.parts[s.active.value].Text?
  }

  function AppendText(s: Server, text: string): (r: Server)
    requires Sane(s)
    ensures Sane(r)
  {
    var target := if s.active.Some? then s else s.(parts := s.parts + [Text("")], active := Some(|s.parts|));
    var i := target.active.value;
    target.(content := s.content + text, parts := target.parts[i := Text(target.parts[i].text + text)])
  }

  function UpsertTool(s: Server, item: Item, running: bool): (r: Server)
    requires item.ToolItem?
    ensures Sane(r)
  {
    var candidate := ToolPart(item, "tool-" + Digits(|s.parts| + 1), running);
    var index := FindTool(s.parts, candidate.id);
    s.(parts := if index >= 0 then s.parts[index := candidate] else s.parts + [candidate],
       active := None,
       emitted := s.emitted + [ToolChanged(candidate)])
  }

  function EmitDelta(s: Server, text: string): Server {
    if text == "" then s else s.(emitted := s.emitted + [Delta(text)])
  }

  predicate EndsWithBlank(s: string) {
    |s| >= 2 && s[|s| - 2..] == "\n\n"
  }

  function Started(s: Server, item: Item): (r: Server)
    requires Sane(s)
    ensures Sane(r)
  {
    match item
    case Untyped => s
    case AgentMessage(_) =>
      var t := if s.messages > 0 && s.content != "" && !EndsWithBlank(s.content)
               then EmitDelta(AppendText(s, "\n\n"), "\n\n") else s;
      t.(messages := t.messages + 1)
    case ToolItem(_, _, _, _, _, _, _) => UpsertTool(s, item, true)
  }

  function Finished(s: Server, item: Item): (r: Server)
    requires Sane(s)
    ensures Sane(r)
  {
    match item
    case Untyped => s
    case AgentMessage(text) =>
      if s.content == "" && text.Some? then AppendText(s, text.value).(silent := s.silent + text.value) else s
    case ToolItem(_, _, _, _, _, _, _) => UpsertTool(s, item, false)
  }

  /** Changes to a tool's data, which are not announced with the part; an empty id names nothing. */
  function EditTool(s: Server, itemId: Option<string>, edit: Part -> Part): Server {
    if itemId.None? || itemId.value == "" then s
    else
      var index := FindTool(s.parts, itemId.value);
      if index < 0 then s else s.(parts := s.parts[index := edit(s.parts[index])])
  }

  function AddOutput(delta: string): Part -> Part {
    (p: Part) => if p.Tool? then p.(output := Clip(p.output + delta)) else p
  }

  function SetChanges(changes: string): Part -> Part {
    (p: Part) => if p.Tool? then p.(rest := changes) else p
  }

  /** One worker event of this turn; the events that end or fail the turn change nothing here. */
  function Handle(s: Server, e: WorkerEvent): (r: Server)
    requires Sane(s)
    ensures Sane(r)
  {
    match e
    case AgentDelta(delta) => EmitDelta(AppendText(s, delta), delta)
    case ItemStarted(item) => Started(s, item)
    case ItemCompleted(item) => Finished(s, item)
    case CommandOutput(id, delta) =>
      var t := EditTool(s, id, AddOutput(delta));
      t.(emitted := t.emitted + [Unrelated])
    case PatchUpdated(id, changes) => if changes.Some? then EditTool(s, id, SetChanges(changes.value)) else s
    case ApprovalRequested => s.(emitted := s.emitted + [Unrelated])
    case _ => s
  }

  function HandleAll(s: Server, events: seq<WorkerEvent>): (r: Server)
    requires Sane(s)
    ensures Sane(r)
  {
    if events == [] then s else Handle(HandleAll(s, events[..|events| - 1]), events[|events| - 1])
  }

  // ---------- the client ----------

  /** One emitted event, folded into the parts that the client holds for the run. */
  function Capture(parts: seq<Part>, e: Emitted): seq<Part> {
    match e
    case Delta(delta) =>
      if delta == "" then parts
      else if parts != [] && parts[|parts| - 1].Text? then
        parts[|parts| - 1 := Text(parts[|parts| - 1].text + delta)]
      else parts + [Text(delta)]
    case ToolChanged(part) =>
      if !part.Tool? then parts
      else
        var index := FindTool(parts, part.id);
        if index >= 0 then parts[index := part] else parts + [part]
    case Unrelated => parts
  }

  function CaptureAll(emitted: seq<Emitted>): seq<Part> {
    if emitted == [] then [] else Capture(CaptureAll(emitted[..|emitted| - 1]), emitted[|emitted| - 1])
  }

  // ---------- what the two have in common ----------

  function Erase(p: Part): Part {
    if p.Text? then p else p.(output := "", rest := "")
  }

  /** Appending a part to a normal list: empty text vanishes, text joins text. */
  function Push(parts: seq<Part>, p: Part): seq<Part> {
    if p.Tool? then parts + [Erase(p)]
    else if p.text == "" then parts
    else if parts != [] && parts[|parts| - 1].Text? then parts[|parts| - 1 := Text(parts[|parts| - 1].text + p.text)]
    else parts + [p]
  }

  /** Without empty text, with adjacent text merged and tool data ignored. */
  function Normal(parts: seq<Part>): seq<Part> {
    if parts == [] then [] else Push(Normal(parts[..|parts| - 1]), parts[|parts| - 1])
  }

  function EraseAll(parts: seq<Part>): seq<Part> {
    if parts == [] then [] else EraseAll(parts[..|parts| - 1]) + [Erase(parts[|parts| - 1])]
  }

  function TextOf(parts: seq<Part>): string {
    if parts == [] then ""
    else TextOf(parts[..|parts| - 1]) + if parts[|parts| - 1].Text? then parts[|parts| - 1].text else ""
  }

  ghost predicate UniqueTools(parts: seq<Part>) {
    forall i, j :: 0 <= i < j < |parts| && parts[i].Tool? && parts[j].Tool? ==> parts[i].id != parts[j].id
  }

  lemma NormalSnoc(parts: seq<Part>, p: Part)
    ensures Normal(parts + [p]) == Push(Normal(parts), p)
    ensures TextOf(parts + [p]) == TextOf(parts) + if p.Text? then p.text else ""
    ensures EraseAll(parts + [p]) == EraseAll(parts) + [Erase(p)]
  {
    var all := parts + [p];
    assert all[..|all| - 1] == parts;
  }

  lemma SplitLast(parts: seq<Part>)
    requires parts != []
    ensures parts == parts[..|parts| - 1] + [parts[|parts| - 1]]
  {
  }

  /** Text pushed in two pieces is text pushed at once. */
  lemma PushTwice(parts: seq<Part>, a: string, b: string)
    ensures Push(Push(parts, Text(a)), Text(b)) == Push(parts, Text(a + b))
  {
    if a == "" {
      assert a + b == b;
    } else if b == "" {
      assert a + b == a;
    } else if parts != [] && parts[|parts| - 1].Text? {
      var t := parts[|parts| - 1].text;
      assert (t + a) + b == t + (a + b);
    }
  }

  lemma AppendNormal(s: Server, text: string)
    requires Sane(s)
    ensures Normal(AppendText(s, text).parts) == Push(Normal(s.parts), Text(text))
    ensures TextOf(AppendText(s, text).parts) == TextOf(s.parts) + text
  {
    var r := AppendText(s, text);
    if s.active.Some? {
      var n := |s.parts| - 1;
      var front := s.parts[..n];
      SplitLast(s.parts);
      assert r.parts == front + [Text(s.parts[n].text + text)];
      NormalSnoc(front, s.parts[n]);
      NormalSnoc(front, Text(s.parts[n].text + text));
      PushTwice(Normal(front), s.parts[n].text, text);
    } else {
      assert r.parts == s.parts + [Text(text)] by { assert "" + text == text; }
      NormalSnoc(s.parts, Text(text));
    }
  }

  lemma {:induction false} EraseKeeps(parts: seq<Part>)
    ensures |EraseAll(parts)| == |parts|
    ensures forall i :: 0 <= i < |parts| ==> EraseAll(parts)[i] == Erase(parts[i])
  {
    if parts != [] {
      EraseKeeps(parts[..|parts| - 1]);
    }
  }

  lemma EraseFind(parts: seq<Part>, id: string)
    ensures FindTool(EraseAll(parts), id) == FindTool(parts, id)
  {
    EraseKeeps(parts);
    var e := EraseAll(parts);
    var a, b := FindTool(e, id), FindTool(parts, id);
    assert a >= 0 ==> parts[a].Tool? && parts[a].id == id;
    assert b >= 0 ==> e[b].Tool? && e[b].id == id;
  }

  lemma EraseUpdate(parts: seq<Part>, i: int, p: Part)
    requires 0 <= i < |parts|
    ensures |EraseAll(parts)| == |parts|
    ensures EraseAll(parts[i := p]) == EraseAll(parts)[i := Erase(p)]
  {
    EraseKeeps(parts);
    EraseKeeps(parts[i := p]);
  }

  /** The client's step is a push, on erased parts, when the event carries text. */
  lemma CaptureDelta(parts: seq<Part>, delta: string)
    ensures EraseAll(Capture(parts, Delta(delta))) == Push(EraseAll(parts), Text(delta))
  {
    EraseKeeps(parts);
    if delta != "" {
      if parts != [] && parts[|parts| - 1].Text? {
        EraseUpdate(parts, |parts| - 1, Text(parts[|parts| - 1].text + delta));
      } else {
        NormalSnoc(parts, Text(delta));
      }
    }
  }

  /** Replacing the tool with an id, or adding it. */
  function Put(parts: seq<Part>, p: Part): seq<Part>
    requires p.Tool?
  {
    var index := FindTool(parts, p.id);
    if index >= 0 then parts[index := p] else parts + [p]
  }

  lemma CaptureTool(parts: seq<Part>, p: Part)
    requires p.Tool?
    ensures EraseAll(Capture(parts, ToolChanged(p))) == Put(EraseAll(parts), Erase(p))
  {
    EraseFind(parts, p.id);
    EraseKeeps(parts);
    var index := FindTool(parts, p.id);
    if index >= 0 {
      EraseUpdate(parts, index, p);
    } else {
      NormalSnoc(parts, p);
    }
  }

  lemma FindSnoc(parts: seq<Part>, p: Part, id: string)
    ensures FindTool(parts + [p], id) ==
      if FindTool(parts, id) >= 0 then FindTool(parts, id) else if p.Tool? && p.id == id then |parts| else -1
  {
    var all := parts + [p];
    var a, b := FindTool(all, id), FindTool(parts, id);
    assert forall i :: 0 <= i < |parts| ==> all[i] == parts[i];
    if b >= 0 { assert all[b].Tool?; }
    assert all[|parts|] == p;
  }

  /** Pushing text does not move tools. */
  lemma PushTextFind(parts: seq<Part>, text: string, id: string)
    ensures FindTool(Push(parts, Text(text)), id) == FindTool(parts, id)
  {
    var r := Push(parts, Text(text));
    if text != "" {
      if parts != [] && parts[|parts| - 1].Text? {
        var a, b := FindTool(r, id), FindTool(parts, id);
        assert forall i :: 0 <= i < |parts| - 1 ==> r[i] == parts[i];
        assert a >= 0 ==> parts[a].Tool? && parts[a].id == id;
        assert b >= 0 ==> r[b].Tool? && r[b].id == id;
      } else {
        FindSnoc(parts, Text(text), id);
      }
    }
  }

  lemma {:induction false} NormalFind(parts: seq<Part>, id: string)
    ensures FindTool(Normal(parts), id) >= 0 <==> FindTool(parts, id) >= 0
  {
    if parts != [] {
      var front, p := parts[..|parts| - 1], parts[|parts| - 1];
      SplitLast(parts);
      NormalFind(front, id);
      FindSnoc(front, p, id);
      if p.Tool? {
        FindSnoc(Normal(front), Erase(p), id);
      } else {
        PushTextFind(Normal(front), p.text, id);
      }
    }
  }

  lemma PushTextUpdate(parts: seq<Part>, text: string, k: int, tool: Part)
    requires 0 <= k < |parts| && parts[k].Tool? && tool.Tool?
    ensures |Push(parts, Text(text))| >= |parts|
    ensures Push(parts[k := tool], Text(text)) == Push(parts, Text(text))[k := tool]
  {
    var n := |parts| - 1;
    if text != "" {
      if parts[n].Text? {
        assert parts[k := tool][n] == parts[n];
      }
    }
  }

  lemma PushTextPut(parts: seq<Part>, text: string, tool: Part)
    requires tool.Tool? && FindTool(parts, tool.id) >= 0
    ensures Push(Put(parts, tool), Text(text)) == Put(Push(parts, Text(text)), tool)
  {
    PushTextFind(parts, text, tool.id);
    PushTextUpdate(parts, text, FindTool(parts, tool.id), tool);
  }

  lemma PutSnoc(front: seq<Part>, p: Part, tool: Part)
    requires tool.Tool?
    ensures FindTool(front, tool.id) >= 0 ==> Put(front + [p], tool) == Put(front, tool) + [p]
    ensures FindTool(front, tool.id) < 0 && p.Tool? && p.id == tool.id ==> Put(front + [p], tool) == front + [tool]
  {
    FindSnoc(front, p, tool.id);
  }

  /** The tool being replaced is the last part. */
  lemma NormalPutLast(front: seq<Part>, p: Part, tool: Part)
    requires tool.Tool? && p.Tool? && p.id == tool.id && FindTool(front, tool.id) < 0
    ensures Normal(Put(front + [p], tool)) == Put(Normal(front + [p]), Erase(tool))
  {
    PutSnoc(front, p, tool);
    NormalSnoc(front, tool);
    NormalSnoc(front, p);
    NormalFind(front, tool.id);
    PutSnoc(Normal(front), Erase(p), Erase(tool));
  }

  /** The tool being replaced stands before the last part. */
  lemma NormalPutBefore(front: seq<Part>, p: Part, tool: Part)
    requires tool.Tool? && FindTool(front, tool.id) >= 0
    requires Normal(Put(front, tool)) == Put(Normal(front), Erase(tool))
    ensures Normal(Put(front + [p], tool)) == Put(Normal(front + [p]), Erase(tool))
  {
    PutSnoc(front, p, tool);
    NormalSnoc(Put(front, tool), p);
    NormalSnoc(front, p);
    NormalFind(front, tool.id);
    if p.Text? {
      PushTextPut(Normal(front), p.text, Erase(tool));
    } else {
      PutSnoc(Normal(front), Erase(p), Erase(tool));
    }
  }

  /** Normalising commutes with replacing or adding a tool. */
  lemma {:induction false} NormalPut(parts: seq<Part>, tool: Part)
    requires tool.Tool?
    ensures Normal(Put(parts, tool)) == Put(Normal(parts), Erase(tool))
    decreases |parts|
  {
    NormalFind(parts, tool.id);
    if FindTool(parts, tool.id) < 0 {
      NormalSnoc(parts, tool);
    } else {
      var front, p := parts[..|parts| - 1], parts[|parts| - 1];
      SplitLast(parts);
      FindSnoc(front, p, tool.id);
      if FindTool(front, tool.id) < 0 {
        NormalPutLast(front, p, tool);
      } else {
        NormalPut(front, tool);
        NormalPutBefore(front, p, tool);
      }
    }
  }

  lemma {:induction false} TextOfPut(parts: seq<Part>, tool: Part)
    requires tool.Tool?
    ensures TextOf(Put(parts, tool)) == TextOf(parts)
    decreases |parts|
  {
    var index := FindTool(parts, tool.id);
    if index < 0 {
      NormalSnoc(parts, tool);
    } else {
      var n := |parts| - 1;
      var front, p := parts[..n], parts[n];
      SplitLast(parts);
      FindSnoc(front, p, tool.id);
      if index == n {
        assert Put(parts, tool) == front + [tool];
        NormalSnoc(front, tool);
        NormalSnoc(front, p);
      } else {
        assert Put(parts, tool) == Put(front, tool) + [p];
        NormalSnoc(Put(front, tool), p);
        NormalSnoc(front, p);
        TextOfPut(front, tool);
      }
    }
  }

  /** Normalising keeps the text. */
  lemma {:induction false} NormalText(parts: seq<Part>)
    ensures TextOf(Normal(parts)) == TextOf(parts)
  {
    if parts != [] {
      var front, p := parts[..|parts| - 1], parts[|parts| - 1];
      NormalText(front);
      PushText(Normal(front), p);
    }
  }

  lemma PushText(parts: seq<Part>, p: Part)
    ensures TextOf(Push(parts, p)) == TextOf(parts) + if p.Text? then p.text else ""
  {
    if p.Tool? {
      NormalSnoc(parts, Erase(p));
    } else if p.text != "" {
      if parts != [] && parts[|parts| - 1].Text? {
        var front, last := parts[..|parts| - 1], parts[|parts| - 1];
        SplitLast(parts);
        assert Push(parts, p) == front + [Text(last.text + p.text)];
        NormalSnoc(front, Text(last.text + p.text));
        NormalSnoc(front, last);
      } else {
        NormalSnoc(parts, p);
      }
    }
  }

  // ---------- agreement ----------

  /** The server's parts carry its content, and its tools have distinct ids. */
  ghost predicate Consistent(s: Server) {
    Sane(s) && TextOf(s.parts) == s.content && UniqueTools(s.parts)
  }

  /** The client's view is the server's, as long as nothing was appended in silence; and it always lacks
      exactly the silent text. */
  ghost predicate Agrees(s: Server) {
    var client := EraseAll(CaptureAll(s.emitted));
    && (s.silent == "" ==> client == Normal(s.parts))
    && |TextOf(client)| + |s.silent| == |s.content|
  }

  lemma EmittedSnoc(emitted: seq<Emitted>, e: Emitted)
    ensures CaptureAll(emitted + [e]) == Capture(CaptureAll(emitted), e)
  {
    var all := emitted + [e];
    assert all[..|all| - 1] == emitted;
  }

  lemma UniqueUpdate(parts: seq<Part>, i: int, p: Part)
    requires UniqueTools(parts) && 0 <= i < |parts|
    requires parts[i].Tool? ==> p.Tool? && p.id == parts[i].id
    requires parts[i].Text? ==> p.Text?
    ensures UniqueTools(parts[i := p])
  {
  }

  lemma UniqueAppend(parts: seq<Part>, p: Part)
    requires UniqueTools(parts) && (p.Tool? ==> FindTool(parts, p.id) < 0)
    ensures UniqueTools(parts + [p])
  {
  }

  lemma TextStep(s: Server, text: string)
    requires Consistent(s) && Agrees(s)
    ensures Consistent(EmitDelta(AppendText(s, text), text)) && Agrees(EmitDelta(AppendText(s, text), text))
  {
    var r := EmitDelta(AppendText(s, text), text);
    AppendNormal(s, text);
    TextKeepsTools(s, text);
    var client := EraseAll(CaptureAll(s.emitted));
    CaptureDelta(CaptureAll(s.emitted), text);
    PushText(client, Text(text));
    if text != "" {
      EmittedSnoc(s.emitted, Delta(text));
    }
  }

  lemma TextKeepsTools(s: Server, text: string)
    requires Sane(s) && UniqueTools(s.parts)
    ensures UniqueTools(AppendText(s, text).parts)
  {
    if s.active.Some? {
      UniqueUpdate(s.parts, s.active.value, AppendText(s, text).parts[s.active.value]);
    } else {
      UniqueAppend(s.parts, Text(text));
      assert AppendText(s, text).parts == s.parts + [Text(text)] by { assert "" + text == text; }
    }
  }

  lemma ToolStep(s: Server, item: Item, running: bool)
    requires Consistent(s) && Agrees(s) && item.ToolItem?
    ensures Consistent(UpsertTool(s, item, running)) && Agrees(UpsertTool(s, item, running))
  {
    var r := UpsertTool(s, item, running);
    var p := ToolPart(item, "tool-" + Digits(|s.parts| + 1), running);
    assert r.parts == Put(s.parts, p) && r.emitted == s.emitted + [ToolChanged(p)];
    NormalPut(s.parts, p);
    TextOfPut(s.parts, p);
    var index := FindTool(s.parts, p.id);
    if index >= 0 { UniqueUpdate(s.parts, index, p); } else { UniqueAppend(s.parts, p); }
    EmittedSnoc(s.emitted, ToolChanged(p));
    CaptureTool(CaptureAll(s.emitted), p);
    TextOfPut(EraseAll(CaptureAll(s.emitted)), Erase(p));
  }

  lemma UnrelatedStep(s: Server)
    requires Consistent(s) && Agrees(s)
    ensures Consistent(s.(emitted := s.emitted + [Unrelated])) && Agrees(s.(emitted := s.emitted + [Unrelated]))
  {
    EmittedSnoc(s.emitted, Unrelated);
  }

  lemma {:induction false} NormalOfErased(parts: seq<Part>)
    ensures Normal(EraseAll(parts)) == Normal(parts)
  {
    if parts != [] {
      var front, p := parts[..|parts| - 1], parts[|parts| - 1];
      NormalOfErased(front);
      NormalSnoc(EraseAll(front), Erase(p));
    }
  }

  lemma {:induction false} TextOfErased(parts: seq<Part>)
    ensures TextOf(EraseAll(parts)) == TextOf(parts)
  {
    if parts != [] {
      var front, p := parts[..|parts| - 1], parts[|parts| - 1];
      TextOfErased(front);
      NormalSnoc(EraseAll(front), Erase(p));
    }
  }

  /** Replacing a part by one with the same erasure moves nothing that the two sides compare. */
  lemma EditKeeps(parts: seq<Part>, index: int, p: Part)
    requires 0 <= index < |parts| && Erase(p) == Erase(parts[index])
    ensures Normal(parts[index := p]) == Normal(parts) && TextOf(parts[index := p]) == TextOf(parts)
  {
    EraseUpdate(parts, index, p);
    EraseKeeps(parts);
    assert EraseAll(parts[index := p]) == EraseAll(parts);
    NormalOfErased(parts);
    NormalOfErased(parts[index := p]);
    TextOfErased(parts);
    TextOfErased(parts[index := p]);
  }

  lemma EditStep(s: Server, itemId: Option<string>, edit: Part -> Part)
    requires Consistent(s) && Agrees(s)
    requires forall p: Part :: p.Tool? ==> edit(p).Tool? && edit(p).id == p.id && Erase(edit(p)) == Erase(p)
    ensures Consistent(EditTool(s, itemId, edit)) && Agrees(EditTool(s, itemId, edit))
  {
    if itemId.Some? && itemId.value != "" {
      var index := FindTool(s.parts, itemId.value);
      if index >= 0 {
        EditKeeps(s.parts, index, edit(s.parts[index]));
        UniqueUpdate(s.parts, index, edit(s.parts[index]));
      }
    }
  }

  /** The fallback for a message that never came as deltas: text without an event. */
  lemma SilentStep(s: Server, text: string)
    requires Consistent(s) && Agrees(s)
    ensures var r := AppendText(s, text).(silent := s.silent + text); Consistent(r) && Agrees(r)
  {
    AppendNormal(s, text);
    TextKeepsTools(s, text);
    PushNothing(Normal(s.parts));
  }

  lemma PushNothing(parts: seq<Part>)
    ensures Push(parts, Text("")) == parts
  {
  }

  lemma StartedAgrees(s: Server, item: Item)
    requires Consistent(s) && Agrees(s)
    ensures Consistent(Started(s, item)) && Agrees(Started(s, item))
  {
    if item.AgentMessage? {
      if s.messages > 0 && s.content != "" && !EndsWithBlank(s.content) { TextStep(s, "\n\n"); }
    } else if item.ToolItem? {
      ToolStep(s, item, true);
    }
  }

  lemma FinishedAgrees(s: Server, item: Item)
    requires Consistent(s) && Agrees(s)
    ensures Consistent(Finished(s, item)) && Agrees(Finished(s, item))
  {
    if item.AgentMessage? {
      if s.content == "" && item.text.Some? { SilentStep(s, item.text.value); }
    } else if item.ToolItem? {
      ToolStep(s, item, false);
    }
  }

  lemma HandleAgrees(s: Server, e: WorkerEvent)
    requires Consistent(s) && Agrees(s)
    ensures Consistent(Handle(s, e)) && Agrees(Handle(s, e))
  {
    match e
    case AgentDelta(delta) => TextStep(s, delta);
    case ItemStarted(item) => StartedAgrees(s, item);
    case ItemCompleted(item) => FinishedAgrees(s, item);
    case CommandOutput(id, delta) =>
      EditStep(s, id, AddOutput(delta));
      UnrelatedStep(EditTool(s, id, AddOutput(delta)));
    case PatchUpdated(id, changes) =>
      if changes.Some? { EditStep(s, id, SetChanges(changes.value)); }
    case ApprovalRequested => UnrelatedStep(s);
    case _ =>
  }

  lemma {:induction false} TurnAgrees(events: seq<WorkerEvent>)
    ensures Consistent(HandleAll(START, events)) && Agrees(HandleAll(START, events))
  {
    if events != [] {
      TurnAgrees(events[..|events| - 1]);
      HandleAgrees(HandleAll(START, events[..|events| - 1]), events[|events| - 1]);
    }
  }

  /** For every turn: the server's text parts concatenate to its content and its tool ids are distinct; and
      the client, folding each emitted event once and in order, ends with the server's parts, up to empty
      and adjacent text and tool data, exactly if no text was appended in silence. */
  lemma ClientAgreesExactly(events: seq<WorkerEvent>)
    ensures var s := HandleAll(START, events);
      && TextOf(s.parts) == s.content && UniqueTools(s.parts)
      && (EraseAll(CaptureAll(s.emitted)) == Normal(s.parts) <==> s.silent == "")
  {
    var s := HandleAll(START, events);
    TurnAgrees(events);
    NormalText(s.parts);
  }

  /** Some completed agent message carries text of which nothing had arrived when it completed. */
  predicate Undelivered(events: seq<WorkerEvent>, i: int)
    requires 0 <= i < |events|
  {
    && events[i].ItemCompleted? && events[i].item.AgentMessage? && events[i].item.text.Some? && events[i].item.text.value != ""
    && HandleAll(START, events[..i]).content == ""
  }

  lemma SilentGrows(s: Server, e: WorkerEvent)
    requires Sane(s)
    ensures Handle(s, e).silent == s.silent +
      if e.ItemCompleted? && e.item.AgentMessage? && e.item.text.Some? && s.content == "" then e.item.text.value else ""
  {
  }

  lemma UndeliveredLast(events: seq<WorkerEvent>)
    requires events != []
    ensures Undelivered(events, |events| - 1) <==>
      |HandleAll(START, events).silent| > |HandleAll(START, events[..|events| - 1]).silent|
    ensures |HandleAll(START, events).silent| >= |HandleAll(START, events[..|events| - 1]).silent|
  {
    SilentGrows(HandleAll(START, events[..|events| - 1]), events[|events| - 1]);
  }

  lemma UndeliveredFront(events: seq<WorkerEvent>, n: nat, i: int)
    requires 0 <= i < n <= |events|
    ensures Undelivered(events[..n], i) <==> Undelivered(events, i)
  {
    assert events[..n][..i] == events[..i];
  }

  predicate AnyUndelivered(events: seq<WorkerEvent>) {
    events != [] && (AnyUndelivered(events[..|events| - 1]) || Undelivered(events, |events| - 1))
  }

  lemma {:induction false} AnyUndeliveredAt(events: seq<WorkerEvent>)
    ensures AnyUndelivered(events) <==> exists i :: 0 <= i < |events| && Undelivered(events, i)
  {
    if events != [] {
      AnyUndeliveredAt(events[..|events| - 1]);
      UndeliveredBefore(events, |events| - 1);
    }
  }

  lemma UndeliveredBefore(events: seq<WorkerEvent>, n: nat)
    requires n <= |events|
    ensures (exists i :: 0 <= i < n && Undelivered(events[..n], i)) <==> (exists i :: 0 <= i < n && Undelivered(events, i))
  {
    forall i | 0 <= i < n
      ensures Undelivered(events[..n], i) <==> Undelivered(events, i)
    {
      UndeliveredFront(events, n, i);
    }
  }

  lemma {:induction false} SilentUnlessUndelivered(events: seq<WorkerEvent>)
    ensures |HandleAll(START, events).silent| == 0 <==> !AnyUndelivered(events)
  {
    if events != [] {
      SilentUnlessUndelivered(events[..|events| - 1]);
      UndeliveredLast(events);
    }
  }

  /** Text is appended in silence exactly when a message was not delivered as deltas. */
  lemma SilentExactly(events: seq<WorkerEvent>)
    ensures HandleAll(START, events).silent == "" <==> forall i :: 0 <= i < |events| ==> !Undelivered(events, i)
  {
    SilentUnlessUndelivered(events);
    AnyUndeliveredAt(events);
  }

  // ---------- the text of a turn ----------

  /** Some event of the list starts an agent message. */
  ghost predicate AnyMessage(events: seq<WorkerEvent>) {
    exists i :: 0 <= i < |events| && StartsMessage(events[i])
  }

  predicate StartsMessage(e: WorkerEvent) {
    e.ItemStarted? && e.item.AgentMessage?
  }

  lemma EndsWithBlankExactly(s: string)
    ensures EndsWithBlank(s) <==> exists t :: s == t + "\n\n"
  {
    if EndsWithBlank(s) {
      assert s == s[..|s| - 2] + "\n\n";
    }
  }

  /** What an event announces to the clients, given the text so far: deltas, and a blank line before each later
      agent message unless there is no text or it ends in one. */
  function Announces(text: string, later: bool, e: WorkerEvent): string {
    match e
    case AgentDelta(delta) => delta
    case ItemStarted(AgentMessage(_)) => if later && text != "" && !EndsWithBlank(text) then "\n\n" else ""
    case _ => ""
  }

  /** What it adds to the text: the same, and the text of a message that completes while there is none. */
  function Adds(text: string, later: bool, e: WorkerEvent): string {
    match e
    case ItemCompleted(AgentMessage(Some(t))) => if text == "" then t else ""
    case _ => Announces(text, later, e)
  }

  ghost function ContentOf(events: seq<WorkerEvent>): string {
    if events == [] then ""
    else
      var front := events[..|events| - 1];
      ContentOf(front) + Adds(ContentOf(front), AnyMessage(front), events[|events| - 1])
  }

  ghost function AnnouncedOf(events: seq<WorkerEvent>): string {
    if events == [] then ""
    else
      var front := events[..|events| - 1];
      AnnouncedOf(front) + Announces(ContentOf(front), AnyMessage(front), events[|events| - 1])
  }

  /** The text of the emitted deltas, in order. */
  function DeltaText(emitted: seq<Emitted>): string {
    if emitted == [] then ""
    else
      var e := emitted[|emitted| - 1];
      DeltaText(emitted[..|emitted| - 1]) + if e.Delta? then e.text else ""
  }

  lemma DeltaSnoc(emitted: seq<Emitted>, e: Emitted)
    ensures DeltaText(emitted + [e]) == DeltaText(emitted) + if e.Delta? then e.text else ""
  {
    var all := emitted + [e];
    assert all[..|all| - 1] == emitted;
  }

  lemma EmitDeltaText(s: Server, text: string)
    ensures DeltaText(EmitDelta(s, text).emitted) == DeltaText(s.emitted) + text
  {
    if text == "" {
      assert DeltaText(s.emitted) + text == DeltaText(s.emitted);
    } else {
      DeltaSnoc(s.emitted, Delta(text));
    }
  }

  lemma HandleText(s: Server, e: WorkerEvent)
    requires Sane(s)
    ensures Handle(s, e).content == s.content + Adds(s.content, s.messages > 0, e)
    ensures Handle(s, e).messages == s.messages + if StartsMessage(e) then 1 else 0
  {
    var adds := Adds(s.content, s.messages > 0, e);
    if adds == "" {
      assert s.content + adds == s.content;
    }
    if e.AgentDelta? && e.delta == "" {
      assert s.content + e.delta == s.content;
    }
  }

  lemma StartAnnounces(s: Server, e: WorkerEvent)
    requires Sane(s) && e.ItemStarted?
    ensures DeltaText(Handle(s, e).emitted) == DeltaText(s.emitted) + Announces(s.content, s.messages > 0, e)
  {
    if e.item.ToolItem? {
      ToolAnnouncesNothing(s, e.item, true);
    } else if e.item.AgentMessage? && s.messages > 0 && s.content != "" && !EndsWithBlank(s.content) {
      EmitDeltaText(AppendText(s, "\n\n"), "\n\n");
    } else {
      assert DeltaText(s.emitted) + "" == DeltaText(s.emitted);
    }
  }

  lemma QuietAnnounces(s: Server, e: WorkerEvent)
    requires Sane(s) && !e.ItemStarted? && !e.AgentDelta? && !ToolEvent(e)
    ensures DeltaText(Handle(s, e).emitted) == DeltaText(s.emitted)
  {
    DeltaSnoc(s.emitted, Unrelated);
    assert DeltaText(s.emitted) + "" == DeltaText(s.emitted);
  }

  lemma HandleAnnounces(s: Server, e: WorkerEvent)
    requires Sane(s)
    ensures DeltaText(Handle(s, e).emitted) == DeltaText(s.emitted) + Announces(s.content, s.messages > 0, e)
  {
    if e.AgentDelta? {
      EmitDeltaText(AppendText(s, e.delta), e.delta);
    } else if e.ItemStarted? {
      StartAnnounces(s, e);
    } else if ToolEvent(e) {
      ToolAnnouncesNothing(s, e.item, false);
    } else {
      QuietAnnounces(s, e);
      assert DeltaText(s.emitted) + "" == DeltaText(s.emitted);
    }
  }

  lemma ToolAnnouncesNothing(s: Server, item: Item, running: bool)
    requires item.ToolItem?
    ensures DeltaText(UpsertTool(s, item, running).emitted) == DeltaText(s.emitted) + ""
  {
    DeltaSnoc(s.emitted, ToolChanged(ToolPart(item, "tool-" + Digits(|s.parts| + 1), running)));
  }

  lemma AnyMessageLast(events: seq<WorkerEvent>)
    requires events != []
    ensures AnyMessage(events) <==> AnyMessage(events[..|events| - 1]) || StartsMessage(events[|events| - 1])
  {
    var front := events[..|events| - 1];
    if AnyMessage(front) {
      var i :| 0 <= i < |front| && StartsMessage(front[i]);
      assert StartsMessage(events[i]);
    }
    if AnyMessage(events) && !StartsMessage(events[|events| - 1]) {
      var i :| 0 <= i < |events| && StartsMessage(events[i]);
      assert StartsMessage(front[i]);
    }
  }

  /** The text after any worker events: the deltas in order, a blank line before each later agent message unless
      the text so far is empty or ends in one, and the text of a message that completes while there is none.
      The emitted deltas concatenate to the same without the texts of completed messages. */
  lemma {:induction false} TextLaw(events: seq<WorkerEvent>)
    ensures HandleAll(START, events).content == ContentOf(events)
    ensures DeltaText(HandleAll(START, events).emitted) == AnnouncedOf(events)
    ensures HandleAll(START, events).messages > 0 <==> AnyMessage(events)
  {
    if events != [] {
      var front, e := events[..|events| - 1], events[|events| - 1];
      TextLaw(front);
      AnyMessageLast(events);
      HandleText(HandleAll(START, front), e);
      HandleAnnounces(HandleAll(START, front), e);
    }
  }

  // ---------- the tools of a turn ----------

  predicate StandsAt(s: string, word: string, i: int) {
    0 <= i <= |s| - |word| && forall j :: 0 <= j < |word| ==> s[i + j] == word[j]
  }

  ghost predicate Contains(s: string, word: string) {
    exists i :: StandsAt(s, word, i)
  }

  lemma PrefixStands(s: string, word: string)
    ensures word <= s <==> StandsAt(s, word, 0)
  {
    if StandsAt(s, word, 0) {
      assert forall j :: 0 <= j < |word| ==> s[0 + j] == word[j];
      assert s[..|word|] == word;
    }
  }

  lemma StandsShifted(s: string, word: string, i: int)
    requires s != "" && i >= 0
    ensures StandsAt(s[1..], word, i) <==> StandsAt(s, word, i + 1)
  {
    if i + |word| < |s| {
      assert forall k :: 0 <= k < |s| - 1 ==> s[1..][k] == s[k + 1];
      forall j | 0 <= j < |word|
        ensures s[1..][i + j] == s[i + 1 + j] && (s[1..][i + j] == word[j] <==> s[i + 1 + j] == word[j])
      {
      }
    }
  }

  lemma {:induction false} IncludesExactly(s: string, word: string)
    ensures Includes(s, word) <==> Contains(s, word)
  {
    PrefixStands(s, word);
    if s != "" && !(word <= s) {
      IncludesExactly(s[1..], word);
      if Contains(s[1..], word) {
        var i :| StandsAt(s[1..], word, i);
        StandsShifted(s, word, i);
      }
      if Contains(s, word) {
        var i :| StandsAt(s, word, i);
        StandsShifted(s, word, i - 1);
      }
    }
  }

  /** The status that an item dictates: running if it has just started or says that it is in progress; otherwise
      failed if it says so or carries an error that is not withheld; otherwise completed. */
  ghost predicate Dictates(item: Item, started: bool, status: ToolStatus)
    requires item.ToolItem?
  {
    var raw := CronText.Lower(item.rawStatus);
    && (status == Running <==> started || Contains(raw, "progress") || raw == "running")
    && (status == Failed ==> Contains(raw, "fail") || Contains(raw, "declin") || (item.hasError && !item.redacted))
    && (status == Completed ==> !Contains(raw, "fail") && !Contains(raw, "declin") && (item.hasError ==> item.redacted))
  }

  lemma StatusDictated(item: Item, fallbackId: string, running: bool)
    requires item.ToolItem?
    ensures Dictates(item, running, ToolPart(item, fallbackId, running).status)
  {
    var raw := CronText.Lower(item.rawStatus);
    IncludesExactly(raw, "progress");
    IncludesExactly(raw, "fail");
    IncludesExactly(raw, "declin");
  }

  predicate ToolEvent(e: WorkerEvent) {
    (e.ItemStarted? || e.ItemCompleted?) && e.item.ToolItem?
  }

  /** The id of the tool that an item event is about: its own unless withheld, or one made from the position
      after the parts so far. */
  function ToolId(s: Server, e: WorkerEvent): string
    requires ToolEvent(e)
  {
    if e.item.id.Some? && !e.item.redacted then e.item.id.value else "tool-" + Digits(|s.parts| + 1)
  }

  /** An item event stores the part of its tool, in place or at the end, with the status that the item dictates,
      announces it, and leaves the other parts and the text alone. */
  lemma ToolEventStores(s: Server, e: WorkerEvent)
    requires Sane(s) && ToolEvent(e)
    ensures
      var r, was := Handle(s, e), FindTool(s.parts, ToolId(s, e));
      var i := if was >= 0 then was else |s.parts|;
      && |r.parts| == (if was >= 0 then |s.parts| else |s.parts| + 1)
      && r.parts[i].Tool? && r.parts[i].id == ToolId(s, e) && r.parts[i].toolType == e.item.toolType
      && Dictates(e.item, e.ItemStarted?, r.parts[i].status) && r.parts[i].rest == e.item.rest
      && (if e.item.redacted then r.parts[i].output == ""
          else r.parts[i].output <= e.item.output && |r.parts[i].output| == Min(|e.item.output|, 100_000))
      && r.emitted == s.emitted + [ToolChanged(r.parts[i])] && r.active.None?
      && (forall j :: 0 <= j < |s.parts| && j != i ==> r.parts[j] == s.parts[j])
      && r.content == s.content
  {
    StatusDictated(e.item, "tool-" + Digits(|s.parts| + 1), e.ItemStarted?);
  }

  /** Text goes to the open text part, or starts a new one, which is then open. */
  lemma TextGoesToOpenPart(s: Server, delta: string)
    requires Sane(s)
    ensures
      var r, n := Handle(s, AgentDelta(delta)), |s.parts|;
      && r.parts == (if s.active.Some? then s.parts[n - 1 := Text(s.parts[n - 1].text + delta)] else s.parts + [Text(delta)])
      && r.active == Some(|r.parts| - 1) && r.messages == s.messages
  {
    assert "" + delta == delta;
  }

  /** Items without a type and events that are none of the turn's business change nothing; a request for approval is
      passed on. */
  lemma OthersChangeNothing(s: Server, failed: bool)
    requires Sane(s)
    ensures Handle(s, ItemStarted(Untyped)) == s && Handle(s, ItemCompleted(Untyped)) == s
    ensures Handle(s, TurnCompleted(failed)) == s && Handle(s, ErrorEvent) == s && Handle(s, OtherEvent) == s
    ensures Handle(s, ApprovalRequested) == s.(emitted := s.emitted + [Unrelated])
  {
  }

  /** Output is appended to the tool's, up to 100,000 characters, and nothing else changes. */
  lemma OutputAppended(s: Server, id: string, delta: string)
    requires Sane(s) && id != ""
    ensures
      var r, i := Handle(s, CommandOutput(Some(id), delta)), FindTool(s.parts, id);
      && r.content == s.content && |r.parts| == |s.parts|
      && (forall j :: 0 <= j < |s.parts| && j != i ==> r.parts[j] == s.parts[j])
      && (i >= 0 ==>
            && r.parts[i] == s.parts[i].(output := r.parts[i].output)
            && r.parts[i].output <= s.parts[i].output + delta
            && |r.parts[i].output| == Min(|s.parts[i].output| + |delta|, 100_000))
  {
  }

  /** Reported changes replace the tool's, and nothing else changes. */
  lemma ChangesReplaced(s: Server, id: string, changes: string)
    requires Sane(s) && id != ""
    ensures
      var r, i := Handle(s, PatchUpdated(Some(id), Some(changes))), FindTool(s.parts, id);
      && r.content == s.content && |r.parts| == |s.parts|
      && (forall j :: 0 <= j < |s.parts| && j != i ==> r.parts[j] == s.parts[j])
      && (i >= 0 ==> r.parts[i] == s.parts[i].(rest := changes))
  {
  }

  /** The status and type of the tool with the id, if there is one. */
  function ToolOf(parts: seq<Part>, id: string): Option<(string, ToolStatus)> {
    var i := FindTool(parts, id);
    if i >= 0 then Some((parts[i].toolType, parts[i].status)) else None
  }

  lemma ToolOfUpdate(parts: seq<Part>, i: int, p: Part, id: string)
    requires 0 <= i < |parts|
    requires parts[i].Tool? && parts[i].id == id ==> p.Tool? && p.id == id && p.toolType == parts[i].toolType && p.status == parts[i].status
    requires p.Tool? && p.id == id ==> parts[i].Tool? && parts[i].id == id
    ensures ToolOf(parts[i := p], id) == ToolOf(parts, id)
  {
    var after := parts[i := p];
    var a, b := FindTool(after, id), FindTool(parts, id);
    assert a >= 0 ==> parts[a].Tool? && parts[a].id == id;
    assert b >= 0 ==> after[b].Tool? && after[b].id == id;
  }

  lemma ToolOfSnoc(parts: seq<Part>, p: Part, id: string)
    requires p.Tool? ==> p.id != id
    ensures ToolOf(parts + [p], id) == ToolOf(parts, id)
  {
    FindSnoc(parts, p, id);
  }

  lemma TextKeepsToolOf(s: Server, text: string, id: string)
    requires Sane(s)
    ensures ToolOf(AppendText(s, text).parts, id) == ToolOf(s.parts, id)
  {
    if s.active.Some? {
      ToolOfUpdate(s.parts, s.active.value, AppendText(s, text).parts[s.active.value], id);
    } else {
      ToolOfSnoc(s.parts, Text(text), id);
      assert AppendText(s, text).parts == s.parts + [Text(text)] by { assert "" + text == text; }
    }
  }

  lemma EditKeepsToolOf(s: Server, itemId: Option<string>, edit: Part -> Part, id: string)
    requires forall p: Part :: p.Tool? ==> edit(p).Tool? && Erase(edit(p)) == Erase(p)
    ensures ToolOf(EditTool(s, itemId, edit).parts, id) == ToolOf(s.parts, id)
  {
    if itemId.Some? && itemId.value != "" {
      var i := FindTool(s.parts, itemId.value);
      if i >= 0 {
        assert Erase(edit(s.parts[i])) == Erase(s.parts[i]);
        ToolOfUpdate(s.parts, i, edit(s.parts[i]), id);
      }
    }
  }

  lemma PutToolOf(parts: seq<Part>, p: Part, id: string)
    requires p.Tool?
    ensures ToolOf(Put(parts, p), id) == if id == p.id then Some((p.toolType, p.status)) else ToolOf(parts, id)
  {
    var i := FindTool(parts, p.id);
    if i < 0 {
      FindSnoc(parts, p, id);
    } else if id == p.id {
      var after := parts[i := p];
      assert after[i].Tool? && after[i].id == id;
      assert forall j :: 0 <= j < i ==> after[j] == parts[j];
      assert FindTool(after, id) == i;
    } else {
      ToolOfUpdate(parts, i, p, id);
    }
  }

  lemma UpsertToolOf(s: Server, e: WorkerEvent, id: string)
    requires Sane(s) && ToolEvent(e)
    ensures id != ToolId(s, e) ==> ToolOf(Handle(s, e).parts, id) == ToolOf(s.parts, id)
    ensures id == ToolId(s, e) ==> AsDictated(ToolOf(Handle(s, e).parts, id), e)
  {
    StatusDictated(e.item, "tool-" + Digits(|s.parts| + 1), e.ItemStarted?);
    var p := ToolPart(e.item, "tool-" + Digits(|s.parts| + 1), e.ItemStarted?);
    assert Handle(s, e).parts == Put(s.parts, p);
    PutToolOf(s.parts, p, id);
  }

  /** A tool of the item's type with the status that the item dictates. */
  ghost predicate AsDictated(tool: Option<(string, ToolStatus)>, e: WorkerEvent)
    requires ToolEvent(e)
  {
    tool.Some? && tool.value.0 == e.item.toolType && Dictates(e.item, e.ItemStarted?, tool.value.1)
  }

  lemma OtherKeepsToolOf(s: Server, e: WorkerEvent, id: string)
    requires Sane(s) && !ToolEvent(e)
    ensures ToolOf(Handle(s, e).parts, id) == ToolOf(s.parts, id)
  {
    match e
    case AgentDelta(delta) => TextKeepsToolOf(s, delta, id);
    case ItemStarted(item) => TextKeepsToolOf(s, "\n\n", id);
    case ItemCompleted(item) =>
      if item.AgentMessage? && item.text.Some? { TextKeepsToolOf(s, item.text.value, id); }
    case CommandOutput(itemId, delta) => EditKeepsToolOf(s, itemId, AddOutput(delta), id);
    case PatchUpdated(itemId, changes) =>
      if changes.Some? { EditKeepsToolOf(s, itemId, SetChanges(changes.value), id); }
    case _ =>
  }

  /** The event at `k` is an item event about the tool. */
  ghost predicate About(events: seq<WorkerEvent>, k: int, id: string)
    requires 0 <= k < |events|
  {
    ToolEvent(events[k]) && ToolId(HandleAll(START, events[..k]), events[k]) == id
  }

  /** The position of the last item event about the tool, or -1. */
  ghost function LastAbout(events: seq<WorkerEvent>, id: string): (k: int)
    ensures -1 <= k < |events|
    ensures k >= 0 ==> ToolEvent(events[k])
  {
    if events == [] then -1
    else if About(events, |events| - 1, id) then |events| - 1
    else LastAbout(events[..|events| - 1], id)
  }

  lemma AboutFront(events: seq<WorkerEvent>, k: int, id: string)
    requires 0 <= k < |events| - 1
    ensures About(events[..|events| - 1], k, id) <==> About(events, k, id)
  {
    assert events[..|events| - 1][..k] == events[..k];
  }

  lemma {:induction false} LastAboutIsLast(events: seq<WorkerEvent>, id: string)
    ensures LastAbout(events, id) >= 0 ==> About(events, LastAbout(events, id), id)
    ensures forall k :: LastAbout(events, id) < k < |events| ==> !About(events, k, id)
  {
    if events != [] && !About(events, |events| - 1, id) {
      var front := events[..|events| - 1];
      LastAboutIsLast(front, id);
      forall k | 0 <= k < |front|
        ensures About(front, k, id) <==> About(events, k, id)
      {
        AboutFront(events, k, id);
      }
    }
  }

  /** After any worker events there is a part for a tool exactly if some item event was about it, and it carries
      the type, and the status that was dictated, of the last one that was. */
  lemma {:induction false} ToolsFollowLastItem(events: seq<WorkerEvent>, id: string)
    ensures
      var tool, k := ToolOf(HandleAll(START, events).parts, id), LastAbout(events, id);
      if k < 0 then tool == None else AsDictated(tool, events[k])
  {
    if events != [] {
      var n := |events| - 1;
      var s := HandleAll(START, events[..n]);
      ToolsFollowLastItem(events[..n], id);
      if ToolEvent(events[n]) {
        UpsertToolOf(s, events[n], id);
      } else {
        OtherKeepsToolOf(s, events[n], id);
      }
    }
  }

  // ---------- many runs in one log ----------

  /** An emitted event as it stands in the log, under its run. */
  datatype RunEvent = RunEvent(run: string, event: Emitted)

  /** `captureLiveResponse` on the table of all live runs. */
  function CaptureLive(live: map<string, seq<Part>>, e: RunEvent): map<string, seq<Part>> {
    var current := if e.run in live then live[e.run] else [];
    match e.event
    case Delta(delta) => if delta == "" then live else live[e.run := Capture(current, e.event)]
    case ToolChanged(part) => if !part.Tool? then live else live[e.run := Capture(current, e.event)]
    case Unrelated => live
  }

  function CaptureLog(log: seq<RunEvent>): map<string, seq<Part>> {
    if log == [] then map[] else CaptureLive(CaptureLog(log[..|log| - 1]), log[|log| - 1])
  }

  function OfRun(log: seq<RunEvent>, run: string): seq<Emitted> {
    if log == [] then []
    else
      var front := OfRun(log[..|log| - 1], run);
      if log[|log| - 1].run == run then front + [log[|log| - 1].event] else front
  }

  /** However runs interleave in the log, each run's live parts come from its own events alone. */
  lemma {:induction false} RunsAreIndependent(log: seq<RunEvent>, run: string)
    ensures (if run in CaptureLog(log) then CaptureLog(log)[run] else []) == CaptureAll(OfRun(log, run))
  {
    if log != [] {
      RunsAreIndependent(log[..|log| - 1], run);
      if log[|log| - 1].run == run {
        EmittedSnoc(OfRun(log[..|log| - 1], run), log[|log| - 1].event);
      }
    }
  }

  // ---------- the loop ----------

  /** A worker event as read from the stream; `mine` says whether it names this thread and turn. */
  datatype StreamEvent = StreamEvent(mine: bool, event: WorkerEvent)

  function Mine(events: seq<StreamEvent>): seq<WorkerEvent> {
    if events == [] then []
    else
      var front := Mine(events[..|events| - 1]);
      if events[|events| - 1].mine then front + [events[|events| - 1].event] else front
  }

  datatype Outcome = Done(content: string, parts: seq<Part>) | Failure | Ended | Aborted

  predicate Fatal(e: WorkerEvent) { e.ErrorEvent? || (e.TurnCompleted? && e.failed) }

  function ResultText(content: string): string {
    if CronText.Trim(content) == "" then "Codex completed the turn without a text response." else CronText.Trim(content)
  }

  /** The text of the result is the content without the white space around it, or a fixed text if there is
      nothing else in it. */
  lemma ResultTextExactly(before: string, text: string, after: string)
    requires CronText.Blank(before) && CronText.Blank(after)
    ensures text != "" && !CronText.IsSpace(text[0]) && !CronText.IsSpace(text[|text| - 1]) ==>
      ResultText(before + text + after) == text
    ensures ResultText(before) == "Codex completed the turn without a text response."
  {
    CronText.TrimExactly(before, text, after);
    CronText.TrimBlank(before);
  }

  class TurnConsumer {
    var content: string
    var parts: seq<Part>
    var active: Option<nat>
    var messages: nat
    var emitted: seq<Emitted>
    ghost var silent: string

    ghost function Value(): Server
      reads this
    {
      Server(content, parts, active, messages, emitted, silent)
    }

    constructor ()
      ensures Value() == START
    {
      content, parts, active, messages, emitted, silent := "", [], None, 0, [], "";
    }

    method Append(text: string)
      requires Sane(Value())
      modifies this
      ensures Value() == AppendText(old(Value()), text)
    {
      content := content + text;
      if active.None? {
        active := Some(|parts|);
        parts := parts + [Text("")];
      }
      parts := parts[active.value := Text(parts[active.value].text + text)];
    }

    method Emit(event: Emitted)
      modifies this`emitted
      ensures emitted == old(emitted) + [event]
    {
      emitted := emitted + [event];
    }

    method Upsert(item: Item, running: bool)
      requires item.ToolItem?
      modifies this
      ensures Value() == UpsertTool(old(Value()), item, running)
    {
      var candidate := ToolPart(item, "tool-" + Digits(|parts| + 1), running);
      var index := FindTool(parts, candidate.id);
      if index >= 0 {
        parts := parts[index := candidate];
      } else {
        parts := parts + [candidate];
      }
      active := None;
      Emit(ToolChanged(candidate));
    }

    method Edit(itemId: Option<string>, edit: Part -> Part)
      modifies this`parts
      ensures Value() == EditTool(old(Value()), itemId, edit)
    {
      if itemId.Some? && itemId.value != "" {
        var index := FindTool(parts, itemId.value);
        if index >= 0 {
          parts := parts[index := edit(parts[index])];
        }
      }
    }

    /** The branches of the frame loop that change the response. */
    method Process(e: WorkerEvent)
      requires Sane(Value())
      modifies this
      ensures Value() == Handle(old(Value()), e)
      ensures content == old(content) + Adds(old(content), old(messages) > 0, e)
    {
      HandleText(Value(), e);
      match e
      case AgentDelta(delta) =>
        Append(delta);
        if delta != "" { Emit(Delta(delta)); }
      case ItemStarted(item) =>
        if item.AgentMessage? {
          if messages > 0 && content != "" && !EndsWithBlank(content) {
            Append("\n\n");
            Emit(Delta("\n\n"));
          }
          messages := messages + 1;
        } else if item.ToolItem? {
          Upsert(item, true);
        }
      case ItemCompleted(item) =>
        if item.AgentMessage? {
          if content == "" && item.text.Some? {
            Append(item.text.value);
            silent := silent + item.text.value;
          }
        } else if item.ToolItem? {
          Upsert(item, false);
        }
      case CommandOutput(id, delta) =>
        Edit(id, AddOutput(delta));
        Emit(Unrelated);
      case PatchUpdated(id, changes) =>
        if changes.Some? { Edit(id, SetChanges(changes.value)); }
      case ApprovalRequested => Emit(Unrelated);
      case _ =>
    }

    /** One frame, after those in `before`. */
    method ReadFrame(next: StreamEvent, ghost before: seq<StreamEvent>) returns (failed: bool, ended: bool)
      requires Value() == HandleAll(START, Mine(before)) && NoneFatal(Mine(before))
      modifies this
      ensures failed <==> !NoneFatal(Mine(before + [next]))
      ensures Value() == HandleAll(START, Mine(before + [next]))
      ensures ended || AnyCompleted(Mine(before)) <==> failed || AnyCompleted(Mine(before + [next]))
    {
      failed, ended := false, false;
      MineSnoc(before, next);
      if next.mine {
        SnocPredicates(Mine(before), next.event);
        if Fatal(next.event) {
          return true, true;
        }
        if next.event.TurnCompleted? {
          ended := true;
        } else {
          Process(next.event);
        }
      }
    }

    /** The frames of one chunk, after those in `before`: read to the end unless one reports a failure. */
    method ReadChunk(chunk: seq<StreamEvent>, ghost before: seq<StreamEvent>)
      returns (failed: bool, ended: bool, ghost read: seq<StreamEvent>)
      requires Value() == HandleAll(START, Mine(before)) && NoneFatal(Mine(before))
      modifies this
      ensures Value() == HandleAll(START, Mine(read))
      ensures failed <==> !NoneFatal(Mine(read))
      ensures !failed ==> read == before + chunk
      ensures !failed ==> (AnyCompleted(Mine(read)) <==> ended || AnyCompleted(Mine(before)))
    {
      failed, ended, read := false, false, before;
      for j := 0 to |chunk|
        invariant read == before + chunk[..j]
        invariant Value() == HandleAll(START, Mine(read)) && NoneFatal(Mine(read))
        invariant ended || AnyCompleted(Mine(before)) <==> AnyCompleted(Mine(read))
      {
        var ends: bool;
        failed, ends := ReadFrame(chunk[j], read);
        TakeOne(before, chunk, j);
        read := read + [chunk[j]];
        if failed {
          return;
        }
        ended := ended || ends;
      }
      assert chunk[..|chunk|] == chunk;
    }

    /** `consumeTurn`: frames arrive in chunks, and a chunk is read to its end even when the turn completes in
        the middle of it. The signal is found aborted from turn `abortedFrom` of the loop on, if ever. */
    method Consume(chunks: seq<seq<StreamEvent>>, abortedFrom: Option<nat>) returns (r: Outcome, ghost read: seq<StreamEvent>)
      requires Value() == START
      modifies this
      ensures Value() == HandleAll(START, Mine(read))
      ensures content == ContentOf(Mine(read)) && DeltaText(emitted) == AnnouncedOf(Mine(read))
      ensures r.Done? ==> AnyCompleted(Mine(read)) && NoneFatal(Mine(read)) && r == Done(ResultText(content), parts)
      ensures r.Failure? ==> !NoneFatal(Mine(read))
      ensures r.Ended? ==> !AnyCompleted(Mine(read)) && NoneFatal(Mine(read)) && read == Flatten(chunks)
      ensures r.Aborted? ==>
        && !AnyCompleted(Mine(read)) && NoneFatal(Mine(read))
        && abortedFrom.Some? && abortedFrom.value <= |chunks| && read == Flatten(chunks[..abortedFrom.value])
      ensures r.Ended? && abortedFrom.Some? ==> |chunks| < abortedFrom.value
    {
      read := [];
      var completed := false;
      var k := 0;
      while !completed
        invariant k <= |chunks| && read == Flatten(chunks[..k])
        invariant abortedFrom.Some? ==> k <= abortedFrom.value || completed
        invariant Value() == HandleAll(START, Mine(read)) && NoneFatal(Mine(read))
        invariant completed <==> AnyCompleted(Mine(read))
        invariant content == ContentOf(Mine(read)) && DeltaText(emitted) == AnnouncedOf(Mine(read))
        decreases |chunks| - k, !completed
      {
        TextLaw(Mine(read));
        if abortedFrom.Some? && k >= abortedFrom.value {
          return Aborted, read;
        }
        if k == |chunks| {
          assert chunks[..k] == chunks;
          return Ended, read;
        }
        var failed, ended;
        failed, ended, read := ReadChunk(chunks[k], read);
        TextLaw(Mine(read));
        if failed {
          return Failure, read;
        }
        completed := ended;
        assert chunks[..k + 1][..k] == chunks[..k];
        k := k + 1;
      }
      r := Done(ResultText(content), parts);
    }
  }

  function Flatten(chunks: seq<seq<StreamEvent>>): seq<StreamEvent> {
    if chunks == [] then [] else Flatten(chunks[..|chunks| - 1]) + chunks[|chunks| - 1]
  }

  ghost predicate NoneFatal(events: seq<WorkerEvent>) {
    forall i :: 0 <= i < |events| ==> !Fatal(events[i])
  }

  /** A turn fails on an error event or on being reported failed, and on nothing else. */
  lemma NoneFatalExactly(events: seq<WorkerEvent>)
    ensures NoneFatal(events) <==> forall e :: e in events ==> e != ErrorEvent && e != TurnCompleted(true)
  {
    if forall e :: e in events ==> e != ErrorEvent && e != TurnCompleted(true) {
      forall i | 0 <= i < |events|
        ensures !Fatal(events[i])
      {
        assert events[i] in events;
      }
    }
  }

  ghost predicate AnyCompleted(events: seq<WorkerEvent>) {
    exists i :: 0 <= i < |events| && events[i].TurnCompleted?
  }

  lemma TakeOne(before: seq<StreamEvent>, chunk: seq<StreamEvent>, j: nat)
    requires j < |chunk|
    ensures before + chunk[..j] + [chunk[j]] == before + chunk[..j + 1]
  {
  }

  lemma MineSnoc(events: seq<StreamEvent>, next: StreamEvent)
    ensures Mine(events + [next]) == if next.mine then Mine(events) + [next.event] else Mine(events)
  {
    var all := events + [next];
    assert all[..|all| - 1] == events;
  }

  /** Events of other threads and turns are as if they had not been there, and the turn's own are all read. */
  lemma {:induction false} OthersIgnored(before: seq<StreamEvent>, other: StreamEvent, after: seq<StreamEvent>)
    requires !other.mine
    ensures Mine(before + [other] + after) == Mine(before + after)
    decreases |after|
  {
    if after == [] {
      assert before + [other] + after == before + [other] && before + after == before;
      MineSnoc(before, other);
    } else {
      var front, last := after[..|after| - 1], after[|after| - 1];
      OthersIgnored(before, other, front);
      assert before + [other] + after == (before + [other] + front) + [last];
      assert before + after == (before + front) + [last];
      MineSnoc(before + [other] + front, last);
      MineSnoc(before + front, last);
    }
  }

  lemma {:induction false} OwnAllRead(events: seq<StreamEvent>)
    requires forall i :: 0 <= i < |events| ==> events[i].mine
    ensures |Mine(events)| == |events| && forall i :: 0 <= i < |events| ==> Mine(events)[i] == events[i].event
  {
    if events != [] {
      OwnAllRead(events[..|events| - 1]);
    }
  }

  lemma SnocPredicates(events: seq<WorkerEvent>, e: WorkerEvent)
    ensures NoneFatal(events + [e]) <==> NoneFatal(events) && !Fatal(e)
    ensures AnyCompleted(events + [e]) <==> AnyCompleted(events) || e.TurnCompleted?
    ensures HandleAll(START, events + [e]) == Handle(HandleAll(START, events), e)
  {
    var all := events + [e];
    assert all[..|all| - 1] == events && all[|events|] == e;
    assert forall i :: 0 <= i < |events| ==> all[i] == events[i];
  }
}
