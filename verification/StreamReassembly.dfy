/** llm_module/tool_call_schema.py: streamed tool-call deltas are folded back into tool calls,
    and graded like the calls of an unstreamed reply. JSON decoding happens outside the model:
    a line arrives already classified. */
module StreamReassembly {
  import opened Wrappers
  import opened Orders

  datatype Cause = NoToolCall | WrongToolName | InvalidJson | HttpError | MalformedResponse | Rejected(reason: string)

  /** One entry of `delta.tool_calls`; members that are absent or not strings are None. */
  datatype ToolDelta = ToolDelta(index: Option<int>, name: Option<string>, arguments: Option<string>)

  datatype Choice = Choice(content: Option<string>, toolCalls: seq<ToolDelta>, finish: Option<string>)

  datatype Line =
    | Skipped                        // blank, no `data:` prefix, or not a JSON object
    | Done                           // `data: [DONE]`
    | NotJson
    | ErrorEvent
    | Chunk(choice: Option<Choice>)  // the first choice, if there is one

  datatype Slot = Slot(name: string, arguments: string)

  datatype Arguments = Absent | Text(text: string) | Structured(dumped: string)

  datatype Call = Call(name: Option<string>, arguments: Arguments)

  datatype Completion = Completion(content: string, calls: seq<Call>, finish: Option<string>)

  const TOOL_NAME := "kvv_walle_case"

  // ----- The stream, read off declaratively ---------------------------------------------

  function IndexOf(d: ToolDelta): int {
    if d.index.Some? then d.index.value else 0
  }

  function Indices(ds: seq<ToolDelta>): set<int> {
    set k | 0 <= k < |ds| :: IndexOf(ds[k])
  }

  /** How one delta changes the slot it addresses. A name equal to the text so far is a repetition. */
  function Merge(slot: Slot, d: ToolDelta): Slot {
    Slot(
      if d.name.Some? && d.name.value != "" && slot.name != d.name.value then slot.name + d.name.value else slot.name,
      if d.arguments.Some? then slot.arguments + d.arguments.value else slot.arguments)
  }

  /** The deltas addressed to slot `i`, merged in order. */
  function SlotOf(ds: seq<ToolDelta>, i: int): Slot {
    if ds == [] then Slot("", "")
    else
      var before, d := SlotOf(ds[..|ds| - 1], i), ds[|ds| - 1];
      if IndexOf(d) == i then Merge(before, d) else before
  }

  function CallsOf(ds: seq<ToolDelta>): seq<Call> {
    var order := SortedSet(Indices(ds));
    seq(|order|, k requires 0 <= k < |order| =>
      var slot := SlotOf(ds, order[k]);
      Call(Some(slot.name), Text(slot.arguments)))
  }

  function LineDeltas(line: Line): seq<ToolDelta> {
    if line.Chunk? && line.choice.Some? then line.choice.value.toolCalls else []
  }

  function LineContent(line: Line): string {
    if line.Chunk? && line.choice.Some? && line.choice.value.content.Some? then line.choice.value.content.value else ""
  }

  function LineFinish(line: Line): Option<string> {
    if line.Chunk? && line.choice.Some? && line.choice.value.finish.Some? && line.choice.value.finish.value != ""
    then line.choice.value.finish
    else None
  }

  function DeltasOf(lines: seq<Line>): seq<ToolDelta> {
    if lines == [] then [] else DeltasOf(lines[..|lines| - 1]) + LineDeltas(lines[|lines| - 1])
  }

  function ContentOf(lines: seq<Line>): string {
    if lines == [] then "" else ContentOf(lines[..|lines| - 1]) + LineContent(lines[|lines| - 1])
  }

  function FinishOf(lines: seq<Line>): Option<string> {
    if lines == [] then None
    else
      var last := LineFinish(lines[|lines| - 1]);
      if last.Some? then last else FinishOf(lines[..|lines| - 1])
  }

  predicate Stops(line: Line) {
    line.Done? || line.NotJson? || line.ErrorEvent?
  }

  /** Where reading ends: at the first `[DONE]` or fault at or after `i`, or with the input. */
  function StopFrom(lines: seq<Line>, i: nat): (n: nat)
    requires i <= |lines|
    ensures i <= n <= |lines|
    ensures forall k :: i <= k < n ==> !Stops(lines[k])
    ensures n < |lines| ==> Stops(lines[n])
    decreases |lines| - i
  {
    if i == |lines| || Stops(lines[i]) then i else StopFrom(lines, i + 1)
  }

  function Reassembled(lines: seq<Line>): Result<Completion, Cause> {
    var n := StopFrom(lines, 0);
    if n < |lines| && lines[n].NotJson? then Failure(MalformedResponse)
    else if n < |lines| && lines[n].ErrorEvent? then Failure(HttpError)
    else Success(Completion(ContentOf(lines[..n]), CallsOf(DeltasOf(lines[..n])), FinishOf(lines[..n])))
  }

  // ----- The fold over the stream ---------------------------------------------------------

  ghost predicate HoldSlots(slots: map<int, Slot>, ds: seq<ToolDelta>) {
    slots.Keys == Indices(ds) && forall i :: i in slots ==> slots[i] == SlotOf(ds, i)
  }

  /** What the loop over the lines builds is, slot by slot, what the deltas of that slot say. */
  method ReassembleStream(lines: seq<Line>) returns (r: Result<Completion, Cause>)
    ensures r == Reassembled(lines)
  {
    var content, slots, finish := "", map[], None;
    var i := 0;
    while i < |lines|
      invariant 0 <= i <= |lines| && StopFrom(lines, i) == StopFrom(lines, 0)
      invariant content == ContentOf(lines[..i]) && finish == FinishOf(lines[..i])
      invariant HoldSlots(slots, DeltasOf(lines[..i]))
    {
      var line := lines[i];
      ReadOneLine(lines, i);
      if line.Done? {
        break;
      }
      if line.NotJson? {
        return Failure(MalformedResponse);
      }
      if line.ErrorEvent? {
        return Failure(HttpError);
      }
      if line.Chunk? && line.choice.Some? {
        var choice := line.choice.value;
        if choice.content.Some? {
          content := content + choice.content.value;
        }
        slots := MergeDeltas(slots, DeltasOf(lines[..i]), choice.toolCalls);
        if choice.finish.Some? && choice.finish.value != "" {
          finish := choice.finish;
        }
      }
      i := i + 1;
    }
    r := Success(Completion(content, CallsFrom(slots), finish));
    SlotsAreCalls(slots, DeltasOf(lines[..i]));
  }

  /** `[tool_calls[i] for i in sorted(tool_calls)]` */
  function CallsFrom(slots: map<int, Slot>): seq<Call> {
    var order := SortedSet(slots.Keys);
    seq(|order|, k requires 0 <= k < |order| =>
      assert order[k] in order;
      Call(Some(slots[order[k]].name), Text(slots[order[k]].arguments)))
  }

  lemma SlotsAreCalls(slots: map<int, Slot>, ds: seq<ToolDelta>)
    requires HoldSlots(slots, ds)
    ensures CallsFrom(slots) == CallsOf(ds)
  {
    var order := SortedSet(slots.Keys);
    forall k | 0 <= k < |order| ensures CallsFrom(slots)[k] == CallsOf(ds)[k] {
      assert order[k] in order;
    }
  }

  lemma ReadOneLine(lines: seq<Line>, i: nat)
    requires i < |lines|
    ensures DeltasOf(lines[..i + 1]) == DeltasOf(lines[..i]) + LineDeltas(lines[i])
    ensures LineDeltas(lines[i]) == [] ==> DeltasOf(lines[..i + 1]) == DeltasOf(lines[..i])
    ensures ContentOf(lines[..i + 1]) == ContentOf(lines[..i]) + LineContent(lines[i])
    ensures LineContent(lines[i]) == "" ==> ContentOf(lines[..i + 1]) == ContentOf(lines[..i])
    ensures FinishOf(lines[..i + 1])
         == if LineFinish(lines[i]).Some? then LineFinish(lines[i]) else FinishOf(lines[..i])
  {
    assert lines[..i + 1][..i] == lines[..i];
  }

  method MergeDeltas(slots: map<int, Slot>, ghost done: seq<ToolDelta>, toolCalls: seq<ToolDelta>)
    returns (merged: map<int, Slot>)
    requires HoldSlots(slots, done)
    ensures HoldSlots(merged, done + toolCalls)
  {
    merged := slots;
    assert done + toolCalls[..0] == done;
    for j := 0 to |toolCalls|
      invariant HoldSlots(merged, done + toolCalls[..j])
    {
      var d := toolCalls[j];
      var slot := if IndexOf(d) in merged then merged[IndexOf(d)] else Slot("", "");
      if IndexOf(d) !in merged {
        MissingSlotIsEmpty(done + toolCalls[..j], IndexOf(d));
      }
      AppendDelta(done + toolCalls[..j], d);
      assert done + toolCalls[..j + 1] == done + toolCalls[..j] + [d];
      merged := merged[IndexOf(d) := Merge(slot, d)];
    }
    assert toolCalls[..|toolCalls|] == toolCalls;
  }

  lemma {:induction false} MissingSlotIsEmpty(ds: seq<ToolDelta>, i: int)
    requires i !in Indices(ds)
    ensures SlotOf(ds, i) == Slot("", "")
  {
    if ds != [] {
      var n := |ds| - 1;
      assert IndexOf(ds[n]) in Indices(ds);
      assert forall k :: 0 <= k < n ==> ds[..n][k] == ds[k] && IndexOf(ds[k]) in Indices(ds);
      MissingSlotIsEmpty(ds[..n], i);
    }
  }

  lemma AppendDelta(ds: seq<ToolDelta>, d: ToolDelta)
    ensures Indices(ds + [d]) == Indices(ds) + {IndexOf(d)}
    ensures forall i :: SlotOf(ds + [d], i) == if i == IndexOf(d) then Merge(SlotOf(ds, i), d) else SlotOf(ds, i)
  {
    assert (ds + [d])[..|ds|] == ds;
    forall i | i in Indices(ds) + {IndexOf(d)} ensures i in Indices(ds + [d]) {
      if i in Indices(ds) {
        var k :| 0 <= k < |ds| && IndexOf(ds[k]) == i;
        assert (ds + [d])[k] == ds[k];
      } else {
        assert (ds + [d])[|ds|] == d;
      }
    }
  }

  // ----- Grading ---------------------------------------------------------------------------

  /** A non-streamed response body, as far as it is read. */
  datatype Body = Unusable | Reply(content: Option<string>, calls: seq<Call>, finish: Option<string>)

  function ParseCompletion(body: Body): Result<Completion, Cause> {
    match body
    case Unusable => Failure(MalformedResponse)
    case Reply(content, calls, finish) =>
      Success(Completion(if content.Some? then content.value else "", calls, finish))
  }

  function FirstToolCall(calls: seq<Call>): Result<string, Cause> {
    if calls == [] then Failure(WrongToolName)
    else if calls[0].name != Some(TOOL_NAME) then FirstToolCall(calls[1..])
    else match calls[0].arguments
      case Absent => Failure(InvalidJson)
      case Text(text) => Success(text)
      case Structured(dumped) => Success(dumped)
  }

  function SelectToolArguments(c: Completion): Result<string, Cause> {
    if c.calls == [] then Failure(NoToolCall) else FirstToolCall(c.calls)
  }

  /** The cause an attempt fails with, if it fails; `validate` grades the argument text. */
  function Verdict(reply: Result<Completion, Cause>, validate: string -> Option<Cause>): Option<Cause> {
    match reply
    case Failure(cause) => Some(cause)
    case Success(c) =>
      match SelectToolArguments(c)
      case Failure(cause) => Some(cause)
      case Success(text) => validate(text)
  }

  // ----- Fragments -------------------------------------------------------------------------

  function Joined(fragments: seq<string>): string {
    if fragments == [] then "" else Joined(fragments[..|fragments| - 1]) + fragments[|fragments| - 1]
  }

  /** The argument fragments addressed to call `i`, in order of arrival. */
  function ArgumentsOf(ds: seq<ToolDelta>, i: int): seq<string> {
    if ds == [] then []
    else
      var before, d := ArgumentsOf(ds[..|ds| - 1], i), ds[|ds| - 1];
      if IndexOf(d) == i && d.arguments.Some? then before + [d.arguments.value] else before
  }

  /** The non-empty name fragments addressed to call `i`. */
  function NamesOf(ds: seq<ToolDelta>, i: int): (names: seq<string>)
    ensures forall k :: 0 <= k < |names| ==> names[k] != ""
  {
    if ds == [] then []
    else
      var before, d := NamesOf(ds[..|ds| - 1], i), ds[|ds| - 1];
      if IndexOf(d) == i && d.name.Some? && d.name.value != "" then before + [d.name.value] else before
  }

  /** What `slot["name"]` becomes under these fragments. */
  function Spelled(names: seq<string>): string {
    if names == [] then ""
    else
      var before, last := Spelled(names[..|names| - 1]), names[|names| - 1];
      if before == last then before else before + last
  }

  lemma {:induction false} SlotIsSpelled(ds: seq<ToolDelta>, i: int)
    ensures SlotOf(ds, i) == Slot(Spelled(NamesOf(ds, i)), Joined(ArgumentsOf(ds, i)))
  {
    if ds != [] {
      var n := |ds| - 1;
      SlotIsSpelled(ds[..n], i);
      var names, args := NamesOf(ds[..n], i), ArgumentsOf(ds[..n], i);
      if IndexOf(ds[n]) == i {
        if ds[n].arguments.Some? {
          assert (args + [ds[n].arguments.value])[..|args|] == args;
        }
        if ds[n].name.Some? && ds[n].name.value != "" {
          assert (names + [ds[n].name.value])[..|names|] == names;
        }
      }
    }
  }

  ghost predicate Repeats(names: seq<string>, name: string) {
    names != [] && forall k :: 0 <= k < |names| ==> names[k] == name
  }

  /** No fragment equals the text accumulated before it. */
  ghost predicate SplitsCleanly(names: seq<string>) {
    forall k :: 0 <= k < |names| ==> names[k] != Joined(names[..k])
  }

  lemma {:induction false} RepeatedNameSpelled(names: seq<string>, name: string)
    requires Repeats(names, name)
    ensures Spelled(names) == name
  {
    var n := |names| - 1;
    if n > 0 {
      RepeatedNameSpelled(names[..n], name);
    } else {
      assert names[..n] == [];
    }
  }

  lemma SplitsCleanlyGrows(names: seq<string>)
    requires names != []
    ensures var n := |names| - 1;
            SplitsCleanly(names) <==> SplitsCleanly(names[..n]) && names[n] != Joined(names[..n])
  {
    hide Joined;
    var n := |names| - 1;
    assert forall k :: 0 <= k < n ==> names[..n][k] == names[k] && names[..n][..k] == names[..k];
    if SplitsCleanly(names[..n]) && names[n] != Joined(names[..n]) {
      forall k | 0 <= k < |names| ensures names[k] != Joined(names[..k]) {
        if k < n {
          assert names[..n][k] != Joined(names[..n][..k]);
        }
      }
    }
  }

  /** A name split over deltas is put together again iff no fragment looks like a repetition. */
  lemma {:induction false} SplitNameSpelledIff(names: seq<string>)
    requires forall k :: 0 <= k < |names| ==> names[k] != ""
    ensures |Spelled(names)| <= |Joined(names)|
    ensures Spelled(names) == Joined(names) <==> SplitsCleanly(names)
  {
    if names != [] {
      var n := |names| - 1;
      SplitNameSpelledIff(names[..n]);
      SplitsCleanlyGrows(names);
      hide SplitsCleanly;
      if Spelled(names) == Joined(names) {
        assert |Spelled(names[..n])| == |Joined(names[..n])|;
        PrefixesOfEqual(Spelled(names[..n]), Joined(names[..n]), names[n]);
      }
    }
  }

  lemma PrefixesOfEqual(a: string, b: string, c: string)
    requires a + c == b + c
    ensures a == b
  {
    assert |a| == |b|;
    assert forall k :: 0 <= k < |a| ==> a[k] == (a + c)[k] && b[k] == (b + c)[k];
  }

  // ----- Streamed and plain replies agree ----------------------------------------------------

  function TextOf(arguments: Arguments): string {
    if arguments.Text? then arguments.text else ""
  }

  function NameOf(call: Call): string {
    if call.name.Some? then call.name.value else ""
  }

  /** The deltas addressed to slot `i` carry `call`: its arguments cut anywhere, its name either
      repeated in full or cut so that no piece equals the text before it. */
  ghost predicate Carry(ds: seq<ToolDelta>, i: int, call: Call) {
    && !call.arguments.Structured?
    && Joined(ArgumentsOf(ds, i)) == TextOf(call.arguments)
    && var names := NamesOf(ds, i);
       Repeats(names, NameOf(call)) || (Joined(names) == NameOf(call) && SplitsCleanly(names))
  }

  /** `lines` is a stream of the reply `body` whose j-th call uses slot `slots[j]`. Deltas of
      different calls, and content, may interleave in any way. */
  ghost predicate Streams(lines: seq<Line>, body: Completion, slots: seq<int>) {
    var n := StopFrom(lines, 0);
    var ds := DeltasOf(lines[..n]);
    && (n < |lines| ==> lines[n].Done?)
    && ContentOf(lines[..n]) == body.content
    && |slots| == |body.calls| && StrictlyIncreasing(slots)
    && (forall i :: i in slots ==> i in Indices(ds))
    && (forall i :: i in Indices(ds) ==> i in slots)
    && forall j :: 0 <= j < |slots| ==> Carry(ds, slots[j], body.calls[j])
  }

  /** A call as it comes back from a stream: absent texts read as empty ones. */
  function AsStreamed(call: Call): Call {
    Call(Some(NameOf(call)), Text(TextOf(call.arguments)))
  }

  /** The slot of a call, once all its deltas have been merged. */
  lemma SlotCarries(ds: seq<ToolDelta>, i: int, call: Call)
    requires Carry(ds, i, call)
    ensures SlotOf(ds, i) == Slot(NameOf(call), TextOf(call.arguments))
  {
    hide SlotOf, Spelled, Joined, ArgumentsOf, NameOf, TextOf, SplitsCleanly, Repeats;
    var names := NamesOf(ds, i);
    SlotIsSpelled(ds, i);
    if Repeats(names, NameOf(call)) {
      RepeatedNameSpelled(names, NameOf(call));
    } else {
      SplitNameSpelledIff(names);
    }
  }

  lemma CallsAreCarried(ds: seq<ToolDelta>, calls: seq<Call>, slots: seq<int>)
    requires |slots| == |calls| && StrictlyIncreasing(slots)
    requires forall i :: i in slots ==> i in Indices(ds)
    requires forall i :: i in Indices(ds) ==> i in slots
    requires forall j :: 0 <= j < |slots| ==> Carry(ds, slots[j], calls[j])
    ensures |CallsOf(ds)| == |calls|
    ensures forall j :: 0 <= j < |calls| ==> CallsOf(ds)[j] == AsStreamed(calls[j])
  {
    hide Carry, SlotOf, Indices, NameOf, TextOf, SortedSet;
    IncreasingUnique(SortedSet(Indices(ds)), slots);
    forall j | 0 <= j < |calls| ensures CallsOf(ds)[j] == AsStreamed(calls[j]) {
      SlotCarries(ds, slots[j], calls[j]);
    }
  }

  /** Any stream of a reply reassembles to its content and, in order, its calls. */
  lemma StreamReassembles(lines: seq<Line>, body: Completion, slots: seq<int>)
    requires Streams(lines, body, slots)
    ensures Reassembled(lines).Success?
    ensures Reassembled(lines).value.content == body.content
    ensures |Reassembled(lines).value.calls| == |body.calls|
    ensures forall j :: 0 <= j < |body.calls| ==> Reassembled(lines).value.calls[j] == AsStreamed(body.calls[j])
  {
    hide Carry, CallsOf, SlotOf, DeltasOf, ContentOf, FinishOf, Indices, AsStreamed;
    var ds := DeltasOf(lines[..StopFrom(lines, 0)]);
    CallsAreCarried(ds, body.calls, slots);
  }

  /** The first call of the expected name has no arguments. */
  ghost predicate FirstUnargued(calls: seq<Call>) {
    exists j :: 0 <= j < |calls| && calls[j].name == Some(TOOL_NAME) && calls[j].arguments.Absent?
                && forall i :: 0 <= i < j ==> calls[i].name != Some(TOOL_NAME)
  }

  lemma FirstUnarguedStep(calls: seq<Call>)
    requires calls != []
    ensures FirstUnargued(calls)
       <==> if calls[0].name == Some(TOOL_NAME) then calls[0].arguments.Absent? else FirstUnargued(calls[1..])
  {
    if calls[0].name != Some(TOOL_NAME) {
      if FirstUnargued(calls[1..]) {
        var j :| 0 <= j < |calls[1..]| && calls[1..][j].name == Some(TOOL_NAME) && calls[1..][j].arguments.Absent?
                 && forall i :: 0 <= i < j ==> calls[1..][i].name != Some(TOOL_NAME);
        assert calls[j + 1] == calls[1..][j];
        assert forall i :: 1 <= i < j + 1 ==> calls[i] == calls[1..][i - 1];
      }
      if FirstUnargued(calls) {
        var j :| 0 <= j < |calls| && calls[j].name == Some(TOOL_NAME) && calls[j].arguments.Absent?
                 && forall i :: 0 <= i < j ==> calls[i].name != Some(TOOL_NAME);
        assert calls[1..][j - 1] == calls[j];
        assert forall i :: 0 <= i < j - 1 ==> calls[1..][i] == calls[i + 1];
      }
    }
  }

  lemma {:induction false} StreamedSelection(streamed: seq<Call>, plain: seq<Call>)
    requires |streamed| == |plain|
    requires forall j :: 0 <= j < |plain| ==> streamed[j] == AsStreamed(plain[j]) && !plain[j].arguments.Structured?
    ensures FirstToolCall(streamed) == if FirstUnargued(plain) then Success("") else FirstToolCall(plain)
    ensures FirstUnargued(plain) ==> FirstToolCall(plain) == Failure(InvalidJson)
  {
    if plain != [] {
      StreamedSelection(streamed[1..], plain[1..]);
      FirstUnarguedStep(plain);
      hide FirstUnargued;
      assert TOOL_NAME != "";
    }
  }

  /** A streamed reply selects the same arguments, or fails for the same cause, as the plain one iff
      the first call of the expected name has arguments, or there is none: an absent text comes back
      from the stream as the empty one. */
  lemma StreamSelectsAlikeIff(lines: seq<Line>, body: Completion, slots: seq<int>)
    requires Streams(lines, body, slots)
    ensures Reassembled(lines).Success?
    ensures var selected := SelectToolArguments(Reassembled(lines).value);
            && (selected == SelectToolArguments(body) <==> !FirstUnargued(body.calls))
            && (FirstUnargued(body.calls) ==>
                  selected == Success("") && SelectToolArguments(body) == Failure(InvalidJson))
  {
    StreamReassembles(lines, body, slots);
    StreamedSelection(Reassembled(lines).value.calls, body.calls);
  }

  /** The graded outcome agrees even for calls without arguments, since no grader of JSON text
      lets the empty text pass. */
  lemma StreamGradedAlike(lines: seq<Line>, body: Body, slots: seq<int>, validate: string -> Option<Cause>)
    requires body.Reply? && Streams(lines, ParseCompletion(body).value, slots)
    requires validate("") == Some(InvalidJson)
    ensures Verdict(Reassembled(lines), validate) == Verdict(ParseCompletion(body), validate)
  {
    var plain := ParseCompletion(body).value;
    StreamReassembles(lines, plain, slots);
    StreamedSelection(Reassembled(lines).value.calls, plain.calls);
  }
}
