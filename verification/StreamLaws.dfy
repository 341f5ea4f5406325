/** llm_module/tool_call_schema.py: what the lines of a stream say, one by one, and how a reply is graded by
    the calls it holds. */
module StreamLaws {
  import opened Wrappers
  import opened Orders
  import opened StreamReassembly

  // ----- One line -----------------------------------------------------------------------------------

  function TextOfLine(line: Line): string {
    match line
    case Chunk(Some(Choice(Some(text), _, _))) => text
    case _ => ""
  }

  function DeltasOfLine(line: Line): seq<ToolDelta> {
    match line
    case Chunk(Some(Choice(_, deltas, _))) => deltas
    case _ => []
  }

  /** The reason for finishing that the line gives, empty if it gives none. */
  function ReasonOfLine(line: Line): string {
    match line
    case Chunk(Some(Choice(_, _, Some(reason)))) => reason
    case _ => ""
  }

  function Texts(lines: seq<Line>): seq<string> {
    seq(|lines|, k requires 0 <= k < |lines| => TextOfLine(lines[k]))
  }

  function Together(parts: seq<seq<ToolDelta>>): seq<ToolDelta> {
    if parts == [] then [] else Together(parts[..|parts| - 1]) + parts[|parts| - 1]
  }

  function Parts(lines: seq<Line>): seq<seq<ToolDelta>> {
    seq(|lines|, k requires 0 <= k < |lines| => DeltasOfLine(lines[k]))
  }

  /** The last line that gives a reason gives this one. */
  ghost predicate LastReason(lines: seq<Line>, reason: Option<string>) {
    match reason
    case None => forall k :: 0 <= k < |lines| ==> ReasonOfLine(lines[k]) == ""
    case Some(text) =>
      text != "" && exists k :: 0 <= k < |lines| && ReasonOfLine(lines[k]) == text
                                && forall j :: k < j < |lines| ==> ReasonOfLine(lines[j]) == ""
  }

  /** Reading goes on over the line. */
  predicate GoesOn(line: Line) {
    match line
    case Done => false
    case NotJson => false
    case ErrorEvent => false
    case _ => true
  }

  /** A delta without an index adds to the first call. */
  lemma IndexByDelta(d: ToolDelta, i: int)
    ensures IndexOf(d) == i <==> d.index == Some(i) || (d.index.None? && i == 0)
  {
  }

  lemma LineSays(line: Line)
    ensures LineContent(line) == TextOfLine(line) && LineDeltas(line) == DeltasOfLine(line)
    ensures LineFinish(line) == if ReasonOfLine(line) == "" then None else Some(ReasonOfLine(line))
  {
  }

  lemma {:induction false} ContentByLine(lines: seq<Line>)
    ensures ContentOf(lines) == Joined(Texts(lines))
  {
    hide LineContent, TextOfLine;
    if lines != [] {
      var n := |lines| - 1;
      ContentByLine(lines[..n]);
      LineSays(lines[n]);
      assert Texts(lines)[..n] == Texts(lines[..n]);
    }
  }

  lemma {:induction false} DeltasByLine(lines: seq<Line>)
    ensures DeltasOf(lines) == Together(Parts(lines))
  {
    hide LineDeltas, DeltasOfLine;
    if lines != [] {
      var n := |lines| - 1;
      DeltasByLine(lines[..n]);
      LineSays(lines[n]);
      assert Parts(lines)[..n] == Parts(lines[..n]);
    }
  }

  lemma {:induction false} ReasonByLine(lines: seq<Line>)
    ensures LastReason(lines, FinishOf(lines))
  {
    hide LineFinish, ReasonOfLine;
    if lines != [] {
      var n := |lines| - 1;
      ReasonByLine(lines[..n]);
      LineSays(lines[n]);
      if ReasonOfLine(lines[n]) == "" {
        ReasonStays(lines, FinishOf(lines[..n]));
      }
    }
  }

  /** A line without a reason leaves the last one standing. */
  lemma ReasonStays(lines: seq<Line>, reason: Option<string>)
    requires lines != [] && ReasonOfLine(lines[|lines| - 1]) == "" && LastReason(lines[..|lines| - 1], reason)
    ensures LastReason(lines, reason)
  {
    hide ReasonOfLine;
    var n := |lines| - 1;
    var before := lines[..n];
    match reason
    case None =>
      forall k | 0 <= k < |lines| ensures ReasonOfLine(lines[k]) == "" {
        assert k < n ==> before[k] == lines[k];
      }
    case Some(text) =>
      var k :| 0 <= k < n && ReasonOfLine(before[k]) == text && forall j :: k < j < n ==> ReasonOfLine(before[j]) == "";
      assert ReasonOfLine(lines[k]) == text;
      forall j | k < j < |lines| ensures ReasonOfLine(lines[j]) == "" {
        assert j < n ==> before[j] == lines[j];
      }
  }

  lemma StopsThere(lines: seq<Line>, n: nat)
    requires n <= |lines| && (forall k :: 0 <= k < n ==> GoesOn(lines[k])) && (n < |lines| ==> !GoesOn(lines[n]))
    ensures StopFrom(lines, 0) == n
  {
    var m := StopFrom(lines, 0);
    assert forall k :: 0 <= k < |lines| ==> (GoesOn(lines[k]) <==> !Stops(lines[k]));
  }

  /** The reply a stream gives, read line by line up to the first `[DONE]` or fault at `n`. */
  lemma ReassembledByLine(lines: seq<Line>, n: nat)
    requires n <= |lines| && (forall k :: 0 <= k < n ==> GoesOn(lines[k])) && (n < |lines| ==> !GoesOn(lines[n]))
    ensures n < |lines| && lines[n] == NotJson ==> Reassembled(lines) == Failure(MalformedResponse)
    ensures n < |lines| && lines[n] == ErrorEvent ==> Reassembled(lines) == Failure(HttpError)
    ensures n == |lines| || lines[n] == Done ==>
              && Reassembled(lines).Success?
              && Reassembled(lines).value.content == Joined(Texts(lines[..n]))
              && Reassembled(lines).value.calls == CallsOf(Together(Parts(lines[..n])))
              && LastReason(lines[..n], Reassembled(lines).value.finish)
  {
    StopsThere(lines, n);
    ContentByLine(lines[..n]);
    DeltasByLine(lines[..n]);
    ReasonByLine(lines[..n]);
    hide ContentOf, DeltasOf, FinishOf, CallsOf, Texts, Parts, LastReason;
  }

  // ----- Which arguments are graded -------------------------------------------------------------------

  /** Call `j` is the first of the expected name. */
  predicate IsFirstNamed(calls: seq<Call>, j: nat) {
    && j < |calls| && calls[j].name == Some("kvv_walle_case")
    && forall i :: 0 <= i < j ==> calls[i].name != Some("kvv_walle_case")
  }

  lemma {:induction false} SelectedCall(calls: seq<Call>, j: nat)
    requires IsFirstNamed(calls, j)
    ensures calls[j].arguments.Absent? ==> FirstToolCall(calls) == Failure(InvalidJson)
    ensures calls[j].arguments.Text? ==> FirstToolCall(calls) == Success(calls[j].arguments.text)
    ensures calls[j].arguments.Structured? ==> FirstToolCall(calls) == Success(calls[j].arguments.dumped)
  {
    if j > 0 {
      assert calls[0].name != Some("kvv_walle_case");
      SelectedCall(calls[1..], j - 1);
    }
  }

  lemma {:induction false} NoNamedCall(calls: seq<Call>)
    requires forall i :: 0 <= i < |calls| ==> calls[i].name != Some("kvv_walle_case")
    ensures FirstToolCall(calls) == Failure(WrongToolName)
  {
    if calls != [] {
      NoNamedCall(calls[1..]);
    }
  }

  /** The verdict on a reply, by what it holds. */
  lemma VerdictByReply(body: Body, validate: string -> Option<Cause>, j: nat)
    ensures var v := Verdict(ParseCompletion(body), validate);
            match body
            case Unusable => v == Some(MalformedResponse)
            case Reply(_, calls, _) =>
              && (calls == [] ==> v == Some(NoToolCall))
              && (calls != [] && (forall i :: 0 <= i < |calls| ==> calls[i].name != Some("kvv_walle_case")) ==>
                    v == Some(WrongToolName))
              && (IsFirstNamed(calls, j) ==>
                    match calls[j].arguments
                    case Absent => v == Some(InvalidJson)
                    case Text(text) => v == validate(text)
                    case Structured(dumped) => v == validate(dumped))
  {
    match body
    case Unusable =>
    case Reply(_, calls, _) =>
      if forall i :: 0 <= i < |calls| ==> calls[i].name != Some("kvv_walle_case") {
        NoNamedCall(calls);
      }
      if IsFirstNamed(calls, j) {
        SelectedCall(calls, j);
      }
      hide FirstToolCall;
  }

  /** What is kept of a reply besides its calls. */
  lemma ParsedReply(content: Option<string>, calls: seq<Call>, finish: Option<string>)
    ensures ParseCompletion(Reply(content, calls, finish)).Success?
    ensures var c := ParseCompletion(Reply(content, calls, finish)).value;
            c.calls == calls && c.finish == finish && Some(c.content) == if content == None then Some("") else content
  {
  }
}
