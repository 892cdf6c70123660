/**
 Reading a command's output line by line without unbounded buffering. The reader hands
 out slices of its buffer; how the text is cut into slices must not matter.
 */
module LineReader {

  const MAX_LINE_BYTES := 1048576

  /** One read: a full buffer without a line end, a line end, the end of the input, or
      a read error. */
  datatype Slice = Full(text: string) | Line(text: string) | Last(text: string) | Broken(text: string)

  predicate NoNewline(s: string) {
    '\n' !in s
  }

  /** A line with its terminator. */
  predicate Terminated(s: string) {
    s != "" && s[|s| - 1] == '\n' && NoNewline(s[..|s| - 1])
  }

  predicate ValidSlice(s: Slice) {
    if s.Line? then Terminated(s.text) else NoNewline(s.text)
  }

  /** A stream ends with its only end-of-input or error. */
  predicate ValidStream(slices: seq<Slice>) {
    && slices != []
    && (forall i :: 0 <= i < |slices| ==> ValidSlice(slices[i]))
    && (forall i :: 0 <= i < |slices| ==> (i == |slices| - 1 <==> slices[i].Last? || slices[i].Broken?))
  }

  function Content(slices: seq<Slice>): string {
    if slices == [] then "" else Content(slices[..|slices| - 1]) + slices[|slices| - 1].text
  }

  // ----- What should be delivered -----

  /** The position behind the first line end, or the end of the text. */
  function LineEnd(s: string): (n: nat)
    ensures n <= |s| && (s != "" ==> n > 0)
    ensures Terminated(s[..n]) || (n == |s| && NoNewline(s))
  {
    if s == "" then 0
    else if s[0] == '\n' then 1
    else
      var n := LineEnd(s[1..]);
      assert s[..n + 1] == [s[0]] + s[1..][..n];
      assert s == [s[0]] + s[1..];
      n + 1
  }

  /** Exactly the carriage returns and line feeds at the end go. */
  function TrimRight(s: string): (r: string)
    ensures r <= s && forall i :: |r| <= i < |s| ==> s[i] == '\r' || s[i] == '\n'
    ensures r != "" ==> r[|r| - 1] != '\r' && r[|r| - 1] != '\n'
  {
    if s != "" && (s[|s| - 1] == '\r' || s[|s| - 1] == '\n') then TrimRight(s[..|s| - 1]) else s
  }

  /** A line is kept unless it is too long, terminator included, or empty once trimmed. */
  function KeepLine(line: string): seq<string> {
    if |line| > MAX_LINE_BYTES || TrimRight(line) == "" then [] else [TrimRight(line)]
  }

  function Kept(content: string): seq<string> {
    if content == "" then []
    else KeepLine(content[..LineEnd(content)]) + Kept(content[LineEnd(content)..])
  }

  /** The text up to its last line end. */
  function Complete(content: string): string {
    if content == "" || content[|content| - 1] == '\n' then content else Complete(content[..|content| - 1])
  }

  /** The handler's answer may depend on everything it was given so far. */
  function UpToRefusal(lines: seq<string>, accepts: seq<string> -> bool): seq<string> {
    if lines == [] then []
    else
      var before := UpToRefusal(lines[..|lines| - 1], accepts);
      if AllAccepted(lines[..|lines| - 1], accepts) then lines else before
  }

  predicate AllAccepted(lines: seq<string>, accepts: seq<string> -> bool) {
    forall k :: 0 < k <= |lines| ==> accepts(lines[..k])
  }

  // ----- Lemmas about the text -----

  predicate EndsLine(s: string) {
    s == "" || s[|s| - 1] == '\n'
  }

  lemma {:induction false} LineEndOfFirst(line: string, rest: string)
    requires Terminated(line)
    ensures LineEnd(line + rest) == |line|
  {
    var s := line + rest;
    if |line| == 1 {
      assert s[0] == '\n';
    } else {
      assert line[0] != '\n';
      assert Terminated(line[1..]) by { assert line[1..][..|line| - 2] == line[..|line| - 1][1..]; }
      LineEndOfFirst(line[1..], rest);
      assert s[1..] == line[1..] + rest;
    }
  }

  lemma {:induction false} LineEndOfRest(line: string)
    requires NoNewline(line)
    ensures LineEnd(line) == |line|
  {
    if line != "" {
      LineEndOfRest(line[1..]);
    }
  }

  /** Complete lines are kept or not independently of what follows. */
  lemma {:induction false} KeptSplits(before: string, after: string)
    requires EndsLine(before)
    ensures Kept(before + after) == Kept(before) + Kept(after)
    decreases |before|
  {
    hide KeepLine, TrimRight;
    if before == "" {
      assert before + after == after;
    } else {
      var n := LineEnd(before);
      assert !NoNewline(before);
      assert before + after == before[..n] + (before[n..] + after);
      LineEndOfFirst(before[..n], before[n..] + after);
      assert (before + after)[..n] == before[..n] && (before + after)[n..] == before[n..] + after;
      KeptSplits(before[n..], after);
    }
  }

  lemma KeptOfLine(line: string)
    requires Terminated(line) || NoNewline(line)
    ensures Kept(line) == KeepLine(line)
  {
    if NoNewline(line) {
      LineEndOfRest(line);
    } else {
      assert line + "" == line;
      LineEndOfFirst(line, "");
    }
    assert line[..|line|] == line && line[|line|..] == "";
  }

  /** An oversized line never affects the lines before or after it. */
  lemma OversizedLineIsSkipped(before: string, line: string, after: string)
    requires EndsLine(before) && Terminated(line) && |line| > MAX_LINE_BYTES
    ensures Kept(before + line + after) == Kept(before) + Kept(after)
  {
    hide Kept, LineEnd, TrimRight;
    KeptSplits(before + line, after);
    KeptSplits(before, line);
    KeptOfLine(line);
  }

  /** Any other line is delivered without its terminator, unless nothing else is on it. */
  lemma LineIsDelivered(before: string, line: string, after: string)
    requires EndsLine(before) && Terminated(line) && |line| <= 1048576
    ensures (forall i :: 0 <= i < |line| ==> line[i] == '\r' || line[i] == '\n') ==>
      Kept(before + line + after) == Kept(before) + Kept(after)
    ensures (exists i :: 0 <= i < |line| && line[i] != '\r' && line[i] != '\n') ==>
      exists text :: Kept(before + line + after) == Kept(before) + [text] + Kept(after)
        && text != "" && text <= line && text[|text| - 1] != '\r' && text[|text| - 1] != '\n'
        && forall i :: |text| <= i < |line| ==> line[i] == '\r' || line[i] == '\n'
  {
    hide Kept, LineEnd, TrimRight;
    KeptSplits(before + line, after);
    KeptSplits(before, line);
    KeptOfLine(line);
    var text := TrimRight(line);
    if text != "" {
      assert line[|text| - 1] == text[|text| - 1];
      assert Kept(before + line + after) == Kept(before) + [text] + Kept(after);
    }
  }

  /** Reading the end of a line adds that line and nothing else. */
  lemma LineFinished(before: string, partial: string, chunk: string)
    requires EndsLine(before) && NoNewline(partial) && (Terminated(chunk) || NoNewline(chunk))
    ensures Kept(before + partial + chunk) == Kept(before) + KeepLine(partial + chunk)
    ensures Terminated(chunk) ==> EndsLine(before + partial + chunk)
    ensures NoNewline(chunk) ==> NoNewline(partial + chunk) && Complete(before + partial + chunk) == before
  {
    hide Kept, LineEnd, TrimRight, Complete;
    var whole := partial + chunk;
    if Terminated(chunk) {
      assert whole[..|whole| - 1] == partial + chunk[..|chunk| - 1];
    }
    assert before + partial + chunk == before + whole;
    KeptOfLine(whole);
    KeptSplits(before, whole);
    if NoNewline(chunk) {
      CompleteOf(before, whole);
    }
  }

  lemma AcceptedOneMore(lines: seq<string>, text: string, accepts: seq<string> -> bool)
    requires AllAccepted(lines, accepts)
    ensures (lines + [text])[..|lines|] == lines
    ensures AllAccepted(lines + [text], accepts) <==> accepts(lines + [text])
  {
    var more := lines + [text];
    assert more[..|more|] == more;
    forall k | 0 < k <= |lines|
      ensures accepts(more[..k])
    {
      assert more[..k] == lines[..k];
    }
  }

  lemma ContentOneMore(slices: seq<Slice>, i: nat)
    requires i < |slices|
    ensures Content(slices[..i + 1]) == Content(slices[..i]) + slices[i].text
    ensures i == |slices| - 1 ==> slices[..i + 1] == slices
  {
    assert slices[..i + 1][..i] == slices[..i];
  }

  lemma {:induction false} CompleteOf(before: string, partial: string)
    requires EndsLine(before) && NoNewline(partial)
    ensures Complete(before + partial) == before
  {
    if partial == "" {
      assert before + partial == before;
    } else {
      assert (before + partial)[..|before + partial| - 1] == before + partial[..|partial| - 1];
      assert NoNewline(partial[..|partial| - 1]);
      CompleteOf(before, partial[..|partial| - 1]);
    }
  }

  lemma {:induction false} AcceptedGoThrough(lines: seq<string>, accepts: seq<string> -> bool)
    requires AllAccepted(lines, accepts)
    ensures UpToRefusal(lines, accepts) == lines
  {
    if lines != [] {
      var init := lines[..|lines| - 1];
      assert forall k :: 0 < k <= |init| ==> init[..k] == lines[..k];
    }
  }

  /** Nothing behind the first refused line is delivered. */
  lemma {:induction false} RefusalStops(lines: seq<string>, more: seq<string>, accepts: seq<string> -> bool)
    requires lines != [] && AllAccepted(lines[..|lines| - 1], accepts) && !accepts(lines)
    ensures UpToRefusal(lines + more, accepts) == lines && !AllAccepted(lines + more, accepts)
  {
    assert (lines + more)[..|lines|] == lines;
    if more == [] {
      assert lines + more == lines;
    } else {
      var shorter := more[..|more| - 1];
      assert (lines + more)[..|lines + more| - 1] == lines + shorter;
      RefusalStops(lines, shorter, accepts);
    }
  }

  // ----- The reader -----

  datatype Ended = Stopped | Finished | Failed

  /** What the whole stream should yield. */
  function Wanted(slices: seq<Slice>): seq<string>
    requires slices != []
  {
    Kept(if slices[|slices| - 1].Broken? then Complete(Content(slices)) else Content(slices))
  }

  /** The result depends on the text and the way it ends, not on how it was cut. */
  method ReadLines(slices: seq<Slice>, accepts: seq<string> -> bool) returns (delivered: seq<string>, ended: Ended)
    requires ValidStream(slices)
    ensures delivered == UpToRefusal(Wanted(slices), accepts)
    ensures ended == Stopped <==> !AllAccepted(Wanted(slices), accepts)
    ensures ended == Failed <==> AllAccepted(Wanted(slices), accepts) && slices[|slices| - 1].Broken?
  {
    hide Content, Kept, TrimRight, Complete, LineEnd, UpToRefusal, AllAccepted, Terminated;
    delivered := [];
    var line, oversized := "", false;
    var i := 0;
    ghost var before, partial := "", "";
    NothingRead(slices, accepts);
    while true
      invariant 0 <= i < |slices|
      invariant Content(slices[..i]) == before + partial && EndsLine(before) && NoNewline(partial)
      invariant if oversized then |partial| > MAX_LINE_BYTES else line == partial && |partial| <= MAX_LINE_BYTES
      invariant delivered == Kept(before) && AllAccepted(delivered, accepts)
      decreases |slices| - i
    {
      var s := slices[i];
      var chunk := s.text;
      ContentOneMore(slices, i);
      LineFinished(before, partial, chunk);
      i := i + 1;
      if s.Full? {
        partial := partial + chunk;
        assert before + partial == Content(slices[..i]);
        if oversized || |line| + |chunk| > MAX_LINE_BYTES {
          oversized, line := true, "";
        } else {
          line := line + chunk;
        }
        continue;
      }
      if s.Broken? {
        AcceptedGoThrough(delivered, accepts);
        return delivered, Failed;
      }
      if !oversized && |line| + |chunk| <= MAX_LINE_BYTES {
        line := line + chunk;
        var text := TrimRight(line);
        if text != "" {
          AcceptedOneMore(delivered, text, accepts);
          delivered := delivered + [text];
          if !accepts(delivered) {
            RefusedInStream(slices, i - 1, Content(slices[..i]), delivered, accepts);
            return delivered, Stopped;
          }
        }
      }
      assert delivered == Kept(before + partial + chunk);
      if s.Last? {
        AcceptedGoThrough(delivered, accepts);
        return delivered, Finished;
      }
      before, partial := before + partial + chunk, "";
      assert before + partial == before;
      line, oversized := "", false;
    }
  }

  lemma NothingRead(slices: seq<Slice>, accepts: seq<string> -> bool)
    ensures Content(slices[..0]) == "" + "" && Kept("") == [] && AllAccepted([], accepts)
  {
  }

  /** What comes behind slice `i` adds lines only behind the refused one. */
  lemma RefusedInStream(slices: seq<Slice>, i: nat, content: string, lines: seq<string>, accepts: seq<string> -> bool)
    requires ValidStream(slices) && i < |slices| && !slices[i].Broken?
    requires content == Content(slices[..i + 1]) && Kept(content) == lines && (slices[i].Last? || EndsLine(content))
    requires lines != [] && AllAccepted(lines[..|lines| - 1], accepts) && !accepts(lines)
    ensures UpToRefusal(Wanted(slices), accepts) == lines && !AllAccepted(Wanted(slices), accepts)
  {
    hide Kept, LineEnd, Complete, KeepLine;
    if slices[i].Last? {
      assert slices[..i + 1] == slices;
      RefusalStops(lines, [], accepts);
      assert lines + [] == lines;
    } else {
      var rest := ContentFrom(slices, i + 1);
      var more := rest;
      if slices[|slices| - 1].Broken? {
        more := CompleteBehind(content, rest);
      }
      KeptSplits(content, more);
      RefusalStops(lines, Kept(more), accepts);
    }
  }

  lemma {:induction false} ContentFrom(slices: seq<Slice>, i: nat) returns (rest: string)
    requires i <= |slices|
    ensures Content(slices) == Content(slices[..i]) + rest
  {
    if i == |slices| {
      assert slices[..i] == slices;
      rest := "";
    } else {
      rest := ContentFrom(slices[..|slices| - 1], i);
      assert slices[..|slices| - 1][..i] == slices[..i];
      rest := rest + slices[|slices| - 1].text;
    }
  }

  lemma {:induction false} CompleteBehind(before: string, rest: string) returns (more: string)
    requires EndsLine(before)
    ensures Complete(before + rest) == before + more
  {
    if rest == "" || rest[|rest| - 1] == '\n' {
      more := rest;
      assert before + rest == before || (before + rest)[|before + rest| - 1] == '\n';
    } else {
      more := CompleteBehind(before, rest[..|rest| - 1]);
      assert (before + rest)[..|before + rest| - 1] == before + rest[..|rest| - 1];
    }
  }
}
