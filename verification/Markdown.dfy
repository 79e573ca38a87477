// Conservative Markdown normalisation that leaves fenced code blocks alone.
module Markdown {
  import opened Wrappers
  import opened Strings

  // Without trailing spaces and tabs.
  function Rstrip(s: string): (r: string)
    ensures r <= s
    ensures r == "" || (r[|r| - 1] != ' ' && r[|r| - 1] != '\t')
    ensures forall i :: |r| <= i < |s| ==> s[i] == ' ' || s[i] == '\t'
  {
    if s != "" && (s[|s| - 1] == ' ' || s[|s| - 1] == '\t') then Rstrip(s[..|s| - 1]) else s
  }

  function NbspToSpace(s: string): (r: string)
    ensures |r| == |s| && forall i :: 0 <= i < |s| ==> r[i] == if s[i] == NBSP then ' ' else s[i]
  {
    seq(|s|, i requires 0 <= i < |s| => if s[i] == NBSP then ' ' else s[i])
  }

  function Clean(raw: string): string {
    Rstrip(NbspToSpace(raw))
  }

  // How many copies of `c` the line starts with.
  function Leading(line: string, c: char): (n: nat)
    ensures n <= |line|
    ensures forall i :: 0 <= i < n ==> line[i] == c
    ensures n < |line| ==> line[n] != c
  {
    if line == "" || line[0] != c then 0 else 1 + Leading(line[1..], c)
  }

  datatype Marker = Marker(mark: char, length: nat, rest: string)

  // A line of at most three spaces, three or more backticks or tildes, and anything.
  function FenceOf(line: string): (r: Option<Marker>)
    ensures r.Some? ==> r.value.mark in "`~" && r.value.length >= 3
  {
    var n := Leading(line, ' ');
    if n > 3 || n == |line| || line[n] !in "`~" then None
    else
      var m := Leading(line[n..], line[n]);
      if m < 3 then None else Some(Marker(line[n], m, line[n + m..]))
  }

  datatype Fence = Closed | Open(mark: char, length: nat)

  predicate ClosesFence(f: Fence, raw: string)
    requires f.Open?
  {
    var m := FenceOf(raw);
    m.Some? && m.value.mark == f.mark && m.value.length >= f.length && IsBlank(m.value.rest)
  }

  function NextFence(f: Fence, raw: string): Fence {
    match f
    case Open(_, _) => if ClosesFence(f, raw) then Closed else f
    case Closed =>
      match FenceOf(raw)
      case Some(m) => Open(m.mark, m.length)
      case None => Closed
  }

  // Whether the line after these is inside a fence, and inside which.
  function FenceAfter(lines: seq<string>): Fence {
    if |lines| == 0 then Closed else NextFence(FenceAfter(lines[..|lines| - 1]), lines[|lines| - 1])
  }

  // One raw line: verbatim inside a fence, cleaned outside, blank runs collapsed.
  function NextOut(out: seq<string>, f: Fence, raw: string): seq<string> {
    if f.Open? then out + [raw]
    else if FenceOf(raw).Some? || Clean(raw) != "" then out + [Clean(raw)]
    else if out != [] && out[|out| - 1] != "" then out + [""]
    else out
  }

  function Out(lines: seq<string>): seq<string> {
    if |lines| == 0 then []
    else
      var n := |lines| - 1;
      NextOut(Out(lines[..n]), FenceAfter(lines[..n]), lines[n])
  }

  function DropBlankTail(lines: seq<string>): (r: seq<string>)
    ensures r <= lines
    ensures r == [] || r[|r| - 1] != ""
  {
    if lines != [] && lines[|lines| - 1] == "" then DropBlankTail(lines[..|lines| - 1]) else lines
  }

  function NormalLines(lines: seq<string>): (r: seq<string>)
    ensures r == [] || r[|r| - 1] != ""
  {
    DropBlankTail(Out(lines))
  }

  function Normalized(markdown: string): string {
    Join(NormalLines(Split(markdown, "\n")), "\n")
  }

  method NormalizeLines(markdown: string) returns (text: string)
    ensures text == Normalized(markdown)
  {
    var lines: seq<string> := [];
    var fenceChar: Option<char> := None;
    var fenceLength := 0;
    var rawLines := Split(markdown, "\n");
    for i := 0 to |rawLines|
      invariant lines == Out(rawLines[..i])
      invariant FenceAfter(rawLines[..i]) ==
        match fenceChar case Some(c) => Open(c, fenceLength) case None => Closed
    {
      assert rawLines[..i + 1][..i] == rawLines[..i];
      var rawLine := rawLines[i];
      var found := FenceOf(rawLine);
      if fenceChar.Some? {
        lines := lines + [rawLine];
        if found.Some? && found.value.mark == fenceChar.value && found.value.length >= fenceLength
           && IsBlank(found.value.rest) {
          fenceChar := None;
          fenceLength := 0;
        }
        continue;
      }
      var line := Rstrip(NbspToSpace(rawLine));
      if found.Some? {
        fenceChar := Some(found.value.mark);
        fenceLength := found.value.length;
        lines := lines + [line];
        continue;
      }
      if line != "" {
        lines := lines + [line];
      } else if lines != [] && lines[|lines| - 1] != "" {
        lines := lines + [""];
      }
    }
    assert rawLines[..|rawLines|] == rawLines;
    while lines != [] && lines[|lines| - 1] == ""
      invariant DropBlankTail(lines) == NormalLines(rawLines)
      decreases |lines|
    {
      lines := lines[..|lines| - 1];
    }
    text := Join(lines, "\n");
  }

  // ---- Cleaning a line ----

  lemma {:induction false} RstripStable(s: string)
    ensures Rstrip(Rstrip(s)) == Rstrip(s)
  {
    if s != "" && (s[|s| - 1] == ' ' || s[|s| - 1] == '\t') {
      RstripStable(s[..|s| - 1]);
    }
  }

  lemma CleanStable(raw: string)
    ensures Clean(Clean(raw)) == Clean(raw)
  {
    var c := Clean(raw);
    assert NbspToSpace(c) == c;
    RstripStable(NbspToSpace(raw));
  }

  predicate SameFence(a: Option<Marker>, b: Option<Marker>) {
    && a.Some? == b.Some?
    && (a.Some? ==> a.value.mark == b.value.mark && a.value.length == b.value.length)
  }

  lemma {:induction false} LeadingPrefix(line: string, w: char, c: char)
    ensures Leading(line + [w], c) == Leading(line, c) || (Leading(line, c) == |line| && w == c)
  {
    if line != "" && line[0] == c {
      assert (line + [w])[1..] == line[1..] + [w];
      LeadingPrefix(line[1..], w, c);
    }
  }

  // A trailing space or tab makes no difference to a fence.
  lemma TrailingSpaceKeepsFence(line: string, w: char)
    requires w == ' ' || w == '\t'
    ensures SameFence(FenceOf(line + [w]), FenceOf(line))
  {
    var n := Leading(line, ' ');
    LeadingPrefix(line, w, ' ');
    if n < |line| && n <= 3 {
      assert (line + [w])[n..] == line[n..] + [w];
      LeadingPrefix(line[n..], w, line[n]);
    }
  }

  lemma {:induction false} RstripKeepsFence(line: string)
    ensures SameFence(FenceOf(Rstrip(line)), FenceOf(line))
  {
    if line != "" && (line[|line| - 1] == ' ' || line[|line| - 1] == '\t') {
      var n := |line| - 1;
      RstripKeepsFence(line[..n]);
      assert line == line[..n] + [line[n]];
      TrailingSpaceKeepsFence(line[..n], line[n]);
    }
  }

  lemma {:induction false} NbspKeepsLeading(line: string, c: char)
    requires c != NBSP
    requires c == ' ' ==> Leading(line, c) == |line| || line[Leading(line, c)] != NBSP
    ensures Leading(NbspToSpace(line), c) == Leading(line, c)
  {
    if line != "" {
      assert NbspToSpace(line)[1..] == NbspToSpace(line[1..]);
      if line[0] == c {
        NbspKeepsLeading(line[1..], c);
      }
    }
  }

  // A fence stays one when no-break spaces turn into spaces.
  lemma NbspKeepsFence(line: string)
    requires FenceOf(line).Some?
    ensures SameFence(FenceOf(NbspToSpace(line)), FenceOf(line))
  {
    var n := Leading(line, ' ');
    NbspKeepsLeading(line, ' ');
    NbspKeepsLeading(line[n..], line[n]);
    assert NbspToSpace(line)[n..] == NbspToSpace(line[n..]);
  }

  // ---- Normal form ----

  // Outside fences every line is clean and no two blank lines meet; the text neither
  // starts nor ends with a blank line unless a fence runs up to there.
  predicate LineIsNormal(lines: seq<string>, k: nat)
    requires k < |lines|
  {
    FenceAfter(lines[..k]).Closed? ==>
      Clean(lines[k]) == lines[k] && (lines[k] == "" ==> k > 0 && lines[k - 1] != "")
  }

  predicate IsNormal(lines: seq<string>) {
    && (lines != [] ==> lines[|lines| - 1] != "")
    && forall k :: 0 <= k < |lines| ==> LineIsNormal(lines, k)
  }

  lemma {:induction false} OutIsShort(lines: seq<string>)
    ensures |Out(lines)| <= |lines|
  {
    if |lines| > 0 {
      OutIsShort(lines[..|lines| - 1]);
    }
  }

  lemma NextOutGrows(out: seq<string>, f: Fence, raw: string)
    ensures var next := NextOut(out, f, raw); next == out || (|next| == |out| + 1 && next[..|out|] == out)
  {
  }

  lemma OutSnoc(lines: seq<string>, raw: string)
    ensures Out(lines + [raw]) == NextOut(Out(lines), FenceAfter(lines), raw)
    ensures FenceAfter(lines + [raw]) == NextFence(FenceAfter(lines), raw)
  {
    assert (lines + [raw])[..|lines|] == lines;
  }

  lemma OutAt(lines: seq<string>, k: nat)
    requires k < |lines|
    ensures Out(lines[..k + 1]) == NextOut(Out(lines[..k]), FenceAfter(lines[..k]), lines[k])
    ensures FenceAfter(lines[..k + 1]) == NextFence(FenceAfter(lines[..k]), lines[k])
  {
    assert lines[..k + 1][..k] == lines[..k];
    hide NextOut, NextFence;
  }

  // If nothing was dropped or changed, nothing was up to any line.
  lemma OutFixedPrefix(lines: seq<string>, k: nat)
    requires Out(lines) == lines && k <= |lines|
    ensures Out(lines[..k]) == lines[..k]
    decreases |lines| - k
  {
    hide Out, NextOut, FenceAfter;
    if k < |lines| {
      OutFixedPrefix(lines, k + 1);
      OutAt(lines, k);
      OutIsShort(lines[..k]);
      NextOutGrows(Out(lines[..k]), FenceAfter(lines[..k]), lines[k]);
      assert lines[..k + 1][..k] == lines[..k];
    } else {
      assert lines[..k] == lines;
    }
  }

  lemma FixedLineIsNormal(lines: seq<string>, k: nat)
    requires k < |lines| && Out(lines[..k]) == lines[..k] && Out(lines[..k + 1]) == lines[..k + 1]
    ensures LineIsNormal(lines, k)
  {
    assert lines[..k + 1][..k] == lines[..k];
    assert lines[..k + 1] == lines[..k] + [lines[k]];
  }

  lemma {:induction false} NormalIsFixed(lines: seq<string>, k: nat)
    requires k <= |lines| && forall i :: 0 <= i < k ==> LineIsNormal(lines, i)
    ensures Out(lines[..k]) == lines[..k]
  {
    if k > 0 {
      NormalIsFixed(lines, k - 1);
      assert lines[..k][..k - 1] == lines[..k - 1];
      assert lines[..k] == lines[..k - 1] + [lines[k - 1]];
      assert LineIsNormal(lines, k - 1);
    }
  }

  // The normaliser leaves exactly the normal texts alone.
  lemma FixedIffNormal(lines: seq<string>)
    ensures NormalLines(lines) == lines <==> IsNormal(lines)
  {
    assert lines[..|lines|] == lines;
    OutIsShort(lines);
    if NormalLines(lines) == lines {
      forall k | 0 <= k < |lines|
        ensures LineIsNormal(lines, k)
      {
        OutFixedPrefix(lines, k);
        OutFixedPrefix(lines, k + 1);
        FixedLineIsNormal(lines, k);
      }
    }
    if IsNormal(lines) {
      NormalIsFixed(lines, |lines|);
    }
  }

  // ---- Idempotence ----

  // No line becomes a fence by turning its no-break spaces into spaces.
  predicate NoHiddenFence(lines: seq<string>) {
    forall i :: 0 <= i < |lines| ==> NotHidden(lines[i])
  }

  predicate NotHidden(line: string) {
    FenceOf(line).None? ==> FenceOf(NbspToSpace(line)).None?
  }

  lemma CleanKeepsFence(raw: string)
    requires NotHidden(raw)
    ensures SameFence(FenceOf(Clean(raw)), FenceOf(raw))
  {
    RstripKeepsFence(NbspToSpace(raw));
    if FenceOf(raw).Some? {
      NbspKeepsFence(raw);
    }
  }

  // The output is processed like the input: same fences, nothing left to change.
  lemma {:induction false} OutStable(lines: seq<string>)
    requires NoHiddenFence(lines)
    ensures Out(Out(lines)) == Out(lines) && FenceAfter(Out(lines)) == FenceAfter(lines)
  {
    if |lines| > 0 {
      var n := |lines| - 1;
      OutStable(lines[..n]);
      var out, raw := Out(lines[..n]), lines[n];
      if Out(lines) != out {
        var line := Out(lines)[|out|];
        assert Out(lines) == out + [line] && (out + [line])[..|out|] == out;
        assert NotHidden(raw);
        CleanKeepsFence(raw);
        CleanStable(raw);
      }
    }
  }

  lemma NormalLinesAreNormal(lines: seq<string>)
    requires NoHiddenFence(lines)
    ensures IsNormal(NormalLines(lines))
  {
    OutStable(lines);
    var out, r := Out(lines), NormalLines(lines);
    assert r == out[..|r|];
    OutFixedPrefix(out, |r|);
    FixedIffNormal(r);
  }

  // ---- From lines to text ----

  predicate OneLine(s: string) {
    '\n' !in s
  }

  lemma {:induction false} SplitGivesLines(text: string)
    ensures forall i :: 0 <= i < |Split(text, "\n")| ==> OneLine(Split(text, "\n")[i])
    decreases |text|
  {
    var k := Find(text, "\n", 0);
    forall i | 0 <= i < k
      ensures text[..k][i] != '\n'
    {
      assert !OccursAt(text, "\n", i);
      assert text[i..i + 1] == [text[i]];
    }
    if k < |text| {
      SplitGivesLines(text[k + 1..]);
    } else {
      assert text[..k] == text;
    }
  }

  lemma FindFirst(line: string, tail: string)
    requires OneLine(line)
    ensures Find(line, "\n", 0) == |line|
    ensures Find(line + "\n" + tail, "\n", 0) == |line|
  {
    var text := line + "\n" + tail;
    assert OccursAt(text, "\n", |line|);
    forall s: string, i | (s == line || s == text) && 0 <= i < |line|
      ensures !OccursAt(s, "\n", i)
    {
      assert s[i] == line[i] && s[i..i + 1] == [s[i]];
    }
  }

  // Splitting undoes joining when no part contains the separator.
  lemma {:induction false} SplitJoin(lines: seq<string>)
    requires |lines| > 0 && forall i :: 0 <= i < |lines| ==> OneLine(lines[i])
    ensures Split(Join(lines, "\n"), "\n") == lines
  {
    if |lines| == 1 {
      FindFirst(lines[0], "");
    } else {
      var tail := Join(lines[1..], "\n");
      JoinFront(lines, "\n");
      FindFirst(lines[0], tail);
      SplitJoin(lines[1..]);
      var text := lines[0] + "\n" + tail;
      assert text[..|lines[0]|] == lines[0] && text[|lines[0]| + 1..] == tail;
    }
  }

  lemma {:induction false} OutGivesLines(lines: seq<string>)
    requires forall i :: 0 <= i < |lines| ==> OneLine(lines[i])
    ensures forall i :: 0 <= i < |Out(lines)| ==> OneLine(Out(lines)[i])
  {
    if |lines| > 0 {
      OutGivesLines(lines[..|lines| - 1]);
    }
  }

  lemma NormalizedSplits(markdown: string)
    ensures var r := NormalLines(Split(markdown, "\n"));
      Split(Normalized(markdown), "\n") == if r == [] then [""] else r
  {
    var lines := Split(markdown, "\n");
    SplitGivesLines(markdown);
    OutGivesLines(lines);
    if NormalLines(lines) != [] {
      SplitJoin(NormalLines(lines));
    } else {
      FindFirst("", "");
    }
  }

  // Normalising twice is normalising once exactly when the first result is normal
  // by its own fences.
  lemma IdempotentIffNormal(markdown: string)
    ensures Normalized(Normalized(markdown)) == Normalized(markdown)
      <==> IsNormal(NormalLines(Split(markdown, "\n")))
  {
    var r := NormalLines(Split(markdown, "\n"));
    FixedIffNormal(r);
    NormalizedSplits(markdown);
    NormalizedSplits(Normalized(markdown));
    NoLines();
    hide Split, Join, NormalLines, IsNormal;
    if r == [] {
      assert IsNormal(r) by {
        EmptyIsNormal();
      }
    } else if Normalized(Normalized(markdown)) == Normalized(markdown) {
      assert Split(Normalized(markdown), "\n") == r != [""];
    }
  }

  lemma EmptyIsNormal()
    ensures IsNormal([])
  {
  }

  // That is so for every text in which no no-break space hides a fence.
  lemma Idempotent(markdown: string)
    requires NoHiddenFence(Split(markdown, "\n"))
    ensures Normalized(Normalized(markdown)) == Normalized(markdown)
    ensures IsNormal(NormalLines(Split(markdown, "\n")))
  {
    NormalLinesAreNormal(Split(markdown, "\n"));
    IdempotentIffNormal(markdown);
  }

  // ---- When a second pass changes nothing, read off the input ----

  // Whether a second pass is inside a fence after the output of these lines.
  function FenceOfSecondPass(lines: seq<string>): Fence {
    if |lines| == 0 then Closed
    else
      var n := |lines| - 1;
      NextFence(
        FenceOfSecondPass(lines[..n]), if FenceAfter(lines[..n]).Open? then lines[n] else Clean(lines[n]))
  }

  // Only blank lines are left.
  predicate BlankFrom(lines: seq<string>, i: nat) {
    forall j :: i <= j < |lines| ==> lines[j] == ""
  }

  // A line that the first pass keeps verbatim, as part of a fence, but that the second
  // pass takes for text, is already clean and is no second blank line in a row, unless
  // it belongs to the blank end that is dropped.
  predicate Settled(lines: seq<string>, i: nat)
    requires i < |lines|
  {
    FenceAfter(lines[..i]).Open? && FenceOfSecondPass(lines[..i]).Closed? ==>
      Clean(lines[i]) == lines[i] && (lines[i] == "" ==> (i > 0 && lines[i - 1] != "") || BlankFrom(lines, i))
  }

  predicate AllSettled(lines: seq<string>) {
    forall i :: 0 <= i < |lines| ==> Settled(lines, i)
  }

  // The same without the exception for the end.
  predicate Strict(lines: seq<string>, i: nat)
    requires i < |lines|
  {
    FenceAfter(lines[..i]).Open? && FenceOfSecondPass(lines[..i]).Closed? ==>
      Clean(lines[i]) == lines[i] && (lines[i] == "" ==> i > 0 && lines[i - 1] != "")
  }

  predicate AllStrict(lines: seq<string>) {
    forall i :: 0 <= i < |lines| ==> Strict(lines, i)
  }

  predicate AllNormal(lines: seq<string>) {
    forall k :: 0 <= k < |lines| ==> LineIsNormal(lines, k)
  }

  lemma SecondPassSnoc(lines: seq<string>, raw: string)
    ensures FenceOfSecondPass(lines + [raw])
         == NextFence(FenceOfSecondPass(lines), if FenceAfter(lines).Open? then raw else Clean(raw))
  {
    assert (lines + [raw])[..|lines|] == lines;
  }

  lemma BlankIsNoFence(f: Fence)
    ensures NextFence(f, "") == f
  {
  }

  // The second pass over the output has the fences of the definition.
  lemma {:induction false} SecondPassFences(lines: seq<string>)
    ensures FenceAfter(Out(lines)) == FenceOfSecondPass(lines)
  {
    if |lines| > 0 {
      var n := |lines| - 1;
      SecondPassFences(lines[..n]);
      assert lines == lines[..n] + [lines[n]];
      SecondPassStep(lines[..n], lines[n]);
      hide Out, FenceAfter, FenceOfSecondPass;
    }
  }

  lemma SecondPassStep(front: seq<string>, raw: string)
    requires FenceAfter(Out(front)) == FenceOfSecondPass(front)
    ensures FenceAfter(Out(front + [raw])) == FenceOfSecondPass(front + [raw])
  {
    hide Out, FenceAfter, FenceOfSecondPass, FenceOf, Clean;
    OutSnoc(front, raw);
    SecondPassSnoc(front, raw);
    if FenceAfter(front).Open? {
      OutSnoc(Out(front), raw);
    } else {
      OutSnoc(Out(front), Clean(raw));
      BlankIsNoFence(FenceOfSecondPass(front));
    }
  }

  lemma FenceIsNotCleanedAway(raw: string)
    requires FenceOf(raw).Some?
    ensures Clean(raw) != ""
  {
    CleanKeepsFence(raw);
  }

  // Inside a fence the output ends as the input does.
  lemma OutEndsVerbatim(lines: seq<string>)
    requires FenceAfter(lines).Open?
    ensures lines != [] && Out(lines) != []
    ensures Out(lines)[|Out(lines)| - 1] == "" <==> lines[|lines| - 1] == ""
  {
    var n := |lines| - 1;
    if FenceAfter(lines[..n]).Closed? {
      FenceIsNotCleanedAway(lines[n]);
      FenceIsNotBlank(lines[n]);
    }
  }

  // Adding a line whose prefix stays the same.
  lemma AllNormalSnoc(lines: seq<string>, line: string)
    ensures AllNormal(lines + [line]) <==> AllNormal(lines) && LineIsNormal(lines + [line], |lines|)
  {
    var more := lines + [line];
    forall k | 0 <= k < |lines|
      ensures LineIsNormal(more, k) == LineIsNormal(lines, k)
    {
      assert more[..k] == lines[..k];
    }
    hide LineIsNormal;
  }

  lemma AllStrictSnoc(lines: seq<string>, raw: string)
    ensures AllStrict(lines + [raw]) <==> AllStrict(lines) && Strict(lines + [raw], |lines|)
  {
    var more := lines + [raw];
    forall k | 0 <= k < |lines|
      ensures Strict(more, k) == Strict(lines, k)
    {
      assert more[..k] == lines[..k];
    }
    hide Strict;
  }

  // A cleaned line is always normal where the rules emit it.
  lemma CleanedIsNormal(out: seq<string>, raw: string)
    requires Clean(raw) == "" ==> out != [] && out[|out| - 1] != ""
    ensures LineIsNormal(out + [Clean(raw)], |out|)
  {
    CleanStable(raw);
    assert (out + [Clean(raw)])[..|out|] == out;
    hide Clean, FenceAfter;
  }

  lemma VerbatimIsNormalIff(front: seq<string>, raw: string)
    requires FenceAfter(front).Open?
    ensures LineIsNormal(Out(front) + [raw], |Out(front)|) <==> Strict(front + [raw], |front|)
  {
    OutEndsVerbatim(front);
    SecondPassFences(front);
    hide Out, FenceAfter, FenceOfSecondPass, Clean;
    assert (Out(front) + [raw])[..|Out(front)|] == Out(front);
    assert (front + [raw])[..|front|] == front;
  }

  lemma VerbatimStep(front: seq<string>, raw: string)
    requires FenceAfter(front).Open? && (AllNormal(Out(front)) <==> AllStrict(front))
    ensures AllNormal(Out(front + [raw])) <==> AllStrict(front + [raw])
  {
    OutSnoc(front, raw);
    hide Out, FenceAfter, FenceOfSecondPass, Clean, AllNormal, AllStrict, Strict, LineIsNormal;
    AllStrictSnoc(front, raw);
    AllNormalSnoc(Out(front), raw);
    VerbatimIsNormalIff(front, raw);
  }

  lemma CleanedStep(front: seq<string>, raw: string)
    requires FenceAfter(front).Closed? && (AllNormal(Out(front)) <==> AllStrict(front))
    ensures AllNormal(Out(front + [raw])) <==> AllStrict(front + [raw])
  {
    OutSnoc(front, raw);
    hide Out, FenceAfter, FenceOfSecondPass, Clean, AllNormal, AllStrict, Strict, LineIsNormal, NextOut;
    AllStrictSnoc(front, raw);
    ClosedIsStrict(front, raw);
    if NextOut(Out(front), Closed, raw) != Out(front) {
      EmitsClean(Out(front), raw);
      AllNormalSnoc(Out(front), Clean(raw));
      CleanedIsNormal(Out(front), raw);
    }
  }

  // Only verbatim lines can fail to be normal.
  lemma {:induction false} OutIsNormalIffStrict(lines: seq<string>)
    ensures AllNormal(Out(lines)) <==> AllStrict(lines)
  {
    hide *;
    if |lines| == 0 {
      NothingToCheck(lines);
    } else {
      var n := |lines| - 1;
      OutIsNormalIffStrict(lines[..n]);
      OneMoreIsNormalIffStrict(lines[..n], lines[n]);
      assert lines == lines[..n] + [lines[n]];
    }
  }

  lemma NothingToCheck(lines: seq<string>)
    requires |lines| == 0
    ensures AllNormal(Out(lines)) && AllStrict(lines)
  {
    hide LineIsNormal, Strict;
  }

  lemma OneMoreIsNormalIffStrict(front: seq<string>, raw: string)
    requires AllNormal(Out(front)) <==> AllStrict(front)
    ensures AllNormal(Out(front + [raw])) <==> AllStrict(front + [raw])
  {
    hide *;
    if FenceAfter(front).Open? {
      VerbatimStep(front, raw);
    } else {
      CleanedStep(front, raw);
    }
  }

  lemma ClosedIsStrict(front: seq<string>, raw: string)
    requires FenceAfter(front).Closed?
    ensures Strict(front + [raw], |front|)
  {
    assert (front + [raw])[..|front|] == front;
  }

  lemma EmitsClean(out: seq<string>, raw: string)
    requires NextOut(out, Closed, raw) != out
    ensures NextOut(out, Closed, raw) == out + [Clean(raw)]
    ensures Clean(raw) == "" ==> out != [] && out[|out| - 1] != ""
  {
    if FenceOf(raw).Some? {
      FenceIsNotCleanedAway(raw);
    }
  }

  lemma FenceGrowsOut(out: seq<string>, raw: string)
    ensures FenceOf(raw).Some? ==> |NextOut(out, Closed, raw)| == |out| + 1
  {
  }

  lemma NoTailToDrop(lines: seq<string>)
    requires lines == [] || lines[|lines| - 1] != ""
    ensures DropBlankTail(lines) == lines
  {
  }

  // Outside fences at most one blank line is dropped at the end, and it was normal.
  lemma {:induction false} DroppedWasNormal(lines: seq<string>)
    requires FenceAfter(lines).Closed? || lines[|lines| - 1] != ""
    ensures AllNormal(DropBlankTail(Out(lines))) <==> AllNormal(Out(lines))
  {
    if |lines| > 0 {
      var n := |lines| - 1;
      var front, raw := lines[..n], lines[n];
      assert lines == front + [raw];
      OutSnoc(front, raw);
      if FenceAfter(front).Open? {
        if raw == "" {
          BlankIsNoFence(FenceAfter(front));
        } else {
          NoTailToDrop(Out(lines));
        }
      } else if Out(lines) == Out(front) {
        FenceGrowsOut(Out(front), raw);
        DroppedWasNormal(front);
      } else {
        EmitsClean(Out(front), raw);
        if Clean(raw) == "" {
          NoTailToDrop(Out(front));
          assert (Out(front) + [""])[..|Out(front)|] == Out(front);
          AllNormalSnoc(Out(front), "");
          CleanedIsNormal(Out(front), raw);
        } else {
          NoTailToDrop(Out(lines));
        }
      }
    }
  }

  // Blank lines at the end of the input make no difference to the result.
  lemma {:induction false} BlankEndIsDropped(lines: seq<string>)
    ensures NormalLines(DropBlankTail(lines)) == NormalLines(lines)
  {
    if lines != [] && lines[|lines| - 1] == "" {
      var front := lines[..|lines| - 1];
      BlankEndIsDropped(front);
      assert lines == front + [""];
      hide NormalLines;
      LastBlankIsDropped(front);
    }
  }

  lemma LastBlankIsDropped(front: seq<string>)
    ensures NormalLines(front + [""]) == NormalLines(front)
  {
    OutSnoc(front, "");
    BlankAddsAtMostBlank(Out(front), FenceAfter(front));
    hide Out, FenceAfter, NextOut;
    assert (Out(front) + [""])[..|Out(front)|] == Out(front);
  }

  lemma BlankAddsAtMostBlank(out: seq<string>, f: Fence)
    ensures NextOut(out, f, "") == out || NextOut(out, f, "") == out + [""]
  {
    assert Clean("") == "";
  }

  lemma {:induction false} TailIsBlank(lines: seq<string>)
    ensures var m := |DropBlankTail(lines)|; DropBlankTail(lines) == lines[..m] && BlankFrom(lines, m)
  {
    if lines != [] && lines[|lines| - 1] == "" {
      TailIsBlank(lines[..|lines| - 1]);
    } else {
      assert lines[..|lines|] == lines;
    }
  }

  lemma SettledIffStrictBeforeEnd(lines: seq<string>)
    ensures AllSettled(lines) <==> AllStrict(DropBlankTail(lines))
  {
    var m := |DropBlankTail(lines)|;
    TailIsBlank(lines);
    hide DropBlankTail, Clean, FenceAfter, FenceOfSecondPass, Settled, Strict;
    forall i | 0 <= i < m
      ensures Settled(lines, i) == Strict(lines[..m], i)
    {
      SettledInFront(lines, m, i);
    }
    forall i | m <= i < |lines|
      ensures Settled(lines, i)
    {
      SettledInTail(lines, i);
    }
  }

  lemma SettledInFront(lines: seq<string>, m: nat, i: nat)
    requires i < m <= |lines| && lines[m - 1] != ""
    ensures Settled(lines, i) == Strict(lines[..m], i)
  {
    hide Clean, FenceAfter, FenceOfSecondPass;
    assert lines[..m][..i] == lines[..i];
    assert !BlankFrom(lines, i);
  }

  lemma SettledInTail(lines: seq<string>, i: nat)
    requires i < |lines| && BlankFrom(lines, i)
    ensures Settled(lines, i)
  {
    assert Clean("") == "";
  }

  // Normalising twice is normalising once if and only if every line that the first pass
  // keeps as part of a fence and the second takes for text is in normal form already.
  lemma IdempotentIffSettled(markdown: string)
    ensures Normalized(Normalized(markdown)) == Normalized(markdown) <==> AllSettled(Split(markdown, "\n"))
  {
    var lines := Split(markdown, "\n");
    IdempotentIffNormal(markdown);
    ResultIsNormalIffSettled(lines);
  }

  lemma ResultIsNormalIffSettled(lines: seq<string>)
    ensures IsNormal(NormalLines(lines)) <==> AllSettled(lines)
  {
    var kept := DropBlankTail(lines);
    BlankEndIsDropped(lines);
    if kept == [] {
      assert Out(kept) == [] && DropBlankTail(Out(kept)) == Out(kept);
    } else {
      DroppedWasNormal(kept);
    }
    OutIsNormalIffStrict(kept);
    SettledIffStrictBeforeEnd(lines);
    hide Out, DropBlankTail, AllSettled, AllStrict, LineIsNormal;
    assert IsNormal(NormalLines(lines)) <==> AllNormal(NormalLines(lines));
  }

  lemma {:induction false} SplitKeepsNbspOut(text: string)
    requires NBSP !in text
    ensures forall i :: 0 <= i < |Split(text, "\n")| ==> NBSP !in Split(text, "\n")[i]
    decreases |text|
  {
    var k := Find(text, "\n", 0);
    if k < |text| {
      SplitKeepsNbspOut(text[k + 1..]);
    }
  }

  lemma IdempotentWithoutNbsp(markdown: string)
    requires NBSP !in markdown
    ensures Normalized(Normalized(markdown)) == Normalized(markdown)
  {
    var lines := Split(markdown, "\n");
    SplitKeepsNbspOut(markdown);
    forall i | 0 <= i < |lines|
      ensures NotHidden(lines[i])
    {
      assert NbspToSpace(lines[i]) == lines[i];
    }
    Idempotent(markdown);
  }

  // ---- Fences ----

  // A closed fence comes out verbatim: the opening line is cleaned, everything up
  // to and including the closing line is as it was.
  lemma FenceIsVerbatim(
    before: seq<string>, opening: string, inside: seq<string>, closing: string, after: seq<string>)
    requires FenceAfter(before).Closed? && FenceOf(opening).Some?
    requires var f := NextFence(Closed, opening);
      (forall k :: 0 <= k < |inside| ==> !ClosesFence(f, inside[k])) && ClosesFence(f, closing)
    ensures Out(before) + [Clean(opening)] + inside + [closing]
         <= NormalLines(before + [opening] + inside + [closing] + after)
    ensures FenceAfter(before + [opening] + inside + [closing]).Closed?
  {
    var f := NextFence(Closed, opening);
    OutSnoc(before, opening);
    InsideIsVerbatim(before + [opening], inside, f);
    OutSnoc(before + [opening] + inside, closing);
    OutGrows(before + [opening] + inside + [closing], after);
    FenceIsNotBlank(closing);
    hide Out, FenceAfter, DropBlankTail, FenceOf, Clean;
    BlockStays(Out(before) + [Clean(opening)] + inside, closing, Out(before + [opening] + inside + [closing] + after));
  }

  lemma BlockStays(front: seq<string>, line: string, whole: seq<string>)
    requires line != "" && front + [line] <= whole
    ensures front + [line] <= DropBlankTail(whole)
  {
    assert whole[|front|] == line;
    TailStartsAfter(whole, |front|);
  }

  lemma FenceIsNotBlank(line: string)
    requires FenceOf(line).Some?
    ensures line != ""
  {
  }

  lemma {:induction false} InsideIsVerbatim(lines: seq<string>, inside: seq<string>, f: Fence)
    requires f.Open? && FenceAfter(lines) == f
    requires forall k :: 0 <= k < |inside| ==> !ClosesFence(f, inside[k])
    ensures Out(lines + inside) == Out(lines) + inside && FenceAfter(lines + inside) == f
  {
    hide Out, FenceAfter, ClosesFence;
    if inside == [] {
      assert lines + inside == lines;
    } else {
      var n := |inside| - 1;
      InsideIsVerbatim(lines, inside[..n], f);
      OutSnoc(lines + inside[..n], inside[n]);
      assert lines + inside[..n] + [inside[n]] == lines + inside;
    }
  }

  lemma {:induction false} OutGrows(lines: seq<string>, after: seq<string>)
    ensures Out(lines) <= Out(lines + after)
  {
    hide Out, FenceAfter;
    if after == [] {
      assert lines + after == lines;
    } else {
      var n := |after| - 1;
      OutGrows(lines, after[..n]);
      OutSnoc(lines + after[..n], after[n]);
      assert lines + after[..n] + [after[n]] == lines + after;
    }
  }

  lemma {:induction false} TailStartsAfter(lines: seq<string>, k: nat)
    requires k < |lines| && lines[k] != ""
    ensures k < |DropBlankTail(lines)|
  {
    if lines[|lines| - 1] == "" {
      TailStartsAfter(lines[..|lines| - 1], k);
    }
  }

  // ---- Nothing but white space changes ----

  // The cleaned lines that are not blank, in order.
  function Words(lines: seq<string>): seq<string> {
    if |lines| == 0 then []
    else Words(lines[..|lines| - 1]) + NonBlank(Clean(lines[|lines| - 1]))
  }

  function NonBlank(line: string): seq<string> {
    if line == "" then [] else [line]
  }

  lemma WordsSnoc(lines: seq<string>, line: string)
    ensures Words(lines + [line]) == Words(lines) + NonBlank(Clean(line))
  {
    assert (lines + [line])[..|lines|] == lines;
  }

  lemma {:induction false} OutKeepsWords(lines: seq<string>)
    ensures Words(Out(lines)) == Words(lines)
  {
    if |lines| > 0 {
      var n := |lines| - 1;
      var out, raw := Out(lines[..n]), lines[n];
      OutKeepsWords(lines[..n]);
      WordsSnoc(out, raw);
      WordsSnoc(out, Clean(raw));
      CleanStable(raw);
    }
  }

  lemma {:induction false} TailKeepsWords(lines: seq<string>)
    ensures Words(DropBlankTail(lines)) == Words(lines)
  {
    if lines != [] && lines[|lines| - 1] == "" {
      TailKeepsWords(lines[..|lines| - 1]);
      assert Clean("") == "";
    }
  }

  // No line of text is lost, added or moved, whatever the fences and no-break spaces.
  lemma WordsSurvive(lines: seq<string>)
    ensures Words(NormalLines(lines)) == Words(lines)
  {
    OutKeepsWords(lines);
    TailKeepsWords(Out(lines));
  }

  // A no-break space in front of a fence shows that idempotence needs its condition:
  // the first pass turns it into a fence that the second pass sees.
  const HIDDEN := [[NBSP] + "```", "```", "a "]

  lemma HiddenFence()
    ensures !NoHiddenFence(HIDDEN)
    ensures NormalLines(HIDDEN) == [" ```", "```", "a "]
    ensures NormalLines(NormalLines(HIDDEN)) == [" ```", "```", "a"]
  {
    TickMarks();
    OtherMarks();
    hide FenceOf, Clean, Out, FenceAfter, NbspToSpace;
    assert !NotHidden(HIDDEN[0]);
    NoLines();
    OutSnoc([], HIDDEN[0]);
    OutSnoc([HIDDEN[0]], "```");
    OutSnoc([HIDDEN[0], "```"], "a ");
    OutSnoc([], " ```");
    OutSnoc([" ```"], "```");
    OutSnoc([" ```", "```"], "a ");
    assert [] + [HIDDEN[0]] == [HIDDEN[0]] && [] + [" ```"] == [" ```"];
    assert [HIDDEN[0]] + ["```"] == [HIDDEN[0], "```"] && [" ```"] + ["```"] == [" ```", "```"];
    assert [HIDDEN[0], "```"] + ["a "] == HIDDEN;
    assert [" ```", "```"] + ["a "] == [" ```", "```", "a "] && [" ```", "```"] + ["a"] == [" ```", "```", "a"];
  }

  // On the text itself.
  lemma HiddenFenceInText()
    ensures var markdown := Join(HIDDEN, "\n");
      Normalized(Normalized(markdown)) != Normalized(markdown) && !AllSettled(Split(markdown, "\n"))
  {
    var markdown, once, twice := Join(HIDDEN, "\n"), [" ```", "```", "a "], [" ```", "```", "a"];
    HiddenFence();
    hide Join, Split, NormalLines;
    SplitJoin(HIDDEN);
    SplitJoin(once);
    SplitJoin(twice);
    assert Normalized(markdown) == Join(once, "\n");
    assert Normalized(Normalized(markdown)) == Join(twice, "\n");
    IdempotentIffSettled(markdown);
  }

  lemma NoLines()
    ensures Out([]) == [] && FenceAfter([]) == Closed && NormalLines([""]) == []
  {
    OutSnoc([], "");
    assert [] + [""] == [""];
  }

  lemma TickMarks()
    ensures FenceOf("```") == Some(Marker('`', 3, "")) && Clean("```") == "```"
    ensures FenceOf(" ```") == Some(Marker('`', 3, "")) && Clean(" ```") == " ```"
  {
    Ticks();
    assert " ```"[1..] == "```" && " ```"[4..] == "" && "```"[3..] == "" && "```"[0..] == "```";
    assert NbspToSpace("```") == "```" && NbspToSpace(" ```") == " ```";
  }

  lemma Ticks()
    ensures Leading("```", '`') == 3 && Leading("```", ' ') == 0 && Leading(" ```", ' ') == 1
  {
    assert " ```"[1..] == "```" && "```"[1..] == "``" && "``"[1..] == "`" && "`"[1..] == "";
  }

  lemma OtherMarks()
    ensures FenceOf([NBSP] + "```").None? && Clean([NBSP] + "```") == " ```"
    ensures NbspToSpace([NBSP] + "```") == " ```"
    ensures FenceOf("a ").None? && Clean("a ") == "a"
  {
    assert NbspToSpace([NBSP] + "```") == " ```" && NbspToSpace("a ") == "a ";
    assert "a "[..1] == "a";
  }
}
