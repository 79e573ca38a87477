// Fenced code blocks as section 4.5 of CommonMark 0.31 describes them, and where the
// normaliser's fences differ.
module CommonMark {
  import opened Wrappers
  import opened Strings
  import opened Markdown

  function Repeat(c: char, n: nat): (r: string)
    ensures |r| == n && forall i :: 0 <= i < n ==> r[i] == c
  {
    seq(n, i requires 0 <= i < n => c)
  }

  // A code fence: up to three spaces, then at least three backticks or tildes, all of
  // them, then the rest of the line.
  predicate IsFenceLine(line: string, indent: nat, mark: char, length: nat, rest: string) {
    && indent <= 3 && mark in "`~" && length >= 3
    && (rest == "" || rest[0] != mark)
    && line == Repeat(' ', indent) + Repeat(mark, length) + rest
  }

  // An opening fence: the info string behind backticks holds no backtick.
  ghost predicate OpensFence(line: string, mark: char, length: nat) {
    exists indent, rest :: IsFenceLine(line, indent, mark, length, rest) && (mark == '`' ==> '`' !in rest)
  }

  // A closing fence: the same mark, at least as often, followed by spaces and tabs only.
  ghost predicate ClosesBlock(line: string, mark: char, length: nat) {
    exists indent: nat, n: nat, rest :: IsFenceLine(line, indent, mark, n, rest) && n >= length && SpacesAndTabs(rest)
  }

  predicate SpacesAndTabs(s: string) {
    forall i :: 0 <= i < |s| ==> s[i] == ' ' || s[i] == '\t'
  }

  lemma {:induction false} LeadingOfRepeat(c: char, n: nat, rest: string)
    requires rest == "" || rest[0] != c
    ensures Leading(Repeat(c, n) + rest, c) == n
  {
    if n > 0 {
      LeadingOfRepeat(c, n - 1, rest);
      assert (Repeat(c, n) + rest)[1..] == Repeat(c, n - 1) + rest;
    } else {
      assert Repeat(c, n) + rest == rest;
    }
  }

  lemma LeadingSplits(line: string, c: char)
    ensures line == Repeat(c, Leading(line, c)) + line[Leading(line, c)..]
  {
  }

  // The recogniser finds exactly the code fences.
  lemma FenceOfFenceLine(line: string, indent: nat, mark: char, length: nat, rest: string)
    requires IsFenceLine(line, indent, mark, length, rest)
    ensures FenceOf(line) == Some(Marker(mark, length, rest))
  {
    var tail := Repeat(mark, length) + rest;
    assert line == Repeat(' ', indent) + tail;
    LeadingOfRepeat(' ', indent, tail);
    assert line[indent..] == tail;
    LeadingOfRepeat(mark, length, rest);
    assert line[indent + length..] == rest;
  }

  lemma FenceLineOfFence(line: string)
    requires FenceOf(line).Some?
    ensures var m := FenceOf(line).value; IsFenceLine(line, Leading(line, ' '), m.mark, m.length, m.rest)
  {
    var n := Leading(line, ' ');
    var tail := line[n..];
    var m := FenceOf(line).value;
    assert tail[0] == line[n] && tail[m.length..] == m.rest;
    hide Leading;
    LeadingSplits(line, ' ');
    LeadingSplits(tail, m.mark);
    Associate(Repeat(' ', n), Repeat(m.mark, m.length), m.rest);
  }

  lemma Associate(a: string, b: string, c: string)
    ensures a + (b + c) == a + b + c
  {
  }

  // The normaliser opens a fence where CommonMark does, and also where the info string
  // behind backticks holds a backtick.
  lemma OpensIff(line: string, mark: char, length: nat)
    ensures OpensFence(line, mark, length) <==>
      NextFence(Closed, line) == Open(mark, length) && !(mark == '`' && '`' in FenceOf(line).value.rest)
  {
    if OpensFence(line, mark, length) {
      var indent, rest :| IsFenceLine(line, indent, mark, length, rest) && (mark == '`' ==> '`' !in rest);
      FenceOfFenceLine(line, indent, mark, length, rest);
    }
    if FenceOf(line).Some? {
      FenceLineOfFence(line);
    }
  }

  // It closes a fence where CommonMark does, and also where the marker is followed by
  // white space other than spaces and tabs.
  lemma ClosesIff(line: string, mark: char, length: nat)
    ensures ClosesBlock(line, mark, length) <==>
      ClosesFence(Open(mark, length), line) && SpacesAndTabs(FenceOf(line).value.rest)
  {
    if ClosesBlock(line, mark, length) {
      var indent: nat, n: nat, rest :| IsFenceLine(line, indent, mark, n, rest) && n >= length && SpacesAndTabs(rest);
      FenceOfFenceLine(line, indent, mark, n, rest);
    }
    if FenceOf(line).Some? {
      FenceLineOfFence(line);
    }
  }

  lemma BacktickInInfoOpens()
    ensures NextFence(Closed, "```a`") == Open('`', 3) && !OpensFence("```a`", '`', 3)
  {
    assert "```a`" == Repeat(' ', 0) + Repeat('`', 3) + "a`";
    FenceOfFenceLine("```a`", 0, '`', 3, "a`");
    assert "a`"[1] == '`';
    OpensIff("```a`", '`', 3);
  }

  lemma NoBreakSpaceCloses()
    ensures ClosesFence(Open('`', 3), "```" + [NBSP]) && !ClosesBlock("```" + [NBSP], '`', 3)
  {
    var line := "```" + [NBSP];
    assert line == Repeat(' ', 0) + Repeat('`', 3) + [NBSP];
    FenceOfFenceLine(line, 0, '`', 3, [NBSP]);
    assert [NBSP][0] == NBSP;
    ClosesIff(line, '`', 3);
  }
}
