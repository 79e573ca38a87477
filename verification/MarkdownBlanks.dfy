// What becomes of blank lines outside fences.
module MarkdownBlanks {
  import opened Wrappers
  import opened Strings
  import opened Markdown

  // Nothing but spaces, tabs and no-break spaces.
  predicate LooksBlank(raw: string) {
    forall i :: 0 <= i < |raw| ==> raw[i] == ' ' || raw[i] == '\t' || raw[i] == NBSP
  }

  predicate AllLookBlank(lines: seq<string>) {
    forall i :: 0 <= i < |lines| ==> LooksBlank(lines[i])
  }

  lemma BlankIsCleanedAway(raw: string)
    ensures Clean(raw) == "" <==> LooksBlank(raw)
    ensures LooksBlank(raw) ==> FenceOf(raw).None?
  {
    var s := NbspToSpace(raw);
    if Clean(raw) == "" {
      forall i | 0 <= i < |raw|
        ensures raw[i] == ' ' || raw[i] == '\t' || raw[i] == NBSP
      {
        assert s[i] == ' ' || s[i] == '\t';
      }
    }
  }

  // Behind a line of text any run of blank lines becomes one, and in front of all text it goes.
  lemma {:induction false} BlankRunCollapses(lines: seq<string>, blanks: seq<string>)
    requires FenceAfter(lines).Closed? && AllLookBlank(blanks)
    requires Out(lines) == [] || Out(lines)[|Out(lines)| - 1] != ""
    ensures Out(lines + blanks) == if Out(lines) == [] || blanks == [] then Out(lines) else Out(lines) + [""]
    ensures FenceAfter(lines + blanks).Closed?
  {
    if blanks == [] {
      assert lines + blanks == lines;
    } else {
      var n := |blanks| - 1;
      BlankRunCollapses(lines, blanks[..n]);
      assert lines + blanks[..n] + [blanks[n]] == lines + blanks;
      OutSnoc(lines + blanks[..n], blanks[n]);
      BlankIsCleanedAway(blanks[n]);
      hide Out, FenceAfter, Clean, FenceOf;
    }
  }

  // Two lines of text outside fences with blank lines between them come out with one blank line
  // between them, and next to each other if there was none.
  lemma ParagraphsStayApart(lines: seq<string>, first: string, blanks: seq<string>, second: string)
    requires FenceAfter(lines).Closed? && AllLookBlank(blanks)
    requires !LooksBlank(first) && FenceOf(first).None? && !LooksBlank(second)
    ensures Out(lines + [first] + blanks + [second])
         == Out(lines) + [Clean(first)] + (if blanks == [] then [] else [""]) + [Clean(second)]
  {
    BlankIsCleanedAway(first);
    BlankIsCleanedAway(second);
    hide Out, FenceAfter, Clean, FenceOf, LooksBlank;
    OutSnoc(lines, first);
    BlankRunCollapses(lines + [first], blanks);
    OutSnoc(lines + [first] + blanks, second);
  }
}
