// Joining and splitting strings as the standard string methods do.
module Strings {
  import opened Wrappers

  function Join(parts: seq<string>, sep: string): string {
    if |parts| == 0 then ""
    else if |parts| == 1 then parts[0]
    else Join(parts[..|parts| - 1], sep) + sep + parts[|parts| - 1]
  }

  function Concat(parts: seq<string>): string {
    if |parts| == 0 then "" else Concat(parts[..|parts| - 1]) + parts[|parts| - 1]
  }

  lemma ConcatSnoc(parts: seq<string>, p: string)
    ensures Concat(parts + [p]) == Concat(parts) + p
  {
    assert (parts + [p])[..|parts|] == parts;
  }

  lemma {:induction false} ConcatAppend(a: seq<string>, b: seq<string>)
    ensures Concat(a + b) == Concat(a) + Concat(b)
  {
    if |b| == 0 {
      assert a + b == a;
    } else {
      ConcatAppend(a, b[..|b| - 1]);
      assert (a + b)[..|a + b| - 1] == a + b[..|b| - 1];
    }
  }

  lemma JoinSnoc(parts: seq<string>, p: string, sep: string)
    requires |parts| > 0
    ensures Join(parts + [p], sep) == Join(parts, sep) + sep + p
  {
    assert (parts + [p])[..|parts|] == parts;
  }

  lemma {:induction false} JoinAppend(a: seq<string>, b: seq<string>, sep: string)
    requires |a| > 0 && |b| > 0
    ensures Join(a + b, sep) == Join(a, sep) + sep + Join(b, sep)
    decreases |b|
  {
    var n := |b| - 1;
    if n == 0 {
      JoinSnoc(a, b[0], sep);
      assert b == [b[0]];
      assert Join(b, sep) == b[0];
    } else {
      JoinAppend(a, b[..n], sep);
      JoinSnoc(a + b[..n], b[n], sep);
      JoinSnoc(b[..n], b[n], sep);
      hide Join;
      assert b == b[..n] + [b[n]];
      assert a + b == (a + b[..n]) + [b[n]];
      Reassociate(Join(a, sep), sep, Join(b[..n], sep), b[n]);
    }
  }

  lemma Reassociate(a: string, sep: string, b: string, c: string)
    ensures (a + sep + b) + sep + c == a + sep + (b + sep + c)
  {
  }

  lemma {:induction false} JoinEmptyIsConcat(parts: seq<string>)
    ensures Join(parts, "") == Concat(parts)
  {
    if |parts| > 1 {
      JoinEmptyIsConcat(parts[..|parts| - 1]);
    } else if |parts| == 1 {
      assert parts[..0] == [];
    }
  }

  // Taking the first part off a join.
  lemma {:induction false} JoinFront(parts: seq<string>, sep: string)
    requires |parts| > 1
    ensures Join(parts, sep) == parts[0] + sep + Join(parts[1..], sep)
  {
    var n := |parts|;
    if n == 2 {
      assert parts[..1] == [parts[0]] && parts[1..] == [parts[1]];
    } else {
      JoinFront(parts[..n - 1], sep);
      assert parts[..n - 1][1..] == parts[1..][..n - 2];
    }
  }

  predicate OccursAt(text: string, sep: string, i: nat) {
    i + |sep| <= |text| && text[i..i + |sep|] == sep
  }

  predicate Occurs(text: string, sep: string) {
    exists i :: 0 <= i <= |text| && OccursAt(text, sep, i)
  }

  // The first position of `sep` at or after `from`, or the length of the text.
  function Find(text: string, sep: string, from: nat): (k: nat)
    requires from <= |text|
    ensures from <= k <= |text|
    ensures k < |text| ==> OccursAt(text, sep, k)
    ensures forall j :: from <= j < k ==> !OccursAt(text, sep, j)
    decreases |text| - from
  {
    if from == |text| || OccursAt(text, sep, from) then from else Find(text, sep, from + 1)
  }

  // `text.split(sep)`: cut at the leftmost non-overlapping occurrences.
  function Split(text: string, sep: string): (parts: seq<string>)
    requires sep != ""
    ensures |parts| >= 1
    decreases |text|
  {
    var k := Find(text, sep, 0);
    if k == |text| then [text] else [text[..k]] + Split(text[k + |sep|..], sep)
  }

  lemma JoinHead(head: string, rest: seq<string>, sep: string)
    requires |rest| > 0
    ensures Join([head] + rest, sep) == head + sep + Join(rest, sep)
  {
    JoinFront([head] + rest, sep);
    hide Join;
    assert ([head] + rest)[1..] == rest;
  }

  lemma CutAt(text: string, sep: string, k: nat)
    requires OccursAt(text, sep, k)
    ensures text == text[..k] + sep + text[k + |sep|..]
  {
  }

  // Joining the parts with the separator gives the text back.
  lemma {:induction false} JoinSplit(text: string, sep: string)
    requires sep != ""
    ensures Join(Split(text, sep), sep) == text
    decreases |text|
  {
    var k := Find(text, sep, 0);
    if k < |text| {
      JoinSplit(text[k + |sep|..], sep);
      JoinHead(text[..k], Split(text[k + |sep|..], sep), sep);
      CutAt(text, sep, k);
    }
  }

  // No part hides a separator, and each separator is the leftmost that there is.
  predicate Leftmost(parts: seq<string>, sep: string) {
    && |parts| > 0 && !Occurs(parts[|parts| - 1], sep)
    && forall i :: 0 <= i < |parts| - 1 ==> FirstAtEnd(parts[i], sep)
  }

  predicate FirstAtEnd(part: string, sep: string) {
    forall j :: 0 <= j < |part| ==> !OccursAt(part + sep, sep, j)
  }

  lemma FindNone(text: string, sep: string)
    requires sep != ""
    ensures Find(text, sep, 0) == |text| <==> !Occurs(text, sep)
  {
    assert !OccursAt(text, sep, |text|);
  }

  lemma OccursInFront(text: string, part: string, sep: string, j: nat)
    requires part + sep <= text && j <= |part|
    ensures OccursAt(text, sep, j) <==> OccursAt(part + sep, sep, j)
  {
    assert text[j..j + |sep|] == (part + sep)[j..j + |sep|];
  }

  lemma {:induction false} SplitIsLeftmost(text: string, sep: string)
    requires sep != ""
    ensures Leftmost(Split(text, sep), sep)
    decreases |text|
  {
    var k := Find(text, sep, 0);
    FindNone(text, sep);
    if k < |text| {
      var rest := Split(text[k + |sep|..], sep);
      SplitIsLeftmost(text[k + |sep|..], sep);
      CutAt(text, sep, k);
      forall j | 0 <= j < k
        ensures !OccursAt(text[..k] + sep, sep, j)
      {
        OccursInFront(text, text[..k], sep, j);
      }
      hide Occurs, Find;
      assert FirstAtEnd(text[..k], sep);
    }
  }

  // Only the split has this property.
  lemma {:induction false} SplitIsUnique(text: string, sep: string, parts: seq<string>)
    requires sep != "" && Leftmost(parts, sep) && Join(parts, sep) == text
    ensures parts == Split(text, sep)
    decreases |parts|
  {
    FindNone(text, sep);
    if |parts| == 1 {
      assert parts == [parts[0]];
    } else {
      var p, rest := parts[0], parts[1..];
      JoinFront(parts, sep);
      assert FirstAtEnd(p, sep);
      forall j | 0 <= j <= |p|
        ensures OccursAt(text, sep, j) <==> j == |p|
      {
        OccursInFront(text, p, sep, j);
      }
      assert OccursAt(text, sep, |p|) && |p| < |text|;
      var k := Find(text, sep, 0);
      assert OccursAt(text, sep, k);
      assert text[|p| + |sep|..] == Join(rest, sep);
      assert parts == [p] + rest && text[..|p|] == p;
      hide Join, Occurs, OccursAt, Find;
      assert forall i :: 0 <= i < |rest| ==> rest[i] == parts[i + 1];
      SplitIsUnique(text[|p| + |sep|..], sep, rest);
    }
  }

  const NBSP := '\U{00A0}'

  // The characters that `str.strip` removes.
  predicate IsSpace(c: char) {
    || c == ' ' || '\t' <= c <= '\r' || '\U{001C}' <= c <= '\U{001F}' || c == '\U{0085}' || c == NBSP
    || c == '\U{1680}' || '\U{2000}' <= c <= '\U{200A}' || c == '\U{2028}' || c == '\U{2029}'
    || c == '\U{202F}' || c == '\U{205F}' || c == '\U{3000}'
  }

  predicate IsBlank(s: string) {
    forall i :: 0 <= i < |s| ==> IsSpace(s[i])
  }
}
