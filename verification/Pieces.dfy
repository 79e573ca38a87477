// The pieces that a text falls into at one separator, with the separators kept
// at the end or at the start of the pieces.
module Pieces {
  import opened Strings

  // Each part but the last with the separator behind it; a separator after an
  // empty part goes to the piece before.
  function EndPieces(parts: seq<string>, sep: string): seq<string> {
    if |parts| == 0 then []
    else
      var front, p := EndPieces(parts[..|parts| - 1], sep), parts[|parts| - 1];
      if p != "" then front + [p + sep]
      else if front != [] then front[|front| - 1 := front[|front| - 1] + sep]
      else [sep]
  }

  // The first part, then each part with the separator in front of it.
  function StartPieces(parts: seq<string>, sep: string): seq<string> {
    if |parts| == 0 then []
    else if |parts| == 1 then if parts[0] != "" then [parts[0]] else []
    else StartPieces(parts[..|parts| - 1], sep) + [sep + parts[|parts| - 1]]
  }

  function Chars(text: string): (r: seq<string>)
    ensures |r| == |text| && forall i :: 0 <= i < |text| ==> r[i] == [text[i]]
  {
    seq(|text|, i requires 0 <= i < |text| => [text[i]])
  }

  predicate AllNonEmpty(pieces: seq<string>) {
    forall i :: 0 <= i < |pieces| ==> pieces[i] != ""
  }

  lemma LastGrows(pieces: seq<string>, sep: string)
    requires pieces != []
    ensures var last := |pieces| - 1;
      Concat(pieces[last := pieces[last] + sep]) == Concat(pieces) + sep
  {
    var last := |pieces| - 1;
    ConcatSnoc(pieces[..last], pieces[last]);
    ConcatSnoc(pieces[..last], pieces[last] + sep);
    hide Concat;
    assert pieces == pieces[..last] + [pieces[last]];
    assert pieces[last := pieces[last] + sep] == pieces[..last] + [pieces[last] + sep];
  }

  lemma {:induction false} EndPiecesNotEmpty(parts: seq<string>, sep: string)
    requires sep != "" && |parts| > 0
    ensures AllNonEmpty(EndPieces(parts, sep)) && EndPieces(parts, sep) != []
  {
    var n := |parts| - 1;
    if n > 0 {
      EndPiecesNotEmpty(parts[..n], sep);
    } else {
      assert EndPieces(parts[..n], sep) == [];
    }
  }

  lemma {:induction false} EndPiecesLoseNothing(parts: seq<string>, sep: string)
    requires sep != "" && |parts| > 0
    ensures Concat(EndPieces(parts, sep)) == Join(parts, sep) + sep
  {
    var n := |parts| - 1;
    var front, p := EndPieces(parts[..n], sep), parts[n];
    assert parts == parts[..n] + [p];
    if n > 0 {
      EndPiecesNotEmpty(parts[..n], sep);
      EndPiecesLoseNothing(parts[..n], sep);
      JoinSnoc(parts[..n], p, sep);
      hide Join, Concat, AllNonEmpty;
      if p == "" {
        LastGrows(front, sep);
      } else {
        ConcatSnoc(front, p + sep);
        assert Join(parts[..n], sep) + sep + (p + sep) == Join(parts[..n], sep) + sep + p + sep;
      }
    } else {
      assert p + sep == if p == "" then sep else p + sep;
      assert EndPieces(parts, sep) == [] + [p + sep];
      ConcatSnoc([], p + sep);
    }
  }

  lemma NotSplit(text: string, sep: string)
    requires sep != "" && !Occurs(text, sep)
    ensures Split(text, sep) == [text] && Concat([text]) == text && (text != "" ==> AllNonEmpty([text]))
  {
    assert Find(text, sep, 0) == |text|;
    ConcatSnoc([], text);
    assert [] + [text] == [text];
  }

  // The separators behind all parts but the last, and then the last part.
  lemma TailPieces(parts: seq<string>, sep: string)
    requires sep != "" && |parts| > 0
    ensures var front, last := EndPieces(parts[..|parts| - 1], sep), parts[|parts| - 1];
            var pieces := if last != "" then front + [last] else front;
      Concat(pieces) == Join(parts, sep) && AllNonEmpty(pieces)
  {
    var n := |parts| - 1;
    var front, last := EndPieces(parts[..n], sep), parts[n];
    ConcatSnoc(front, last);
    assert parts == parts[..n] + [last];
    if n > 0 {
      hide Join, Concat, EndPieces;
      EndPiecesNotEmpty(parts[..n], sep);
      EndPiecesLoseNothing(parts[..n], sep);
      JoinSnoc(parts[..n], last, sep);
    } else {
      hide Concat;
    }
  }

  lemma {:induction false} StartPiecesLoseNothing(parts: seq<string>, sep: string)
    requires sep != ""
    ensures Concat(StartPieces(parts, sep)) == Join(parts, sep)
    ensures AllNonEmpty(StartPieces(parts, sep))
  {
    if |parts| > 1 {
      var n := |parts| - 1;
      StartPiecesLoseNothing(parts[..n], sep);
      ConcatSnoc(StartPieces(parts[..n], sep), sep + parts[n]);
    } else if |parts| == 1 && parts[0] != "" {
      ConcatSnoc([], parts[0]);
      assert [] + [parts[0]] == [parts[0]];
    }
  }

  lemma {:induction false} CharsConcat(text: string)
    ensures Concat(Chars(text)) == text && AllNonEmpty(Chars(text))
  {
    if text != "" {
      CharsConcat(text[..|text| - 1]);
      assert Chars(text)[..|text| - 1] == Chars(text[..|text| - 1]);
    }
  }

  // ---- Where the separators go ----

  function Times(sep: string, m: nat): string {
    if m == 0 then "" else Times(sep, m - 1) + sep
  }

  // `piece` is text without the separator, followed by `m` separators.
  predicate EndsWithSeparators(piece: string, sep: string, m: nat) {
    exists k: nat :: k <= |piece| && !Occurs(piece[..k], sep) && piece[k..] == Times(sep, m)
  }

  ghost predicate AtEnd(piece: string, sep: string) {
    exists m: nat :: m > 0 && EndsWithSeparators(piece, sep, m)
  }

  // Only the first piece may consist of separators alone.
  predicate BeginsWithText(piece: string, sep: string) {
    piece != "" && !OccursAt(piece, sep, 0)
  }

  predicate AtStart(piece: string, sep: string) {
    sep <= piece && !Occurs(piece[|sep|..], sep)
  }

  lemma TakesSeparator(part: string, sep: string)
    requires !Occurs(part, sep)
    ensures AtEnd(part + sep, sep)
  {
    assert (part + sep)[..|part|] == part;
    assert Times(sep, 0) == "" && Times(sep, 1) == "" + sep;
    assert (part + sep)[|part|..] == Times(sep, 1);
    assert EndsWithSeparators(part + sep, sep, 1);
  }

  lemma TakesAnother(piece: string, sep: string)
    requires AtEnd(piece, sep)
    ensures AtEnd(piece + sep, sep) && |piece| >= |sep|
  {
    var m: nat :| m > 0 && EndsWithSeparators(piece, sep, m);
    var k: nat :| k <= |piece| && !Occurs(piece[..k], sep) && piece[k..] == Times(sep, m);
    var more := piece + sep;
    assert more[..k] == piece[..k];
    assert more[k..] == Times(sep, m) + sep == Times(sep, m + 1);
    assert |piece| >= |piece[k..]| == |Times(sep, m - 1)| + |sep|;
    assert EndsWithSeparators(more, sep, m + 1);
  }

  predicate NoneOccurs(parts: seq<string>, sep: string) {
    forall i :: 0 <= i < |parts| ==> !Occurs(parts[i], sep)
  }

  lemma PartsHideNothing(parts: seq<string>, sep: string)
    requires sep != "" && Leftmost(parts, sep)
    ensures NoneOccurs(parts, sep)
  {
    forall i | 0 <= i < |parts| - 1
      ensures !Occurs(parts[i], sep)
    {
      NothingHidden(parts[i], sep);
    }
  }

  lemma NothingHidden(part: string, sep: string)
    requires sep != "" && FirstAtEnd(part, sep)
    ensures !Occurs(part, sep)
  {
    forall j | 0 <= j <= |part|
      ensures !OccursAt(part, sep, j)
    {
      if j + |sep| <= |part| {
        assert !OccursAt(part + sep, sep, j);
        assert (part + sep)[j..j + |sep|] == part[j..j + |sep|];
      }
    }
  }

  predicate OnlyText(piece: string, sep: string) {
    piece != "" && !Occurs(piece, sep)
  }

  ghost predicate EndPlaced(pieces: seq<string>, sep: string) {
    forall i :: 0 <= i < |pieces| ==> EndPiece(pieces[i], sep, i)
  }

  // A text and the separators behind it; only the first piece may lack the text.
  ghost predicate EndPiece(piece: string, sep: string, i: nat) {
    AtEnd(piece, sep) && (i > 0 ==> BeginsWithText(piece, sep))
  }

  lemma {:induction false} EndPiecesPlaced(parts: seq<string>, sep: string)
    requires sep != "" && forall i :: 0 <= i < |parts| ==> FirstAtEnd(parts[i], sep)
    ensures EndPlaced(EndPieces(parts, sep), sep)
  {
    if |parts| > 0 {
      var n := |parts| - 1;
      var p, front := parts[n], EndPieces(parts[..n], sep);
      EndPiecesPlaced(parts[..n], sep);
      NothingHidden(p, sep);
      TakesSeparator(p, sep);
      if p != "" {
        TextThenSeparator(p, sep);
        assert EndPiece(p + sep, sep, |front|);
      } else if front != [] {
        var last := |front| - 1;
        assert EndPiece(front[last], sep, last);
        TakesAnother(front[last], sep);
        if last > 0 {
          StillText(front[last], sep);
        }
        assert EndPiece(front[last] + sep, sep, last);
      } else {
        assert p + sep == sep;
        assert EndPiece(sep, sep, 0);
      }
      hide EndPiece;
    }
  }

  lemma TextThenSeparator(part: string, sep: string)
    requires part != "" && FirstAtEnd(part, sep)
    ensures BeginsWithText(part + sep, sep)
  {
    assert !OccursAt(part + sep, sep, 0);
  }

  lemma StillText(piece: string, sep: string)
    requires BeginsWithText(piece, sep) && |piece| >= |sep|
    ensures BeginsWithText(piece + sep, sep)
  {
  }

  predicate StartPlaced(pieces: seq<string>, sep: string) {
    forall i :: 0 <= i < |pieces| ==> StartPiece(pieces[i], sep, i)
  }

  // A separator and the text behind it; only the first piece may lack the separator.
  predicate StartPiece(piece: string, sep: string, i: nat) {
    AtStart(piece, sep) || (i == 0 && !Occurs(piece, sep))
  }

  lemma {:induction false} StartPiecesPlaced(parts: seq<string>, sep: string)
    requires sep != "" && NoneOccurs(parts, sep)
    ensures StartPlaced(StartPieces(parts, sep), sep)
  {
    if |parts| > 1 {
      var n := |parts| - 1;
      StartPiecesPlaced(parts[..n], sep);
      assert (sep + parts[n])[|sep|..] == parts[n];
      assert AtStart(sep + parts[n], sep);
    }
  }

  // The first separator of the hierarchy that occurs, and those after it.
  function Choose(text: string, separators: seq<string>): (r: (string, seq<string>))
    requires |separators| > 0
    ensures |r.1| < |separators|
  {
    if separators[0] == "" then ("", [])
    else if Occurs(text, separators[0]) then (separators[0], separators[1..])
    else if |separators| == 1 then (separators[0], [])
    else Choose(text, separators[1..])
  }

  predicate Hits(text: string, sep: string) {
    sep == "" || Occurs(text, sep)
  }

  // The choice falls on the first separator that is empty or occurs, with those behind it still
  // to come (none behind the empty one); if there is none, on the last one.
  lemma {:induction false} ChoiceIsFirst(text: string, separators: seq<string>, k: nat)
    requires k < |separators| && forall j :: 0 <= j < k ==> !Hits(text, separators[j])
    requires Hits(text, separators[k]) || k == |separators| - 1
    ensures Choose(text, separators).0 == separators[k]
    ensures Choose(text, separators).1 == if separators[k] == "" then [] else separators[k + 1..]
  {
    if k > 0 {
      assert !Hits(text, separators[0]);
      assert forall j :: 0 <= j < k - 1 ==> separators[1..][j] == separators[j + 1];
      ChoiceIsFirst(text, separators[1..], k - 1);
      assert separators[1..][k..] == separators[k + 1..];
    }
  }
}
