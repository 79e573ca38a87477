// The recursive text splitter: split at the first separator of the hierarchy
// that occurs, merge small pieces into overlapping chunks, recurse into pieces
// that are too long, and cut by length when no separator is left.
module Splitter {
  import opened Wrappers
  import opened Strings
  import opened Chunking
  import opened Pieces
  import opened Windows

  datatype Splitter = Splitter(
    chunkSize: int, chunkOverlap: int, keep: bool, keepAtStart: bool, separators: seq<string>)
  {
    predicate Valid() {
      chunkSize > 0 && 0 <= chunkOverlap < chunkSize && |separators| > 0
    }

    // The pieces that the text falls into at one level.
    function Pieces(text: string, sep: string): seq<string> {
      if sep == "" then Chars(text)
      else
        var parts := Split(text, sep);
        if !keep || !Occurs(text, sep) then parts
        else if keepAtStart then StartPieces(parts, sep)
        else
          var front, last := EndPieces(parts[..|parts| - 1], sep), parts[|parts| - 1];
          if last != "" then front + [last] else front
    }

    lemma PiecesLoseNothing(text: string, sep: string)
      requires keep || sep == ""
      ensures Concat(Pieces(text, sep)) == text
      ensures text != "" ==> AllNonEmpty(Pieces(text, sep))
    {
      hide Join, Concat, EndPieces, StartPieces, Split, Occurs, AllNonEmpty, Chars;
      if sep == "" {
        CharsConcat(text);
      } else {
        var parts := Split(text, sep);
        JoinSplit(text, sep);
        if !Occurs(text, sep) {
          NotSplit(text, sep);
        } else if keepAtStart {
          StartPiecesLoseNothing(parts, sep);
        } else {
          TailPieces(parts, sep);
        }
      }
    }

    // Kept separators stand where they are asked for, and a piece holds one text and its separators
    // and no more; at the end the last piece may have no separator.
    lemma PiecesPlaced(text: string, sep: string)
      requires keep && sep != "" && text != ""
      ensures var r := Pieces(text, sep);
        && (keepAtStart ==> StartPlaced(r, sep))
        && (!keepAtStart ==>
              EndPlaced(r, sep) || (r != [] && EndPlaced(r[..|r| - 1], sep) && OnlyText(r[|r| - 1], sep)))
    {
      var parts := Split(text, sep);
      SplitIsLeftmost(text, sep);
      PartsHideNothing(parts, sep);
      if Occurs(text, sep) {
        if keepAtStart {
          StartPiecesPlaced(parts, sep);
        } else {
          EndPiecesPlaced(parts[..|parts| - 1], sep);
          var front := EndPieces(parts[..|parts| - 1], sep);
          assert (front + [parts[|parts| - 1]])[..|front|] == front;
        }
      } else {
        NotSplit(text, sep);
        assert [text][..0] == [];
      }
    }

    method SplitTextWithSeparator(text: string, separator: string) returns (splits: seq<string>)
      ensures splits == Pieces(text, separator)
    {
      if separator == "" {
        return Chars(text);
      }
      if keep && Occurs(text, separator) {
        var parts := Split(text, separator);
        splits := [];
        if keepAtStart {
          for i := 0 to |parts|
            invariant splits == StartPieces(parts[..i], separator)
          {
            assert parts[..i + 1][..i] == parts[..i];
            if i == 0 {
              if parts[i] != "" {
                splits := splits + [parts[i]];
              }
            } else if parts[i] != "" {
              splits := splits + [separator + parts[i]];
            } else {
              assert separator + parts[i] == separator;
              splits := splits + [separator];
            }
          }
          assert parts[..|parts|] == parts;
        } else {
          for i := 0 to |parts|
            invariant i < |parts| ==> splits == EndPieces(parts[..i], separator)
            invariant i == |parts| ==> splits == Pieces(text, separator)
          {
            assert i < |parts| - 1 ==> parts[..i + 1][..i] == parts[..i];
            if i < |parts| - 1 {
              if parts[i] != "" {
                splits := splits + [parts[i] + separator];
              } else if splits != [] {
                splits := splits[|splits| - 1 := splits[|splits| - 1] + separator];
              } else {
                splits := splits + [separator];
              }
            } else if parts[i] != "" {
              splits := splits + [parts[i]];
            }
          }
        }
        return splits;
      }
      return Split(text, separator);
    }

    // Drop pieces from the front of the window until it respects the overlap and
    // the next piece fits, and no more than that.
    method ShrinkWindow(window: seq<string>, joined: int, lenToAdd: int, separator: string)
      returns (current: seq<string>, total: int, ghost dropped: nat)
      requires Valid() && (keep ==> separator == "")
      requires window != [] && joined == |Join(window, separator)|
      ensures dropped <= |window| && current == window[dropped..]
      ensures total == |Join(current, separator)|
      ensures current != [] ==> total <= chunkOverlap && total + lenToAdd <= chunkSize
      ensures joined + lenToAdd > chunkSize ==> dropped > 0
      ensures forall d :: 0 <= d < dropped ==>
        |Join(window[d..], separator)| > chunkOverlap || |Join(window[d..], separator)| + lenToAdd > chunkSize
    {
      current, total, dropped := window, joined, 0;
      while current != [] && (total > chunkOverlap || total + lenToAdd > chunkSize)
        invariant dropped <= |window| && current == window[dropped..]
        invariant current != [] ==> total == |Join(current, separator)|
        invariant dropped == 0 ==> total == joined && current != []
        invariant forall d :: 0 <= d < dropped ==>
          |Join(window[d..], separator)| > chunkOverlap || |Join(window[d..], separator)| + lenToAdd > chunkSize
        decreases |current|
      {
        if |current| > 1 {
          JoinFront(current, separator);
        }
        var removed := current[0];
        current := current[1..];
        dropped := dropped + 1;
        total := total - |removed|;
        if !keep && separator != "" && current != [] {
          total := total - |separator|;
        }
      }
      if current == [] {
        total := 0;
      }
    }

    // Output the window as a chunk unless it joins to nothing.
    method Emit(docs: seq<string>, window: seq<string>, separator: string) returns (more: seq<string>)
      requires SizesOk(docs, chunkSize) && |Join(window, separator)| <= chunkSize
      ensures SizesOk(more, chunkSize)
      ensures more == docs + Emitted(window, separator)
    {
      var doc := Join(window, separator);
      if doc != "" {
        return docs + [doc];
      }
      return docs;
    }

    // What a new piece adds to a window: itself and, between pieces, a separator.
    function Added(split: string, window: seq<string>, separator: string): (n: nat)
      requires keep ==> separator == ""
      ensures n == |split| + if window != [] then |separator| else 0
    {
      if !keep && separator != "" && window != [] then |split| + |separator| else |split|
    }

    // The state of the merge loop before piece `n`; the window is splits[a..n].
    predicate Merging(
      splits: seq<string>, separator: string, n: nat, a: nat,
      current: seq<string>, total: int, docs: seq<string>)
    {
      && a <= n <= |splits| && (n > 0 ==> a < n)
      && current == splits[a..n]
      && total == |Join(current, separator)| <= chunkSize
      && SizesOk(docs, chunkSize)
      && (|Join(splits, separator)| <= chunkSize ==> docs == [] && a == 0)
    }

    // What the shrunk window still holds is the most that may be kept.
    lemma KeepsMost(splits: seq<string>, separator: string, a: nat, n: nat, b: nat)
      requires a <= b <= n < |splits|
      requires b < n ==>
        |Join(splits[b..n], separator)| <= chunkOverlap
        && |Join(splits[b..n], separator)| + |splits[n]| + |separator| <= chunkSize
      requires forall d :: 0 <= d < b - a ==>
        var rest := splits[a..n][d..];
        |Join(rest, separator)| > chunkOverlap || |Join(rest, separator)| + |splits[n]| + |separator| > chunkSize
      ensures MayKeep(splits, separator, b, n, chunkSize, chunkOverlap)
      ensures forall d :: a <= d < b ==> !MayKeep(splits, separator, d, n, chunkSize, chunkOverlap)
    {
      forall d | a <= d < b
        ensures !MayKeep(splits, separator, d, n, chunkSize, chunkOverlap)
      {
        assert splits[a..n][d - a..] == splits[d..n];
      }
    }

    // Output the full window and keep as much of it as the overlap and the next piece allow.
    method CloseWindow(
      splits: seq<string>, separator: string, ghost n: nat, ghost a: nat, current: seq<string>, total: int,
      lenToAdd: int, docs: seq<string>)
      returns (window: seq<string>, joined: int, chunks: seq<string>, ghost b: nat)
      requires Valid() && (keep ==> separator == "") && a < n < |splits| && current == splits[a..n]
      requires total == |Join(current, separator)| <= chunkSize && SizesOk(docs, chunkSize)
      requires lenToAdd == |splits[n]| + |separator| && total + lenToAdd > chunkSize
      ensures a < b <= n && window == splits[b..n] && joined == |Join(window, separator)|
      ensures window != [] ==> joined <= chunkOverlap && joined + lenToAdd <= chunkSize
      ensures SizesOk(chunks, chunkSize) && chunks == docs + Emitted(current, separator)
      ensures MayKeep(splits, separator, b, n, chunkSize, chunkOverlap)
      ensures forall d :: a <= d < b ==> !MayKeep(splits, separator, d, n, chunkSize, chunkOverlap)
    {
      chunks := Emit(docs, current, separator);
      ghost var dropped;
      window, joined, dropped := ShrinkWindow(current, total, lenToAdd, separator);
      b := a + dropped;
      assert window == splits[b..n];
      KeepsMost(splits, separator, a, n, b);
    }

    // One turn of the merge loop keeps what is known of the chunks and of the windows.
    lemma TurnDone(
      splits: seq<string>, separator: string, n: nat, a: nat, b: nat, total: int,
      before: seq<string>, beforeSpans: seq<Span>, ws: seq<Window>,
      docs: seq<string>, spans: seq<Span>, vs: seq<Window>, seps: set<string>)
      requires Valid() && a <= b <= n < |splits| && (n > 0 ==> a < n) && |splits[n]| <= chunkSize
      requires (separator == "" || separator in seps) && total == |Join(splits[a..n], separator)|
      requires MergeInv(splits, separator, n, a, before, beforeSpans, chunkOverlap, seps)
      requires Windowed(splits, separator, n, a, before, beforeSpans, ws, chunkSize, chunkOverlap)
      requires a == b ==>
        && docs == before && spans == beforeSpans && vs == ws
        && (n > 0 ==> total + |splits[n]| + |separator| <= chunkSize)
      requires a < b ==>
        && docs == before + Emitted(splits[a..n], separator)
        && spans == Closed(splits, separator, a, n, beforeSpans) && vs == ws + [Window(a, n)]
        && total + |splits[n]| + |separator| > chunkSize
        && MayKeep(splits, separator, b, n, chunkSize, chunkOverlap)
        && forall d :: a <= d < b ==> !MayKeep(splits, separator, d, n, chunkSize, chunkOverlap)
      ensures MergeInv(splits, separator, n + 1, b, docs, spans, chunkOverlap, seps)
      ensures Windowed(splits, separator, n + 1, b, docs, spans, vs, chunkSize, chunkOverlap)
    {
      hide Windowed, MergeInv, Emitted, Closed;
      WindowStep(splits, separator, n, a, b, before, beforeSpans, ws, docs, spans, vs, chunkSize, chunkOverlap);
      MergeStep(splits, separator, n, a, b, before, beforeSpans, docs, spans, chunkOverlap, seps);
    }

    // Take one piece: if it does not fit, output the window and shrink it first.
    method TakePiece(
      splits: seq<string>, separator: string, n: nat, ghost a: nat, current: seq<string>, total: int,
      docs: seq<string>, ghost spans: seq<Span>, ghost ws: seq<Window>, ghost seps: set<string>)
      returns (window: seq<string>, joined: int, chunks: seq<string>, ghost b: nat, ghost stretches: seq<Span>,
               ghost vs: seq<Window>)
      requires Valid() && (keep ==> separator == "") && n < |splits| && |splits[n]| <= chunkSize
      requires separator == "" || separator in seps
      requires Merging(splits, separator, n, a, current, total, docs)
      requires MergeInv(splits, separator, n, a, docs, spans, chunkOverlap, seps)
      requires Windowed(splits, separator, n, a, docs, spans, ws, chunkSize, chunkOverlap)
      ensures window != [] && window[|window| - 1] == splits[n] && joined == |Join(window, separator)| <= chunkSize
      ensures SizesOk(chunks, chunkSize)
      ensures Merging(splits, separator, n + 1, b, window, joined, chunks)
      ensures MergeInv(splits, separator, n + 1, b, chunks, stretches, chunkOverlap, seps)
      ensures Windowed(splits, separator, n + 1, b, chunks, stretches, vs, chunkSize, chunkOverlap)
    {
      window, joined, chunks, b, stretches, vs := current, total, docs, a, spans, ws;
      var split := splits[n];
      var lenToAdd := Added(split, current, separator);
      FitsSoFar(splits, separator, a, n);
      hide MergeInv, Windowed, MayKeep, Emitted, Closed;
      if total + lenToAdd > chunkSize && current != [] {
        window, joined, chunks, b := CloseWindow(splits, separator, n, a, current, total, lenToAdd, docs);
        stretches, vs := Closed(splits, separator, a, n, spans), ws + [Window(a, n)];
      }
      TurnDone(splits, separator, n, a, b, total, docs, spans, ws, chunks, stretches, vs, seps);
      GrowWindow(splits, b, n, separator);
      joined := joined + Added(split, window, separator);
      window := window + [split];
    }

    // Greedy merge of pieces into chunks. The window `current` slides over the
    // pieces; `total` is maintained incrementally and is its joined length.
    method MergeSplits(splits: seq<string>, separator: string, ghost seps: set<string>)
      returns (docs: seq<string>, ghost spans: seq<Span>, ghost ws: seq<Window>)
      requires Valid() && (keep ==> separator == "") && (separator == "" || separator in seps)
      requires forall i :: 0 <= i < |splits| ==> |splits[i]| <= chunkSize
      ensures Greedy(splits, separator, ws, chunkSize, chunkOverlap)
      ensures docs == Texts(splits, separator, ws) && spans == Stretches(splits, separator, ws)
      ensures SizesOk(docs, chunkSize)
      ensures |Join(splits, separator)| <= chunkSize ==> docs == Emitted(splits, separator)
      ensures Advances(splits, separator) ==>
        Covers(Join(splits, separator), docs, spans, chunkOverlap, seps) && Intact(splits, separator, spans, chunkSize)
    {
      docs, spans, ws := [], [], [];
      var current: seq<string> := [];
      var total := 0;
      ghost var a: nat := 0;
      StartsMerging(splits, separator, seps);
      hide MergeInv, Merging, Covers, Intact, Advances, Join, Emitted, Windowed, Greedy, Texts, Stretches;
      for n := 0 to |splits|
        invariant Merging(splits, separator, n, a, current, total, docs)
        invariant MergeInv(splits, separator, n, a, docs, spans, chunkOverlap, seps)
        invariant Windowed(splits, separator, n, a, docs, spans, ws, chunkSize, chunkOverlap)
      {
        current, total, docs, a, spans, ws := TakePiece(splits, separator, n, a, current, total, docs, spans, ws, seps);
      }
      docs, spans, ws := CloseLast(splits, separator, a, current, total, docs, spans, ws, seps);
    }

    lemma StartsMerging(splits: seq<string>, separator: string, seps: set<string>)
      requires Valid()
      ensures Merging(splits, separator, 0, 0, [], 0, [])
      ensures MergeInv(splits, separator, 0, 0, [], [], chunkOverlap, seps)
      ensures Windowed(splits, separator, 0, 0, [], [], [], chunkSize, chunkOverlap)
    {
      assert splits[0..0] == [];
    }

    // What is left in the window after the last piece is a chunk too.
    method CloseLast(
      splits: seq<string>, separator: string, ghost a: nat, current: seq<string>, ghost total: int,
      docs: seq<string>, ghost spans: seq<Span>, ghost ws: seq<Window>, ghost seps: set<string>)
      returns (all: seq<string>, ghost stretches: seq<Span>, ghost vs: seq<Window>)
      requires Valid() && (keep ==> separator == "")
      requires Merging(splits, separator, |splits|, a, current, total, docs)
      requires MergeInv(splits, separator, |splits|, a, docs, spans, chunkOverlap, seps)
      requires Windowed(splits, separator, |splits|, a, docs, spans, ws, chunkSize, chunkOverlap)
      ensures Greedy(splits, separator, vs, chunkSize, chunkOverlap)
      ensures all == Texts(splits, separator, vs) && stretches == Stretches(splits, separator, vs)
      ensures SizesOk(all, chunkSize)
      ensures |Join(splits, separator)| <= chunkSize ==> all == Emitted(splits, separator)
      ensures Advances(splits, separator) ==>
        Covers(Join(splits, separator), all, stretches, chunkOverlap, seps) && Intact(splits, separator, stretches, chunkSize)
    {
      MergeDone(splits, separator, a, docs, spans, chunkSize, chunkOverlap, seps);
      WindowsEnd(splits, separator, a, docs, spans, ws, chunkSize, chunkOverlap);
      hide Covers, Intact, Closed, Advances, MergeInv, Windowed, Greedy, Texts, Stretches;
      all, stretches, vs := docs, spans, ws;
      if current != [] {
        vs := ws + [Window(a, |splits|)];
        assert a == 0 ==> splits[a..|splits|] == splits;
        all := Emit(docs, current, if keep then "" else separator);
        stretches := Closed(splits, separator, a, |splits|, spans);
      }
    }

    // The pieces of one level rejoin to the text, and each advances in it.
    lemma JoinPieces(text: string, sep: string)
      ensures Join(Pieces(text, sep), if keep then "" else sep) == text
      ensures text != "" ==> Advances(Pieces(text, sep), if keep then "" else sep)
    {
      if keep || sep == "" {
        PiecesLoseNothing(text, sep);
        JoinEmptyIsConcat(Pieces(text, sep));
      } else {
        JoinSplit(text, sep);
      }
    }

    method ChooseSeparator(text: string, hierarchy: seq<string>) returns (separator: string, rest: seq<string>)
      requires |hierarchy| > 0
      ensures (separator, rest) == Choose(text, hierarchy)
    {
      separator, rest := hierarchy[|hierarchy| - 1], [];
      for i := 0 to |hierarchy|
        invariant (separator, rest) == (hierarchy[|hierarchy| - 1], [])
        invariant i < |hierarchy| ==> Choose(text, hierarchy) == Choose(text, hierarchy[i..])
        invariant i == |hierarchy| ==> Choose(text, hierarchy) == (separator, rest)
      {
        var sep := hierarchy[i];
        assert hierarchy[i..][1..] == hierarchy[i + 1..];
        if sep == "" {
          return sep, [];
        }
        if Occurs(text, sep) {
          return sep, hierarchy[i + 1..];
        }
      }
    }

    // ---- What a split is, level by level ----

    // The chunks of pieces that all fit: the texts of their greedy windows.
    ghost predicate IsMerge(pieces: seq<string>, sep: string, chunks: seq<string>) {
      exists ws :: Greedy(pieces, sep, ws, chunkSize, chunkOverlap) && chunks == Texts(pieces, sep, ws)
    }

    // Cut into stretches of the chunk size, the last of which may be shorter.
    predicate IsEvenCut(text: string, chunks: seq<string>) {
      && SizesOk(chunks, chunkSize) && Concat(chunks) == text
      && forall k :: 0 <= k < |chunks| - 1 ==> |chunks[k]| == chunkSize
    }

    // The pieces of the chosen separator, merged where they fit and split further where they do not.
    ghost predicate IsSplit(text: string, hierarchy: seq<string>, chunks: seq<string>)
      requires |hierarchy| > 0
      decreases |hierarchy|, 0, 0
    {
      var (sep, rest) := Choose(text, hierarchy);
      IsLevel(Pieces(text, sep), if keep then "" else sep, rest, chunks)
    }

    ghost predicate IsLongSplit(piece: string, rest: seq<string>, chunks: seq<string>)
      decreases |rest|, 0, 1
    {
      if rest == [] then IsEvenCut(piece, chunks) else IsSplit(piece, rest, chunks)
    }

    // Where the run of fitting pieces at the end starts.
    function LastRun(pieces: seq<string>): (g: nat)
      ensures g <= |pieces|
      ensures forall i :: g <= i < |pieces| ==> |pieces[i]| <= chunkSize
      ensures g > 0 ==> |pieces[g - 1]| > chunkSize
    {
      if pieces == [] then 0
      else if |pieces[|pieces| - 1]| > chunkSize then |pieces|
      else LastRun(pieces[..|pieces| - 1])
    }

    // Each run of fitting pieces is merged by itself.
    ghost predicate IsLevel(pieces: seq<string>, sep: string, rest: seq<string>, chunks: seq<string>)
      decreases |rest|, |pieces| + 1, 1
    {
      var g := LastRun(pieces);
      exists n :: 0 <= n <= |chunks|
        && IsMerge(pieces[g..], sep, chunks[n..]) && IsUpToLong(pieces[..g], sep, rest, chunks[..n])
    }

    // Each piece that is too long is split by itself.
    ghost predicate IsUpToLong(pieces: seq<string>, sep: string, rest: seq<string>, chunks: seq<string>)
      decreases |rest|, |pieces| + 1, 0
    {
      if pieces == [] then chunks == []
      else
        exists n :: 0 <= n <= |chunks|
          && IsLongSplit(pieces[|pieces| - 1], rest, chunks[n..])
          && IsLevel(pieces[..|pieces| - 1], sep, rest, chunks[..n])
    }

    lemma EvenCutIsUnique(text: string, a: seq<string>, b: seq<string>)
      requires Valid() && IsEvenCut(text, a) && IsEvenCut(text, b)
      ensures a == b
      decreases |a|
    {
      if a != [] {
        ConcatAppend([a[0]], a[1..]);
        assert [a[0]] + a[1..] == a && Concat([a[0]]) == a[0];
        NothingIsEmpty(a[1..]);
      }
      if b != [] {
        ConcatAppend([b[0]], b[1..]);
        assert [b[0]] + b[1..] == b && Concat([b[0]]) == b[0];
        NothingIsEmpty(b[1..]);
      }
      if a != [] && b != [] {
        assert |a[0]| == |b[0]|;
        assert a[0] == text[..|a[0]|] == b[0];
        assert Concat(a[1..]) == text[|a[0]|..] == Concat(b[1..]);
        EvenCutIsUnique(text[|a[0]|..], a[1..], b[1..]);
      }
    }

    lemma NothingIsEmpty(chunks: seq<string>)
      requires SizesOk(chunks, chunkSize)
      ensures Concat(chunks) == "" <==> chunks == []
    {
    }

    lemma MergeIsUnique(pieces: seq<string>, sep: string, a: seq<string>, b: seq<string>)
      requires IsMerge(pieces, sep, a) && IsMerge(pieces, sep, b)
      ensures a == b
    {
      var vs :| Greedy(pieces, sep, vs, chunkSize, chunkOverlap) && a == Texts(pieces, sep, vs);
      var ws :| Greedy(pieces, sep, ws, chunkSize, chunkOverlap) && b == Texts(pieces, sep, ws);
      GreedyIsUnique(pieces, sep, vs, ws, chunkSize, chunkOverlap);
    }

    // Text, hierarchy, sizes and mode leave only one way to split.
    lemma {:induction false} SplitIsUnique(text: string, hierarchy: seq<string>, a: seq<string>, b: seq<string>)
      requires Valid() && |hierarchy| > 0 && IsSplit(text, hierarchy, a) && IsSplit(text, hierarchy, b)
      ensures a == b
      decreases |hierarchy|, 0, 0
    {
      var (sep, rest) := Choose(text, hierarchy);
      LevelIsUnique(Pieces(text, sep), if keep then "" else sep, rest, a, b);
    }

    lemma {:induction false} LevelIsUnique(
      pieces: seq<string>, sep: string, rest: seq<string>, a: seq<string>, b: seq<string>)
      requires Valid() && IsLevel(pieces, sep, rest, a) && IsLevel(pieces, sep, rest, b)
      ensures a == b
      decreases |rest|, |pieces| + 1, 1
    {
      hide IsMerge, IsUpToLong, LastRun;
      var g := LastRun(pieces);
      var m :| 0 <= m <= |a| && IsMerge(pieces[g..], sep, a[m..]) && IsUpToLong(pieces[..g], sep, rest, a[..m]);
      var n :| 0 <= n <= |b| && IsMerge(pieces[g..], sep, b[n..]) && IsUpToLong(pieces[..g], sep, rest, b[..n]);
      MergeIsUnique(pieces[g..], sep, a[m..], b[n..]);
      UpToLongIsUnique(pieces[..g], sep, rest, a[..m], b[..n]);
      assert a == a[..m] + a[m..] && b == b[..n] + b[n..];
    }

    lemma {:induction false} UpToLongIsUnique(
      pieces: seq<string>, sep: string, rest: seq<string>, a: seq<string>, b: seq<string>)
      requires Valid() && IsUpToLong(pieces, sep, rest, a) && IsUpToLong(pieces, sep, rest, b)
      ensures a == b
      decreases |rest|, |pieces| + 1, 0
    {
      if pieces != [] {
        hide IsLevel, IsLongSplit;
        var last, front := pieces[|pieces| - 1], pieces[..|pieces| - 1];
        var m :| 0 <= m <= |a| && IsLongSplit(last, rest, a[m..]) && IsLevel(front, sep, rest, a[..m]);
        var n :| 0 <= n <= |b| && IsLongSplit(last, rest, b[n..]) && IsLevel(front, sep, rest, b[..n]);
        LevelIsUnique(front, sep, rest, a[..m], b[..n]);
        LongSplitIsUnique(last, rest, a[m..], b[n..]);
        assert a == a[..m] + a[m..] && b == b[..n] + b[n..];
      }
    }

    lemma {:induction false} LongSplitIsUnique(piece: string, rest: seq<string>, a: seq<string>, b: seq<string>)
      requires Valid() && IsLongSplit(piece, rest, a) && IsLongSplit(piece, rest, b)
      ensures a == b
      decreases |rest|, 0, 1
    {
      hide IsSplit, IsEvenCut;
      if rest == [] {
        EvenCutIsUnique(piece, a, b);
      } else {
        SplitIsUnique(piece, rest, a, b);
      }
    }

    // The last resort: cut at fixed lengths, without overlap.
    method SplitByCharacters(text: string) returns (chunks: seq<string>, ghost spans: seq<Span>)
      requires Valid()
      ensures SizesOk(chunks, chunkSize)
      ensures Covers(text, chunks, spans, 0, {})
      ensures IsEvenCut(text, chunks)
    {
      chunks, spans := [], [];
      var i := 0;
      NothingCut(text);
      hide CutUpTo;
      while i < |text|
        invariant 0 <= i && CutUpTo(text, i, chunks, spans)
        decreases |text| - i
      {
        CutNext(text, i, chunks, spans);
        ghost var end := if i + chunkSize <= |text| then i + chunkSize else |text|;
        chunks := chunks + [text[i..if i + chunkSize <= |text| then i + chunkSize else |text|]];
        spans := spans + [Span(i, end)];
        i := i + chunkSize;
      }
      CutAll(text, i, chunks, spans);
      NoSeparatorsNoGap(text, chunks, spans, 0);
      NoOverlapRejoins(text, chunks, spans);
    }

    // The text is cut up to `i`, which may lie behind its end.
    ghost predicate CutUpTo(text: string, i: nat, chunks: seq<string>, spans: seq<Span>) {
      && SizesOk(chunks, chunkSize)
      && Covers(text[..if i <= |text| then i else |text|], chunks, spans, 0, {})
      && forall k :: 0 <= k < |chunks| && (i <= |text| || k < |chunks| - 1) ==> |chunks[k]| == chunkSize
    }

    lemma NothingCut(text: string)
      ensures CutUpTo(text, 0, [], [])
    {
      NothingCovered({}, 0);
      assert text[..0] == "";
    }

    lemma CutNext(text: string, i: nat, chunks: seq<string>, spans: seq<Span>)
      requires Valid() && i < |text| && CutUpTo(text, i, chunks, spans)
      ensures var end := if i + chunkSize <= |text| then i + chunkSize else |text|;
        CutUpTo(text, i + chunkSize, chunks + [text[i..end]], spans + [Span(i, end)])
    {
      var end := if i + chunkSize <= |text| then i + chunkSize else |text|;
      CoversNext(text, chunks, spans, i, end);
      hide Covers;
      assert |text[i..end]| == end - i;
    }

    lemma CutAll(text: string, i: nat, chunks: seq<string>, spans: seq<Span>)
      requires i >= |text| && CutUpTo(text, i, chunks, spans)
      ensures SizesOk(chunks, chunkSize) && Covers(text, chunks, spans, 0, {})
      ensures forall k :: 0 <= k < |chunks| - 1 ==> |chunks[k]| == chunkSize
    {
      assert text[..|text|] == text;
    }

    // Pieces before `g` are in the output.
    ghost predicate Flushed(
      splits: seq<string>, sep: string, g: nat, chunks: seq<string>, spans: seq<Span>, seps: set<string>)
    {
      && g <= |splits|
      && Covers(Join(splits[..g], sep), chunks, spans, chunkOverlap, seps)
      && IntactUpTo(splits, sep, g, spans, chunkSize)
    }

    // Merge the short pieces that are waiting and put the result behind the output.
    method FlushGood(
      splits: seq<string>, mergeSep: string, ghost g: nat, n: nat, good: seq<string>,
      chunks: seq<string>, ghost spans: seq<Span>, ghost seps: set<string>)
      returns (more: seq<string>, ghost moreSpans: seq<Span>)
      requires Valid() && (keep ==> mergeSep == "") && (mergeSep == "" || mergeSep in seps)
      requires Waiting(splits, g, n, good, chunks)
      ensures SizesOk(more, chunkSize)
      ensures Advances(splits, mergeSep) && Flushed(splits, mergeSep, g, chunks, spans, seps) ==>
        Flushed(splits, mergeSep, n, more, moreSpans, seps)
      ensures chunks == [] && |Join(good, mergeSep)| <= chunkSize ==> more == Emitted(good, mergeSep)
      ensures chunks <= more && IsMerge(good, mergeSep, more[|chunks|..])
    {
      hide IsMerge, Greedy, Texts, Stretches, Intact, Covers;
      more, moreSpans := chunks, spans;
      NothingMerged(mergeSep);
      assert more[|chunks|..] == [];
      if good != [] {
        var merged;
        ghost var mergedSpans;
        ghost var ws;
        merged, mergedSpans, ws := MergeSplits(good, mergeSep, seps);
        more, moreSpans := chunks + merged, spans + Shift(mergedSpans, Off(splits, mergeSep, g));
        MergedSo(good, mergeSep, ws, merged);
        assert more[|chunks|..] == merged;
        if Advances(splits, mergeSep) && Flushed(splits, mergeSep, g, chunks, spans, seps) {
          GoodIsIntact(splits, mergeSep, g, n, mergedSpans, chunkSize);
          FlushSegment(splits, mergeSep, g, n, chunks, spans, merged, mergedSpans, chunkSize, chunkOverlap, seps);
        }
      }
    }

    lemma NothingMerged(sep: string)
      ensures IsMerge([], sep, [])
    {
      assert Greedy([], sep, [], chunkSize, chunkOverlap);
    }

    lemma MergedSo(pieces: seq<string>, sep: string, ws: seq<Window>, chunks: seq<string>)
      requires Greedy(pieces, sep, ws, chunkSize, chunkOverlap) && chunks == Texts(pieces, sep, ws)
      ensures IsMerge(pieces, sep, chunks)
    {
    }

    // A piece that is too long goes one level down, or is cut by length.
    method CutLong(split: string, rest: seq<string>, ghost seps: set<string>)
      returns (deeper: seq<string>, ghost spans: seq<Span>)
      requires Valid() && Losable(rest, seps)
      ensures SizesOk(deeper, chunkSize)
      ensures Covers(split, deeper, spans, chunkOverlap, seps)
      ensures IsLongSplit(split, rest, deeper)
      decreases |rest|, 1
    {
      if rest != [] {
        deeper, spans := SplitByHierarchy(split, rest, seps);
      } else {
        deeper, spans := SplitByCharacters(split);
        CoversMore(split, deeper, spans, 0, chunkOverlap, {}, seps);
      }
    }

    // A piece that is too long: what waits is merged first, then the piece is split by itself.
    method TakeLong(
      splits: seq<string>, mergeSep: string, rest: seq<string>, n: nat, ghost g: nat, good: seq<string>,
      chunks: seq<string>, ghost spans: seq<Span>, ghost seps: set<string>)
      returns (more: seq<string>, ghost moreSpans: seq<Span>)
      requires Valid() && (keep ==> mergeSep == "") && (mergeSep == "" || mergeSep in seps) && Losable(rest, seps)
      requires Waiting(splits, g, n, good, chunks) && n < |splits| && |splits[n]| > chunkSize
      ensures SizesOk(more, chunkSize)
      ensures Advances(splits, mergeSep) && Flushed(splits, mergeSep, g, chunks, spans, seps) ==>
        Flushed(splits, mergeSep, n + 1, more, moreSpans, seps)
      ensures IsUpToLong(splits[..g], mergeSep, rest, chunks) && RunStarts(splits, g) ==>
        IsUpToLong(splits[..n + 1], mergeSep, rest, more)
      decreases |rest|, 2
    {
      hide Flushed, Advances, IsUpToLong, IsLongSplit, IsMerge, Covers, Shift, Off;
      ghost var merged, mergedSpans, deeperSpans;
      var deeper;
      more, mergedSpans := FlushGood(splits, mergeSep, g, n, good, chunks, spans, seps);
      merged := more;
      deeper, deeperSpans := CutLong(splits[n], rest, seps);
      LongTaken(splits, mergeSep, rest, g, n, chunks, merged, deeper);
      FlushLong(splits, mergeSep, n, merged, mergedSpans, deeper, deeperSpans, seps);
      more, moreSpans := more + deeper, mergedSpans + Shift(deeperSpans, Off(splits, mergeSep, n));
    }

    // One piece of the level: it waits if it is short, else what waits is merged first.
    method TakeSplit(
      splits: seq<string>, mergeSep: string, rest: seq<string>, n: nat, ghost g: nat, good: seq<string>,
      chunks: seq<string>, ghost spans: seq<Span>, ghost seps: set<string>)
      returns (waiting: seq<string>, more: seq<string>, ghost h: nat, ghost moreSpans: seq<Span>)
      requires Valid() && (keep ==> mergeSep == "") && (mergeSep == "" || mergeSep in seps) && Losable(rest, seps)
      requires Waiting(splits, g, n, good, chunks) && n < |splits|
      ensures SizesOk(more, chunkSize) && waiting == if |splits[n]| <= chunkSize then good + [splits[n]] else []
      ensures Waiting(splits, h, n + 1, waiting, more)
      ensures Advances(splits, mergeSep) && Flushed(splits, mergeSep, g, chunks, spans, seps) ==>
        Flushed(splits, mergeSep, h, more, moreSpans, seps)
      ensures |splits[n]| <= chunkSize ==> h == g && more == chunks
      ensures IsUpToLong(splits[..g], mergeSep, rest, chunks) && RunStarts(splits, g) ==>
        IsUpToLong(splits[..h], mergeSep, rest, more) && RunStarts(splits, h)
      decreases |rest|, 3
    {
      hide Flushed, Advances, IsUpToLong, Losable;
      if |splits[n]| <= chunkSize {
        return good + [splits[n]], chunks, g, spans;
      }
      more, moreSpans := TakeLong(splits, mergeSep, rest, n, g, good, chunks, spans, seps);
      waiting, h := [], n + 1;
    }

    // A run of fitting pieces starts at `g`.
    predicate RunStarts(splits: seq<string>, g: nat) {
      g <= |splits| && (g > 0 ==> |splits[g - 1]| > chunkSize)
    }

    lemma LastRunIs(pieces: seq<string>, g: nat)
      requires RunStarts(pieces, g) && forall i :: g <= i < |pieces| ==> |pieces[i]| <= chunkSize
      ensures LastRun(pieces) == g
    {
    }

    // The waiting run is merged behind what comes before it.
    lemma RunMerged(
      splits: seq<string>, sep: string, rest: seq<string>, g: nat, n: nat, chunks: seq<string>, merged: seq<string>)
      requires g <= n <= |splits| && RunStarts(splits, g)
      requires forall i :: g <= i < n ==> |splits[i]| <= chunkSize
      requires IsUpToLong(splits[..g], sep, rest, chunks)
      requires chunks <= merged && IsMerge(splits[g..n], sep, merged[|chunks|..])
      ensures IsLevel(splits[..n], sep, rest, merged)
    {
      hide IsUpToLong, IsMerge;
      LastRunIs(splits[..n], g);
      assert splits[..n][g..] == splits[g..n] && splits[..n][..g] == splits[..g];
      assert merged[..|chunks|] == chunks;
    }

    lemma LongTaken(
      splits: seq<string>, sep: string, rest: seq<string>, g: nat, n: nat,
      chunks: seq<string>, merged: seq<string>, deeper: seq<string>)
      requires g <= n < |splits| && |splits[n]| > chunkSize && Waiting(splits, g, n, splits[g..n], chunks)
      requires chunks <= merged && IsMerge(splits[g..n], sep, merged[|chunks|..]) && IsLongSplit(splits[n], rest, deeper)
      ensures IsUpToLong(splits[..g], sep, rest, chunks) && RunStarts(splits, g) ==>
        IsUpToLong(splits[..n + 1], sep, rest, merged + deeper)
      ensures RunStarts(splits, n + 1)
    {
      hide IsLevel, IsLongSplit, IsMerge, IsUpToLong;
      if IsUpToLong(splits[..g], sep, rest, chunks) && RunStarts(splits, g) {
        forall i | g <= i < n
          ensures |splits[i]| <= chunkSize
        {
          assert splits[i] == splits[g..n][i - g];
        }
        RunMerged(splits, sep, rest, g, n, chunks, merged);
        UpToLongSnoc(splits[..n], sep, rest, merged, splits[n], deeper);
        assert splits[..n + 1] == splits[..n] + [splits[n]];
      }
    }

    lemma UpToLongSnoc(
      pieces: seq<string>, sep: string, rest: seq<string>, chunks: seq<string>, piece: string, deeper: seq<string>)
      requires IsLevel(pieces, sep, rest, chunks) && IsLongSplit(piece, rest, deeper)
      ensures IsUpToLong(pieces + [piece], sep, rest, chunks + deeper)
    {
      hide IsLevel, IsLongSplit;
      var all := chunks + deeper;
      assert (pieces + [piece])[..|pieces|] == pieces;
      assert all[..|chunks|] == chunks && all[|chunks|..] == deeper;
    }

    predicate Waiting(splits: seq<string>, g: nat, n: nat, good: seq<string>, chunks: seq<string>) {
      && g <= n <= |splits| && good == splits[g..n]
      && (forall i :: 0 <= i < |good| ==> |good[i]| <= chunkSize)
      && SizesOk(chunks, chunkSize)
    }

    // The separators that may get lost.
    predicate Losable(hierarchy: seq<string>, seps: set<string>) {
      !keep ==> forall i :: 0 <= i < |hierarchy| ==> hierarchy[i] in seps
    }

    // The loop over the pieces of one level.
    method SplitPieces(splits: seq<string>, mergeSep: string, rest: seq<string>, ghost seps: set<string>)
      returns (chunks: seq<string>, ghost spans: seq<Span>)
      requires Valid() && (keep ==> mergeSep == "") && (mergeSep == "" || mergeSep in seps) && Losable(rest, seps)
      ensures SizesOk(chunks, chunkSize)
      ensures Advances(splits, mergeSep) ==> Flushed(splits, mergeSep, |splits|, chunks, spans, seps)
      ensures |Join(splits, mergeSep)| <= chunkSize ==> chunks == Emitted(splits, mergeSep)
      ensures IsLevel(splits, mergeSep, rest, chunks)
      decreases |rest|, 4
    {
      chunks, spans := [], [];
      var good: seq<string> := [];
      ghost var g: nat := 0;
      NothingFlushed(splits, mergeSep, seps);
      assert IsUpToLong(splits[..g], mergeSep, rest, chunks);
      hide Flushed, Advances, Losable, IsUpToLong, IsLevel, IsMerge, Emitted;
      for n := 0 to |splits|
        invariant Waiting(splits, g, n, good, chunks)
        invariant Advances(splits, mergeSep) ==> Flushed(splits, mergeSep, g, chunks, spans, seps)
        invariant |Join(splits, mergeSep)| <= chunkSize ==> g == 0 && chunks == []
        invariant RunStarts(splits, g) && IsUpToLong(splits[..g], mergeSep, rest, chunks)
      {
        PieceNotLonger(splits, mergeSep, n);
        good, chunks, g, spans := TakeSplit(splits, mergeSep, rest, n, g, good, chunks, spans, seps);
      }
      assert splits == splits[0..|splits|] && splits == splits[..|splits|];
      ghost var front := chunks;
      chunks, spans := FlushGood(splits, mergeSep, g, |splits|, good, chunks, spans, seps);
      RunMerged(splits, mergeSep, rest, g, |splits|, front, chunks);
    }

    method SplitByHierarchy(text: string, hierarchy: seq<string>, ghost seps: set<string>)
      returns (chunks: seq<string>, ghost spans: seq<Span>)
      requires Valid() && |hierarchy| > 0 && Losable(hierarchy, seps)
      ensures SizesOk(chunks, chunkSize)
      ensures Covers(text, chunks, spans, chunkOverlap, seps)
      ensures var sep := Choose(text, hierarchy).0;
        text != "" ==> Intact(Pieces(text, sep), if keep then "" else sep, spans, chunkSize)
      ensures |text| <= chunkSize ==> chunks == if text == "" then [] else [text]
      ensures IsSplit(text, hierarchy, chunks)
      decreases |hierarchy|, 0
    {
      var separator, rest := ChooseSeparator(text, hierarchy);
      ChosenIsLosable(text, hierarchy, seps);
      var splits := SplitTextWithSeparator(text, separator);
      var mergeSep := if keep then "" else separator;
      JoinPieces(text, separator);
      hide Flushed, Advances, Losable, IsLevel, Covers, Intact, Join;
      chunks, spans := SplitPieces(splits, mergeSep, rest, seps);
      FlushedAll(text, splits, mergeSep, chunks, spans, seps);
      if text == "" {
        spans := [];
      }
    }

    // The whole text. With separators kept nothing is left out; without, the only
    // thing left out is separators of the hierarchy.
    method SplitText(text: string) returns (chunks: seq<string>, ghost spans: seq<Span>)
      requires Valid()
      ensures SizesOk(chunks, chunkSize)
      ensures keep ==> CoversAll(text, chunks, spans, chunkOverlap)
      ensures Covers(text, chunks, spans, chunkOverlap, set s | s in separators)
      ensures var sep := Choose(text, separators).0;
        text != "" ==> Intact(Pieces(text, sep), if keep then "" else sep, spans, chunkSize)
      ensures |text| <= chunkSize ==> chunks == if text == "" then [] else [text]
      ensures IsSplit(text, separators, chunks)
    {
      ghost var seps := if keep then {} else set s | s in separators;
      chunks, spans := SplitByHierarchy(text, separators, seps);
      CoversMore(text, chunks, spans, chunkOverlap, chunkOverlap, seps, set s | s in separators);
      if keep {
        NoSeparatorsNoGap(text, chunks, spans, chunkOverlap);
      }
    }

    lemma ChosenIsLosable(text: string, hierarchy: seq<string>, seps: set<string>)
      requires |hierarchy| > 0 && Losable(hierarchy, seps)
      ensures var (sep, rest) := Choose(text, hierarchy); (keep || sep == "" || sep in seps) && Losable(rest, seps)
      decreases |hierarchy|
    {
      if hierarchy[0] != "" && !Occurs(text, hierarchy[0]) && |hierarchy| > 1 {
        ChosenIsLosable(text, hierarchy[1..], seps);
      }
    }

    lemma NothingFlushed(splits: seq<string>, sep: string, seps: set<string>)
      ensures Flushed(splits, sep, 0, [], [], seps)
    {
      NothingCovered(seps, chunkOverlap);
      assert splits[..0] == [];
    }

    // The long piece `n` was cut up behind the output.
    lemma FlushLong(
      splits: seq<string>, sep: string, n: nat, chunks: seq<string>, spans: seq<Span>,
      deeper: seq<string>, deeperSpans: seq<Span>, seps: set<string>)
      requires n < |splits| && |splits[n]| > chunkSize && chunkOverlap >= 0 && (sep == "" || sep in seps)
      requires Covers(splits[n], deeper, deeperSpans, chunkOverlap, seps)
      ensures Flushed(splits, sep, n, chunks, spans, seps) ==>
        Flushed(splits, sep, n + 1, chunks + deeper, spans + Shift(deeperSpans, Off(splits, sep, n)), seps)
    {
      if Flushed(splits, sep, n, chunks, spans, seps) {
        assert splits[n..n + 1] == [splits[n]];
        FlushSegment(splits, sep, n, n + 1, chunks, spans, deeper, deeperSpans, chunkSize, chunkOverlap, seps);
      }
    }

    lemma FlushedAll(
      text: string, splits: seq<string>, sep: string, chunks: seq<string>, spans: seq<Span>, seps: set<string>)
      ensures Join(splits, sep) == text && Flushed(splits, sep, |splits|, chunks, spans, seps) ==>
        Covers(text, chunks, spans, chunkOverlap, seps) && Intact(splits, sep, spans, chunkSize)
      ensures Covers("", [], [], chunkOverlap, seps)
    {
      NothingCovered(seps, chunkOverlap);
      assert splits[..|splits|] == splits;
    }
  }

  // ---- The merge loop ----

  function Emitted(window: seq<string>, separator: string): seq<string> {
    if Join(window, separator) != "" then [Join(window, separator)] else []
  }

  // Where piece `i` starts in the joined text.
  function Off(splits: seq<string>, sep: string, i: nat): nat
    requires i <= |splits|
  {
    if i == 0 then 0 else |Join(splits[..i], sep)| + |sep|
  }

  // Every piece makes the joined text longer.
  predicate Advances(splits: seq<string>, sep: string) {
    sep != "" || AllNonEmpty(splits)
  }

  // Every piece that is not empty and fits into a chunk is left whole.
  predicate Intact(splits: seq<string>, sep: string, spans: seq<Span>, size: int) {
    IntactUpTo(splits, sep, |splits|, spans, size)
  }

  predicate IntactUpTo(splits: seq<string>, sep: string, n: nat, spans: seq<Span>, size: int)
    requires n <= |splits|
  {
    forall i :: 0 <= i < n && 0 < |splits[i]| <= size ==> PieceInside(splits, sep, i, spans)
  }

  predicate PieceInside(splits: seq<string>, sep: string, i: nat, spans: seq<Span>)
    requires i < |splits|
  {
    Inside(spans, Off(splits, sep, i), Off(splits, sep, i) + |splits[i]|)
  }

  // The finished stretches when the window `a` to `n` is closed.
  function Closed(splits: seq<string>, sep: string, a: nat, n: nat, spans: seq<Span>): seq<Span>
    requires a <= n <= |splits|
  {
    if Join(splits[a..n], sep) != "" then spans + [Span(Off(splits, sep, a), |Join(splits[..n], sep)|)] else spans
  }

  // The stretches of the windows that put something out.
  function Stretches(splits: seq<string>, sep: string, ws: seq<Window>): seq<Span>
    requires forall k :: 0 <= k < |ws| ==> Lies(splits, ws[k])
  {
    if ws == [] then []
    else
      var w := ws[|ws| - 1];
      assert Lies(splits, w);
      Closed(splits, sep, w.lo, w.hi, Stretches(splits, sep, ws[..|ws| - 1]))
  }

  // The finished windows `ws` and the open one make a greedy row, and the output is theirs.
  predicate Windowed(
    splits: seq<string>, sep: string, n: nat, a: nat, docs: seq<string>, spans: seq<Span>, ws: seq<Window>,
    size: int, overlap: int)
  {
    && (forall k :: 0 <= k < |ws| ==> Lies(splits, ws[k]))
    && docs == Texts(splits, sep, ws) && spans == Stretches(splits, sep, ws)
    && (n == 0 ==> ws == [])
    && (n > 0 ==> a < n <= |splits| && GreedyUpTo(splits, sep, n, ws + [Window(a, n)], size, overlap))
  }

  lemma OutputSnoc(splits: seq<string>, sep: string, ws: seq<Window>, a: nat, n: nat)
    requires a < n <= |splits| && forall k :: 0 <= k < |ws| ==> Lies(splits, ws[k])
    ensures var more := ws + [Window(a, n)];
      && (forall k :: 0 <= k < |more| ==> Lies(splits, more[k]))
      && Texts(splits, sep, more) == Texts(splits, sep, ws) + Emitted(splits[a..n], sep)
      && Stretches(splits, sep, more) == Closed(splits, sep, a, n, Stretches(splits, sep, ws))
  {
    assert (ws + [Window(a, n)])[..|ws|] == ws;
  }

  // One turn of the loop, seen from the windows.
  lemma WindowStep(
    splits: seq<string>, sep: string, n: nat, a: nat, b: nat,
    before: seq<string>, beforeSpans: seq<Span>, ws: seq<Window>,
    docs: seq<string>, spans: seq<Span>, vs: seq<Window>, size: int, overlap: int)
    requires a <= b <= n < |splits| && (n > 0 ==> a < n) && |splits[n]| <= size
    requires Windowed(splits, sep, n, a, before, beforeSpans, ws, size, overlap)
    requires a == b ==>
      docs == before && spans == beforeSpans && vs == ws && (n > 0 ==> HasRoom(splits, sep, a, n, size))
    requires a < b ==>
      && docs == before + Emitted(splits[a..n], sep) && spans == Closed(splits, sep, a, n, beforeSpans)
      && vs == ws + [Window(a, n)]
      && !HasRoom(splits, sep, a, n, size) && MayKeep(splits, sep, b, n, size, overlap)
      && forall d :: a <= d < b ==> !MayKeep(splits, sep, d, n, size, overlap)
    ensures Windowed(splits, sep, n + 1, b, docs, spans, vs, size, overlap)
  {
    hide GreedyUpTo, MayKeep, HasRoom, Texts, Stretches, Closed;
    if n == 0 {
      assert ws + [Window(0, 1)] == [Window(0, 1)];
      FirstWindow(splits, sep, size, overlap);
    } else if a == b {
      WindowGrows(splits, sep, n, ws, a, size, overlap);
    } else {
      OutputSnoc(splits, sep, ws, a, n);
      WindowCloses(splits, sep, n, ws, a, b, size, overlap);
      assert vs + [Window(b, n + 1)] == ws + [Window(a, n), Window(b, n + 1)];
    }
  }

  lemma WindowsEnd(
    splits: seq<string>, sep: string, a: nat, docs: seq<string>, spans: seq<Span>, ws: seq<Window>, size: int, overlap: int)
    requires Windowed(splits, sep, |splits|, a, docs, spans, ws, size, overlap) && a <= |splits|
    ensures splits == [] ==>
      ws == [] && Greedy(splits, sep, ws, size, overlap)
      && docs == Texts(splits, sep, ws) && spans == Stretches(splits, sep, ws)
    ensures splits != [] ==>
      var vs := ws + [Window(a, |splits|)];
      && a < |splits| && Greedy(splits, sep, vs, size, overlap)
      && docs + Emitted(splits[a..|splits|], sep) == Texts(splits, sep, vs)
      && Closed(splits, sep, a, |splits|, spans) == Stretches(splits, sep, vs)
  {
    if splits != [] {
      OutputSnoc(splits, sep, ws, a, |splits|);
    }
  }

  ghost predicate MergeInv(
    splits: seq<string>, sep: string, n: nat, a: nat, docs: seq<string>, spans: seq<Span>, overlap: int, seps: set<string>)
    requires a <= n <= |splits|
  {
    && (n == 0 ==> docs == [] && spans == [])
    && (n > 0 && a < n && Advances(splits, sep) ==> MergedSoFar(splits, sep, n, a, docs, spans, overlap, seps))
  }

  // After `n` pieces the finished chunks and the window cover what has been read,
  // and no piece read so far has been cut.
  ghost predicate MergedSoFar(
    splits: seq<string>, sep: string, n: nat, a: nat, docs: seq<string>, spans: seq<Span>, overlap: int, seps: set<string>)
    requires a < n <= |splits|
  {
    var text, off := Join(splits[..n], sep), Off(splits, sep, a);
    && Pending(text, docs, spans, off, overlap, seps)
    && WholeSoFar(splits, sep, n, spans + [Span(off, |text|)])
  }

  predicate WholeSoFar(splits: seq<string>, sep: string, n: nat, spans: seq<Span>)
    requires n <= |splits|
  {
    forall i :: 0 <= i < n && splits[i] != "" ==> PieceInside(splits, sep, i, spans)
  }

  // The joined text ends with the joined window.
  lemma JoinTail(splits: seq<string>, sep: string, a: nat, n: nat)
    requires a < n <= |splits|
    ensures Join(splits[..n], sep) == Join(splits[..a], sep) + (if a > 0 then sep else "") + Join(splits[a..n], sep)
    ensures |Join(splits[..n], sep)| == Off(splits, sep, a) + |Join(splits[a..n], sep)|
    ensures Join(splits[..n], sep)[Off(splits, sep, a)..] == Join(splits[a..n], sep)
  {
    assert splits[..n] == splits[..a] + splits[a..n];
    if a > 0 {
      JoinAppend(splits[..a], splits[a..n], sep);
    } else {
      assert splits[..a] == [] && splits[a..n] == splits[..n];
    }
  }

  // The joined text with one more piece.
  lemma JoinOneMore(splits: seq<string>, sep: string, n: nat)
    requires 0 < n < |splits|
    ensures Join(splits[..n + 1], sep) == Join(splits[..n], sep) + sep + splits[n]
    ensures Off(splits, sep, n) == |Join(splits[..n], sep)| + |sep|
    ensures Advances(splits, sep) ==> Join(splits[..n], sep) < Join(splits[..n + 1], sep)
  {
    JoinSnoc(splits[..n], splits[n], sep);
    assert splits[..n] + [splits[n]] == splits[..n + 1];
  }

  lemma {:induction false} OffGrows(splits: seq<string>, sep: string, a: nat, b: nat)
    requires a <= b <= |splits| && Advances(splits, sep)
    ensures a < b ==> Off(splits, sep, a) < Off(splits, sep, b)
    ensures b > 0 ==> Off(splits, sep, b) == Off(splits, sep, b - 1) + |splits[b - 1]| + |sep|
  {
    if b > 0 {
      JoinTail(splits, sep, b - 1, b);
      assert splits[b - 1..b] == [splits[b - 1]];
      if a < b - 1 {
        OffGrows(splits, sep, a, b - 1);
      }
    }
  }

  // The window with one more piece.
  lemma GrowWindow(splits: seq<string>, a: nat, n: nat, sep: string)
    requires a <= n < |splits|
    ensures splits[a..n] + [splits[n]] == splits[a..n + 1]
    ensures |Join(splits[a..n + 1], sep)|
         == |Join(splits[a..n], sep)| + |splits[n]| + (if a < n then |sep| else 0)
  {
    assert splits[a..n] + [splits[n]] == splits[a..n + 1];
    if a < n {
      JoinSnoc(splits[a..n], splits[n], sep);
    }
  }

  lemma {:induction false} PrefixNotLonger(splits: seq<string>, sep: string, n: nat)
    requires n <= |splits|
    ensures |Join(splits[..n], sep)| <= |Join(splits, sep)|
    decreases |splits| - n
  {
    if n == |splits| {
      assert splits[..n] == splits;
    } else {
      PrefixNotLonger(splits, sep, n + 1);
      GrowWindow(splits, 0, n, sep);
      assert splits[0..n] == splits[..n] && splits[0..n + 1] == splits[..n + 1];
    }
  }

  // If the pieces fit together, the window never overflows.
  lemma FitsSoFar(splits: seq<string>, separator: string, a: nat, n: nat)
    requires a <= n < |splits|
    ensures a == 0 ==>
      |Join(splits[a..n], separator)| + |splits[n]| + (if n > 0 then |separator| else 0) <= |Join(splits, separator)|
  {
    PrefixNotLonger(splits, separator, n + 1);
    GrowWindow(splits, a, n, separator);
    assert splits[0..n + 1] == splits[..n + 1];
  }

  lemma FirstPiece(splits: seq<string>, sep: string, overlap: int, seps: set<string>)
    requires |splits| > 0
    ensures MergedSoFar(splits, sep, 1, 0, [], [], overlap, seps)
  {
    assert splits[..1] == [splits[0]];
    InsideMore([], Span(0, |splits[0]|), 0, |splits[0]|);
  }

  // All pieces so far are whole, and so is the next one, which the window ends with.
  lemma NextIsWhole(splits: seq<string>, sep: string, n: nat, before: seq<Span>, spans: seq<Span>, off: nat)
    requires 0 < n < |splits| && off <= Off(splits, sep, n)
    requires WholeSoFar(splits, sep, n, before)
    requires forall x, y :: x < y && Inside(before, x, y) ==> Inside(spans + [Span(off, Off(splits, sep, n) + |splits[n]|)], x, y)
    ensures WholeSoFar(splits, sep, n + 1, spans + [Span(off, Off(splits, sep, n) + |splits[n]|)])
  {
    var last := Span(off, Off(splits, sep, n) + |splits[n]|);
    forall i | 0 <= i < n + 1 && splits[i] != ""
      ensures PieceInside(splits, sep, i, spans + [last])
    {
      if i < n {
        assert PieceInside(splits, sep, i, before);
      } else {
        InsideMore(spans, last, Off(splits, sep, n), Off(splits, sep, n) + |splits[n]|);
      }
    }
  }

  // The window takes one more piece.
  lemma MergeInto(
    splits: seq<string>, sep: string, n: nat, a: nat, docs: seq<string>, spans: seq<Span>, overlap: int, seps: set<string>)
    requires a < n < |splits| && Advances(splits, sep) && MergedSoFar(splits, sep, n, a, docs, spans, overlap, seps)
    ensures MergedSoFar(splits, sep, n + 1, a, docs, spans, overlap, seps)
  {
    JoinOneMore(splits, sep, n);
    OffGrows(splits, sep, a, n);
    hide Join, Off, Pending, WholeSoFar;
    PendingGrows(Join(splits[..n], sep), Join(splits[..n + 1], sep), docs, spans, Off(splits, sep, a), overlap, seps);
    GrowKeepsWhole(splits, sep, n, spans, Off(splits, sep, a));
  }

  lemma GrowKeepsWhole(splits: seq<string>, sep: string, n: nat, spans: seq<Span>, off: nat)
    requires 0 < n < |splits| && off <= Off(splits, sep, n)
    requires WholeSoFar(splits, sep, n, spans + [Span(off, |Join(splits[..n], sep)|)])
    ensures WholeSoFar(splits, sep, n + 1, spans + [Span(off, |Join(splits[..n + 1], sep)|)])
  {
    JoinOneMore(splits, sep, n);
    hide Join, Off;
    var e, f := |Join(splits[..n], sep)|, |Join(splits[..n + 1], sep)|;
    forall x, y | x < y && Inside(spans + [Span(off, e)], x, y)
      ensures Inside(spans + [Span(off, f)], x, y)
    {
      InsideLonger(spans, off, e, f, x, y);
    }
    NextIsWhole(splits, sep, n, spans + [Span(off, e)], spans, off);
  }

  // Where the next window starts, as seen from the end of what was read.
  lemma NextWindow(splits: seq<string>, sep: string, n: nat, b: nat, overlap: int, seps: set<string>)
    requires b <= n < |splits| && 0 < n && Advances(splits, sep) && overlap >= 0 && (sep == "" || sep in seps)
    requires b < n ==> |Join(splits[b..n], sep)| <= overlap
    ensures var text, more := Join(splits[..n], sep), Join(splits[..n + 1], sep);
      && Off(splits, sep, b) <= |more| && |text| - Off(splits, sep, b) <= overlap
      && Between(more, |text|, Off(splits, sep, b), seps)
  {
    JoinOneMore(splits, sep, n);
    if b < n {
      JoinTail(splits, sep, b, n);
    } else {
      var text, more := Join(splits[..n], sep), Join(splits[..n + 1], sep);
      assert more[|text|..|text| + |sep|] == sep;
      GapOne(sep, seps);
    }
  }

  // The window is emitted and what is left of it takes the next piece.
  lemma MergeEmit(
    splits: seq<string>, sep: string, n: nat, a: nat, b: nat, docs: seq<string>, spans: seq<Span>,
    overlap: int, seps: set<string>)
    requires a < b <= n < |splits| && Advances(splits, sep) && overlap >= 0 && (sep == "" || sep in seps)
    requires MergedSoFar(splits, sep, n, a, docs, spans, overlap, seps) && Join(splits[a..n], sep) != ""
    requires b < n ==> |Join(splits[b..n], sep)| <= overlap
    ensures MergedSoFar(splits, sep, n + 1, b, docs + [Join(splits[a..n], sep)],
                        spans + [Span(Off(splits, sep, a), |Join(splits[..n], sep)|)], overlap, seps)
  {
    hide Join, Off, Pending, WholeSoFar, Advances;
    OffGrows(splits, sep, b, n);
    EmitPending(splits, sep, n, a, b, docs, spans, overlap, seps);
    EmitKeepsWhole(splits, sep, n, spans + [Span(Off(splits, sep, a), |Join(splits[..n], sep)|)], Off(splits, sep, b));
  }

  lemma EmitPending(
    splits: seq<string>, sep: string, n: nat, a: nat, b: nat, docs: seq<string>, spans: seq<Span>,
    overlap: int, seps: set<string>)
    requires a < b <= n < |splits| && Advances(splits, sep) && overlap >= 0 && (sep == "" || sep in seps)
    requires Pending(Join(splits[..n], sep), docs, spans, Off(splits, sep, a), overlap, seps)
    requires Join(splits[a..n], sep) != "" && (b < n ==> |Join(splits[b..n], sep)| <= overlap)
    ensures Pending(Join(splits[..n + 1], sep), docs + [Join(splits[a..n], sep)],
                    spans + [Span(Off(splits, sep, a), |Join(splits[..n], sep)|)], Off(splits, sep, b), overlap, seps)
  {
    JoinOneMore(splits, sep, n);
    JoinTail(splits, sep, a, n);
    OffGrows(splits, sep, a, b);
    NextWindow(splits, sep, n, b, overlap, seps);
    hide Join, Off, Between, Pending;
    PendingEmits(
      Join(splits[..n], sep), Join(splits[..n + 1], sep), docs, spans, Off(splits, sep, a), Off(splits, sep, b), overlap, seps);
  }

  lemma EmitKeepsWhole(splits: seq<string>, sep: string, n: nat, now: seq<Span>, next: nat)
    requires 0 < n < |splits| && next <= Off(splits, sep, n) && WholeSoFar(splits, sep, n, now)
    ensures WholeSoFar(splits, sep, n + 1, now + [Span(next, |Join(splits[..n + 1], sep)|)])
  {
    JoinOneMore(splits, sep, n);
    hide Join, Off;
    var last := Span(next, |Join(splits[..n + 1], sep)|);
    forall x, y | x < y && Inside(now, x, y)
      ensures Inside(now + [last], x, y)
    {
      InsideMore(now, last, x, y);
    }
    NextIsWhole(splits, sep, n, now, now, next);
  }

  // A window that joins to nothing is one empty piece.
  lemma EmptyWindow(splits: seq<string>, sep: string, a: nat, n: nat)
    requires a < n <= |splits| && Advances(splits, sep) && Join(splits[a..n], sep) == ""
    ensures n == a + 1 && sep != ""
  {
    GrowWindow(splits, a, n - 1, sep);
  }

  // An empty window is dropped.
  lemma MergeSkip(
    splits: seq<string>, sep: string, n: nat, a: nat, docs: seq<string>, spans: seq<Span>, overlap: int, seps: set<string>)
    requires a < n < |splits| && Advances(splits, sep) && overlap >= 0 && (sep == "" || sep in seps)
    requires MergedSoFar(splits, sep, n, a, docs, spans, overlap, seps) && Join(splits[a..n], sep) == ""
    ensures MergedSoFar(splits, sep, n + 1, n, docs, spans, overlap, seps)
  {
    JoinOneMore(splits, sep, n);
    JoinTail(splits, sep, a, n);
    NextWindow(splits, sep, n, n, overlap, seps);
    hide Join, Off, Between, Pending, WholeSoFar;
    PendingSkips(Join(splits[..n], sep), Join(splits[..n + 1], sep), docs, spans, Off(splits, sep, n), overlap, seps);
    SkipKeepsWhole(splits, sep, n, spans, |Join(splits[..n], sep)|, Off(splits, sep, n));
  }

  lemma SkipKeepsWhole(splits: seq<string>, sep: string, n: nat, spans: seq<Span>, end: nat, next: nat)
    requires 0 < n < |splits| && next <= Off(splits, sep, n) && WholeSoFar(splits, sep, n, spans + [Span(end, end)])
    ensures WholeSoFar(splits, sep, n + 1, spans + [Span(next, |Join(splits[..n + 1], sep)|)])
  {
    JoinOneMore(splits, sep, n);
    hide Join, Off;
    var last := Span(next, |Join(splits[..n + 1], sep)|);
    forall x, y | x < y && Inside(spans + [Span(end, end)], x, y)
      ensures Inside(spans + [last], x, y)
    {
      InsideMore(spans, Span(end, end), x, y);
      InsideMore(spans, last, x, y);
    }
    NextIsWhole(splits, sep, n, spans + [Span(end, end)], spans, next);
  }

  // One turn of the loop, with or without closing the window.
  lemma MergeStep(
    splits: seq<string>, sep: string, n: nat, a: nat, b: nat,
    before: seq<string>, beforeSpans: seq<Span>, docs: seq<string>, spans: seq<Span>, overlap: int, seps: set<string>)
    requires a <= b <= n < |splits| && overlap >= 0 && (n > 0 ==> a < n) && (sep == "" || sep in seps)
    requires MergeInv(splits, sep, n, a, before, beforeSpans, overlap, seps)
    requires a == b ==> docs == before && spans == beforeSpans
    requires a < b ==>
      && docs == before + Emitted(splits[a..n], sep)
      && spans == Closed(splits, sep, a, n, beforeSpans)
      && (b < n ==> |Join(splits[b..n], sep)| <= overlap)
    ensures MergeInv(splits, sep, n + 1, b, docs, spans, overlap, seps)
  {
    hide MergedSoFar;
    if Advances(splits, sep) {
      if n == 0 {
        FirstPiece(splits, sep, overlap, seps);
      } else if a == b {
        MergeInto(splits, sep, n, a, docs, spans, overlap, seps);
      } else if Join(splits[a..n], sep) != "" {
        MergeEmit(splits, sep, n, a, b, before, beforeSpans, overlap, seps);
      } else {
        EmptyWindow(splits, sep, a, n);
        MergeSkip(splits, sep, n, a, before, beforeSpans, overlap, seps);
        assert docs == before;
      }
    }
  }

  lemma MergeDone(
    splits: seq<string>, sep: string, a: nat, docs: seq<string>, spans: seq<Span>, size: int, overlap: int, seps: set<string>)
    requires a <= |splits| && (|splits| > 0 ==> a < |splits|)
    requires MergeInv(splits, sep, |splits|, a, docs, spans, overlap, seps)
    ensures Advances(splits, sep) ==>
      var window := splits[a..|splits|];
      var all := if window == [] then docs else docs + Emitted(window, sep);
      var r := if window == [] then spans else Closed(splits, sep, a, |splits|, spans);
      Covers(Join(splits, sep), all, r, overlap, seps) && Intact(splits, sep, r, size)
  {
    if Advances(splits, sep) {
      if splits == [] {
        NothingCovered(seps, overlap);
      } else {
        WindowDone(splits, sep, a, docs, spans, size, overlap, seps);
      }
    }
  }

  lemma WindowDone(
    splits: seq<string>, sep: string, a: nat, docs: seq<string>, spans: seq<Span>, size: int, overlap: int, seps: set<string>)
    requires a < |splits| && MergedSoFar(splits, sep, |splits|, a, docs, spans, overlap, seps)
    ensures var r := Closed(splits, sep, a, |splits|, spans);
      Covers(Join(splits, sep), docs + Emitted(splits[a..|splits|], sep), r, overlap, seps) && Intact(splits, sep, r, size)
  {
    var n := |splits|;
    assert splits[..n] == splits;
    var text, off := Join(splits, sep), Off(splits, sep, a);
    JoinTail(splits, sep, a, n);
    PendingEnds(text, docs, spans, off, overlap, seps);
    hide Pending, Covers;
    if off == |text| {
      assert docs + [] == docs;
      forall i | 0 <= i < n && splits[i] != ""
        ensures PieceInside(splits, sep, i, spans)
      {
        assert PieceInside(splits, sep, i, spans + [Span(off, |text|)]);
        InsideMore(spans, Span(off, |text|), Off(splits, sep, i), Off(splits, sep, i) + |splits[i]|);
      }
    }
  }

  // ---- The recursion ----

  lemma NothingCovered(seps: set<string>, overlap: int)
    ensures Covers("", [], [], overlap, seps)
  {
  }

  lemma CoversNext(text: string, chunks: seq<string>, spans: seq<Span>, i: nat, end: nat)
    requires i < end <= |text| && Covers(text[..i], chunks, spans, 0, {})
    ensures Covers(text[..end], chunks + [text[i..end]], spans + [Span(i, end)], 0, {})
  {
    var piece := text[i..end];
    assert Covers(piece, [piece], [Span(0, |piece|)], 0, {}) by {
      assert IsSlice(piece, piece, Span(0, |piece|));
    }
    GapOne("", {});
    CoversAppend(text[..i], chunks, spans, "", piece, [piece], [Span(0, |piece|)], 0, {});
    assert text[..i] + "" + piece == text[..end];
    assert Shift([Span(0, |piece|)], |text[..i] + ""|) == [Span(i, end)];
  }

  lemma {:induction false} PieceNotLonger(pieces: seq<string>, sep: string, i: nat)
    requires i < |pieces|
    ensures |pieces[i]| <= |Join(pieces, sep)|
    decreases |pieces|
  {
    if |pieces| > 1 && i < |pieces| - 1 {
      PieceNotLonger(pieces[..|pieces| - 1], sep, i);
    }
  }

  lemma OffInTail(splits: seq<string>, sep: string, g: nat, n: nat, i: nat)
    requires g <= i < n <= |splits|
    ensures Off(splits, sep, i) == Off(splits, sep, g) + Off(splits[g..n], sep, i - g)
  {
    if g < i {
      JoinTail(splits, sep, g, i);
      assert splits[g..n][..i - g] == splits[g..i];
    }
  }

  // The pieces `g` to `n` are whole within their own chunks.
  predicate SegmentIntact(splits: seq<string>, sep: string, g: nat, n: nat, spans: seq<Span>, size: int)
    requires g <= n <= |splits|
  {
    forall i :: g <= i < n && 0 < |splits[i]| <= size ==> SegmentInside(splits, sep, g, n, i, spans)
  }

  predicate SegmentInside(splits: seq<string>, sep: string, g: nat, n: nat, i: nat, spans: seq<Span>)
    requires g <= i < n <= |splits|
  {
    var off := Off(splits[g..n], sep, i - g); Inside(spans, off, off + |splits[i]|)
  }

  lemma GoodIsIntact(splits: seq<string>, sep: string, g: nat, n: nat, spans: seq<Span>, size: int)
    requires g <= n <= |splits| && Intact(splits[g..n], sep, spans, size)
    ensures SegmentIntact(splits, sep, g, n, spans, size)
  {
    forall i | g <= i < n && 0 < |splits[i]| <= size
      ensures SegmentInside(splits, sep, g, n, i, spans)
    {
      assert splits[g..n][i - g] == splits[i];
      assert PieceInside(splits[g..n], sep, i - g, spans);
    }
  }

  // The chunks of the pieces `g` to `n` go behind the output.
  lemma FlushSegment(
    splits: seq<string>, sep: string, g: nat, n: nat, chunks: seq<string>, spans: seq<Span>,
    merged: seq<string>, mergedSpans: seq<Span>, size: int, overlap: int, seps: set<string>)
    requires g < n <= |splits| && overlap >= 0 && (sep == "" || sep in seps)
    requires Covers(Join(splits[..g], sep), chunks, spans, overlap, seps) && IntactUpTo(splits, sep, g, spans, size)
    requires Covers(Join(splits[g..n], sep), merged, mergedSpans, overlap, seps)
    requires SegmentIntact(splits, sep, g, n, mergedSpans, size)
    ensures var all := spans + Shift(mergedSpans, Off(splits, sep, g));
      Covers(Join(splits[..n], sep), chunks + merged, all, overlap, seps) && IntactUpTo(splits, sep, n, all, size)
  {
    var d := Off(splits, sep, g);
    var all := spans + Shift(mergedSpans, d);
    SegmentCovers(splits, sep, g, n, chunks, spans, merged, mergedSpans, overlap, seps);
    hide Covers, Inside;
    forall i | 0 <= i < n && 0 < |splits[i]| <= size
      ensures PieceInside(splits, sep, i, all)
    {
      if i < g {
        assert PieceInside(splits, sep, i, spans);
        InsideAppend(spans, mergedSpans, d, Off(splits, sep, i), Off(splits, sep, i) + |splits[i]|);
      } else {
        assert SegmentInside(splits, sep, g, n, i, mergedSpans);
        OffInTail(splits, sep, g, n, i);
        var off := Off(splits[g..n], sep, i - g);
        InsideAppend(spans, mergedSpans, d, off, off + |splits[i]|);
      }
    }
  }

  lemma SegmentCovers(
    splits: seq<string>, sep: string, g: nat, n: nat, chunks: seq<string>, spans: seq<Span>,
    merged: seq<string>, mergedSpans: seq<Span>, overlap: int, seps: set<string>)
    requires g < n <= |splits| && overlap >= 0 && (sep == "" || sep in seps)
    requires Covers(Join(splits[..g], sep), chunks, spans, overlap, seps)
    requires Covers(Join(splits[g..n], sep), merged, mergedSpans, overlap, seps)
    ensures Covers(Join(splits[..n], sep), chunks + merged, spans + Shift(mergedSpans, Off(splits, sep, g)), overlap, seps)
  {
    var mid := if g > 0 then sep else "";
    GapOne(mid, seps);
    JoinTail(splits, sep, g, n);
    hide Covers;
    if g == 0 {
      assert splits[..g] == [];
    }
    assert |Join(splits[..g], sep) + mid| == Off(splits, sep, g);
    CoversAppend(Join(splits[..g], sep), chunks, spans, mid, Join(splits[g..n], sep), merged, mergedSpans, overlap, seps);
  }
}
