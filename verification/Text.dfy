/** Searching and splitting strings. */
module Text {
  /** The first index of c from `from` on, or the length of s. */
  function Find(s: string, c: char, from: nat): (i: nat)
    requires from <= |s|
    ensures from <= i <= |s|
    ensures forall k | from <= k < i :: s[k] != c
    ensures i < |s| ==> s[i] == c
    decreases |s| - from
  {
    if from == |s| || s[from] == c then from else Find(s, c, from + 1)
  }

  lemma FindAt(s: string, c: char, from: nat, i: nat)
    requires from <= i < |s| && s[i] == c && forall k | from <= k < i :: s[k] != c
    ensures Find(s, c, from) == i
  {
  }

  /** The pieces of a text between separators, the part after the last one included. */
  function Pieces(text: string, sep: char): (pieces: seq<string>)
    ensures |pieces| > 0
    ensures forall p | p in pieces :: sep !in p
    decreases |text|
  {
    var end := Find(text, sep, 0);
    if end < |text| then [text[..end]] + Pieces(text[end + 1..], sep) else [text]
  }

  lemma OnePiece(line: string, sep: char)
    requires sep !in line
    ensures Pieces(line, sep) == [line]
  {
  }

  lemma PiecesStep(line: string, sep: char, more: string)
    requires sep !in line
    ensures Pieces(line + [sep] + more, sep) == [line] + Pieces(more, sep)
  {
    var text := line + [sep] + more;
    assert text[|line|] == sep;
    assert forall k | 0 <= k < |line| :: text[k] == line[k];
    FindAt(text, sep, 0, |line|);
    assert text[..|line|] == line && text[|line| + 1..] == more;
  }

  lemma {:induction false} PiecesJoin(before: string, sep: char, after: string)
    ensures Pieces(before + [sep] + after, sep) == Pieces(before, sep) + Pieces(after, sep)
    decreases |before|
  {
    hide Pieces, Find;
    var end := Find(before, sep, 0);
    var line := before[..end];
    if end < |before| {
      var more := before[end + 1..];
      PiecesJoin(more, sep, after);
      PiecesStep(line, sep, more);
      PiecesStep(line, sep, more + [sep] + after);
      assert before == line + [sep] + more;
      assert before + [sep] + after == line + [sep] + (more + [sep] + after);
    } else {
      assert before == line;
      PiecesStep(before, sep, after);
      OnePiece(before, sep);
    }
  }

  function ReplaceLast(pieces: seq<string>, piece: string): seq<string>
    requires |pieces| > 0
  {
    pieces[..|pieces| - 1] + [piece]
  }

  function Last(pieces: seq<string>): string
    requires |pieces| > 0
  {
    pieces[|pieces| - 1]
  }

  /** One more character opens a new piece or extends the last one. */
  lemma {:induction false} PiecesSnoc(text: string, sep: char, c: char)
    ensures var pieces := Pieces(text, sep);
      Pieces(text + [c], sep) == if c == sep then pieces + [""] else ReplaceLast(pieces, Last(pieces) + [c])
    decreases |text|
  {
    hide Pieces, Find;
    if c == sep {
      PiecesJoin(text, sep, "");
      assert text + [c] + "" == text + [c];
      OnePiece("", sep);
    } else {
      var end := Find(text, sep, 0);
      var line := text[..end];
      if end < |text| {
        var more := text[end + 1..];
        PiecesSnoc(more, sep, c);
        PiecesStep(line, sep, more);
        PiecesStep(line, sep, more + [c]);
        assert text == line + [sep] + more;
        assert text + [c] == line + [sep] + (more + [c]);
      } else {
        assert text == line;
        OnePiece(line, sep);
        OnePiece(line + [c], sep);
      }
    }
  }
}
