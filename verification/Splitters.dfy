/** The two string splitters of the transaction code. */
module Splitters {
  import opened Text

  // ---------- splitting at a delimiter string ----------

  predicate IsAt(s: string, delim: string, i: int) {
    0 <= i && i + |delim| <= |s| && s[i..i + |delim|] == delim
  }

  ghost predicate Occurs(s: string, delim: string) {
    exists i :: IsAt(s, delim, i)
  }

  /** The first place of the delimiter from `from` on, or -1. */
  function FindDelim(s: string, delim: string, from: nat): (i: int)
    requires from <= |s|
    ensures i == -1 || (from <= i && IsAt(s, delim, i))
    ensures forall k | from <= k && (i == -1 || k < i) :: !IsAt(s, delim, k)
    decreases |s| - from
  {
    if IsAt(s, delim, from) then from
    else if from == |s| then -1
    else FindDelim(s, delim, from + 1)
  }

  /** The parts that are followed by a delimiter; what comes after the last one is dropped. */
  function StringSplit(src: string, delim: string): seq<string>
    requires delim != ""
    decreases |src|
  {
    if src == "" then []
    else
      var pos := FindDelim(src, delim, 0);
      if pos == -1 then []
      else [src[..pos]] + StringSplit(src[pos + |delim|..], delim)
  }

  /** Every part followed by the delimiter. */
  function Terminated(parts: seq<string>, delim: string): string {
    if parts == [] then "" else parts[0] + delim + Terminated(parts[1..], delim)
  }

  /** The delimiter that ends the part is the first one. */
  predicate Greedy(part: string, delim: string) {
    FindDelim(part + delim, delim, 0) == |part|
  }

  lemma FirstAt(s: string, delim: string, i: nat)
    requires IsAt(s, delim, i) && forall k | 0 <= k < i :: !IsAt(s, delim, k)
    ensures FindDelim(s, delim, 0) == i
  {
  }

  lemma GreedyFirst(part: string, delim: string, more: string)
    requires Greedy(part, delim)
    ensures FindDelim(part + delim + more, delim, 0) == |part|
  {
    hide FindDelim;
    var s := part + delim + more;
    assert s[|part|..|part| + |delim|] == delim;
    forall k | 0 <= k < |part|
      ensures !IsAt(s, delim, k)
    {
      assert s[k..k + |delim|] == (part + delim)[k..k + |delim|];
      assert !IsAt(part + delim, delim, k);
    }
    FirstAt(s, delim, |part|);
  }

  lemma FirstIsGreedy(s: string, delim: string, pos: nat)
    requires FindDelim(s, delim, 0) == pos
    ensures Greedy(s[..pos], delim) && s == s[..pos] + delim + s[pos + |delim|..]
  {
    hide FindDelim;
    var part := s[..pos];
    assert IsAt(s, delim, pos);
    assert (part + delim)[pos..pos + |delim|] == delim;
    forall k | 0 <= k < pos
      ensures !IsAt(part + delim, delim, k)
    {
      assert part + delim == s[..pos + |delim|];
      assert (part + delim)[k..k + |delim|] == s[k..k + |delim|];
      assert !IsAt(s, delim, k);
    }
    FirstAt(part + delim, delim, pos);
  }

  /** A greedy part does not contain the delimiter. */
  lemma GreedyHasNone(part: string, delim: string)
    requires delim != "" && Greedy(part, delim)
    ensures !Occurs(part, delim)
  {
    forall k: int
      ensures !IsAt(part, delim, k)
    {
      if IsAt(part, delim, k) {
        StillAt(part, delim, k, delim);
      }
    }
  }

  lemma StillAt(s: string, delim: string, i: int, more: string)
    requires IsAt(s, delim, i)
    ensures IsAt(s + more, delim, i) && i + |delim| <= |s|
  {
    assert (s + more)[i..i + |delim|] == s[i..i + |delim|];
  }

  /** The parts, each followed by the delimiter, rebuild the text up to its last greedy match;
      no delimiter is left behind it. */
  lemma {:induction false} SplitRebuilds(src: string, delim: string) returns (tail: string)
    requires delim != ""
    ensures src == Terminated(StringSplit(src, delim), delim) + tail
    ensures !Occurs(tail, delim)
    ensures forall p | p in StringSplit(src, delim) :: Greedy(p, delim) && !Occurs(p, delim)
    decreases |src|
  {
    hide FindDelim, Greedy, Occurs;
    var pos := FindDelim(src, delim, 0);
    if src == "" || pos == -1 {
      tail := src;
      NoneOccurs(src, delim);
    } else {
      FirstIsGreedy(src, delim, pos);
      GreedyHasNone(src[..pos], delim);
      var more := src[pos + |delim|..];
      tail := SplitRebuilds(more, delim);
      var parts := StringSplit(src, delim);
      assert parts[1..] == StringSplit(more, delim);
      assert src == src[..pos] + delim + (Terminated(parts[1..], delim) + tail);
    }
  }

  lemma NoneOccurs(s: string, delim: string)
    requires delim != ""
    ensures s == "" || FindDelim(s, delim, 0) == -1 ==> !Occurs(s, delim)
  {
    forall k: int
      ensures s == "" || FindDelim(s, delim, 0) == -1 ==> !IsAt(s, delim, k)
    {
    }
  }

  lemma SplitHead(part: string, delim: string, more: string)
    requires delim != ""
    ensures var parts := StringSplit(part + delim + more, delim);
      if Greedy(part, delim) then parts == [part] + StringSplit(more, delim)
      else parts == [] || Greedy(parts[0], delim)
  {
    hide FindDelim, Greedy;
    var src := part + delim + more;
    if Greedy(part, delim) {
      GreedyFirst(part, delim, more);
      assert src[..|part|] == part && src[|part| + |delim|..] == more;
    } else {
      var pos := FindDelim(src, delim, 0);
      if pos != -1 {
        FirstIsGreedy(src, delim, pos);
      }
    }
  }

  /** Only one way of cutting a text has greedy parts and no delimiter in the rest: the
      splitter's. */
  lemma {:induction false} SplitUnique(parts: seq<string>, delim: string, tail: string)
    requires delim != "" && !Occurs(tail, delim)
    ensures StringSplit(Terminated(parts, delim) + tail, delim) == parts <==>
            forall p | p in parts :: Greedy(p, delim)
    decreases |parts|
  {
    hide FindDelim, Greedy, Occurs;
    if parts == [] {
      assert Terminated(parts, delim) + tail == tail;
      NoOccurrence(tail, delim);
    } else {
      hide StringSplit;
      var first, rest := parts[0], parts[1..];
      var more := Terminated(rest, delim) + tail;
      assert parts == [first] + rest;
      assert Terminated(parts, delim) + tail == first + delim + more;
      SplitUnique(rest, delim, tail);
      SplitHead(first, delim, more);
    }
  }

  lemma NoOccurrence(s: string, delim: string)
    requires !Occurs(s, delim)
    ensures FindDelim(s, delim, 0) == -1
  {
  }

  // ---------- splitting at a character ----------

  /** The splitter drops an empty first field and an empty last field. */
  function Trimmed(fields: seq<string>): seq<string> {
    var some := if fields != [] && fields[0] == "" then fields[1..] else fields;
    if some != [] && Last(some) == "" then some[..|some| - 1] else some
  }

  function Completed(fields: seq<string>): seq<string>
    requires |fields| > 0
  {
    var done := fields[..|fields| - 1];
    if done != [] && done[0] == "" then done[1..] else done
  }

  lemma TrimmedIsCompleted(fields: seq<string>)
    requires |fields| > 0
    ensures Trimmed(fields) == if Last(fields) == "" then Completed(fields) else Completed(fields) + [Last(fields)]
  {
  }

  lemma CompletedGrows(fields: seq<string>, field: string)
    requires |fields| > 0
    ensures Last(fields + [""]) == ""
    ensures Completed(fields + [""]) ==
            if |fields| == 1 && fields[0] == "" then [] else Completed(fields) + [Last(fields)]
    ensures Last(ReplaceLast(fields, field)) == field
    ensures Completed(ReplaceLast(fields, field)) == Completed(fields)
  {
    assert (fields + [""])[..|fields|] == fields;
  }

  method SplitFields(s: string, splitChar: char) returns (fields: seq<string>)
    ensures fields == Trimmed(Pieces(s, splitChar))
  {
    hide Pieces, Completed, Trimmed, ReplaceLast, Last;
    fields := [];
    var start := 0;
    StartFields(splitChar);
    assert s[..0] == "";
    for i := 0 to |s|
      invariant 0 <= start <= i && (i > 0 ==> (start == i <==> s[i - 1] == splitChar))
      invariant Last(Pieces(s[..i], splitChar)) == s[start..i]
      invariant fields == Completed(Pieces(s[..i], splitChar)) +
                          if 0 < i == |s| && start < i then [s[start..i]] else []
      invariant |Pieces(s[..i], splitChar)| == 1 ==> start == 0
    {
      NextCharacter(s, i, start, splitChar);
      if s[i] == splitChar && i == 0 {
        start := start + 1;
      } else if s[i] == splitChar {
        fields := fields + [s[start..i]];
        start := i + 1;
      } else if i == |s| - 1 {
        fields := fields + [s[start..i + 1]];
      }
    }
    assert s[..|s|] == s;
    TrimmedIsCompleted(Pieces(s, splitChar));
  }

  lemma StartFields(sep: char)
    ensures Pieces("", sep) == [""] && Last([""]) == "" && Completed([""]) == []
  {
    OnePiece("", sep);
  }

  /** What character i does to the fields of the text before it. */
  lemma NextCharacter(s: string, i: nat, start: nat, sep: char)
    requires start <= i < |s| && Last(Pieces(s[..i], sep)) == s[start..i]
    ensures var before, after := Pieces(s[..i], sep), Pieces(s[..i + 1], sep);
      && (i == 0 ==> |before| == 1)
      && (s[i] == sep ==>
            && Last(after) == s[i + 1..i + 1]
            && |after| > 1
            && Completed(after) == if |before| == 1 && start == i then [] else Completed(before) + [s[start..i]])
      && (s[i] != sep ==>
            Last(after) == s[start..i + 1] && |after| == |before| && Completed(after) == Completed(before))
  {
    hide Pieces, Completed;
    var before := Pieces(s[..i], sep);
    PiecesSnoc(s[..i], sep, s[i]);
    CompletedGrows(before, Last(before) + [s[i]]);
    assert s[..i + 1] == s[..i] + [s[i]];
    assert s[start..i + 1] == s[start..i] + [s[i]];
    if i == 0 {
      assert s[..i] == "";
      OnePiece("", sep);
    }
  }

  function Joined(fields: seq<string>, sep: char): string {
    if fields == [] then "" else if |fields| == 1 then fields[0] else fields[0] + [sep] + Joined(fields[1..], sep)
  }

  lemma {:induction false} PiecesOfJoined(fields: seq<string>, sep: char)
    requires fields != [] && forall f | f in fields :: sep !in f
    ensures Pieces(Joined(fields, sep), sep) == fields
  {
    hide Pieces;
    assert fields == [fields[0]] + fields[1..] && fields[0] in fields;
    if |fields| == 1 {
      OnePiece(fields[0], sep);
    } else {
      PiecesStep(fields[0], sep, Joined(fields[1..], sep));
      PiecesOfJoined(fields[1..], sep);
    }
  }

  /** Joining and splitting give the fields back exactly when the first and the last are not
      empty. */
  lemma SplitInvertsJoin(fields: seq<string>, sep: char)
    requires forall f | f in fields :: sep !in f
    ensures Trimmed(Pieces(Joined(fields, sep), sep)) == fields
       <==> fields == [] || (fields[0] != "" && Last(fields) != "")
  {
    hide Pieces;
    if fields == [] {
      OnePiece("", sep);
    } else {
      PiecesOfJoined(fields, sep);
      if fields[0] == "" || Last(fields) == "" {
        assert |Trimmed(fields)| < |fields|;
      }
    }
  }

  /** For any fields: an empty first one is dropped, and then an empty last one, and nothing else. */
  lemma SplitJoined(fields: seq<string>, sep: char)
    requires fields != [] && forall f | f in fields :: sep !in f
    ensures var from := if fields[0] == "" then 1 else 0;
      var to := if fields[|fields| - 1] == "" && from < |fields| then |fields| - 1 else |fields|;
      Trimmed(Pieces(Joined(fields, sep), sep)) == fields[from..to]
  {
    hide Pieces;
    PiecesOfJoined(fields, sep);
  }
}
