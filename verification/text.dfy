/**
 String helpers with Python's meaning: `str.startswith`, `str.split(sep)` for a
 one-character separator, and `sep.join(pieces)`.
 */
module Text {

  /** `s.startswith(prefix)`. */
  predicate StartsWith(s: string, prefix: string) {
    |prefix| <= |s| && s[..|prefix|] == prefix
  }

  /** Position of the first occurrence of `c` in `s`. */
  function IndexOf(s: string, c: char): (k: nat)
    requires c in s
    ensures k < |s| && s[k] == c
    ensures c !in s[..k]
  {
    if s[0] == c then 0 else 1 + IndexOf(s[1..], c)
  }

  /** `sep.join(pieces)`: the pieces with one separator between neighbours. */
  function Join(pieces: seq<string>, sep: char): string
  {
    if |pieces| == 0 then ""
    else if |pieces| == 1 then pieces[0]
    else pieces[0] + [sep] + Join(pieces[1..], sep)
  }

  /** `s.split(sep)`: the maximal runs of `s` free of `sep`, in order. */
  function Split(s: string, sep: char): (pieces: seq<string>)
    ensures |pieces| >= 1
    ensures forall i :: 0 <= i < |pieces| ==> sep !in pieces[i]
    ensures Join(pieces, sep) == s
    ensures |pieces| == 1 <==> sep !in s
    ensures pieces[0] == if sep in s then s[..IndexOf(s, sep)] else s
    decreases |s|
  {
    if sep !in s then [s]
    else
      var k := IndexOf(s, sep);
      assert s == s[..k] + [sep] + s[k+1..];
      [s[..k]] + Split(s[k+1..], sep)
  }

  /** Each piece followed by `sep`: the text of `pieces` written as terminated lines. */
  function Terminated(pieces: seq<string>, sep: char): (s: string)
    ensures |s| >= |pieces|
  {
    if |pieces| == 0 then "" else pieces[0] + [sep] + Terminated(pieces[1..], sep)
  }

  /** Splitting a sep-joined sequence of sep-free pieces gives the pieces back. */
  lemma {:induction false} SplitJoin(pieces: seq<string>, sep: char)
    requires |pieces| >= 1
    requires forall i :: 0 <= i < |pieces| ==> sep !in pieces[i]
    ensures Split(Join(pieces, sep), sep) == pieces
    decreases |pieces|
  {
    var s := Join(pieces, sep);
    if |pieces| == 1 {
      assert s == pieces[0];
    } else {
      var rest := Join(pieces[1..], sep);
      assert s == pieces[0] + [sep] + rest;
      assert s[|pieces[0]|] == sep;
      assert s[..|pieces[0]|] == pieces[0];
      assert sep in s;
      var k := IndexOf(s, sep);
      assert k == |pieces[0]|;
      assert s[k+1..] == rest;
      SplitJoin(pieces[1..], sep);
      assert Split(s, sep) == [pieces[0]] + pieces[1..];
    }
  }

  /** Terminated lines are the same text as the lines joined, plus a trailing empty piece. */
  lemma {:induction false} TerminatedIsJoin(pieces: seq<string>, sep: char)
    ensures Terminated(pieces, sep) == Join(pieces + [""], sep)
    decreases |pieces|
  {
    if |pieces| == 0 {
    } else {
      assert (pieces + [""])[1..] == pieces[1..] + [""];
      TerminatedIsJoin(pieces[1..], sep);
    }
  }

  /**
   Splitting terminated sep-free lines at `sep` gives exactly those lines, in
   order, and one empty piece after the last terminator.
   */
  lemma SplitTerminated(pieces: seq<string>, sep: char)
    requires forall i :: 0 <= i < |pieces| ==> sep !in pieces[i]
    ensures Split(Terminated(pieces, sep), sep) == pieces + [""]
  {
    TerminatedIsJoin(pieces, sep);
    SplitJoin(pieces + [""], sep);
  }
}
