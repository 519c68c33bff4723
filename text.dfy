/**
 * String building as the query code does it: joining names with a
 * separator, the "append name and separator, then slice the last separator
 * off" idiom, JavaScript's `slice(0, end)`, and splitting on a separator
 * character, which gives every joined list a way to be read back; and
 * `indexOf` on a list of names.
 */
module Text {

  /** `xs` joined with `sep` between neighbours and nothing after the last. */
  function Join(xs: seq<string>, sep: string): string
    decreases |xs|
  {
    if |xs| == 0 then ""
    else if |xs| == 1 then xs[0]
    else Join(xs[..|xs| - 1], sep) + sep + xs[|xs| - 1]
  }

  /** Every element followed by `sep`: what `result += name + sep` builds in a loop. */
  function Terminated(xs: seq<string>, sep: string): string
    decreases |xs|
  {
    if xs == [] then "" else Terminated(xs[..|xs| - 1], sep) + xs[|xs| - 1] + sep
  }

  /** One more element appended, then the separator. */
  lemma TerminatedStep(xs: seq<string>, k: int, sep: string)
    requires 0 <= k < |xs|
    ensures Terminated(xs[..k + 1], sep) == Terminated(xs[..k], sep) + xs[k] + sep
  {
    assert xs[..k + 1][..k] == xs[..k];
  }

  lemma TerminatedSnoc(xs: seq<string>, init: seq<string>, x: string, sep: string)
    requires xs == init + [x]
    ensures Terminated(xs, sep) == Terminated(init, sep) + x + sep
  {
    assert xs[..|xs| - 1] == init;
  }

  /** JavaScript's `s.slice(0, end)`: a negative `end` counts from the end of `s`. */
  function SliceTo(s: string, end: int): (r: string)
    ensures |r| <= |s| && r == s[..|r|]
    ensures end < 0 ==> |r| == (if |s| + end < 0 then 0 else |s| + end)
    ensures 0 <= end ==> |r| == (if end > |s| then |s| else end)
  {
    var e := if end < 0 then (if |s| + end < 0 then 0 else |s| + end)
             else if end > |s| then |s| else end;
    s[..e]
  }

  lemma {:induction false} TerminatedIsJoinThenSep(xs: seq<string>, sep: string)
    requires xs != []
    ensures Terminated(xs, sep) == Join(xs, sep) + sep
    decreases |xs|
  {
    if |xs| > 1 {
      TerminatedIsJoinThenSep(xs[..|xs| - 1], sep);
    }
  }

  /** Slicing the trailing separator off a terminated list gives the joined list, and "" for no elements. */
  lemma DropTrailingSeparator(xs: seq<string>, sep: string)
    ensures SliceTo(Terminated(xs, sep), |Terminated(xs, sep)| - |sep|) == Join(xs, sep)
  {
    if xs != [] {
      TerminatedIsJoinThenSep(xs, sep);
      var t := Terminated(xs, sep);
      assert t[..|t| - |sep|] == Join(xs, sep);
    }
  }

  /**
   * The pieces of `s` between occurrences of `c`, in order; a string
   * without `c` is one piece, and the empty string is one empty piece.
   */
  function Split(s: string, c: char): (r: seq<string>)
    ensures |r| >= 1
    decreases |s|
  {
    if s == [] then [""]
    else
      var init := Split(s[..|s| - 1], c);
      if s[|s| - 1] == c then init + [""]
      else init[..|init| - 1] + [init[|init| - 1] + [s[|s| - 1]]]
  }

  lemma {:induction false} SplitWithoutSeparator(s: string, c: char)
    requires c !in s
    ensures Split(s, c) == [s]
    decreases |s|
  {
    if s != [] {
      SplitWithoutSeparator(s[..|s| - 1], c);
      assert s[..|s| - 1] + [s[|s| - 1]] == s;
    }
  }

  lemma {:induction false} SplitAfterSeparator(a: string, c: char, b: string)
    requires c !in b
    ensures Split(a + [c] + b, c) == Split(a, c) + [b]
    decreases |b|
  {
    var s := a + [c] + b;
    if b == [] {
      assert s[..|s| - 1] == a;
    } else {
      var b' := b[..|b| - 1];
      assert s[..|s| - 1] == a + [c] + b';
      SplitAfterSeparator(a, c, b');
      assert b' + [b[|b| - 1]] == b;
    }
  }

  /** What splitting `Join(xs, [c] + pad)` on `c` yields: the first element, then each later one behind `pad`. */
  function Pieces(xs: seq<string>, pad: string): (r: seq<string>)
    requires |xs| >= 1
    ensures |r| == |xs| && r[0] == xs[0]
    ensures forall i :: 1 <= i < |xs| ==> r[i] == pad + xs[i]
  {
    [xs[0]] + seq(|xs| - 1, i requires 0 <= i < |xs| - 1 => pad + xs[i + 1])
  }

  lemma {:induction false} SplitJoin(xs: seq<string>, c: char, pad: string)
    requires |xs| >= 1
    requires forall i :: 0 <= i < |xs| ==> c !in xs[i]
    requires c !in pad
    ensures Split(Join(xs, [c] + pad), c) == Pieces(xs, pad)
    decreases |xs|
  {
    if |xs| == 1 {
      SplitWithoutSeparator(xs[0], c);
    } else {
      var init := xs[..|xs| - 1];
      var last := xs[|xs| - 1];
      SplitJoin(init, c, pad);
      assert Join(xs, [c] + pad) == Join(init, [c] + pad) + [c] + (pad + last);
      SplitAfterSeparator(Join(init, [c] + pad), c, pad + last);
      PiecesSnoc(xs, pad);
    }
  }

  lemma PiecesSnoc(xs: seq<string>, pad: string)
    requires |xs| >= 2
    ensures Pieces(xs, pad) == Pieces(xs[..|xs| - 1], pad) + [pad + xs[|xs| - 1]]
  {
    var a := Pieces(xs, pad);
    var b := Pieces(xs[..|xs| - 1], pad) + [pad + xs[|xs| - 1]];
    assert |a| == |b|;
    forall i | 0 <= i < |a| ensures a[i] == b[i] {
      if 0 < i < |xs| - 1 {
        assert xs[..|xs| - 1][i] == xs[i];
      }
    }
  }

  /** Splitting a list joined with the bare separator gives the list back. */
  lemma SplitJoinBare(xs: seq<string>, c: char)
    requires |xs| >= 1
    requires forall i :: 0 <= i < |xs| ==> c !in xs[i]
    ensures Split(Join(xs, [c]), c) == xs
  {
    assert [c] + "" == [c];
    SplitJoin(xs, c, "");
    PiecesWithoutPad(xs);
  }

  lemma PiecesWithoutPad(xs: seq<string>)
    requires |xs| >= 1
    ensures Pieces(xs, "") == xs
  {
    var p := Pieces(xs, "");
    forall i | 1 <= i < |xs| ensures p[i] == xs[i] {
      assert "" + xs[i] == xs[i];
    }
  }

  /** `t` with a leading `pad` removed, when it has one. */
  function Unpad(t: string, pad: string): string
  {
    if |pad| <= |t| && t[..|pad|] == pad then t[|pad|..] else t
  }

  /** Reads a list written by `Join(_, [c] + pad)` back into its elements. */
  function ParseList(s: string, c: char, pad: string): (r: seq<string>)
  {
    if s == "" then []
    else
      var p := Split(s, c);
      [p[0]] + seq(|p| - 1, i requires 0 <= i < |p| - 1 => Unpad(p[i + 1], pad))
  }

  lemma {:induction false} UnpadPad(t: string, pad: string)
    ensures Unpad(pad + t, pad) == t
  {
    assert (pad + t)[..|pad|] == pad;
    assert (pad + t)[|pad|..] == t;
  }

  lemma JoinNotEmpty(xs: seq<string>, sep: string)
    requires |xs| >= 1 && xs[|xs| - 1] != ""
    ensures Join(xs, sep) != ""
  {
    if |xs| > 1 {
      var j := Join(xs, sep);
      assert j == Join(xs[..|xs| - 1], sep) + sep + xs[|xs| - 1];
      assert |j| >= |xs[|xs| - 1]|;
    }
  }

  /** Joining then parsing gives back the elements, as long as none is empty and none holds `c`. */
  lemma {:induction false} ParseJoin(xs: seq<string>, c: char, pad: string)
    requires forall i :: 0 <= i < |xs| ==> xs[i] != "" && c !in xs[i]
    requires c !in pad
    ensures ParseList(Join(xs, [c] + pad), c, pad) == xs
  {
    if |xs| >= 1 {
      var s := Join(xs, [c] + pad);
      SplitJoin(xs, c, pad);
      JoinNotEmpty(xs, [c] + pad);
      ParsePieces(xs, c, pad, s);
    }
  }

  lemma ParsePieces(xs: seq<string>, c: char, pad: string, s: string)
    requires |xs| >= 1 && s != ""
    requires Split(s, c) == Pieces(xs, pad)
    ensures ParseList(s, c, pad) == xs
  {
    var p := Split(s, c);
    var r := ParseList(s, c, pad);
    assert |r| == |xs|;
    forall i | 0 <= i < |xs| ensures r[i] == xs[i] {
      if i > 0 {
        UnpadPad(xs[i], pad);
        assert r[i] == Unpad(p[i], pad);
      }
    }
  }

  /** An element put in front shifts the others by one. */
  lemma PrependAt<T>(x: T, ys: seq<T>, i: int)
    requires 0 <= i < |ys|
    ensures ([x] + ys)[i + 1] == ys[i]
  {
  }

  /** An element put at the back leaves the others where they were. */
  lemma AppendAt<T>(ys: seq<T>, x: T, i: int)
    requires 0 <= i < |ys|
    ensures (ys + [x])[i] == ys[i]
  {
  }

  /** No name occurs twice. */
  predicate Distinct(xs: seq<string>)
  {
    forall i, j :: 0 <= i < j < |xs| ==> xs[i] != xs[j]
  }

  /** The position of the first `x` in `xs`, or -1: `Array.prototype.indexOf`. */
  function IndexOf(xs: seq<string>, x: string): (k: int)
    ensures -1 <= k < |xs|
    ensures k == -1 <==> x !in xs
    ensures k != -1 ==> xs[k] == x && x !in xs[..k]
    decreases |xs|
  {
    if xs == [] then -1
    else if xs[0] == x then 0
    else
      var k := IndexOf(xs[1..], x);
      assert k != -1 ==> xs[1..][..k] == xs[1..k + 1];
      if k == -1 then -1 else k + 1
  }

  lemma IndexOfTail(xs: seq<string>, y: string)
    requires xs != [] && y != xs[0] && y in xs
    ensures IndexOf(xs, y) == IndexOf(xs[1..], y) + 1
  {
  }
}
