/**
  Text shared by the components: byte strings, the ASCII part of `strings.TrimSpace`,
  `strings.Split(s, "\n")` and the concatenation of a list of pieces.
*/
module Text {

  ghost predicate Distinct<T>(s: seq<T>)
  {
    forall i, j :: 0 <= i < j < |s| ==> s[i] != s[j]
  }

  // ----- concatenation

  lemma NoText<T>(s: seq<T>)
    ensures [] + s == s && s + [] == s
  {
  }

  lemma Associate<T>(a: seq<T>, b: seq<T>, c: seq<T>)
    ensures (a + b) + c == a + (b + c)
  {
  }

  function Concat(pieces: seq<string>): string
  {
    if pieces == [] then "" else pieces[0] + Concat(pieces[1..])
  }

  lemma {:induction false} ConcatAppend(a: seq<string>, b: seq<string>)
    ensures Concat(a + b) == Concat(a) + Concat(b)
  {
    if a == [] {
      assert a + b == b;
    } else {
      ConcatAppend(a[1..], b);
      assert (a + b)[1..] == a[1..] + b;
      Associate(a[0], Concat(a[1..]), Concat(b));
    }
  }

  lemma ConcatSnoc(a: seq<string>, piece: string)
    ensures Concat(a + [piece]) == Concat(a) + piece
  {
    ConcatAppend(a, [piece]);
    assert Concat([piece]) == piece + Concat([]);
  }

  lemma ConcatSplit(a: seq<string>, k: nat)
    requires k <= |a|
    ensures Concat(a) == Concat(a[..k]) + Concat(a[k..])
  {
    ConcatAppend(a[..k], a[k..]);
    assert a == a[..k] + a[k..];
  }

  /** The last `n` bytes of `s`, or all of `s` when it is no longer than `n`. */
  function Suffix(s: string, n: nat): string
  {
    if |s| > n then s[|s| - n..] else s
  }

  lemma SuffixOfLonger(front: string, s: string, n: nat)
    requires |s| >= n
    ensures Suffix(front + s, n) == Suffix(s, n)
  {
    assert (front + s)[|front| + |s| - n..] == s[|s| - n..];
  }

  /** Trimming to a suffix before or after appending gives the same suffix. */
  lemma SuffixOfSuffix(a: string, b: string, n: nat)
    ensures Suffix(Suffix(a, n) + b, n) == Suffix(a + b, n)
  {
    if |a| > n {
      assert a == a[..|a| - n] + a[|a| - n..];
      Associate(a[..|a| - n], a[|a| - n..], b);
      SuffixOfLonger(a[..|a| - n], a[|a| - n..] + b, n);
    }
  }

  // ----- white space

  predicate IsSpace(c: char)
  {
    c == ' ' || c == '\t' || c == '\n' || c == '\r' || c == '\U{0B}' || c == '\U{0C}'
  }

  function TrimLeft(s: string): string
  {
    if s != "" && IsSpace(s[0]) then TrimLeft(s[1..]) else s
  }

  function TrimRight(s: string): string
  {
    if s != "" && IsSpace(s[|s| - 1]) then TrimRight(s[..|s| - 1]) else s
  }

  function TrimSpace(s: string): string
  {
    TrimRight(TrimLeft(s))
  }

  predicate AllSpace(s: string)
  {
    forall i :: 0 <= i < |s| ==> IsSpace(s[i])
  }

  /** No white space at either end. */
  predicate Trimmed(s: string)
  {
    s == "" || (!IsSpace(s[0]) && !IsSpace(s[|s| - 1]))
  }

  lemma {:induction false} TrimLeftSplits(s: string) returns (k: nat)
    ensures k <= |s| && TrimLeft(s) == s[k..] && AllSpace(s[..k])
    ensures k < |s| ==> !IsSpace(s[k])
  {
    if s != "" && IsSpace(s[0]) {
      var j := TrimLeftSplits(s[1..]);
      k := j + 1;
      assert s[1..][j..] == s[k..];
      forall i | 0 <= i < k ensures IsSpace(s[i]) {
        if i > 0 { assert s[i] == s[1..][..j][i - 1]; }
      }
    } else {
      k := 0;
    }
  }

  lemma {:induction false} TrimRightSplits(s: string) returns (k: nat)
    ensures k <= |s| && TrimRight(s) == s[..k] && AllSpace(s[k..])
    ensures k > 0 ==> !IsSpace(s[k - 1])
  {
    if s != "" && IsSpace(s[|s| - 1]) {
      var t := s[..|s| - 1];
      k := TrimRightSplits(t);
      assert t[..k] == s[..k];
      forall i | 0 <= i < |s[k..]| ensures IsSpace(s[k..][i]) {
        if i < |t| - k { assert s[k..][i] == t[k..][i]; }
      }
    } else {
      k := |s|;
    }
  }

  /** A trimmed string is what is left after removing white space at both ends. */
  lemma TrimSpaceSplits(s: string) returns (left: string, right: string)
    ensures s == left + TrimSpace(s) + right
    ensures AllSpace(left) && AllSpace(right)
    ensures Trimmed(TrimSpace(s))
    ensures TrimSpace(s) == "" <==> AllSpace(s)
  {
    var k := TrimLeftSplits(s);
    var t := s[k..];
    var m := TrimRightSplits(t);
    left, right := s[..k], t[m..];
    assert s == s[..k] + (t[..m] + t[m..]);
    var u := t[..m];
    if u != "" {
      assert u[0] == t[0] == s[k];
      assert u[|u| - 1] == t[m - 1];
      assert !IsSpace(s[k]);
    } else {
      assert s == left + right;
    }
  }

  /** Trimming is the only decomposition: any way of writing `s` as white space, a trimmed core
      and white space has the core that TrimSpace returns. */
  lemma TrimSpaceUnique(s: string, left: string, core: string, right: string)
    requires s == left + core + right
    requires AllSpace(left) && AllSpace(right) && Trimmed(core)
    ensures TrimSpace(s) == core
  {
    var l, r := TrimSpaceSplits(s);
    var t := TrimSpace(s);
    SpacesAtEnds(s, l, t, r);
    SpacesAtEnds(s, left, core, right);
    if core == "" {
      assert AllSpace(s);
    } else {
      assert !IsSpace(s[|left|]);
      assert t != "";
      assert |l| == |left| && |l| + |t| == |left| + |core|;
      assert s[|l|..|l| + |t|] == t;
      assert s[|left|..|left| + |core|] == core;
    }
  }

  lemma SpacesAtEnds(s: string, left: string, core: string, right: string)
    requires s == left + core + right && AllSpace(left) && AllSpace(right) && Trimmed(core)
    ensures forall i :: 0 <= i < |left| ==> IsSpace(s[i])
    ensures forall i :: |left| + |core| <= i < |s| ==> IsSpace(s[i])
    ensures core != "" ==> !IsSpace(s[|left|]) && !IsSpace(s[|left| + |core| - 1])
  {
    forall i | 0 <= i < |left| ensures IsSpace(s[i]) { assert s[i] == left[i]; }
    forall i | |left| + |core| <= i < |s| ensures IsSpace(s[i]) {
      assert s[i] == right[i - |left| - |core|];
    }
    if core != "" {
      assert s[|left|] == core[0] && s[|left| + |core| - 1] == core[|core| - 1];
    }
  }

  /** The first string that is not blank, trimmed, as the console's `firstNonEmpty` returns it. */
  function FirstNonEmpty(values: seq<string>): string
  {
    if values == [] then "" else if TrimSpace(values[0]) != "" then TrimSpace(values[0])
    else FirstNonEmpty(values[1..])
  }

  /** It is "" exactly if all are blank, and otherwise the first of them that is not, trimmed. */
  lemma {:induction false} FirstNonEmptyIs(values: seq<string>)
    ensures FirstNonEmpty(values) == "" <==> forall i :: 0 <= i < |values| ==> AllSpace(values[i])
    ensures forall i :: 0 <= i < |values| && !AllSpace(values[i]) && (forall j :: 0 <= j < i ==> AllSpace(values[j]))
                        ==> FirstNonEmpty(values) == TrimSpace(values[i])
  {
    if values != [] {
      var left, right := TrimSpaceSplits(values[0]);
      FirstNonEmptyIs(values[1..]);
      assert forall i :: 0 < i < |values| ==> values[i] == values[1..][i - 1];
    }
  }

  lemma {:induction false} FirstIsTrimmed(values: seq<string>)
    ensures TrimSpace(FirstNonEmpty(values)) == FirstNonEmpty(values)
    ensures AllSpace(FirstNonEmpty(values)) ==> FirstNonEmpty(values) == ""
  {
    var left, right := TrimSpaceSplits(FirstNonEmpty(values));
    if values != [] && TrimSpace(values[0]) != "" {
      var l, r := TrimSpaceSplits(values[0]);
      TrimmedIsFixed(TrimSpace(values[0]));
    } else if values != [] {
      FirstIsTrimmed(values[1..]);
    } else {
      TrimmedIsFixed("");
    }
  }

  lemma TrimmedIsFixed(s: string)
    ensures TrimSpace(s) == s <==> Trimmed(s)
  {
    var l, r := TrimSpaceSplits(s);
    if Trimmed(s) {
      assert s == "" + s + "";
      TrimSpaceUnique(s, "", s, "");
    }
  }

  /** Text put in front shows after trimming exactly if it is not blank. */
  lemma FrontShowsIff(front: string, s: string)
    ensures TrimSpace(front + s) == TrimSpace(s) <==> AllSpace(front)
  {
    var left, right := TrimSpaceSplits(s);
    var core := TrimSpace(s);
    if AllSpace(front) {
      assert front + s == (front + left) + core + right;
      TrimSpaceUnique(front + s, front + left, core, right);
    } else {
      var l, r := TrimSpaceSplits(front + s);
      FrontIsLonger(front, s, l, r);
    }
  }

  lemma FrontIsLonger(front: string, s: string, l: string, r: string)
    requires !AllSpace(front) && front + s == l + TrimSpace(front + s) + r && AllSpace(l) && AllSpace(r)
    requires Trimmed(TrimSpace(front + s))
    ensures TrimSpace(front + s) != TrimSpace(s)
  {
    var whole := TrimSpace(front + s);
    SpacesAtEnds(front + s, l, whole, r);
    var i :| 0 <= i < |front| && !IsSpace(front[i]);
    assert (front + s)[i] == front[i];
    assert |l| <= i;
    var left, right := TrimSpaceSplits(s);
    var core := TrimSpace(s);
    SpacesAtEnds(s, left, core, right);
    if core != "" {
      var k := |left| + |core| - 1;
      assert (front + s)[|front| + k] == s[k];
      assert |l| + |whole| > |front| + k;
    }
  }

  // ----- searching

  /** The first position of `c`, or the length of `s`. */
  function IndexOf(s: string, c: char): (i: nat)
    ensures i <= |s| && c !in s[..i] && (i < |s| ==> s[i] == c)
  {
    if s == "" || s[0] == c then 0 else IndexOf(s[1..], c) + 1
  }

  lemma {:induction false} IndexOfAfter(a: string, c: char, rest: string)
    requires c !in a && (rest != "" ==> rest[0] == c)
    ensures IndexOf(a + rest, c) == |a|
  {
    if a == "" {
      assert a + rest == rest;
    } else {
      assert a[0] in a && forall x :: x in a[1..] ==> x in a;
      IndexOfAfter(a[1..], c, rest);
      assert (a + rest)[1..] == a[1..] + rest;
    }
  }

  // ----- case

  function LowerChar(c: char): char
  {
    if 'A' <= c <= 'Z' then (c as int + 32) as char else c
  }

  /** The ASCII part of `strings.ToLower`. */
  function ToLower(s: string): (t: string)
    ensures |t| == |s|
  {
    seq(|s|, i requires 0 <= i < |s| => LowerChar(s[i]))
  }

  // ----- lines

  /** `strings.Split(s, "\n")`: never empty, the last element is the text after the last newline. */
  function SplitLines(s: string): (lines: seq<string>)
    ensures |lines| >= 1
  {
    if s == "" then [""]
    else
      PushChar(s[0], SplitLines(s[1..]))
  }

  function Init<T>(s: seq<T>): seq<T>
    requires s != []
  {
    s[..|s| - 1]
  }

  function Last<T>(s: seq<T>): T
    requires s != []
  {
    s[|s| - 1]
  }

  /** Lines with newlines between them. */
  function JoinLines(lines: seq<string>): string
  {
    if lines == [] then "" else if |lines| == 1 then lines[0] else lines[0] + "\n" + JoinLines(lines[1..])
  }

  /** Splitting loses nothing. */
  lemma {:induction false} SplitThenJoin(s: string)
    ensures JoinLines(SplitLines(s)) == s
  {
    if s != "" {
      var lines := SplitLines(s[1..]);
      SplitThenJoin(s[1..]);
      assert s == [s[0]] + s[1..];
      JoinPushed(s[0], lines);
    }
  }

  lemma JoinPushed(c: char, lines: seq<string>)
    requires lines != []
    ensures JoinLines(PushChar(c, lines)) == [c] + JoinLines(lines)
  {
    var pushed := PushChar(c, lines);
    if c == '\n' {
      assert pushed[1..] == lines;
    } else if |lines| > 1 {
      assert pushed[0] == [c] + lines[0] && pushed[1..] == lines[1..];
      Associate([c], lines[0], "\n");
      Associate([c], lines[0] + "\n", JoinLines(lines[1..]));
    }
  }

  /** Splitting a text in two pieces: the complete lines of the first piece stay, and its
      unfinished last line is glued to the second piece. */
  lemma {:induction false} SplitLinesAppend(a: string, b: string)
    ensures SplitLines(a + b) == Init(SplitLines(a)) + SplitLines(Last(SplitLines(a)) + b)
  {
    if a == "" {
      assert a + b == b && "" + b == b;
      assert Init(SplitLines(a)) == [];
    } else {
      SplitLinesAppend(a[1..], b);
      assert (a + b)[0] == a[0] && (a + b)[1..] == a[1..] + b;
      SplitLinesStep(a[0], SplitLines(a[1..]), SplitLines(a[1..] + b), b);
    }
  }

  /** The inductive step of SplitLinesAppend: one more character in front. */
  lemma SplitLinesStep(c: char, rest: seq<string>, whole: seq<string>, b: string)
    requires |rest| >= 1 && |whole| >= 1
    requires whole == Init(rest) + SplitLines(Last(rest) + b)
    ensures PushChar(c, whole) == Init(PushChar(c, rest)) + SplitLines(Last(PushChar(c, rest)) + b)
  {
    if c != '\n' && |rest| == 1 {
      assert Init(PushChar(c, rest)) == [];
      var line := [c] + rest[0] + b;
      assert line[0] == c && line[1..] == rest[0] + b;
    } else {
      PushCharFront(c, rest, SplitLines(Last(rest) + b));
    }
  }

  lemma PushCharFront(c: char, rest: seq<string>, tail: seq<string>)
    requires |tail| >= 1 && (if c == '\n' then |rest| >= 1 else |rest| > 1)
    ensures PushChar(c, Init(rest) + tail) == Init(PushChar(c, rest)) + tail
    ensures Last(PushChar(c, rest)) == Last(rest)
  {
    if c == '\n' {
      InitOfCons("", rest);
      Associate([""], Init(rest), tail);
    } else {
      var more := rest[1..];
      InitOfCons(rest[0], more);
      InitOfCons([c] + rest[0], more);
      assert rest == [rest[0]] + more;
      Associate([rest[0]], Init(more), tail);
      Associate([[c] + rest[0]], Init(more), tail);
    }
  }

  lemma InitOfCons<T>(x: T, s: seq<T>)
    requires s != []
    ensures Init([x] + s) == [x] + Init(s) && Last([x] + s) == Last(s)
  {
  }

  /** What SplitLines does with one more leading character. */
  function PushChar(c: char, lines: seq<string>): (r: seq<string>)
    requires |lines| >= 1
    ensures |r| >= 1
  {
    if c == '\n' then [""] + lines else [[c] + lines[0]] + lines[1..]
  }

  lemma {:induction false} SplitLinesHaveNoNewline(s: string, i: nat)
    requires i < |SplitLines(s)|
    ensures '\n' !in SplitLines(s)[i]
  {
    if s != "" {
      var rest := SplitLines(s[1..]);
      if s[0] == '\n' {
        if i > 0 { SplitLinesHaveNoNewline(s[1..], i - 1); }
      } else {
        SplitLinesHaveNoNewline(s[1..], i);
      }
    }
  }

  lemma {:induction false} SplitOneLine(line: string)
    requires '\n' !in line
    ensures SplitLines(line) == [line]
  {
    if line != "" {
      assert line[0] in line;
      assert forall c :: c in line[1..] ==> c in line;
      SplitOneLine(line[1..]);
      assert [line[0]] + line[1..] == line;
    }
  }

  /** A line, a newline and more text. */
  lemma {:induction false} SplitNewlineAfter(line: string, rest: string)
    requires '\n' !in line
    ensures SplitLines(line + ("\n" + rest)) == [line] + SplitLines(rest)
  {
    var s := line + ("\n" + rest);
    if line == "" {
      assert s[0] == '\n' && s[1..] == rest;
    } else {
      assert line[0] in line;
      assert forall c :: c in line[1..] ==> c in line;
      SplitNewlineAfter(line[1..], rest);
      assert s[1..] == line[1..] + ("\n" + rest);
      assert [line[0]] + line[1..] == line;
    }
  }
}
