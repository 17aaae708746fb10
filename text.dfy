/**
  Text helpers shared by the scripts: Python's `str.strip()` and
  `str.splitlines()` restricted to the characters this model knows about,
  and the inverse operations used to state round-trips.

  Line terminators: only '\n' is recognised (Python also splits on '\r',
  '\v', '\f', '\x1c'-'\x1e', '\x85' and two Unicode separators).
  Whitespace for `strip`: the ASCII characters `str.isspace()` accepts,
  the six usual ones and the separators '\x1c'-'\x1f'.
 */
module Text {

  /** The characters `str.strip()` removes in this model. */
  const Whitespace: set<char> := {' ', '\t', '\n', '\r', '\U{000B}', '\U{000C}', '\U{001C}', '\U{001D}', '\U{001E}', '\U{001F}'}

  /** A string made only of whitespace (the empty string included). */
  predicate IsBlank(s: string) {
    forall i | 0 <= i < |s| :: s[i] in Whitespace
  }

  /** Neither end of `s` is whitespace. */
  predicate IsStripped(s: string) {
    s == [] || (s[0] !in Whitespace && s[|s| - 1] !in Whitespace)
  }

  /** `s.lstrip()`: the longest suffix of `s` that does not start with whitespace. */
  function TrimLeft(s: string): (r: string)
    ensures |r| <= |s| && r == s[|s| - |r|..]
    ensures r == [] || r[0] !in Whitespace
  {
    if s != [] && s[0] in Whitespace then TrimLeft(s[1..]) else s
  }

  /** What `lstrip` removes is whitespace. */
  lemma {:induction false} TrimLeftBlank(s: string)
    ensures IsBlank(s[..|s| - |TrimLeft(s)|])
  {
    if s != [] && s[0] in Whitespace {
      TrimLeftBlank(s[1..]);
      assert s[..|s| - |TrimLeft(s)|] == [s[0]] + s[1..][..|s| - 1 - |TrimLeft(s[1..])|];
    }
  }

  /** `s.rstrip()`: the longest prefix of `s` that does not end with whitespace. */
  function TrimRight(s: string): (r: string)
    ensures |r| <= |s| && r == s[..|r|]
    ensures r == [] || r[|r| - 1] !in Whitespace
  {
    if s != [] && s[|s| - 1] in Whitespace then TrimRight(s[..|s| - 1]) else s
  }

  /** What `rstrip` removes is whitespace. */
  lemma {:induction false} TrimRightBlank(s: string)
    ensures IsBlank(s[|TrimRight(s)|..])
  {
    if s != [] && s[|s| - 1] in Whitespace {
      var t := s[..|s| - 1];
      TrimRightBlank(t);
      assert s[|TrimRight(s)|..] == t[|TrimRight(t)|..] + [s[|s| - 1]];
    }
  }

  /** `lstrip` empties only a blank string. */
  lemma {:induction false} TrimLeftEmpty(s: string)
    requires TrimLeft(s) == []
    ensures IsBlank(s)
  {
    if s != [] {
      TrimLeftEmpty(s[1..]);
      forall i | 1 <= i < |s|
        ensures s[i] in Whitespace
      {
        assert s[i] == s[1..][i - 1];
      }
    }
  }

  /** `rstrip` keeps a first character that is not whitespace. */
  lemma {:induction false} TrimRightKeepsFirst(s: string)
    requires s != [] && s[0] !in Whitespace
    ensures TrimRight(s) != []
  {
    if s[|s| - 1] in Whitespace {
      TrimRightKeepsFirst(s[..|s| - 1]);
    }
  }

  /** `lstrip` leaves a string that `rstrip` empties only when it is empty itself. */
  lemma {:induction false} TrimBothEmpty(s: string)
    requires TrimRight(TrimLeft(s)) == []
    ensures IsBlank(s)
  {
    if TrimLeft(s) != [] {
      TrimRightKeepsFirst(TrimLeft(s));
    }
    TrimLeftEmpty(s);
  }

  /** What survives both trims is a character of `s` that is not whitespace. */
  lemma {:induction false} TrimBothNonEmpty(s: string)
    requires TrimRight(TrimLeft(s)) != []
    ensures !IsBlank(s)
  {
    var l := TrimLeft(s);
    var r := TrimRight(l);
    assert r[|r| - 1] == l[|r| - 1] == s[|s| - |l| + |r| - 1];
  }

  /** A blank-led suffix of `s` cut again into a prefix and a blank tail leaves a middle slice of `s`. */
  lemma {:induction false} MiddleSlice(s: string, l: string, r: string)
    requires |l| <= |s| && l == s[|s| - |l|..] && IsBlank(s[..|s| - |l|])
    requires |r| <= |l| && r == l[..|r|] && IsBlank(l[|r|..])
    ensures exists i, j :: 0 <= i <= j <= |s| && r == s[i..j] && IsBlank(s[..i]) && IsBlank(s[j..])
  {
    var i := |s| - |l|;
    var j := i + |r|;
    assert r == s[i..j];
    assert l[|r|..] == s[j..];
  }

  /** Both trims together cut `s` into blank text, what they keep, and blank text. */
  lemma {:induction false} TrimBothSlice(s: string)
    ensures var r := TrimRight(TrimLeft(s));
            exists i, j :: 0 <= i <= j <= |s| && r == s[i..j] && IsBlank(s[..i]) && IsBlank(s[j..])
  {
    var l := TrimLeft(s);
    TrimLeftBlank(s);
    TrimRightBlank(l);
    MiddleSlice(s, l, TrimRight(l));
  }

  /**
    `s.strip()`: the middle of `s` left once the whitespace at both ends is
    cut away.
   */
  function Strip(s: string): (r: string)
    ensures IsStripped(r)
    ensures r == [] <==> IsBlank(s)
    ensures exists i, j :: 0 <= i <= j <= |s| && r == s[i..j] && IsBlank(s[..i]) && IsBlank(s[j..])
  {
    var r := TrimRight(TrimLeft(s));
    TrimBothSlice(s);
    if r == [] then TrimBothEmpty(s); r
    else TrimBothNonEmpty(s); r
  }

  /** Stripping a string that is already stripped changes nothing. */
  lemma {:induction false} StripStripped(s: string)
    requires IsStripped(s)
    ensures Strip(s) == s
  {
  }

  /** A string starting with a non-whitespace character keeps that character first when stripped. */
  lemma {:induction false} StripKeepsFirst(s: string)
    requires s != [] && s[0] !in Whitespace
    ensures Strip(s) != [] && Strip(s)[0] == s[0]
  {
    assert !IsBlank(s);
    assert TrimLeft(s) == s;
  }

  /** Stripping a line ends at its terminator. */
  lemma {:induction false} StripTerminated(s: string)
    requires IsStripped(s)
    ensures Strip(s + "\n") == s
  {
    if s == [] {
      assert IsBlank("\n");
    } else {
      assert TrimLeft(s + "\n") == s + "\n";
      assert (s + "\n")[..|s|] == s;
      assert TrimRight(s + "\n") == TrimRight(s) == s;
    }
  }

  /** A line of `splitlines(keepends=True)`: non-empty, with '\n' at most as its last character. */
  predicate IsLine(l: string) {
    l != [] && '\n' !in l[..|l| - 1]
  }

  /** The line ends with its terminator. */
  predicate Terminated(l: string) {
    l != [] && l[|l| - 1] == '\n'
  }

  /** Sequence facts the solver finds only slowly on sequences of strings. */
  lemma {:induction false} SplitFirst<T>(a: seq<T>, b: seq<T>)
    requires a != []
    ensures a + b != [] && (a + b)[0] == a[0] && (a + b)[1..] == a[1..] + b
  {
  }

  lemma {:induction false} AppendAssoc<T>(x: seq<T>, y: seq<T>, z: seq<T>)
    ensures x + (y + z) == (x + y) + z
  {
  }

  lemma {:induction false} SplitLast<T>(a: seq<T>, b: seq<T>)
    requires b != []
    ensures b == b[..|b| - 1] + [b[|b| - 1]] && a + b == (a + b[..|b| - 1]) + [b[|b| - 1]]
  {
  }

  /** `"".join(ss)`. */
  function Concat(ss: seq<string>): (r: string)
  {
    if ss == [] then [] else ss[0] + Concat(ss[1..])
  }

  lemma {:induction false} ConcatAppend(ss: seq<string>, t: string)
    ensures Concat(ss + [t]) == Concat(ss) + t
  {
    if ss == [] {
      assert ss + [t] == [t];
    } else {
      assert (ss + [t])[1..] == ss[1..] + [t];
      ConcatAppend(ss[1..], t);
    }
  }

  /** Index of the first `c` in `s`, or `|s|` when there is none. */
  function FirstIndex(s: string, c: char): (k: nat)
    ensures k <= |s|
    ensures c !in s[..k]
    ensures k < |s| ==> s[k] == c
  {
    if s == [] || s[0] == c then 0
    else
      var k := 1 + FirstIndex(s[1..], c);
      assert s[..k] == [s[0]] + s[1..][..k - 1];
      k
  }

  /** The first `c` is the one at `j` when nothing before `j` is a `c`. */
  lemma {:induction false} FirstIndexAt(s: string, c: char, j: nat)
    requires j <= |s| && c !in s[..j]
    requires j < |s| ==> s[j] == c
    ensures FirstIndex(s, c) == j
  {
    var k := FirstIndex(s, c);
    forall i | 0 <= i < j ensures s[i] != c {
      assert s[..j][i] == s[i];
    }
    forall i | 0 <= i < k ensures s[i] != c {
      assert s[..k][i] == s[i];
    }
  }

  /** `r` cuts `s` into lines: each is a line, all but the last are terminated. */
  predicate IsLinePartition(s: string, r: seq<string>) {
    && Concat(r) == s
    && (forall i | 0 <= i < |r| :: IsLine(r[i]))
    && (forall i | 0 <= i < |r| - 1 :: Terminated(r[i]))
  }

  /** `s.splitlines(keepends=True)`. */
  function SplitLinesKeep(s: string): (r: seq<string>)
    ensures IsLinePartition(s, r)
    decreases |s|
  {
    if s == [] then []
    else
      var k := FirstIndex(s, '\n');
      if k == |s| then
        assert IsLine(s) by {
          assert s[..|s| - 1] == s[..k][..|s| - 1];
        }
        assert Concat([s]) == s;
        [s]
      else
        var head := s[..k + 1];
        var rest := SplitLinesKeep(s[k + 1..]);
        assert IsLine(head) && Terminated(head) by {
          assert head[..|head| - 1] == s[..k];
        }
        assert head + s[k + 1..] == s;
        ConsLine(head, s[k + 1..], rest);
        [head] + rest
  }

  /** A terminated line in front of a partition of `t` partitions the whole. */
  lemma {:induction false} ConsLine(head: string, t: string, rest: seq<string>)
    requires IsLine(head) && Terminated(head) && IsLinePartition(t, rest)
    ensures IsLinePartition(head + t, [head] + rest)
  {
    var r := [head] + rest;
    assert r[1..] == rest;
    forall i | 1 <= i < |r|
      ensures r[i] == rest[i - 1]
    {
    }
  }

  /** The line partition of a string is unique: any partition is `splitlines`. */
  lemma {:induction false} LinePartitionUnique(s: string, r: seq<string>)
    requires IsLinePartition(s, r)
    ensures SplitLinesKeep(s) == r
    decreases |r|
  {
    if r == [] {
    } else {
      var h := r[0];
      assert s == h + Concat(r[1..]);
      assert s[..|h| - 1] == h[..|h| - 1];
      if Terminated(h) {
        FirstIndexAt(s, '\n', |h| - 1);
        assert s[..|h|] == h;
        var tail := r[1..];
        assert IsLinePartition(s[|h|..], tail) by {
          assert forall i | 0 <= i < |tail| :: tail[i] == r[i + 1];
        }
        LinePartitionUnique(s[|h|..], tail);
      } else {
        assert |r| == 1;
        assert Concat(r[1..]) == [];
        assert s == h;
        FirstIndexAt(s, '\n', |s|);
      }
    }
  }

  /** Appending a line after a partition that ends on a line boundary appends it to the lines. */
  lemma {:induction false} PartitionAppendLine(s: string, p: seq<string>, l: string)
    requires IsLinePartition(s, p) && (p == [] || Terminated(p[|p| - 1]))
    requires IsLine(l)
    ensures SplitLinesKeep(s + l) == p + [l]
  {
    ConcatAppend(p, l);
    assert IsLinePartition(s + l, p + [l]);
    LinePartitionUnique(s + l, p + [l]);
  }

  /** An unterminated line followed by a line is one line. */
  lemma {:induction false} GlueLine(l: string, t: string)
    requires IsLine(l) && !Terminated(l) && IsLine(t)
    ensures IsLine(l + t)
  {
    assert l == l[..|l| - 1] + [l[|l| - 1]];
    assert '\n' !in l;
    assert (l + t)[..|l + t| - 1] == l + t[..|t| - 1];
  }

  /** Joining after extending the last piece is joining, then extending. */
  lemma {:induction false} ConcatGlueLast(p: seq<string>, t: string)
    requires p != []
    ensures Concat(p[..|p| - 1] + [p[|p| - 1] + t]) == Concat(p) + t
  {
    var init := p[..|p| - 1];
    assert p == init + [p[|p| - 1]];
    ConcatAppend(init, p[|p| - 1]);
    ConcatAppend(init, p[|p| - 1] + t);
  }

  /** Text appended after an unterminated last line extends that line. */
  lemma {:induction false} PartitionGlue(s: string, p: seq<string>, t: string)
    requires IsLinePartition(s, p) && p != [] && !Terminated(p[|p| - 1])
    requires IsLine(t)
    ensures IsLinePartition(s + t, p[..|p| - 1] + [p[|p| - 1] + t])
  {
    var n := |p|;
    var last := p[n - 1];
    var glued := last + t;
    var q := p[..n - 1] + [glued];
    GlueLine(last, t);
    ConcatGlueLast(p, t);
    assert forall i | 0 <= i < |q| :: IsLine(q[i]) by {
      forall i | 0 <= i < n - 1 ensures q[i] == p[i] { }
    }
    assert forall i | 0 <= i < |q| - 1 :: Terminated(q[i]) by {
      forall i | 0 <= i < n - 1 ensures q[i] == p[i] { }
    }
  }

  /** `line.rstrip("\n")` for one line of `splitlines(keepends=True)`. */
  function Chomp(l: string): (r: string)
    ensures Terminated(l) ==> r + "\n" == l
    ensures !Terminated(l) ==> r == l
  {
    if Terminated(l) then l[..|l| - 1] else l
  }

  /** `s.splitlines()`: the lines of `s` without their terminators. */
  function SplitLines(s: string): (r: seq<string>)
    ensures |r| == |SplitLinesKeep(s)|
    ensures forall i | 0 <= i < |r| :: '\n' !in r[i]
    ensures forall i | 0 <= i < |r| :: SplitLinesKeep(s)[i] == r[i] || SplitLinesKeep(s)[i] == r[i] + "\n"
  {
    var keep := SplitLinesKeep(s);
    var r := seq(|keep|, i requires 0 <= i < |keep| => Chomp(keep[i]));
    assert forall i | 0 <= i < |r| :: '\n' !in r[i] by {
      forall i | 0 <= i < |r| ensures '\n' !in r[i] {
        var l := keep[i];
        assert IsLine(l);
        if Terminated(l) {
          assert r[i] == l[..|l| - 1];
        } else {
          assert l == l[..|l| - 1] + [l[|l| - 1]];
        }
      }
    }
    r
  }

  /** `sep.join(parts)`. */
  function JoinWith(parts: seq<string>, sep: string): (r: string)
  {
    if parts == [] then []
    else if |parts| == 1 then parts[0]
    else parts[0] + sep + JoinWith(parts[1..], sep)
  }

  /** The text of `names` written one per line, each followed by '\n'. */
  function UnlinesTerminated(names: seq<string>): (r: string)
  {
    if names == [] then [] else names[0] + "\n" + UnlinesTerminated(names[1..])
  }

  /** Writing lines one per line and reading them back with `splitlines` gives them back. */
  lemma {:induction false} SplitLinesUnlines(names: seq<string>)
    requires forall i | 0 <= i < |names| :: '\n' !in names[i]
    ensures SplitLines(UnlinesTerminated(names)) == names
  {
    var keep := seq(|names|, i requires 0 <= i < |names| => names[i] + "\n");
    assert Concat(keep) == UnlinesTerminated(names) by {
      UnlinesAsConcat(names);
    }
    forall i | 0 <= i < |keep| ensures IsLine(keep[i]) && Terminated(keep[i]) {
      assert keep[i][..|keep[i]| - 1] == names[i];
    }
    LinePartitionUnique(UnlinesTerminated(names), keep);
    var r := SplitLines(UnlinesTerminated(names));
    assert |r| == |names|;
    forall i | 0 <= i < |names| ensures r[i] == names[i] {
      assert keep[i][..|keep[i]| - 1] == names[i];
    }
  }

  lemma {:induction false} UnlinesAsConcat(names: seq<string>)
    ensures Concat(seq(|names|, i requires 0 <= i < |names| => names[i] + "\n"))
         == UnlinesTerminated(names)
  {
    var keep := seq(|names|, i requires 0 <= i < |names| => names[i] + "\n");
    if names != [] {
      var tail := seq(|names| - 1, i requires 0 <= i < |names| - 1 => names[1..][i] + "\n");
      assert keep[1..] == tail;
      UnlinesAsConcat(names[1..]);
    }
  }

  /** `s.split(sep)` for a one-character separator: always at least one part. */
  function SplitOn(s: string, sep: char): (r: seq<string>)
    ensures |r| >= 1
    ensures forall i | 0 <= i < |r| :: sep !in r[i]
    decreases |s|
  {
    var k := FirstIndex(s, sep);
    if k == |s| then
      assert s[..k] == s;
      [s]
    else
      [s[..k]] + SplitOn(s[k + 1..], sep)
  }

  /** A string without the separator is one part. */
  lemma {:induction false} SplitOnNone(s: string, sep: char)
    requires sep !in s
    ensures SplitOn(s, sep) == [s]
  {
    assert s[..|s|] == s;
    FirstIndexAt(s, sep, |s|);
  }

  /** One step of `SplitOn`: the part before the first separator, then the rest. */
  lemma {:induction false} SplitOnStep(s: string, sep: char, k: nat)
    requires k < |s| && sep !in s[..k] && s[k] == sep
    ensures SplitOn(s, sep) == [s[..k]] + SplitOn(s[k + 1..], sep)
  {
    FirstIndexAt(s, sep, k);
  }

  /** Splitting at the first separator: the part before it, then the parts after it. */
  lemma {:induction false} SplitOnAt(a: string, sep: char, b: string)
    requires sep !in a
    ensures SplitOn(a + [sep] + b, sep) == [a] + SplitOn(b, sep)
  {
    var s := a + [sep] + b;
    assert s[..|a|] == a;
    assert s[|a| + 1..] == b;
    SplitOnStep(s, sep, |a|);
  }

  /** A separator inside `a` is met before the one that follows `a`. */
  lemma {:induction false} SplitOnBefore(a: string, sep: char, b: string, k: nat)
    requires k < |a| && sep !in a[..k] && a[k] == sep
    ensures SplitOn(a + [sep] + b, sep) == [a[..k]] + SplitOn(a[k + 1..] + [sep] + b, sep)
  {
    var s := a + [sep] + b;
    assert s[..k] == a[..k];
    assert s[k + 1..] == a[k + 1..] + [sep] + b;
    SplitOnStep(s, sep, k);
  }

  /** Splitting at a separator splits the parts on either side of it. */
  lemma {:induction false} SplitOnJoin(a: string, sep: char, b: string)
    ensures SplitOn(a + [sep] + b, sep) == SplitOn(a, sep) + SplitOn(b, sep)
    decreases |a|
  {
    var k := FirstIndex(a, sep);
    if k == |a| {
      assert a[..k] == a;
      SplitOnAt(a, sep, b);
      SplitOnNone(a, sep);
    } else {
      var a' := a[k + 1..];
      var x, y, z := [a[..k]], SplitOn(a', sep), SplitOn(b, sep);
      calc {
        SplitOn(a + [sep] + b, sep);
      ==  { SplitOnBefore(a, sep, b, k); }
        x + SplitOn(a' + [sep] + b, sep);
      ==  { SplitOnJoin(a', sep, b); }
        x + (y + z);
      ==  { assert x + (y + z) == (x + y) + z; }
        (x + y) + z;
      ==  { SplitOnStep(a, sep, k); }
        SplitOn(a, sep) + z;
      }
    }
  }
}
