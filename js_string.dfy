// String and array helpers shared by the models: JavaScript's
// `String.prototype.split`/`Array.prototype.join` for a one-character
// separator, `indexOf` on arrays and the flat offsets of a split text.

module JsString {

  /** `s.split(sep)` for a one-character separator: the pieces of `s` between
      occurrences of `sep`, in order. An empty string splits to `[""]`. */
  function Split(s: string, sep: char): (parts: seq<string>)
    ensures |parts| >= 1
    decreases |s|
  {
    if |s| == 0 then [""]
    else
      var rest := Split(s[1..], sep);
      if s[0] == sep then [""] + rest
      else [[s[0]] + rest[0]] + rest[1..]
  }

  /** `parts.join(sep)`. */
  function Join(parts: seq<string>, sep: char): string
    decreases |parts|
  {
    if |parts| == 0 then ""
    else if |parts| == 1 then parts[0]
    else parts[0] + [sep] + Join(parts[1..], sep)
  }

  predicate NoSep(parts: seq<string>, sep: char)
  {
    forall i :: 0 <= i < |parts| ==> sep !in parts[i]
  }

  /** No piece of a split contains the separator. */
  lemma {:induction false} SplitNoSepParts(s: string, sep: char)
    ensures NoSep(Split(s, sep), sep)
    decreases |s|
  {
    if |s| > 0 {
      SplitNoSepParts(s[1..], sep);
      var rest := Split(s[1..], sep);
      if s[0] != sep {
        assert sep !in [s[0]] + rest[0];
      }
    }
  }

  /** Joining the pieces of a split gives back the string. */
  lemma {:induction false} JoinSplit(s: string, sep: char)
    ensures Join(Split(s, sep), sep) == s
    decreases |s|
  {
    if |s| > 0 {
      var rest := Split(s[1..], sep);
      JoinSplit(s[1..], sep);
      if s[0] == sep {
        assert Split(s, sep) == [""] + rest;
        if |rest| == 1 {
          assert Join(Split(s, sep), sep) == "" + [sep] + rest[0];
        } else {
          assert ([""] + rest)[1..] == rest;
        }
        assert s == [s[0]] + s[1..];
      } else {
        var parts := Split(s, sep);
        assert parts == [[s[0]] + rest[0]] + rest[1..];
        if |rest| == 1 {
          assert Join(parts, sep) == [s[0]] + rest[0];
        } else {
          assert parts[1..] == rest[1..];
          assert Join(rest, sep) == rest[0] + [sep] + Join(rest[1..], sep);
        }
        assert s == [s[0]] + s[1..];
      }
    }
  }

  /** A string free of the separator splits to itself. */
  lemma {:induction false} SplitNoSep(s: string, sep: char)
    requires sep !in s
    ensures Split(s, sep) == [s]
    decreases |s|
  {
    if |s| > 0 {
      assert sep !in s[1..] by {
        forall k | 0 <= k < |s[1..]| ensures s[1..][k] != sep {
          assert s[1..][k] == s[k + 1];
        }
      }
      SplitNoSep(s[1..], sep);
      assert s == [s[0]] + s[1..];
    }
  }

  /** Splitting a string at a separator occurrence. */
  lemma {:induction false} SplitCons(a: string, b: string, sep: char)
    requires sep !in a
    ensures Split(a + [sep] + b, sep) == [a] + Split(b, sep)
    decreases |a|
  {
    if |a| == 0 {
      assert a + [sep] + b == [sep] + b;
      assert ([sep] + b)[1..] == b;
    } else {
      var s := a + [sep] + b;
      assert s[0] == a[0];
      assert s[1..] == a[1..] + [sep] + b;
      assert sep !in a[1..] by {
        forall k | 0 <= k < |a[1..]| ensures a[1..][k] != sep {
          assert a[1..][k] == a[k + 1];
        }
      }
      SplitCons(a[1..], b, sep);
      assert [a[0]] + a[1..] == a;
    }
  }

  /** Splitting a join of separator-free pieces gives back the pieces. */
  lemma {:induction false} SplitJoin(parts: seq<string>, sep: char)
    requires |parts| >= 1
    requires NoSep(parts, sep)
    ensures Split(Join(parts, sep), sep) == parts
    decreases |parts|
  {
    if |parts| == 1 {
      SplitNoSep(parts[0], sep);
    } else {
      SplitJoin(parts[1..], sep);
      SplitCons(parts[0], Join(parts[1..], sep), sep);
      assert [parts[0]] + parts[1..] == parts;
    }
  }

  /** The pieces of `p` and `q` with the last of `p` fused to the first of `q`. */
  function Fuse(p: seq<string>, q: seq<string>): (r: seq<string>)
    requires |p| >= 1 && |q| >= 1
    ensures |r| == |p| + |q| - 1
  {
    p[..|p| - 1] + [p[|p| - 1] + q[0]] + q[1..]
  }

  lemma FuseEmptyHead(p: seq<string>, q: seq<string>)
    requires |p| >= 1 && |q| >= 1
    ensures Fuse([""] + p, q) == [""] + Fuse(p, q)
  {
    var p2 := [""] + p;
    assert p2[..|p2| - 1] == [""] + p[..|p| - 1];
    assert p2[|p2| - 1] == p[|p| - 1];
  }

  lemma FuseConsHead(c: char, p: seq<string>, q: seq<string>)
    requires |p| >= 1 && |q| >= 1
    ensures var f := Fuse(p, q);
      Fuse([[c] + p[0]] + p[1..], q) == [[c] + f[0]] + f[1..]
  {
    var p2 := [[c] + p[0]] + p[1..];
    var f := Fuse(p, q);
    if |p| == 1 {
      assert p2 == [[c] + p[0]];
      assert Fuse(p2, q) == [([c] + p[0]) + q[0]] + q[1..];
      assert f == [p[0] + q[0]] + q[1..];
      assert ([c] + p[0]) + q[0] == [c] + (p[0] + q[0]);
    } else {
      assert p2[..|p2| - 1] == [[c] + p[0]] + p[1..|p| - 1];
      assert p[..|p| - 1] == [p[0]] + p[1..|p| - 1];
      assert f[0] == p[0];
      assert f[1..] == p[1..|p| - 1] + [p[|p| - 1] + q[0]] + q[1..];
    }
  }

  /** Splitting a concatenation: the last piece of `a` and the first piece of
      `b` fuse into one piece. */
  lemma {:induction false} SplitAppend(a: string, b: string, sep: char)
    ensures Split(a + b, sep) == Fuse(Split(a, sep), Split(b, sep))
    decreases |a|
  {
    var q := Split(b, sep);
    if |a| == 0 {
      assert a + b == b;
      assert Split(a, sep) == [""];
      assert q == [q[0]] + q[1..];
      assert Fuse([""], q) == [q[0]] + q[1..] by {
        assert [""][..0] == [];
        assert "" + q[0] == q[0];
      }
    } else {
      var p' := Split(a[1..], sep);
      assert (a + b)[1..] == a[1..] + b;
      assert (a + b)[0] == a[0];
      SplitAppend(a[1..], b, sep);
      if a[0] == sep {
        FuseEmptyHead(p', q);
      } else {
        FuseConsHead(a[0], p', q);
      }
    }
  }

  /** Offset in `Join(parts, sep)` at which piece `y` starts. */
  function LineStart(parts: seq<string>, y: nat): nat
    requires y <= |parts|
  {
    if y == 0 then 0 else LineStart(parts, y - 1) + |parts[y - 1]| + 1
  }

  /** A flat offset that lies inside piece `y` at column `x`. */
  predicate InGrid(parts: seq<string>, x: int, y: int)
  {
    0 <= y < |parts| && 0 <= x < |parts[y]|
  }

  lemma {:induction false} LineStartTail(parts: seq<string>, y: nat)
    requires 1 <= y <= |parts|
    ensures LineStart(parts, y) == |parts[0]| + 1 + LineStart(parts[1..], y - 1)
    decreases y
  {
    if y > 1 {
      LineStartTail(parts, y - 1);
      assert parts[1..][y - 2] == parts[y - 1];
    }
  }

  lemma {:induction false} JoinLength(parts: seq<string>, sep: char)
    requires |parts| >= 1
    ensures |Join(parts, sep)| == LineStart(parts, |parts| - 1) + |parts[|parts| - 1]|
    decreases |parts|
  {
    if |parts| > 1 {
      var rest := parts[1..];
      JoinLength(rest, sep);
      LineStartTail(parts, |parts| - 1);
      assert rest[|rest| - 1] == parts[|parts| - 1];
      assert |Join(parts, sep)| == |parts[0]| + 1 + |Join(rest, sep)|;
    }
  }

  /** The character at a grid position is the one at its flat offset. */
  lemma {:induction false} JoinIndex(parts: seq<string>, sep: char, x: nat, y: nat)
    requires InGrid(parts, x, y)
    ensures LineStart(parts, y) + x < |Join(parts, sep)|
    ensures Join(parts, sep)[LineStart(parts, y) + x] == parts[y][x]
    decreases |parts|
  {
    if y == 0 {
      if |parts| > 1 {
        assert Join(parts, sep) == parts[0] + ([sep] + Join(parts[1..], sep));
      }
    } else {
      JoinIndex(parts[1..], sep, x, y - 1);
      LineStartTail(parts, y);
      assert Join(parts, sep) == (parts[0] + [sep]) + Join(parts[1..], sep);
    }
  }

  /** Writing one cell of the grid writes one character of the joined text. */
  lemma {:induction false} JoinUpdate(parts: seq<string>, sep: char, x: nat, y: nat, c: char)
    requires InGrid(parts, x, y)
    ensures LineStart(parts, y) + x < |Join(parts, sep)|
    ensures Join(parts[y := parts[y][x := c]], sep)
         == Join(parts, sep)[LineStart(parts, y) + x := c]
    decreases |parts|
  {
    JoinIndex(parts, sep, x, y);
    var parts' := parts[y := parts[y][x := c]];
    if y == 0 {
      if |parts| > 1 {
        assert parts'[1..] == parts[1..];
        assert Join(parts, sep) == parts[0] + ([sep] + Join(parts[1..], sep));
        assert Join(parts', sep) == parts[0][x := c] + ([sep] + Join(parts[1..], sep));
      }
    } else {
      JoinUpdate(parts[1..], sep, x, y - 1, c);
      LineStartTail(parts, y);
      assert parts'[1..] == parts[1..][y - 1 := parts[1..][y - 1][x := c]];
      assert Join(parts, sep) == (parts[0] + [sep]) + Join(parts[1..], sep);
      assert Join(parts', sep) == (parts[0] + [sep]) + Join(parts'[1..], sep);
    }
  }

  lemma {:induction false} LineStartMono(parts: seq<string>, y: nat, y': nat)
    requires y < y' <= |parts|
    ensures LineStart(parts, y) + |parts[y]| < LineStart(parts, y')
    decreases y' - y
  {
    if y' > y + 1 {
      LineStartMono(parts, y, y' - 1);
    }
  }

  /** Distinct grid positions have distinct flat offsets. */
  lemma OffsetInjective(parts: seq<string>, x: int, y: int, x': int, y': int)
    requires InGrid(parts, x, y) && InGrid(parts, x', y')
    requires LineStart(parts, y) + x == LineStart(parts, y') + x'
    ensures x == x' && y == y'
  {
    if y < y' {
      LineStartMono(parts, y, y');
    } else if y' < y {
      LineStartMono(parts, y', y);
    }
  }

  /** `xs.indexOf(x)`: the first index holding `x`, or -1. */
  function IndexOf<T(==)>(xs: seq<T>, x: T): (r: int)
    ensures -1 <= r < |xs|
    ensures r == -1 <==> x !in xs
    ensures 0 <= r ==> xs[r] == x && x !in xs[..r]
    decreases |xs|
  {
    if |xs| == 0 then -1
    else if xs[0] == x then 0
    else
      var r := IndexOf(xs[1..], x);
      assert r >= 0 ==> xs[..r + 1] == [xs[0]] + xs[1..][..r];
      assert r == -1 ==> xs == [xs[0]] + xs[1..];
      if r < 0 then -1 else r + 1
  }

  /** `s.lastIndexOf(c)`: the last index holding `c`, or -1. */
  function LastIndexOf<T(==)>(xs: seq<T>, x: T): (r: int)
    ensures -1 <= r < |xs|
    ensures r == -1 <==> x !in xs
    ensures 0 <= r ==> xs[r] == x && x !in xs[r + 1..]
    decreases |xs|
  {
    if |xs| == 0 then -1
    else if xs[|xs| - 1] == x then |xs| - 1
    else
      var r := LastIndexOf(xs[..|xs| - 1], x);
      assert xs == xs[..|xs| - 1] + [xs[|xs| - 1]];
      assert r >= 0 ==> xs[r + 1..] == xs[..|xs| - 1][r + 1..] + [xs[|xs| - 1]];
      r
  }

  /** An index holding `x` with no `x` after it is the last index of `x`. */
  lemma LastIndexOfAt<T>(xs: seq<T>, x: T, k: nat)
    requires k < |xs| && xs[k] == x && x !in xs[k + 1..]
    ensures LastIndexOf(xs, x) == k
  {
    assert xs[k] in xs;
    var r := LastIndexOf(xs, x);
    forall j | r < j < |xs|
      ensures xs[j] != x
    {
      assert xs[j] == xs[r + 1..][j - r - 1];
    }
    forall j | k < j < |xs|
      ensures xs[j] != x
    {
      assert xs[j] == xs[k + 1..][j - k - 1];
    }
  }

  /** `xs.splice(i, 1)`: `xs` without the element at index `i`. */
  function RemoveAt<T>(xs: seq<T>, i: nat): (r: seq<T>)
    requires i < |xs|
    ensures |r| == |xs| - 1
    ensures forall k :: 0 <= k < i ==> r[k] == xs[k]
    ensures forall k :: i <= k < |r| ==> r[k] == xs[k + 1]
  {
    xs[..i] + xs[i + 1..]
  }
}
