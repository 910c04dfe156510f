/**
 * Python string primitives the generator relies on, written out as
 * functions: `sep.join(parts)`, `str.replace` and reading framed values
 * back out of lines (`Pick`), together with the facts about them that the
 * higher modules use.
 */
module Text {

  datatype Option<+T> = None | Some(value: T)

  /** `sep.join(parts)` */
  function JoinWith(parts: seq<string>, sep: string): string
    decreases |parts|
  {
    if |parts| == 0 then ""
    else if |parts| == 1 then parts[0]
    else parts[0] + sep + JoinWith(parts[1..], sep)
  }

  /** The text whose lines are `lines`: `"\n".join(lines)`. */
  function JoinLines(lines: seq<string>): string
  {
    JoinWith(lines, "\n")
  }

  predicate StartsWith(s: string, p: string)
  {
    |p| <= |s| && s[..|p|] == p
  }

  predicate EndsWith(s: string, p: string)
  {
    |p| <= |s| && s[|s| - |p|..] == p
  }

  /** `p` occurs nowhere in `s`. */
  predicate NoOccur(s: string, p: string)
  {
    forall i :: 0 <= i <= |s| ==> !StartsWith(s[i..], p)
  }

  /**
   * `s.replace(p, r)` for a non-empty `p`: scan left to right, replace
   * each occurrence and resume the scan after it.
   */
  function Replace(s: string, p: string, r: string): string
    requires |p| > 0
    decreases |s|
  {
    if |s| < |p| then s
    else if s[..|p|] == p then r + Replace(s[|p|..], p, r)
    else [s[0]] + Replace(s[1..], p, r)
  }

  // ---------------------------------------------------------------------
  // Joining

  lemma {:induction false} JoinAppend(a: seq<string>, b: seq<string>, sep: string)
    requires |a| > 0 && |b| > 0
    ensures JoinWith(a + b, sep) == JoinWith(a, sep) + sep + JoinWith(b, sep)
    decreases |a|
  {
    if |a| == 1 {
      assert (a + b)[1..] == b;
    } else {
      assert (a + b)[1..] == a[1..] + b;
      JoinAppend(a[1..], b, sep);
    }
  }

  lemma JoinCons(x: string, b: seq<string>, sep: string)
    requires |b| > 0
    ensures JoinWith([x] + b, sep) == x + sep + JoinWith(b, sep)
  {
    assert ([x] + b)[1..] == b;
  }

  /** Every line of a text made by `JoinLines` is free of line breaks. */
  predicate SingleLines(ls: seq<string>)
  {
    forall k :: 0 <= k < |ls| ==> '\n' !in ls[k]
  }

  // ---------------------------------------------------------------------
  // Occurrences

  lemma NoOccurByChar(s: string, p: string, c: char)
    requires c in p && c !in s
    ensures NoOccur(s, p)
  {
    var k :| 0 <= k < |p| && p[k] == c;
    forall i | 0 <= i <= |s|
      ensures !StartsWith(s[i..], p)
    {
      if |p| <= |s| - i {
        assert s[i..][..|p|][k] == s[i + k];
      }
    }
  }

  lemma NoOccurTail(s: string, p: string)
    requires |s| > 0 && NoOccur(s, p)
    ensures NoOccur(s[1..], p)
  {
    forall i | 0 <= i <= |s| - 1
      ensures !StartsWith(s[1..][i..], p)
    {
      assert s[1..][i..] == s[i + 1..];
    }
  }

  /** An occurrence of `p` in a joined text lies within one line. */
  lemma {:induction false} NoOccurJoin(ls: seq<string>, p: string)
    requires |ls| > 0 && |p| > 0 && '\n' !in p
    requires SingleLines(ls)
    requires forall k :: 0 <= k < |ls| ==> NoOccur(ls[k], p)
    ensures NoOccur(JoinLines(ls), p)
    decreases |ls|
  {
    if |ls| > 1 {
      NoOccurJoin(ls[1..], p);
      var x, rest := ls[0], JoinLines(ls[1..]);
      var s := JoinLines(ls);
      assert s == x + "\n" + rest;
      forall i | 0 <= i <= |s|
        ensures !StartsWith(s[i..], p)
      {
        if i + |p| <= |x| {
          assert x[i..][..|p|] == s[i..][..|p|];
          assert !StartsWith(x[i..], p);
        } else if i <= |x| {
          if |p| <= |s| - i {
            assert s[i..][..|p|][|x| - i] == s[|x|] == '\n';
          }
        } else {
          assert s[i..] == rest[i - |x| - 1..];
        }
      }
    }
  }

  // ---------------------------------------------------------------------
  // Replacement

  lemma ReplaceShort(s: string, p: string, r: string)
    requires 0 < |p| && |s| < |p|
    ensures Replace(s, p, r) == s
  {
  }

  /** `(p + b).replace(p, r) == r + b.replace(p, r)` */
  lemma ReplaceHit(p: string, b: string, r: string)
    requires |p| > 0
    ensures Replace(p + b, p, r) == r + Replace(b, p, r)
  {
    assert (p + b)[..|p|] == p;
    assert (p + b)[|p|..] == b;
  }

  /** No occurrence can start inside a prefix that lacks the pattern's first character. */
  lemma {:induction false} ReplaceSkip(a: string, b: string, p: string, r: string)
    requires |p| > 0 && p[0] !in a
    ensures Replace(a + b, p, r) == a + Replace(b, p, r)
    decreases |a|
  {
    if |a| > 0 {
      var s := a + b;
      if |s| < |p| {
        ReplaceShort(b, p, r);
      } else {
        assert s[..|p|][0] == a[0];
        assert s[1..] == a[1..] + b;
        ReplaceSkip(a[1..], b, p, r);
      }
    } else {
      assert a + b == b;
    }
  }

  /** Where no occurrence starts, the first character is copied. */
  lemma ReplaceStep(s: string, p: string, r: string)
    requires 0 < |p| <= |s| && s[..|p|] != p
    ensures Replace(s, p, r) == [s[0]] + Replace(s[1..], p, r)
  {
  }

  lemma NoMatchBeforeBreak(x: string, rest: string, p: string)
    requires '\n' !in p && NoOccur(x, p) && |p| <= |x| + 1 + |rest|
    ensures (x + "\n" + rest)[..|p|] != p
  {
    var s := x + "\n" + rest;
    if |p| <= |x| {
      assert s[..|p|] == x[0..][..|p|];
      assert !StartsWith(x[0..], p);
    } else {
      assert s[..|p|][|x|] == '\n';
    }
  }

  /** A line free of the pattern, followed by a break, is copied unchanged. */
  lemma {:induction false} ReplaceLine(x: string, rest: string, p: string, r: string)
    requires |p| > 0 && '\n' !in p && NoOccur(x, p)
    ensures Replace(x + "\n" + rest, p, r) == x + "\n" + Replace(rest, p, r)
    decreases |x|
  {
    var s := x + "\n" + rest;
    if |s| < |p| {
      ReplaceShort(rest, p, r);
      ReplaceShort(s, p, r);
    } else {
      NoMatchBeforeBreak(x, rest, p);
      ReplaceStep(s, p, r);
      if |x| == 0 {
        assert s[1..] == rest;
      } else {
        assert s[1..] == x[1..] + "\n" + rest;
        NoOccurTail(x, p);
        ReplaceLine(x[1..], rest, p, r);
        assert [s[0]] + (x[1..] + "\n" + Replace(rest, p, r)) == x + "\n" + Replace(rest, p, r);
      }
    }
  }

  lemma {:induction false} ReplaceAbsent(s: string, p: string, r: string)
    requires |p| > 0 && NoOccur(s, p)
    ensures Replace(s, p, r) == s
    decreases |s|
  {
    if |s| >= |p| {
      assert s[..|p|] == s[0..][..|p|];
      NoOccurTail(s, p);
      ReplaceAbsent(s[1..], p, r);
    }
  }

  /** Lines before the one to be replaced are copied unchanged. */
  lemma {:induction false} ReplaceLinesBefore(a: seq<string>, rest: string, p: string, r: string)
    requires |a| > 0 && |p| > 0 && '\n' !in p
    requires forall k :: 0 <= k < |a| ==> NoOccur(a[k], p)
    ensures Replace(JoinLines(a) + "\n" + rest, p, r) == JoinLines(a) + "\n" + Replace(rest, p, r)
    decreases |a|
  {
    if |a| == 1 {
      ReplaceLine(a[0], rest, p, r);
    } else {
      var tail := JoinLines(a[1..]) + "\n" + rest;
      JoinHeadBreak(a, rest);
      ReplaceLine(a[0], tail, p, r);
      ReplaceLinesBefore(a[1..], rest, p, r);
      JoinHeadBreak(a, Replace(rest, p, r));
    }
  }

  /** The first line of several, its break, and the rest. */
  lemma JoinHeadBreak(a: seq<string>, rest: string)
    requires |a| > 1
    ensures JoinLines(a) + "\n" + rest == a[0] + "\n" + (JoinLines(a[1..]) + "\n" + rest)
  {
    var j := JoinLines(a[1..]);
    assert a == [a[0]] + a[1..];
    JoinCons(a[0], a[1..], "\n");
    Assoc(a[0] + "\n", j, "\n" + rest);
    Assoc(j, "\n", rest);
    Assoc(a[0] + "\n" + j, "\n", rest);
  }

  lemma JoinAround(a: seq<string>, x: string, b: seq<string>)
    requires |a| > 0 && |b| > 0
    ensures JoinLines(a + [x] + b) == JoinLines(a) + "\n" + (x + "\n" + JoinLines(b))
  {
    JoinAppend(a, [x] + b, "\n");
    JoinCons(x, b, "\n");
    assert a + [x] + b == a + ([x] + b);
  }

  lemma JoinThree(a: seq<string>, m: seq<string>, b: seq<string>)
    requires |a| > 0 && |m| > 0 && |b| > 0
    ensures JoinLines(a + m + b) == JoinLines(a) + "\n" + (JoinLines(m) + "\n" + JoinLines(b))
  {
    JoinAppend(a, m + b, "\n");
    JoinAppend(m, b, "\n");
    assert a + m + b == a + (m + b);
  }

  lemma ReplaceAtLine(p: string, b: seq<string>, r: string)
    requires |b| > 0 && |p| > 0 && '\n' !in p
    requires SingleLines(b)
    requires forall k :: 0 <= k < |b| ==> NoOccur(b[k], p)
    ensures Replace(p + "\n" + JoinLines(b), p, r) == r + "\n" + JoinLines(b)
  {
    var jb := JoinLines(b);
    assert p + "\n" + jb == p + ("\n" + jb);
    ReplaceHit(p, "\n" + jb, r);
    ReplaceSkip("\n", jb, p, r);
    NoOccurJoin(b, p);
    ReplaceAbsent(jb, p, r);
  }

  /**
   * Replacing a pattern that is a whole line and occurs nowhere else:
   * the line gives way to the lines of the replacement.
   */
  lemma ReplaceWholeLine(a: seq<string>, p: string, b: seq<string>, rs: seq<string>)
    requires |a| > 0 && |b| > 0 && |rs| > 0 && |p| > 0 && '\n' !in p
    requires SingleLines(b)
    requires forall k :: 0 <= k < |a| ==> NoOccur(a[k], p)
    requires forall k :: 0 <= k < |b| ==> NoOccur(b[k], p)
    ensures Replace(JoinLines(a + [p] + b), p, JoinLines(rs)) == JoinLines(a + rs + b)
  {
    var r := JoinLines(rs);
    JoinAround(a, p, b);
    ReplaceLinesBefore(a, p + "\n" + JoinLines(b), p, r);
    ReplaceAtLine(p, b, r);
    JoinThree(a, rs, b);
  }

  // Patterns of the form "\n" + line: they match a line break followed by
  // a line that starts with `l`.

  /** A break followed by a line not starting with `l` is not a match. */
  lemma BreakNoMatch(y: string, more: string, l: string, r: string)
    requires '\n' !in l && '\n' !in y && !StartsWith(y, l)
    requires more == [] || more[0] == '\n'
    ensures Replace("\n" + y + more, "\n" + l, r) == "\n" + Replace(y + more, "\n" + l, r)
  {
    var s, q := "\n" + y + more, "\n" + l;
    assert s[1..] == y + more;
    if |s| < |q| {
      ReplaceShort(y + more, q, r);
    } else {
      // a column where the window under the pattern differs from it
      var i: nat;
      if |y| >= |l| {
        assert y[..|l|] != l;
        i :| i < |l| && y[..|l|][i] != l[i];
        assert s[i + 1] == y[i];
      } else {
        i := |y|;
        assert s[i + 1] == more[0];
      }
      assert s[..|q|][i + 1] != q[i + 1];
    }
  }

  /** The text of lines `c` followed by a break and `rest` starts with `c[0]` and then a break. */
  lemma JoinThenBreak(c: seq<string>, rest: string)
    requires |c| > 0
    ensures exists more :: JoinLines(c) + "\n" + rest == c[0] + more && more[0] == '\n'
  {
    if |c| == 1 {
      assert JoinLines(c) + "\n" + rest == c[0] + ("\n" + rest);
    } else {
      JoinCons(c[0], c[1..], "\n");
      assert c == [c[0]] + c[1..];
      assert JoinLines(c) + "\n" + rest == c[0] + ("\n" + JoinLines(c[1..]) + "\n" + rest);
    }
  }

  lemma BreakBeforeLines(c: seq<string>, rest: string, l: string, r: string)
    requires |c| > 0 && '\n' !in l && '\n' !in c[0] && !StartsWith(c[0], l)
    ensures Replace("\n" + (JoinLines(c) + "\n" + rest), "\n" + l, r)
         == "\n" + Replace(JoinLines(c) + "\n" + rest, "\n" + l, r)
  {
    JoinThenBreak(c, rest);
    var more :| JoinLines(c) + "\n" + rest == c[0] + more && more[0] == '\n';
    assert "\n" + (JoinLines(c) + "\n" + rest) == "\n" + c[0] + more;
    BreakNoMatch(c[0], more, l, r);
  }

  lemma JoinFirst(a: seq<string>, rest: string)
    requires |a| > 1
    ensures JoinLines(a) + "\n" + rest == a[0] + ("\n" + (JoinLines(a[1..]) + "\n" + rest))
  {
    JoinCons(a[0], a[1..], "\n");
    assert a == [a[0]] + a[1..];
  }

  lemma {:induction false} RemoveLinesBefore(a: seq<string>, rest: string, l: string, r: string)
    requires |a| > 0 && '\n' !in l && SingleLines(a)
    requires forall k :: 1 <= k < |a| ==> !StartsWith(a[k], l)
    ensures Replace(JoinLines(a) + "\n" + rest, "\n" + l, r)
         == JoinLines(a) + Replace("\n" + rest, "\n" + l, r)
    decreases |a|
  {
    if |a| == 1 {
      assert JoinLines(a) + "\n" + rest == a[0] + ("\n" + rest);
      ReplaceSkip(a[0], "\n" + rest, "\n" + l, r);
    } else {
      var b := a[1..];
      assert forall k :: 1 <= k < |b| ==> b[k] == a[k + 1];
      RemoveLinesBefore(b, rest, l, r);
      JoinFirst(a, rest);
      JoinCons(a[0], b, "\n");
      assert a == [a[0]] + b;
      RemoveLinesStep(a[0], b, rest, l, r);
    }
  }

  /** One line in front of lines already known to be skipped is skipped too. */
  lemma RemoveLinesStep(x: string, b: seq<string>, rest: string, l: string, r: string)
    requires |b| > 0 && '\n' !in l && '\n' !in x && '\n' !in b[0] && !StartsWith(b[0], l)
    requires Replace(JoinLines(b) + "\n" + rest, "\n" + l, r) == JoinLines(b) + Replace("\n" + rest, "\n" + l, r)
    ensures Replace(x + ("\n" + (JoinLines(b) + "\n" + rest)), "\n" + l, r)
         == x + "\n" + JoinLines(b) + Replace("\n" + rest, "\n" + l, r)
  {
    var t := JoinLines(b) + "\n" + rest;
    ReplaceSkip(x, "\n" + t, "\n" + l, r);
    BreakBeforeLines(b, rest, l, r);
  }

  lemma {:induction false} RemoveLinesAfter(b: seq<string>, l: string, r: string)
    requires |b| > 0 && '\n' !in l && SingleLines(b)
    requires forall k :: 0 <= k < |b| ==> !StartsWith(b[k], l)
    ensures Replace("\n" + JoinLines(b), "\n" + l, r) == "\n" + JoinLines(b)
    decreases |b|
  {
    var q := "\n" + l;
    if |b| == 1 {
      assert "\n" + JoinLines(b) == "\n" + b[0] + [];
      BreakNoMatch(b[0], [], l, r);
      assert b[0] + [] == [] + b[0];
      ReplaceSkip(b[0], [], q, r);
    } else {
      var more := "\n" + JoinLines(b[1..]);
      assert "\n" + JoinLines(b) == "\n" + b[0] + more;
      BreakNoMatch(b[0], more, l, r);
      ReplaceSkip(b[0], more, q, r);
      RemoveLinesAfter(b[1..], l, r);
    }
  }

  lemma RemoveAtLine(l: string, b: seq<string>)
    requires |b| > 0 && '\n' !in l && SingleLines(b)
    requires forall k :: 0 <= k < |b| ==> !StartsWith(b[k], l)
    ensures Replace("\n" + (l + "\n" + JoinLines(b)), "\n" + l, "") == "\n" + JoinLines(b)
  {
    var q := "\n" + l;
    assert "\n" + (l + "\n" + JoinLines(b)) == q + ("\n" + JoinLines(b));
    ReplaceHit(q, "\n" + JoinLines(b), "");
    RemoveLinesAfter(b, l, "");
  }

  /**
   * `text.replace("\n" + l, "")` where `l` is a whole line and no other line
   * after the first starts with it: that line disappears.
   */
  lemma RemoveWholeLine(a: seq<string>, l: string, b: seq<string>)
    requires |a| > 0 && |b| > 0 && '\n' !in l
    requires SingleLines(a) && SingleLines(b)
    requires forall k :: 1 <= k < |a| ==> !StartsWith(a[k], l)
    requires forall k :: 0 <= k < |b| ==> !StartsWith(b[k], l)
    ensures Replace(JoinLines(a + [l] + b), "\n" + l, "") == JoinLines(a + b)
  {
    var ja, jb := JoinLines(a), JoinLines(b);
    JoinAround(a, l, b);
    RemoveLinesBefore(a, l + "\n" + jb, l, "");
    RemoveAtLine(l, b);
    JoinAppend(a, b, "\n");
    Assoc(ja, "\n", jb);
  }

  // ---------------------------------------------------------------------
  // Joined texts and their lines

  /** A character absent from the parts and the separator is absent from the join. */
  lemma {:induction false} JoinAvoids(parts: seq<string>, sep: string, c: char)
    requires forall k :: 0 <= k < |parts| ==> c !in parts[k]
    requires c !in sep
    ensures c !in JoinWith(parts, sep)
    decreases |parts|
  {
    if |parts| > 1 {
      JoinAvoids(parts[1..], sep, c);
      assert parts[1..][0] == parts[1];
    }
  }

  lemma SingleLinesConcat(a: seq<string>, b: seq<string>)
    requires SingleLines(a) && SingleLines(b)
    ensures SingleLines(a + b)
  {
  }

  /** Every item behind the same prefix. */
  function Indented(xs: seq<string>, pre: string): (r: seq<string>)
    ensures |r| == |xs|
    ensures forall i :: 0 <= i < |xs| ==> r[i] == pre + xs[i]
  {
    seq(|xs|, i requires 0 <= i < |xs| => pre + xs[i])
  }

  /**
   * `pre + ("\n" + pre).join(xs)`: every item on a line of its own,
   * behind the same prefix.
   */
  lemma {:induction false} JoinPrefixed(xs: seq<string>, pre: string)
    requires |xs| > 0
    ensures pre + JoinWith(xs, "\n" + pre) == JoinLines(Indented(xs, pre))
    decreases |xs|
  {
    var ys := Indented(xs, pre);
    if |xs| > 1 {
      var tail := Indented(xs[1..], pre);
      JoinPrefixed(xs[1..], pre);
      assert ys == [pre + xs[0]] + tail;
      JoinCons(pre + xs[0], tail, "\n");
    }
  }

  /** Joining a multi-line piece is joining its lines. */
  lemma JoinFlatten(pre: seq<string>, mid: seq<string>, post: seq<string>)
    requires |mid| > 0
    ensures JoinLines(pre + [JoinLines(mid)] + post) == JoinLines(pre + mid + post)
  {
    var m := JoinLines(mid);
    JoinFlattenTail(mid, post);
    if |pre| > 0 {
      JoinFlattenFront(pre, m, mid, post);
    } else {
      assert pre + [m] + post == [m] + post;
      assert pre + mid + post == mid + post;
    }
  }

  lemma JoinFlattenTail(mid: seq<string>, post: seq<string>)
    requires |mid| > 0
    ensures JoinLines([JoinLines(mid)] + post) == JoinLines(mid + post)
  {
    if |post| > 0 {
      JoinAppend([JoinLines(mid)], post, "\n");
      JoinAppend(mid, post, "\n");
    } else {
      assert [JoinLines(mid)] + post == [JoinLines(mid)] && mid + post == mid;
    }
  }

  lemma JoinFlattenFront(pre: seq<string>, m: string, mid: seq<string>, post: seq<string>)
    requires |pre| > 0 && |mid| > 0
    requires JoinLines([m] + post) == JoinLines(mid + post)
    ensures JoinLines(pre + [m] + post) == JoinLines(pre + mid + post)
  {
    JoinAppend(pre, [m] + post, "\n");
    JoinAppend(pre, mid + post, "\n");
    LinesAssoc(pre, [m], post);
    LinesAssoc(pre, mid, post);
  }

  lemma LinesAssoc(a: seq<string>, b: seq<string>, c: seq<string>)
    ensures a + (b + c) == a + b + c
  {
  }

  /**
   * The lines of `"\n\n".join(t + "\n" for t in texts)` where text `k` is
   * `JoinLines(bs[k])`: the blocks one after another, two empty lines between
   * neighbours, one empty line after the last (the only line when there are
   * no blocks).
   */
  function Blocks(bs: seq<seq<string>>): seq<string>
    decreases |bs|
  {
    if |bs| == 0 then [""]
    else if |bs| == 1 then bs[0] + [""]
    else bs[0] + ["", ""] + Blocks(bs[1..])
  }

  /** A block followed by a line break. */
  function Terminated(b: seq<string>): string
  {
    JoinLines(b) + "\n"
  }

  lemma {:induction false} BlocksText(bs: seq<seq<string>>)
    requires forall k :: 0 <= k < |bs| ==> |bs[k]| > 0
    ensures JoinWith(seq(|bs|, k requires 0 <= k < |bs| => Terminated(bs[k])), "\n\n") == JoinLines(Blocks(bs))
    decreases |bs|
  {
    var ts := seq(|bs|, k requires 0 <= k < |bs| => Terminated(bs[k]));
    if |bs| == 1 {
      JoinAppend(bs[0], [""], "\n");
    } else if |bs| > 1 {
      var rest := seq(|bs[1..]|, k requires 0 <= k < |bs[1..]| => Terminated(bs[1..][k]));
      BlocksText(bs[1..]);
      assert ts == [ts[0]] + rest;
      JoinCons(ts[0], rest, "\n\n");
      BlocksStep(bs[0], Blocks(bs[1..]), JoinWith(rest, "\n\n"));
    }
  }

  /** One block, its break and two empty lines, then the text of the rest. */
  lemma BlocksStep(b: seq<string>, r: seq<string>, jr: string)
    requires |b| > 0 && |r| > 0 && jr == JoinLines(r)
    ensures Terminated(b) + "\n\n" + jr == JoinLines(b + ["", ""] + r)
  {
    var j := JoinLines(b);
    JoinAppend(b, ["", ""] + r, "\n");
    JoinCons("", [""] + r, "\n");
    JoinCons("", r, "\n");
    LinesAssoc(b, ["", ""], r);
    assert ["", ""] + r == [""] + ([""] + r);
    assert JoinLines(["", ""] + r) == "\n" + ("\n" + jr);
    Assoc(j + "\n", "\n\n", jr);
    Assoc(j, "\n", "\n\n" + jr);
    assert "\n\n" + jr == "\n" + ("\n" + jr);
  }

  /** Every line of `Blocks(bs)` is a line of some block or empty. */
  lemma {:induction false} BlocksLines(bs: seq<seq<string>>)
    ensures forall j :: 0 <= j < |Blocks(bs)| ==>
              Blocks(bs)[j] == "" || exists k, m :: 0 <= k < |bs| && 0 <= m < |bs[k]| && Blocks(bs)[j] == bs[k][m]
    decreases |bs|
  {
    if |bs| > 1 {
      BlocksLines(bs[1..]);
      var r := Blocks(bs[1..]);
      forall j | 0 <= j < |Blocks(bs)|
        ensures Blocks(bs)[j] == "" || exists k, m :: 0 <= k < |bs| && 0 <= m < |bs[k]| && Blocks(bs)[j] == bs[k][m]
      {
        if j < |bs[0]| {
          assert Blocks(bs)[j] == bs[0][j];
        } else if j >= |bs[0]| + 2 {
          assert Blocks(bs)[j] == r[j - |bs[0]| - 2];
          if r[j - |bs[0]| - 2] != "" {
            var k, m :| 0 <= k < |bs[1..]| && 0 <= m < |bs[1..][k]| && r[j - |bs[0]| - 2] == bs[1..][k][m];
            assert bs[1..][k] == bs[k + 1];
          }
        }
      }
    } else if |bs| == 1 {
      forall j | 0 <= j < |Blocks(bs)|
        ensures Blocks(bs)[j] == "" || exists k, m :: 0 <= k < |bs| && 0 <= m < |bs[k]| && Blocks(bs)[j] == bs[k][m]
      {
        if j < |bs[0]| {
          assert Blocks(bs)[j] == bs[0][j];
        }
      }
    }
  }

  lemma JoinNonEmpty(parts: seq<string>, sep: string)
    requires |parts| > 0 && |parts[0]| > 0
    ensures |JoinWith(parts, sep)| > 0
  {
  }

  /** A line differing from `p` at some position inside both does not start with `p`. */
  lemma NotStartAt(x: string, p: string, i: nat)
    requires i < |x| && i < |p| && x[i] != p[i]
    ensures !StartsWith(x, p)
  {
    if |p| <= |x| {
      assert x[..|p|][i] == x[i];
    }
  }

  lemma NoOccurNotStart(x: string, p: string)
    requires NoOccur(x, p)
    ensures !StartsWith(x, p)
  {
    assert x[0..] == x;
  }

  // ---------------------------------------------------------------------
  // Reading values back out of lines

  /** `x` is `pre + m + suf` for some `m`. */
  predicate Framed(x: string, pre: string, suf: string)
  {
    |pre| + |suf| <= |x| && StartsWith(x, pre) && EndsWith(x, suf)
  }

  /**
   * The middles of the lines framed by `pre` and `suf`, in order: what a
   * reader of the text finds in the lines of that form.
   */
  function Pick(lines: seq<string>, pre: string, suf: string): seq<string>
    decreases |lines|
  {
    if |lines| == 0 then []
    else
      var x := lines[0];
      (if Framed(x, pre, suf) then [x[|pre| .. |x| - |suf|]] else []) + Pick(lines[1..], pre, suf)
  }

  lemma {:induction false} PickConcat(a: seq<string>, b: seq<string>, pre: string, suf: string)
    ensures Pick(a + b, pre, suf) == Pick(a, pre, suf) + Pick(b, pre, suf)
    decreases |a|
  {
    if |a| > 0 {
      assert (a + b)[1..] == a[1..] + b;
      PickConcat(a[1..], b, pre, suf);
    } else {
      assert a + b == b;
    }
  }

  /** A line of the form `pre + m + suf` yields `m`. */
  lemma PickOne(pre: string, m: string, suf: string)
    ensures Pick([pre + m + suf], pre, suf) == [m]
  {
    var x := pre + m + suf;
    assert x[..|pre|] == pre;
    assert x[|x| - |suf|..] == suf;
    assert x[|pre| .. |x| - |suf|] == m;
    var one: seq<string> := [x];
    assert one[1..] == [];
  }

  /** Lines none of which starts with `pre` yield nothing. */
  lemma {:induction false} PickNone(lines: seq<string>, pre: string, suf: string)
    requires forall k :: 0 <= k < |lines| ==> !StartsWith(lines[k], pre)
    ensures Pick(lines, pre, suf) == []
    decreases |lines|
  {
    if |lines| > 0 {
      PickNone(lines[1..], pre, suf);
    }
  }

  /** Each middle between the same prefix and suffix. */
  function Framing(ms: seq<string>, pre: string, suf: string): (r: seq<string>)
    ensures |r| == |ms|
    ensures forall i :: 0 <= i < |ms| ==> r[i] == pre + ms[i] + suf
  {
    seq(|ms|, i requires 0 <= i < |ms| => pre + ms[i] + suf)
  }

  /** Reading the framed lines back gives the middles, in order. */
  lemma {:induction false} PickFraming(ms: seq<string>, pre: string, suf: string)
    ensures Pick(Framing(ms, pre, suf), pre, suf) == ms
    decreases |ms|
  {
    if |ms| > 0 {
      var ls := Framing(ms, pre, suf);
      PickFraming(ms[1..], pre, suf);
      assert ls == [ls[0]] + Framing(ms[1..], pre, suf);
      PickConcat([ls[0]], Framing(ms[1..], pre, suf), pre, suf);
      PickOne(pre, ms[0], suf);
    }
  }

  /** A pattern occurring once, after text free of its first character, is replaced there. */
  lemma ReplaceOnce(a: string, p: string, b: string, r: string)
    requires |p| > 0 && p[0] !in a && NoOccur(b, p)
    ensures Replace(a + p + b, p, r) == a + r + b
  {
    assert a + p + b == a + (p + b);
    ReplaceSkip(a, p + b, p, r);
    ReplaceHit(p, b, r);
    ReplaceAbsent(b, p, r);
  }

  /**
   * `s` holds neither `c` nor `d`, stated column by column: the form in
   * which the verifier checks a literal line cheaply.
   */
  predicate Lacks(s: string, c: char, d: char)
  {
    forall i | 0 <= i < |s| :: s[i] != c && s[i] != d
  }

  lemma LacksNotIn(s: string, c: char, d: char)
    requires Lacks(s, c, d)
    ensures c !in s && d !in s
  {
  }

  /** Lines free of `c`, concatenated, are free of `c`. */
  lemma LacksConcat(a: seq<string>, b: seq<string>, c: char)
    requires forall k :: 0 <= k < |a| ==> c !in a[k]
    requires forall k :: 0 <= k < |b| ==> c !in b[k]
    ensures forall k :: 0 <= k < |a + b| ==> c !in (a + b)[k]
  {
  }

  /**
   * `p` cannot occur in `x + y` when its first character is absent from `x`
   * and from `y` after `y`'s first character, and `y`'s second character
   * differs from `p`'s.
   */
  lemma NoOccurAtMark(x: string, y: string, p: string)
    requires |p| > 1 && |y| > 1 && p[0] !in x && p[0] !in y[1..] && y[1] != p[1]
    ensures NoOccur(x + y, p)
  {
    var s := x + y;
    forall i | 0 <= i <= |s| ensures !StartsWith(s[i..], p) {
      if |p| <= |s| - i {
        if i < |x| {
          assert s[i..][..|p|][0] == x[i];
        } else if i == |x| {
          assert s[i..][..|p|][1] == y[1];
        } else {
          assert s[i..][..|p|][0] == y[1..][i - |x| - 1];
        }
      }
    }
  }

  lemma Assoc(a: string, b: string, c: string)
    ensures a + (b + c) == (a + b) + c
  {
  }

  /** Regrouping a text whose middle part repeats the prefix `p` after a break. */
  lemma Glue(p: string, a: string, nl: string, b: string)
    ensures p + (a + ((nl + p) + b)) == (p + a) + nl + (p + b)
  {
    Assoc(nl, p, b);
    Assoc(a, nl, p + b);
    Assoc(p, a + nl, p + b);
    Assoc(p, a, nl);
  }

  lemma JoinTwo(x: string, y: string)
    ensures JoinLines([x, y]) == x + "\n" + y
  {
    assert [x, y][1..] == [y];
    assert JoinWith([y], "\n") == y;
  }

  /** Blocks that each yield one middle yield those middles, in block order. */
  lemma {:induction false} PickBlocks(bs: seq<seq<string>>, ms: seq<string>, pre: string, suf: string)
    requires |pre| > 0 && |bs| == |ms|
    requires forall k :: 0 <= k < |bs| ==> Pick(bs[k], pre, suf) == [ms[k]]
    ensures Pick(Blocks(bs), pre, suf) == ms
    decreases |bs|
  {
    PickBlank(pre, suf);
    if |bs| == 1 {
      PickConcat(bs[0], [""], pre, suf);
    } else if |bs| > 1 {
      assert forall k :: 0 <= k < |bs| - 1 ==> bs[1..][k] == bs[k + 1] && ms[1..][k] == ms[k + 1];
      PickBlocks(bs[1..], ms[1..], pre, suf);
      PickBlockStep(bs[0], Blocks(bs[1..]), ms[0], ms[1..], pre, suf);
      assert ms == [ms[0]] + ms[1..];
    }
  }

  /** The blank lines between blocks yield nothing. */
  lemma PickBlank(pre: string, suf: string)
    requires |pre| > 0
    ensures Pick([""], pre, suf) == [] && Pick(["", ""], pre, suf) == []
  {
    var empty: seq<string> := [""];
    assert Pick(empty, pre, suf) == [] by {
      assert !Framed("", pre, suf);
      assert empty[1..] == [];
    }
    var two: seq<string> := ["", ""];
    assert two == empty + empty;
    PickConcat(empty, empty, pre, suf);
  }

  lemma PickBlockStep(b: seq<string>, rest: seq<string>, m: string, ms: seq<string>, pre: string, suf: string)
    requires |pre| > 0 && Pick(b, pre, suf) == [m] && Pick(rest, pre, suf) == ms
    ensures Pick(b + ["", ""] + rest, pre, suf) == [m] + ms
  {
    PickBlank(pre, suf);
    PickConcat(b + ["", ""], rest, pre, suf);
    PickConcat(b, ["", ""], pre, suf);
  }
}
