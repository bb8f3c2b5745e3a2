/** Line handling as the Go standard library does it for a one-character
    separator: `strings.Split(s, "\n")`, `strings.Join(lines, "\n")` and
    `strings.HasSuffix`. */
module Text {

  /** `strings.HasSuffix(s, suffix)`. */
  predicate EndsWith(s: string, suffix: string) {
    |suffix| <= |s| && s[|s| - |suffix|..] == suffix
  }

  /** True when no element of `lines` contains a newline. */
  predicate NoNewlines(lines: seq<string>) {
    forall i :: 0 <= i < |lines| ==> '\n' !in lines[i]
  }

  /** `strings.Split(s, "\n")`: the maximal newline-free pieces of `s`, in
      order; the empty string gives one empty piece. */
  function Split(s: string): (lines: seq<string>)
    ensures |lines| >= 1
    decreases |s|
  {
    if |s| == 0 then [""]
    else
      var rest := Split(s[1..]);
      if s[0] == '\n' then [""] + rest
      else [[s[0]] + rest[0]] + rest[1..]
  }

  /** `strings.Join(lines, "\n")`. */
  function Join(lines: seq<string>): string
  {
    if |lines| == 0 then ""
    else if |lines| == 1 then lines[0]
    else lines[0] + "\n" + Join(lines[1..])
  }

  /** The pieces of a split hold no newline, and there is more than one
      piece exactly when the text holds a newline. */
  lemma {:induction false} SplitShape(s: string)
    ensures NoNewlines(Split(s))
    ensures |Split(s)| == 1 <==> '\n' !in s
    decreases |s|
  {
    if |s| > 0 {
      SplitShape(s[1..]);
      assert s == [s[0]] + s[1..];
      var rest := Split(s[1..]);
      if s[0] != '\n' {
        assert '\n' !in [s[0]] + rest[0];
        assert forall i :: 1 <= i < |Split(s)| ==> Split(s)[i] == rest[i];
      }
    }
  }

  /** Joining the pieces of a split gives back the text. */
  lemma {:induction false} JoinSplit(s: string)
    ensures Join(Split(s)) == s
    decreases |s|
  {
    if |s| > 0 {
      var rest := Split(s[1..]);
      JoinSplit(s[1..]);
      if s[0] == '\n' {
        assert Split(s) == [""] + rest;
        assert ([""] + rest)[1..] == rest;
        assert s == "\n" + s[1..];
      } else {
        var lines := [[s[0]] + rest[0]] + rest[1..];
        assert Split(s) == lines;
        if |rest| == 1 {
          assert Join(lines) == [s[0]] + rest[0];
          assert s == [s[0]] + s[1..];
        } else {
          assert lines[1..] == rest[1..];
          assert Join(rest) == rest[0] + "\n" + Join(rest[1..]);
          assert s == [s[0]] + s[1..];
        }
      }
    }
  }

  /** A newline-free text is a single line. */
  lemma SplitSingleLine(a: string)
    requires '\n' !in a
    ensures Split(a) == [a]
    decreases |a|
  {
    if |a| > 0 {
      assert '\n' !in a[1..];
      SplitSingleLine(a[1..]);
      assert a == [a[0]] + a[1..];
    }
  }

  /** Splitting a text that starts with `c`: a newline starts a new empty
      first line, any other character joins the first line. */
  lemma SplitCons(c: char, s: string)
    ensures Split([c] + s) ==
      if c == '\n' then [""] + Split(s) else [[c] + Split(s)[0]] + Split(s)[1..]
  {
    assert ([c] + s)[1..] == s;
  }

  /** Splitting at a newline splits the two sides independently. */
  lemma {:induction false} SplitConcat(x: string, y: string)
    ensures Split(x + "\n" + y) == Split(x) + Split(y)
    decreases |x|
  {
    if |x| == 0 {
      assert x + "\n" + y == ['\n'] + y;
      SplitCons('\n', y);
    } else {
      SplitConcat(x[1..], y);
      SplitConcatStep(x, y);
    }
  }

  /** The inductive step of `SplitConcat`: from the tail of `x` to `x`. */
  lemma SplitConcatStep(x: string, y: string)
    requires |x| > 0
    requires Split(x[1..] + "\n" + y) == Split(x[1..]) + Split(y)
    ensures Split(x + "\n" + y) == Split(x) + Split(y)
  {
    var s := x + "\n" + y;
    assert s[0] == x[0];
    assert s[1..] == x[1..] + "\n" + y;
    if x[0] != '\n' {
      PrependToFirst([x[0]], Split(x[1..]), Split(y));
    }
  }

  /** Gluing a prefix onto the first of a sequence of lines commutes with
      appending more lines. */
  lemma PrependToFirst(p: string, xs: seq<string>, ys: seq<string>)
    requires |xs| >= 1
    ensures [p + (xs + ys)[0]] + (xs + ys)[1..] == ([p + xs[0]] + xs[1..]) + ys
  {
    assert (xs + ys)[1..] == xs[1..] + ys;
  }

  /** Splitting a join of newline-free lines recovers the lines. */
  lemma {:induction false} SplitJoin(lines: seq<string>)
    requires |lines| >= 1
    requires NoNewlines(lines)
    ensures Split(Join(lines)) == lines
    decreases |lines|
  {
    SplitSingleLine(lines[0]);
    if |lines| > 1 {
      SplitJoin(lines[1..]);
      SplitConcat(lines[0], Join(lines[1..]));
      assert lines == [lines[0]] + lines[1..];
    }
  }
}
