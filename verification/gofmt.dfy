/** `fmt.Errorf(format)` with no arguments: Go's `doPrintf` reads `format`
    as a format string, so every directive in it either prints `%` (for
    `%%`) or an error marker (`%!v(MISSING)`, `%!v(BADINDEX)`,
    `%!(NOVERB)`, `%!(BADWIDTH)`, `%!(BADPREC)`). Flags, argument indexes,
    widths and precisions are scanned exactly as `doPrintf` scans them. */
module GoFormat {
  import opened Results
  import opened Decimal

  /** Go's `tooLarge` bound on a width, precision or argument index. */
  const NumberBound := 1000000

  /** The text of one directive, where the scan resumes, and whether the
      scan stopped (a `%` with no verb ends the whole format). */
  datatype Directive = Directive(text: string, next: nat, stop: bool)

  /** `parsenum(f, start, end)`: whether any digit was read, and where the
      digits end. A number that grows past the bound while more digits
      follow gives up and skips to `end`. */
  function ParseNum(f: string, start: nat, end: nat): (r: (bool, nat))
    requires start <= end <= |f|
    ensures start <= r.1 <= end
    ensures !r.0 ==> r.1 == start || r.1 == end
  {
    ParseNumFrom(f, start, end, 0, false)
  }

  function ParseNumFrom(f: string, k: nat, end: nat, num: nat, isNum: bool): (r: (bool, nat))
    requires k <= end <= |f|
    requires !isNum ==> num == 0
    ensures k <= r.1 <= end
    ensures !r.0 ==> (!isNum && r.1 == k) || r.1 == end
    decreases end - k
  {
    if k < end && IsDigit(f[k]) then
      if num > NumberBound then (false, end)
      else ParseNumFrom(f, k + 1, end, num * 10 + DigitValue(f[k]), true)
    else (isNum, k)
  }

  /** `parseArgNumber(g)` for the text `g` that starts with `[`: how many
      characters the bracket takes and whether it holds a well-formed index. */
  function ParseArgNumber(g: string): (r: (nat, bool))
    requires |g| >= 1
    ensures 1 <= r.0 <= |g|
  {
    if |g| < 3 then (1, false)
    else
      match CloseBracket(g, 1)
      case None => (1, false)
      case Some(k) =>
        var (isNum, newI) := ParseNum(g, 1, k);
        (k + 1, isNum && newI == k)
  }

  /** The first `]` of `g` at or after `from`. */
  function CloseBracket(g: string, from: nat): (r: Option<nat>)
    requires from <= |g|
    ensures r.Some? ==> from <= r.value < |g| && g[r.value] == ']'
    ensures r.None? ==> forall k :: from <= k < |g| ==> g[k] != ']'
    decreases |g| - from
  {
    if from == |g| then None
    else if g[from] == ']' then Some(from)
    else CloseBracket(g, from + 1)
  }

  /** `argNumber` with no arguments: a bracket at `i` is skipped and always
      makes the argument number bad (no index is in range); `found`
      reports whether the bracket was well formed. */
  datatype ArgIndex = ArgIndex(next: nat, found: bool, bad: bool)

  function ArgNumber(f: string, i: nat): (r: ArgIndex)
    requires i <= |f|
    ensures i <= r.next <= |f|
    ensures r.bad <==> i < |f| && f[i] == '['
    ensures !r.bad ==> r.next == i && !r.found
  {
    if i == |f| || f[i] != '[' then ArgIndex(i, false, false)
    else
      var (width, ok) := ParseArgNumber(f[i..]);
      ArgIndex(i + width, ok, true)
  }

  /** The flag characters `doPrintf` accepts after `%`. */
  predicate IsFlag(c: char)
  {
    c == '#' || c == '0' || c == '+' || c == '-' || c == ' '
  }

  function SkipFlags(f: string, i: nat): (j: nat)
    requires i <= |f|
    ensures i <= j <= |f|
    ensures j == |f| || !IsFlag(f[j])
    decreases |f| - i
  {
    if i < |f| && IsFlag(f[i]) then SkipFlags(f, i + 1) else i
  }

  /** The state of `doPrintf` while it scans one directive: what it has
      printed so far, where it is, whether the argument number is still
      good, and whether an argument index was just read. */
  datatype Scan = Scan(text: string, at: nat, good: bool, afterIndex: bool)

  /** Flags and the first argument index. */
  function ScanIndex(f: string, i: nat): (s: Scan)
    requires i <= |f|
    ensures i <= s.at <= |f| && s.text == ""
  {
    var index := ArgNumber(f, SkipFlags(f, i));
    Scan("", index.next, !index.bad, index.found)
  }

  /** The width: `*` has no argument to take (`%!(BADWIDTH)`); digits after
      an argument index make the argument number bad. */
  function ScanWidth(f: string, s: Scan): (r: Scan)
    requires s.at <= |f|
    ensures s.at <= r.at <= |f|
  {
    if s.at < |f| && f[s.at] == '*' then
      Scan(s.text + "%!(BADWIDTH)", s.at + 1, s.good, false)
    else
      var (present, next) := ParseNum(f, s.at, |f|);
      Scan(s.text, next, s.good && !(s.afterIndex && present), s.afterIndex)
  }

  /** The precision, read only when a `.` is followed by something. */
  function ScanPrecision(f: string, s: Scan): (r: Scan)
    requires s.at <= |f|
    ensures s.at <= r.at <= |f|
  {
    if s.at + 1 < |f| && f[s.at] == '.' then
      var index := ArgNumber(f, s.at + 1);
      var good := s.good && !s.afterIndex && !index.bad;
      if index.next < |f| && f[index.next] == '*' then
        Scan(s.text + "%!(BADPREC)", index.next + 1, good, false)
      else
        var (_, next) := ParseNum(f, index.next, |f|);
        Scan(s.text, next, good, index.found)
    else s
  }

  /** The argument index just before the verb, unless one was just read. */
  function ScanVerbIndex(f: string, s: Scan): (r: Scan)
    requires s.at <= |f|
    ensures s.at <= r.at <= |f|
  {
    if s.afterIndex then s
    else
      var index := ArgNumber(f, s.at);
      Scan(s.text, index.next, s.good && !index.bad, index.found)
  }

  /** One directive, `i` being just after its `%`: no verb ends the format;
      `%%` prints `%`; any other verb has no argument to print. */
  function ReadDirective(f: string, i: nat): (d: Directive)
    requires i <= |f|
    ensures i <= d.next <= |f|
    ensures !d.stop ==> i < d.next
  {
    var s := ScanVerbIndex(f, ScanPrecision(f, ScanWidth(f, ScanIndex(f, i))));
    if s.at == |f| then Directive(s.text + "%!(NOVERB)", |f|, true)
    else
      var verb := f[s.at];
      var text :=
        if verb == '%' then "%"
        else if !s.good then "%!" + [verb] + "(BADINDEX)"
        else "%!" + [verb] + "(MISSING)";
      Directive(s.text + text, s.at + 1, false)
  }

  /** The message of `fmt.Errorf(f)`: `doPrintf(f)` with no arguments.
      Text outside directives is copied; a directive without a verb ends
      the output. */
  function Errorf(f: string): string
    decreases |f|
  {
    if |f| == 0 then ""
    else if f[0] != '%' then [f[0]] + Errorf(f[1..])
    else
      var d := ReadDirective(f, 1);
      if d.stop then d.text else d.text + Errorf(f[d.next..])
  }

  /** Text before the first `%` is copied unchanged. */
  lemma {:induction false} PlainPrefix(a: string, b: string)
    requires '%' !in a
    ensures Errorf(a + b) == a + Errorf(b)
    decreases |a|
  {
    if |a| > 0 {
      assert (a + b)[0] == a[0];
      assert (a + b)[1..] == a[1..] + b;
      PlainPrefix(a[1..], b);
      assert a == [a[0]] + a[1..];
    } else {
      assert a + b == b;
    }
  }

  /** A message without `%` is its own rendering. */
  lemma PlainText(f: string)
    requires '%' !in f
    ensures Errorf(f) == f
  {
    PlainPrefix(f, "");
    assert f + "" == f;
  }

  /** A character that cannot begin a flag, an index, a width or a precision. */
  predicate IsBareVerb(c: char)
  {
    !IsFlag(c) && !IsDigit(c) && c != '[' && c != '*' && c != '.'
  }

  /** When the directive starts with its verb, the verb is read at once
      with the argument number still good. */
  lemma BareVerbScan(f: string, i: nat)
    requires i < |f| && IsBareVerb(f[i])
    ensures ReadDirective(f, i).next == i + 1 && !ReadDirective(f, i).stop
    ensures ReadDirective(f, i).text ==
      if f[i] == '%' then "%" else "%!" + [f[i]] + "(MISSING)"
  {
    assert SkipFlags(f, i) == i;
    assert ArgNumber(f, i) == ArgIndex(i, false, false);
    var s := ScanIndex(f, i);
    assert s == Scan("", i, true, false);
    assert ParseNumFrom(f, i, |f|, 0, false) == (false, i);
    assert ScanWidth(f, s) == s;
    assert ScanPrecision(f, s) == s;
    assert ScanVerbIndex(f, s) == s;
  }

  /** `%%` prints one `%` and the scan goes on after it. */
  lemma EscapedPercent(b: string)
    ensures Errorf("%%" + b) == "%" + Errorf(b)
  {
    var f := "%%" + b;
    assert f[0] == '%' && f[1] == '%';
    BareVerbScan(f, 1);
    assert f[2..] == b;
  }

  /** A verb with no flag, width, precision or index before it has no
      argument to print. */
  lemma MissingArgument(verb: char, b: string)
    requires verb != '%' && IsBareVerb(verb)
    ensures Errorf("%" + [verb] + b) == "%!" + [verb] + "(MISSING)" + Errorf(b)
  {
    var f := "%" + [verb] + b;
    assert f[0] == '%' && f[1] == verb;
    BareVerbScan(f, 1);
    assert f[2..] == b;
  }

  /** A `%` at the very end has no verb and ends the message. */
  lemma TrailingPercent(a: string)
    requires '%' !in a
    ensures Errorf(a + "%") == a + "%!(NOVERB)"
  {
    PlainPrefix(a, "%");
  }

  /** Between two texts without `%`, a doubled `%` renders as one. */
  lemma EscapedBetween(a: string, b: string)
    requires '%' !in a && '%' !in b
    ensures Errorf(a + "%%" + b) == a + "%" + b
  {
    assert a + "%%" + b == a + ("%%" + b);
    PlainPrefix(a, "%%" + b);
    EscapedPercent(b);
    PlainText(b);
    assert a + ("%" + b) == a + "%" + b;
  }
}
