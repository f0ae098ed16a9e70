/** Which lines of a `.gitattributes` file set the LFS filter, as a grammar of the line
    (internal/gitsync/lfs.go). */
module AttributeLines {
  import opened Text
  import opened Streams

  // ---------------------------------------------------------------- the attributes of a line

  predicate Blank(c: char) { c == ' ' || c == '\t' || c == '\r' }

  /** `s[i..j]` is a run of `s` without a blank, between blanks or the ends. */
  predicate IsRun(s: string, i: nat, j: nat) {
    && i < j <= |s| && (forall k | i <= k < j :: !Blank(s[k]))
    && (i == 0 || Blank(s[i - 1])) && (j == |s| || Blank(s[j]))
  }

  predicate HasRun(s: string, f: string) { exists i: nat, j: nat | i < j <= |s| :: IsRun(s, i, j) && s[i..j] == f }

  /** What is a run beyond `n`, where a blank is next to `n`, is a run of the rest, and the other way round. */
  lemma ShiftedRun(t: string, n: nat, i: nat, j: nat)
    requires n <= i < j <= |t| && (0 < n ==> Blank(t[n - 1]) || (n < |t| && Blank(t[n])))
    ensures IsRun(t, i, j) <==> IsRun(t[n..], i - n, j - n)
  {
    assert forall k | n <= k < |t| :: t[n..][k - n] == t[k];
  }

  /** The runs of a text are those before such an `n` and those of the rest. */
  lemma SplitRuns(t: string, n: nat, f: string)
    requires n <= |t| && (0 < n ==> Blank(t[n - 1]) || n == |t| || Blank(t[n]))
    ensures HasRun(t, f) <==> (exists i: nat, j: nat | i < n && i < j <= |t| :: IsRun(t, i, j) && t[i..j] == f) || HasRun(t[n..], f)
  {
    hide IsRun;
    if i: nat, j: nat :| i < j <= |t| && IsRun(t, i, j) && t[i..j] == f {
      if i >= n {
        ShiftedRun(t, n, i, j);
        assert t[n..][i - n..j - n] == f;
      }
    }
    if i: nat, j: nat :| i < j <= |t[n..]| && IsRun(t[n..], i, j) && t[n..][i..j] == f {
      ShiftedRun(t, n, i + n, j + n);
      assert t[i + n..j + n] == f;
    }
  }

  lemma {:induction false} TrimmedRuns(s: string, f: string)
    ensures HasRun(s, f) <==> HasRun(TrimLeft(s), f)
  {
    if s != "" && IsBlank(s[0]) {
      hide HasRun;
      TrimmedRuns(s[1..], f);
      SplitRuns(s, 1, f);
    }
  }

  /** The first run, where there is no blank before it, and those after it. */
  lemma FirstRun(t: string, n: nat, f: string)
    requires 0 < n <= |t| && (forall k | 0 <= k < n :: !Blank(t[k])) && (n < |t| ==> Blank(t[n]))
    ensures HasRun(t, f) <==> f == t[..n] || HasRun(t[n..], f)
  {
    hide HasRun;
    SplitRuns(t, n, f);
    assert IsRun(t, 0, n) && t[0..n] == t[..n];
    forall i: nat, j: nat | i < n && i < j <= |t| && IsRun(t, i, j) ensures i == 0 && j == n {
      OnlyTheFirst(t, n, i, j);
    }
  }

  lemma OnlyTheFirst(t: string, n: nat, i: nat, j: nat)
    requires 0 < n <= |t| && (forall k | 0 <= k < n :: !Blank(t[k])) && (n < |t| ==> Blank(t[n]))
    requires i < n && i < j <= |t| && IsRun(t, i, j)
    ensures i == 0 && j == n
  {
  }

  lemma {:induction false} FieldsAreRuns(s: string, f: string)
    ensures f in Fields(s) <==> HasRun(s, f)
    decreases |s|
  {
    var t := TrimLeft(s);
    TrimmedRuns(s, f);
    if t != "" {
      var n := BlankAt(t);
      FirstRun(t, n, f);
      FieldsAreRuns(t[n..], f);
    }
  }

  /** A name git accepts. */
  predicate IsName(name: string) {
    name != "" && name[0] != '-' && forall c <- name :: 'a' <= c <= 'z' || 'A' <= c <= 'Z' || '0' <= c <= '9' || c in "-._"
  }

  /** An attribute: a name, unset or unspecified by a mark before it, or with anything after an equals sign. */
  ghost predicate IsAttribute(attr: string) {
    || (attr != "" && attr[0] in "-!" && IsName(attr[1..]))
    || exists n: nat | n <= |attr| :: IsName(attr[..n]) && (n == |attr| || attr[n] == '=')
  }

  lemma NamedWell(attr: string)
    requires attr != ""
    ensures ValidName(NameOf(attr)) <==> IsAttribute(attr)
  {
    forall name: string ensures ValidName(name) <==> IsName(name) {
    }
    hide ValidName;
    var n := Find(attr, '=');
    if attr[0] in "-!" {
      forall m: nat | m <= |attr| ensures !IsName(attr[..m]) {
        assert m > 0 ==> attr[..m][0] == attr[0] && attr[0] in attr[..m];
      }
    } else if m: nat :| m <= |attr| && IsName(attr[..m]) && (m == |attr| || attr[m] == '=') {
      assert forall k | 0 <= k < m :: attr[k] == attr[..m][k] && attr[..m][k] in attr[..m];
      FoundAt(attr, '=', m);
    }
  }

  // ---------------------------------------------------------------- a quoted pattern

  /** A byte that is neither quote nor backslash, or a backslash with the byte it escapes. */
  predicate IsUnit(u: string) { (|u| == 1 && u[0] != '"' && u[0] != '\\') || (|u| == 2 && u[0] == '\\') }

  predicate AreUnits(us: seq<string>) { forall u <- us :: IsUnit(u) }

  function Flat(us: seq<string>): string { if us == [] then "" else us[0] + Flat(us[1..]) }

  /** From a byte that is not escaped, units and a quote: the quote closes. */
  lemma {:induction false} UnitsClose(text: string, i: nat, us: seq<string>)
    requires 1 <= i && AreUnits(us) && i + |Flat(us)| < |text| && text[i..i + |Flat(us)|] == Flat(us)
    requires !Escaped(text, i) && text[i + |Flat(us)|] == '"'
    ensures CloseOf(text, i) == i + |Flat(us)|
    decreases |us|
  {
    if us != [] {
      var u, n := us[0], |us[0]|;
      assert IsUnit(u) && AreUnits(us[1..]);
      assert text[i..i + |Flat(us)|][..n] == u && text[i..i + |Flat(us)|][n..] == Flat(us[1..]);
      assert text[i] == u[0] && (n == 2 ==> Escaped(text, i + 1));
      UnitsClose(text, i + n, us[1..]);
    }
  }

  lemma {:induction false} ClosedAreUnits(text: string, i: nat, r: nat) returns (us: seq<string>)
    requires 1 <= i <= r < |text| && !Escaped(text, i) && Closes(text, r) && forall k | i <= k < r :: !Closes(text, k)
    ensures AreUnits(us) && Flat(us) == text[i..r]
    decreases r - i
  {
    if i == r {
      us := [];
    } else {
      var n := if text[i] == '\\' then 2 else 1;
      assert !Closes(text, i) && (text[i] == '\\' ==> Escaped(text, i + 1));
      us := ClosedAreUnits(text, i + n, r);
      var u := text[i..i + n];
      assert IsUnit(u);
      assert ([u] + us)[1..] == us && text[i..r] == u + text[i + n..r];
      us := [u] + us;
    }
  }

  // ---------------------------------------------------------------- a line

  ghost predicate IsQuotable(pattern: string) { exists us :: AreUnits(us) && Flat(us) == pattern }

  /** A plain pattern ends at a blank; one that begins with `#` is a comment. */
  predicate SaysPlainly(text: string, pattern: string, rest: string) {
    && pattern != "" && pattern[0] != '#' && pattern[0] != '"' && (forall c <- pattern :: !Blank(c))
    && rest != "" && Blank(rest[0]) && text == pattern + rest
  }

  ghost predicate SaysQuoted(text: string, pattern: string, rest: string) {
    IsQuotable(pattern) && text == "\"" + pattern + "\"" + rest
  }

  /** The line is a pattern, plain or quoted, and what follows it, after blanks. */
  ghost predicate Says(line: string, pattern: string, rest: string) {
    exists n: nat | n <= |line| ::
      && (forall k | 0 <= k < n :: Blank(line[k]))
      && (SaysPlainly(line[n..], pattern, rest) || SaysQuoted(line[n..], pattern, rest))
  }

  lemma BlankIsAt(t: string, n: nat)
    requires n <= |t| && (forall k | 0 <= k < n :: !Blank(t[k])) && (n < |t| ==> Blank(t[n]))
    ensures BlankAt(t) == n
  {
    var i := BlankAt(t);
  }

  lemma PlainIff(text: string, pattern: string, rest: string)
    requires text != "" && !Blank(text[0]) && text[0] != '"'
    ensures PartsOf(text) == Parts(pattern, rest) <==> SaysPlainly(text, pattern, rest)
  {
    if SaysPlainly(text, pattern, rest) {
      assert text[..|pattern|] == pattern && text[|pattern|..] == rest;
      assert forall k | 0 <= k < |pattern| :: text[k] == pattern[k];
      BlankIsAt(text, |pattern|);
    }
    if PartsOf(text) == Parts(pattern, rest) {
      var n := BlankAt(text);
      assert text == text[..n] + text[n..];
      assert n > 0 && pattern[0] == text[0];
    }
  }

  lemma QuotedIsRead(text: string, pattern: string, rest: string)
    requires SaysQuoted(text, pattern, rest)
    ensures text != "" && text[0] == '"' && CloseOf(text, 1) == 1 + |pattern|
    ensures text[1..1 + |pattern|] == pattern && text[2 + |pattern|..] == rest
  {
    hide CloseOf, IsUnit;
    var us :| AreUnits(us) && Flat(us) == pattern;
    assert text[1..1 + |pattern|] == pattern && text[1 + |pattern|] == '"';
    assert !Escaped(text, 1);
    UnitsClose(text, 1, us);
  }

  lemma QuotedIff(text: string, pattern: string, rest: string)
    requires text != "" && text[0] == '"'
    ensures PartsOf(text) == Parts(pattern, rest) <==> SaysQuoted(text, pattern, rest)
  {
    hide CloseOf, AreUnits, Escaped;
    if SaysQuoted(text, pattern, rest) {
      QuotedIsRead(text, pattern, rest);
    }
    if PartsOf(text) == Parts(pattern, rest) {
      var r := CloseOf(text, 1);
      NotEscapedYet(text);
      var us := ClosedAreUnits(text, 1, r);
      assert text == text[..1] + text[1..r] + text[r..r + 1] + text[r + 1..];
    }
  }

  lemma NotEscapedYet(text: string)
    requires text != ""
    ensures !Escaped(text, 1)
  {
  }

  lemma {:induction false} TrimmedAt(s: string) returns (n: nat)
    ensures n <= |s| && (forall k | 0 <= k < n :: Blank(s[k])) && s[n..] == TrimLeft(s)
  {
    if s != "" && IsBlank(s[0]) {
      n := TrimmedAt(s[1..]);
      assert forall k | 0 < k <= n :: s[k] == s[1..][k - 1];
      n := n + 1;
    } else {
      n := 0;
    }
  }

  lemma {:induction false} TrimsTo(s: string, n: nat)
    requires n < |s| && (forall k | 0 <= k < n :: Blank(s[k])) && !Blank(s[n])
    ensures TrimLeft(s) == s[n..]
  {
    if n > 0 {
      assert s[1..][n - 1..] == s[n..];
      TrimsTo(s[1..], n - 1);
    }
  }

  lemma SaidIsRead(line: string, pattern: string, rest: string)
    requires Says(line, pattern, rest)
    ensures PartsOf(TrimLeft(line)) == Parts(pattern, rest)
  {
    hide PartsOf, TrimLeft;
    var n: nat :| n <= |line| && (forall k | 0 <= k < n :: Blank(line[k]))
                  && (SaysPlainly(line[n..], pattern, rest) || SaysQuoted(line[n..], pattern, rest));
    var text := line[n..];
    TextBegins(text, pattern, rest);
    TrimsTo(line, n);
    if text[0] == '"' {
      QuotedIff(text, pattern, rest);
    } else {
      PlainIff(text, pattern, rest);
    }
  }

  lemma TextBegins(text: string, pattern: string, rest: string)
    requires SaysPlainly(text, pattern, rest) || SaysQuoted(text, pattern, rest)
    ensures text != "" && !Blank(text[0]) && (text[0] == '"' <==> SaysQuoted(text, pattern, rest))
  {
    if SaysPlainly(text, pattern, rest) {
      assert text[0] == pattern[0];
    } else {
      assert text[0] == '"';
    }
  }

  lemma ReadIsSaid(line: string)
    requires PartsOf(TrimLeft(line)).Parts?
    ensures Says(line, PartsOf(TrimLeft(line)).pattern, PartsOf(TrimLeft(line)).rest)
  {
    var n := TrimmedAt(line);
    var text, parts := TrimLeft(line), PartsOf(TrimLeft(line));
    assert text != "" && !IsBlank(text[0]);
    hide PartsOf, SaysPlainly, SaysQuoted;
    if text[0] == '"' {
      QuotedIff(text, parts.pattern, parts.rest);
    } else {
      PlainIff(text, parts.pattern, parts.rest);
    }
  }

  /** A line sets the LFS filter if and only if it says a pattern that is not negative, every attribute after
      it is well formed, and one of them is `filter=lfs`. */
  ghost predicate SetsFilter(line: string) {
    exists pattern, rest ::
      && Says(line, pattern, rest) && !("!" <= pattern)
      && (forall attr | HasRun(rest, attr) :: IsAttribute(attr)) && HasRun(rest, "filter=lfs")
  }

  lemma AssignsIff(line: string, first: bool)
    ensures AssignsLFS(line, first) <==> SetsFilter(if first && [239 as char, 187 as char, 191 as char] <= line then line[3..] else line)
  {
    hide Says, Fields, PartsOf, TrimLeft, IsAttribute, NameOf, ValidName;
    var l := if first && BOM <= line then line[3..] else line;
    var parts := PartsOf(Unmarked(line, first));
    if parts.Parts? {
      ReadIsSaid(l);
      AttributesAre(parts.rest);
    }
    if pattern, rest :| Says(l, pattern, rest) && !("!" <= pattern)
                        && (forall attr | HasRun(rest, attr) :: IsAttribute(attr)) && HasRun(rest, "filter=lfs") {
      SaidIsRead(l, pattern, rest);
      AttributesAre(rest);
    }
  }

  lemma AttributesAre(rest: string)
    ensures forall attr :: attr in Fields(rest) <==> HasRun(rest, attr)
    ensures forall attr <- Fields(rest) :: ValidName(NameOf(attr)) <==> IsAttribute(attr)
  {
    hide IsAttribute, NameOf, ValidName, Fields;
    forall attr ensures attr in Fields(rest) <==> HasRun(rest, attr) {
      FieldsAreRuns(rest, attr);
    }
    forall attr <- Fields(rest) ensures ValidName(NameOf(attr)) <==> IsAttribute(attr) {
      NamedWell(attr);
    }
  }

  // ---------------------------------------------------------------- the lines of a file

  /** `t[i..j]` is a line of `t`, without its newline. */
  predicate IsLine(t: string, i: nat, j: nat) {
    i <= j <= |t| && '\n' !in t[i..j] && (i == 0 || t[i - 1] == '\n') && (j == |t| || t[j] == '\n')
  }

  lemma {:induction false} TailAt(t: string) returns (i: nat)
    ensures i <= |t| && IsLine(t, i, |t|) && t[i..] == Tail(t) && (i == 0 <==> Complete(t) == [])
  {
    if t == "" {
      i := 0;
    } else {
      var f, c := Front(t), t[|t| - 1];
      assert t == f + [c];
      LinesGrow(f, c);
      i := TailAt(f);
      hide Complete, Tail;
      if c == '\n' {
        i := |t|;
        assert t[i..] == "";
      } else {
        assert t[i..] == f[i..] + [c];
      }
    }
  }

  lemma {:induction false} CompleteAt(t: string, k: nat) returns (i: nat, j: nat)
    requires k < |Complete(t)|
    ensures j < |t| && IsLine(t, i, j) && t[i..j] == Complete(t)[k] && (i == 0 <==> k == 0)
    decreases |t|
  {
    var f, c := Front(t), t[|t| - 1];
    assert t == f + [c];
    LinesGrow(f, c);
    hide Complete, Tail;
    if k < |Complete(f)| {
      i, j := CompleteAt(f, k);
      assert t[i..j] == f[i..j];
    } else {
      i := TailAt(f);
      j := |f|;
      assert t[i..j] == f[i..];
    }
  }

  lemma {:induction false} CompleteIsPrefix(a: string, b: string)
    ensures Complete(a) <= Complete(a + b)
  {
    if b == "" {
      assert a + b == a;
    } else {
      var f, c := Front(b), b[|b| - 1];
      CompleteIsPrefix(a, f);
      assert a + b == (a + f) + [c];
      LinesGrow(a + f, c);
    }
  }

  lemma LineAt(t: string, i: nat, j: nat) returns (k: nat)
    requires IsLine(t, i, j)
    ensures k < |Lines(t)| && Lines(t)[k] == t[i..j] && (i == 0 <==> k == 0)
  {
    hide Complete, Tail;
    var before, line := t[..i], t[i..j];
    k := |Complete(before)|;
    StartOfLine(before);
    CompleteOfLine(before, line);
    assert t[..j] == before + line && "" + line == line;
    if j < |t| {
      LinesGrow(t[..j], '\n');
      CompleteIsPrefix(t[..j] + ['\n'], t[j + 1..]);
      assert t == t[..j] + ['\n'] + t[j + 1..];
    } else {
      assert t == t[..j];
    }
  }

  lemma StartOfLine(before: string)
    requires before == "" || before[|before| - 1] == '\n'
    ensures Tail(before) == "" && (Complete(before) == [] <==> before == "")
  {
  }

  /** The line `t[i..j]` is shorter than 2048 bytes and sets the filter; before the very first a byte order
      mark is left out. */
  ghost predicate LineSets(t: string, i: nat, j: nat) {
    && IsLine(t, i, j) && j - i < 2048
    && SetsFilter(if i == 0 && [239 as char, 187 as char, 191 as char] <= t[i..j] then t[i..j][3..] else t[i..j])
  }

  ghost predicate SomeLineSets(t: string) { exists i: nat, j: nat :: LineSets(t, i, j) }

  /** A file sets the LFS filter if and only if some line within its first mebibyte does. */
  lemma SetsLFSIff(text: string)
    ensures SetsLFS(text) <==> SomeLineSets(if |text| <= 1024 * 1024 then text else text[..1024 * 1024])
  {
    hide AssignsLFS, SetsFilter, Complete, Tail;
    var t := Capped(text, MAX_ATTRIBUTES_BYTES);
    if SetsLFS(text) {
      var k :| 0 <= k < |Lines(t)| && |Lines(t)[k]| < MAX_ATTRIBUTES_LINE && AssignsLFS(Lines(t)[k], k == 0);
      var i, j := LineIs(t, k);
      AssignsIff(t[i..j], i == 0);
      assert LineSets(t, i, j);
    }
    if i: nat, j: nat :| LineSets(t, i, j) {
      var k := LineAt(t, i, j);
      AssignsIff(t[i..j], i == 0);
    }
  }

  lemma LineIs(t: string, k: nat) returns (i: nat, j: nat)
    requires k < |Lines(t)|
    ensures IsLine(t, i, j) && t[i..j] == Lines(t)[k] && (i == 0 <==> k == 0)
  {
    hide Complete, Tail;
    if k < |Complete(t)| {
      i, j := CompleteAt(t, k);
    } else {
      i := TailAt(t);
      j := |t|;
      assert t[i..j] == t[i..];
    }
  }
}
