/** Reading git's porcelain push report as it streams in: the plan of a push, and the count of the refs
    a push changed (internal/gitsync/pushbatch.go, internal/gitsync/syncstats.go). A byte is a `char`. */
module PushReport {
  import opened Option
  import opened Text

  const MAX_PLAN_BYTES := 64 * 1024 * 1024
  const MAX_PLAN_REF_LEN := 4096
  const MAX_PLAN_LINE := 2 * MAX_PLAN_REF_LEN + 256
  const MAX_REJECTED_LINE := 1024
  const MAX_REJECTION_TEXT := 8 * 1024

  // ---------------------------------------------------------------- names

  predicate IsPushed(name: string) { "refs/heads/" <= name || "refs/tags/" <= name }

  /** The name with the branch or tag prefix cut off. */
  function Rest(name: string): string
    requires IsPushed(name)
  {
    if "refs/heads/" <= name then name[11..] else name[10..]
  }

  predicate IsShadow(name: string) { IsPushed(name) && "refs/" <= Rest(name) }

  predicate Forbidden(c: char) { c < ' ' || c == 127 as char || c in " :*?[\\^~" }

  predicate ValidPushRef(name: string) {
    IsPushed(name) && Rest(name) != "" && |name| <= MAX_PLAN_REF_LEN && forall c <- name :: !Forbidden(c)
  }

  // ---------------------------------------------------------------- the plan of a push

  datatype Plan = Plan(upserts: seq<string>, deletes: seq<string>, shadows: set<string>, retained: nat, bad: bool)

  const EMPTY_PLAN := Plan([], [], {}, 0, false)

  predicate IsStatus(line: string) { |line| >= 2 && line[1] == '\t' }

  predicate Writes(flag: char) { flag == '*' || flag == ' ' || flag == '+' }

  predicate Changing(flag: char) { Writes(flag) || flag == '-' }

  predicate Plans(flag: char) { Changing(flag) || flag == '=' }

  predicate IsPlanned(line: string) { IsStatus(line) && Plans(line[0]) }

  /** The refs a status line names on either side: its second field, cut at its first colon. */
  function Pair(line: string): Option<(string, string)>
    requires IsStatus(line)
  {
    var field := line[2..2 + Find(line[2..], '\t')];
    var i := Find(field, ':');
    if i == |field| then None else Some((field[..i], field[i + 1..]))
  }

  /** The ref that a line of the plan is about, if the line can be trusted. */
  function Named(line: string): Option<string>
    requires IsPlanned(line)
  {
    if |line| > MAX_PLAN_LINE || Pair(line).None? then None
    else
      var (from, to) := Pair(line).value;
      if ValidPushRef(to) && from == (if line[0] == '-' then "" else to) then Some(to) else None
  }

  function Noted(p: Plan, flag: char, to: string): Plan {
    var kept := flag != '=' || IsShadow(to);
    var retained := if kept then p.retained + |to| else p.retained;
    if kept && retained > MAX_PLAN_BYTES then p.(retained := retained, bad := true)
    else Plan(if Writes(flag) then p.upserts + [to] else p.upserts,
              if flag == '-' then p.deletes + [to] else p.deletes,
              if IsShadow(to) then p.shadows + {to} else p.shadows, retained, p.bad)
  }

  function PlanLine(p: Plan, line: string): Plan {
    if !IsPlanned(line) then p
    else match Named(line)
      case None => p.(bad := true)
      case Some(to) => Noted(p, line[0], to)
  }

  function PlanLines(lines: seq<string>): Plan {
    if lines == [] then EMPTY_PLAN else PlanLine(PlanLines(lines[..|lines| - 1]), lines[|lines| - 1])
  }

  /** The plan that a whole report states. */
  function PlanOf(text: string): Plan { PlanLines(Lines(text)) }

  /** The streaming reader of a plan. */
  class PushPlan {
    var upserts: seq<string>
    var deletes: seq<string>
    var shadows: set<string>
    var line: string
    var overLong: bool
    var retained: nat
    var bad: bool
    ghost var written: string

    ghost function Value(): Plan
      reads this
    {
      Plan(upserts, deletes, shadows, retained, bad)
    }

    /** The state is that of the lines ended so far, with the start of the current one. */
    ghost predicate Valid()
      reads this
    {
      && Value() == PlanLines(Complete(written))
      && line == Capped(Tail(written), MAX_PLAN_LINE)
      && overLong == (|Tail(written)| > MAX_PLAN_LINE)
    }

    constructor ()
      ensures Valid() && written == ""
    {
      upserts, deletes, shadows, line, overLong, retained, bad := [], [], {}, "", false, 0, false;
      written := "";
    }

    method Write(b: string)
      requires Valid()
      modifies this
      ensures Valid() && written == old(written) + b
    {
      hide Complete, Tail, PlanLines, PlanLine, CountIf, Rejections, IsChange, IsRejection, Find, Summary;
      for k := 0 to |b|
        invariant Valid() && written == old(written) + b[..k]
      {
        LinesGrow(written, b[k]);
        if b[k] == '\n' {
          PlanOfLines(Complete(written), Tail(written));
          EndLine(Tail(written));
        } else if |line| < MAX_PLAN_LINE {
          line := line + [b[k]];
        } else {
          overLong := true;
        }
        written := written + [b[k]];
        assert b[..k + 1] == b[..k] + [b[k]];
      }
      assert b[..|b|] == b;
    }

    /** Takes in the line just completed, `whole`, of which `line` may be only the start. */
    method EndLine(ghost whole: string)
      requires line == Capped(whole, MAX_PLAN_LINE) && overLong == (|whole| > MAX_PLAN_LINE)
      modifies this`upserts, this`deletes, this`shadows, this`line, this`overLong, this`retained, this`bad
      ensures line == "" && !overLong
      ensures Value() == PlanLine(old(Value()), whole)
    {
      hide Find, ValidPushRef, IsShadow;
      var l, over := line, overLong;
      line, overLong := "", false;
      if |l| < 2 || l[1] != '\t' {
        return;
      }
      var flag := l[0];
      if !Plans(flag) {
        return;
      }
      if over {
        bad := true;
        return;
      }
      var field := l[2..2 + Find(l[2..], '\t')];
      var i := Find(field, ':');
      if i == |field| {
        bad := true;
        return;
      }
      var from, to := field[..i], field[i + 1..];
      if !ValidPushRef(to) || from != (if flag == '-' then "" else to) {
        bad := true;
        return;
      }
      var shadow := IsShadow(to);
      if flag != '=' || shadow {
        retained := retained + |to|;
        if retained > MAX_PLAN_BYTES {
          bad := true;
          return;
        }
      }
      if shadow {
        shadows := shadows + {to};
      }
      if flag == '-' {
        deletes := deletes + [to];
      } else if flag != '=' {
        upserts := upserts + [to];
      }
    }

    /** Whether the plan must not be acted on, once all of it is written: whatever the chunks were, the
        answer and the plan are those of the whole text. */
    method Unusable() returns (r: bool)
      requires Valid()
      modifies this
      ensures Value() == PlanOf(written) && r == PlanOf(written).bad && written == old(written)
    {
      PlanOfLines(Complete(written), Tail(written));
      EndLine(Tail(written));
      r := bad;
    }
  }

  lemma PlanOfLines(lines: seq<string>, line: string)
    ensures PlanLines(lines + [line]) == PlanLine(PlanLines(lines), line)
  {
    assert (lines + [line])[..|lines|] == lines;
  }

  // ---------------------------------------------------------------- the refs a push changed

  predicate IsChange(line: string) { IsStatus(line) && Changing(line[0]) }

  predicate IsRejection(line: string) { IsStatus(line) && line[0] == '!' }

  function CountIf(lines: seq<string>, p: string -> bool): nat {
    if lines == [] then 0 else CountIf(lines[..|lines| - 1], p) + if p(lines[|lines| - 1]) then 1 else 0
  }

  /** What a rejected line says after its refs. */
  function Summary(line: string): string {
    var rest := if |line| < 2 then "" else line[2..];
    var i := Find(rest, '\t');
    if i == |rest| then "" else Capped(rest[i + 1..], MAX_REJECTED_LINE)
  }

  function Row(line: string): string {
    var summary := WithoutReturn(Summary(line));
    " ! ref -> ref" + (if summary == "" then "" else " " + summary) + "\n"
  }

  function WithoutReturn(s: string): string { if s != "" && s[|s| - 1] == '\r' then Front(s) else s }

  function Rejections(lines: seq<string>): string {
    if lines == [] then ""
    else
      var text := Rejections(lines[..|lines| - 1]);
      var line := lines[|lines| - 1];
      if IsRejection(line) && |text| + |Row(line)| <= MAX_REJECTION_TEXT then text + Row(line) else text
  }

  function Changes(text: string): nat { CountIf(Lines(text), IsChange) }

  lemma CountOfLines(lines: seq<string>, line: string)
    ensures forall p: string -> bool :: CountIf(lines + [line], p) == CountIf(lines, p) + if p(line) then 1 else 0
    ensures Rejections(lines + [line]) ==
              if IsRejection(line) && |Rejections(lines)| + |Row(line)| <= MAX_REJECTION_TEXT then Rejections(lines) + Row(line)
              else Rejections(lines)
  {
    assert (lines + [line])[..|lines|] == lines;
  }

  lemma SummaryGrows(line: string, c: char)
    requires |line| >= 2
    ensures var tabbed := Find(line[2..], '\t') < |line[2..]|;
            && (Find((line + [c])[2..], '\t') < |(line + [c])[2..]| <==> tabbed || c == '\t')
            && Summary(line + [c]) == if tabbed && |Summary(line)| < MAX_REJECTED_LINE then Summary(line) + [c] else Summary(line)
  {
    var rest, i := line[2..], Find(line[2..], '\t');
    assert (line + [c])[2..] == rest + [c];
    if i < |rest| {
      assert (rest + [c])[..i] == rest[..i];
      FoundAt(rest + [c], '\t', i);
      assert (rest + [c])[i + 1..] == rest[i + 1..] + [c];
    } else {
      assert (rest + [c])[..i] == rest && rest[..i] == rest;
      assert (rest + [c])[..i + 1] == rest + [c];
      FoundAt(rest + [c], '\t', if c == '\t' then i else i + 1);
    }
  }

  /** The counter of one or more pushes. */
  class PushCounter {
    var refs: nat
    var rejected: nat
    var text: string
    var col: nat
    var flag: char
    var tab: bool
    var tabs: nat
    var summary: string
    ghost var written: string

    ghost predicate Counted(lines: seq<string>)
      reads this
    {
      refs == CountIf(lines, IsChange) && rejected == CountIf(lines, IsRejection) && text == Rejections(lines)
    }

    /** Where the automaton stands within the line `l`. */
    ghost predicate Inside(l: string)
      reads this
    {
      && col == |l|
      && (col >= 1 ==> flag == l[0])
      && (tab <==> IsStatus(l))
      && (tab ==> tabs >= 1)
      && (if tab && flag == '!' then
            (tabs >= 2 <==> Find(l[2..], '\t') < |l[2..]|) && summary == Summary(l)
          else summary == "")
    }

    ghost predicate Valid()
      reads this
    {
      Counted(Complete(written)) && Inside(Tail(written))
    }

    constructor ()
      ensures Valid() && written == ""
    {
      refs, rejected, text, col, flag, tab, tabs, summary := 0, 0, "", 0, 0 as char, false, 0, "";
      written := "";
    }

    method Write(b: string)
      requires Valid()
      modifies this
      ensures Valid() && written == old(written) + b
    {
      hide Complete, Tail, PlanLines, PlanLine, CountIf, Rejections, IsChange, IsRejection, Find, Summary;
      for k := 0 to |b|
        invariant Valid() && written == old(written) + b[..k]
      {
        LinesGrow(written, b[k]);
        if b[k] == '\n' {
          EndLine();
        } else {
          Next(b[k], Tail(written));
        }
        written := written + [b[k]];
        assert b[..k + 1] == b[..k] + [b[k]];
      }
      assert b[..|b|] == b;
    }

    /** One byte that is not a newline. */
    method Next(c: char, ghost l: string)
      requires Inside(l)
      modifies this`col, this`flag, this`tab, this`tabs, this`summary
      ensures Inside(l + [c])
    {
      if |l| >= 2 {
        SummaryGrows(l, c);
      }
      match col {
        case 0 =>
          flag := c;
        case 1 =>
          tab := c == '\t';
          if tab {
            tabs := 1;
          }
        case _ =>
          if flag == '!' && tab {
            if tabs >= 2 {
              if |summary| < MAX_REJECTED_LINE {
                summary := summary + [c];
              }
            } else if c == '\t' {
              tabs := 2;
            }
          }
      }
      col := col + 1;
    }

    method EndLine()
      requires Valid()
      modifies this`refs, this`rejected, this`text, this`col, this`flag, this`tab, this`tabs, this`summary
      ensures Counted(Lines(written)) && Inside("")
    {
      hide Complete, Tail, CountIf, Rejections, Row, Find, Summary;
      CountOfLines(Complete(written), Tail(written));
      if col >= 2 && tab {
        if Changing(flag) {
          refs := refs + 1;
        } else if flag == '!' {
          rejected := rejected + 1;
          RetainRejection(Tail(written));
        }
      }
      col, flag, tab, tabs, summary := 0, 0 as char, false, 0, "";
    }

    method RetainRejection(ghost l: string)
      requires summary == Summary(l)
      modifies this`text
      ensures text == if |old(text)| + |Row(l)| <= MAX_REJECTION_TEXT then old(text) + Row(l) else old(text)
    {
      var row := " ! ref -> ref";
      var said := WithoutReturn(summary);
      if said != "" {
        row := row + " " + said;
      }
      row := row + "\n";
      if |text| + |row| <= MAX_REJECTION_TEXT {
        text := text + row;
      }
    }

    /** Ends a last line without a newline: the counts are then those of the whole text, and the
        counter is ready for another push. */
    method Settle()
      requires Valid()
      modifies this
      ensures Valid() && written == Ended(old(written))
      ensures refs == Changes(old(written)) && rejected == CountIf(Lines(old(written)), IsRejection)
      ensures text == Rejections(Lines(old(written)))
    {
      CountOfLines(Complete(written), Tail(written));
      LinesGrow(written, '\n');
      if col > 0 {
        EndLine();
        written := written + "\n";
      }
    }
  }

  /** A push's report, its last line ended. */
  function Ended(text: string): string { if Tail(text) == "" then text else text + "\n" }

  lemma {:induction false} LinesAfter(a: string, b: string)
    requires Tail(a) == ""
    ensures Complete(a + b) == Complete(a) + Complete(b) && Tail(a + b) == Tail(b)
  {
    if b == "" {
      assert a + b == a;
    } else {
      var c := b[|b| - 1];
      LinesAfter(a, Front(b));
      assert a + b == (a + Front(b)) + [c] && b == Front(b) + [c];
      LinesGrow(a + Front(b), c);
      LinesGrow(Front(b), c);
    }
  }

  lemma {:induction false} CountOfSum(a: seq<string>, b: seq<string>)
    ensures CountIf(a + b, IsChange) == CountIf(a, IsChange) + CountIf(b, IsChange)
  {
    if b == [] {
      assert a + b == a;
    } else {
      CountOfSum(a, b[..|b| - 1]);
      assert a + b == (a + b[..|b| - 1]) + [b[|b| - 1]];
      CountOfLines(a + b[..|b| - 1], b[|b| - 1]);
    }
  }

  /** Pushes that share one counter add up: settling between them, it counts what each of them changed. */
  lemma SharedCounterAddsUp(a: string, b: string)
    ensures Changes(Ended(a) + b) == Changes(a) + Changes(b)
  {
    hide Complete, Tail, CountIf;
    LinesGrow(a, '\n');
    LinesAfter(Ended(a), b);
    CountOfSum(Complete(Ended(a)), Lines(b));
    CountOfLines(Complete(a), Tail(a));
    assert Lines(Ended(a) + b) == Complete(Ended(a)) + Lines(b);
  }

  // ---------------------------------------------------------------- the two readers agree

  lemma BadIsForGood(p: Plan, line: string)
    ensures p.bad ==> PlanLine(p, line).bad
    ensures !PlanLine(p, line).bad ==>
              |PlanLine(p, line).upserts| + |PlanLine(p, line).deletes| == |p.upserts| + |p.deletes| + if IsChange(line) then 1 else 0
  {
    hide Find, Pair, ValidPushRef, IsShadow;
  }

  lemma {:induction false} UsableLinesAgree(lines: seq<string>)
    requires !PlanLines(lines).bad
    ensures |PlanLines(lines).upserts| + |PlanLines(lines).deletes| == CountIf(lines, IsChange)
  {
    hide PlanLine, IsChange;
    if lines != [] {
      BadIsForGood(PlanLines(lines[..|lines| - 1]), lines[|lines| - 1]);
      UsableLinesAgree(lines[..|lines| - 1]);
    }
  }

  /** Over any text at all: if the plan is usable, what it writes and deletes is what the counter
      counts on the same text. */
  lemma UsablePlanIsCounted(text: string)
    requires !PlanOf(text).bad
    ensures |PlanOf(text).upserts| + |PlanOf(text).deletes| == Changes(text)
  {
    UsableLinesAgree(Lines(text));
  }

  /** Nothing untrusted gets through: every name in a usable plan may stand in a refspec, and the names
      kept are within the bound. */
  lemma {:induction false} PlanNamesAreValid(lines: seq<string>)
    ensures forall n <- PlanLines(lines).upserts + PlanLines(lines).deletes :: ValidPushRef(n)
    ensures forall n <- PlanLines(lines).shadows :: ValidPushRef(n) && IsShadow(n)
    ensures !PlanLines(lines).bad ==> PlanLines(lines).retained <= MAX_PLAN_BYTES
  {
    hide ValidPushRef, IsShadow, Pair;
    if lines != [] {
      PlanNamesAreValid(lines[..|lines| - 1]);
    }
  }

  // ---------------------------------------------------------------- what may be trusted

  /** A branch or tag of bounded length, without anything git forbids in a name or reads in a refspec. */
  predicate SafeName(name: string) {
    && (("refs/heads/" <= name && |name| > 11) || ("refs/tags/" <= name && |name| > 10))
    && |name| <= 4096
    && forall c <- name :: 32 <= c as int != 127 && c !in [' ', ':', '*', '?', '[', '\\', '^', '~']
  }

  /** A line about the one ref `name`: its flag, a tab, the ref mapped to itself, or to nothing for a
      deletion, and whatever follows a further tab. */
  predicate SaysOf(line: string, name: string) {
    exists i | 0 <= i <= |line| && (i == |line| || line[i] == '\t') ::
      |line| >= 2 && line[..i] == [line[0], '\t'] + (if line[0] == '-' then "" else name) + ":" + name
  }

  lemma SafeNames(name: string)
    ensures ValidPushRef(name) <==> SafeName(name)
  {
    assert "refs/heads/" <= name ==> name[5] == 'h';
    assert "refs/tags/" <= name ==> name[5] == 't';
  }

  lemma PairAt(line: string, i: nat, from: string, to: string)
    requires '\t' !in from && '\t' !in to && ':' !in from
    requires 2 <= i <= |line| && (i == |line| || line[i] == '\t') && IsStatus(line) && line[2..i] == from + ":" + to
    ensures Pair(line) == Some((from, to))
  {
    hide Find;
    var field := from + ":" + to;
    assert line[2..][..i - 2] == field;
    FoundAt(line[2..], '\t', i - 2);
    assert field[..|from|] == from;
    FoundAt(field, ':', |from|);
    assert field[|from| + 1..] == to;
  }

  lemma SaidOf(line: string, name: string)
    requires IsStatus(line) && SafeName(name) && SaysOf(line, name)
    ensures Pair(line) == Some((if line[0] == '-' then "" else name, name))
  {
    hide Pair, SafeName, ValidPushRef;
    SafeNames(name);
    NamesAreClean(name);
    var from := if line[0] == '-' then "" else name;
    var i :| 0 <= i <= |line| && (i == |line| || line[i] == '\t') && line[..i] == [line[0], '\t'] + from + ":" + name;
    assert line[..i] == [line[0], '\t'] + (from + ":" + name);
    assert line[2..i] == line[..i][2..];
    PairAt(line, i, from, name);
  }

  lemma SaysItsPair(line: string)
    requires IsStatus(line) && Pair(line).Some?
    requires Pair(line).value.0 == if line[0] == '-' then "" else Pair(line).value.1
    ensures SaysOf(line, Pair(line).value.1)
  {
    hide Find;
    var (from, to) := Pair(line).value;
    var i := 2 + Find(line[2..], '\t');
    var field := line[2..i];
    assert field == from + ":" + to;
    assert line[..i] == [line[0], '\t'] + field;
    assert [line[0], '\t'] + (from + ":" + to) == [line[0], '\t'] + from + ":" + to;
  }

  /** A line of the plan is read just when it is of bounded length and says one safe name, and then as
      that name. */
  lemma NamedIff(line: string, name: string)
    requires IsPlanned(line)
    ensures Named(line) == Some(name) <==> |line| <= 2 * 4096 + 256 && SafeName(name) && SaysOf(line, name)
  {
    hide Pair, SafeName, ValidPushRef, SaysOf;
    SafeNames(name);
    if Named(line) == Some(name) {
      SaysItsPair(line);
    }
    if SafeName(name) && SaysOf(line, name) {
      SaidOf(line, name);
    }
  }

  ghost predicate Trusted(line: string) {
    |line| <= 2 * 4096 + 256 && exists name :: SafeName(name) && SaysOf(line, name)
  }

  lemma TrustedIff(line: string)
    requires IsPlanned(line)
    ensures Named(line).Some? <==> Trusted(line)
  {
    hide Named, SafeName, SaysOf;
    if Named(line).Some? {
      NamedIff(line, Named(line).value);
    }
    if Trusted(line) {
      var name :| SafeName(name) && SaysOf(line, name);
      NamedIff(line, name);
    }
  }

  /** A plan fails closed: over any text, it is usable if and only if every line with a flag of the plan
      is trusted and the names kept stay within the bound. */
  lemma {:induction false} UsableIff(lines: seq<string>)
    ensures !PlanLines(lines).bad <==>
              && (forall line <- lines :: |line| >= 2 && line[1] == '\t' && line[0] in "* +-=" ==> Trusted(line))
              && PlanLines(lines).retained <= 64 * 1024 * 1024
  {
    hide Trusted, Named, IsShadow;
    if lines != [] {
      var front, last := lines[..|lines| - 1], lines[|lines| - 1];
      UsableIff(front);
      assert forall line :: line in lines <==> line in front || line == last;
      if IsPlanned(last) {
        TrustedIff(last);
      }
    }
  }

  lemma {:induction false} NoneCounted(lines: seq<string>, p: string -> bool)
    ensures CountIf(lines, p) == 0 <==> forall line <- lines :: !p(line)
  {
    if lines != [] {
      NoneCounted(lines[..|lines| - 1], p);
      assert lines == lines[..|lines| - 1] + [lines[|lines| - 1]];
    }
  }

  /** A push counts as rejected if and only if some line of its report has the flag of a refusal. */
  lemma RejectedIff(text: string)
    ensures CountIf(Lines(text), IsRejection) > 0 <==> exists line <- Lines(text) :: "!\t" <= line
  {
    NoneCounted(Lines(text), IsRejection);
    forall line ensures IsRejection(line) <==> "!\t" <= line {
    }
  }

  /** The lines of a text that begin with the flag and tab of a created, updated, forced or deleted ref. */
  function ChangedAt(lines: seq<string>): set<nat> {
    set i: nat | i < |lines| && ("*\t" <= lines[i] || " \t" <= lines[i] || "+\t" <= lines[i] || "-\t" <= lines[i])
  }

  lemma {:induction false} ChangesAreLines(lines: seq<string>)
    ensures CountIf(lines, IsChange) == |ChangedAt(lines)|
  {
    if lines != [] {
      var front, last := lines[..|lines| - 1], |lines| - 1;
      ChangesAreLines(front);
      assert ChangedAt(lines) == ChangedAt(front) + if IsChange(lines[last]) then {last} else {};
    }
  }

  /** What is kept of a refusal is the reason, cut at a bound and without a carriage return, never a name. */
  lemma RowIs(refs: string, said: string)
    requires '\t' !in refs
    ensures var reason := if |said| > 1024 then said[..1024] else said;
            var clean := if reason != "" && reason[|reason| - 1] == '\r' then reason[..|reason| - 1] else reason;
            Row("!\t" + refs + "\t" + said) == " ! ref -> ref" + (if clean == "" then "\n" else " " + clean + "\n")
  {
    var line := "!\t" + refs + "\t" + said;
    assert line[2..] == refs + "\t" + said;
    assert line[2..][..|refs|] == refs;
    FoundAt(line[2..], '\t', |refs|);
    assert line[2..][|refs| + 1..] == said;
  }

  function AllRows(lines: seq<string>): string {
    if lines == [] then ""
    else AllRows(lines[..|lines| - 1]) + if "!\t" <= lines[|lines| - 1] then Row(lines[|lines| - 1]) else ""
  }

  /** The reasons kept stay within the bound, and all of them are kept if they fit. */
  lemma {:induction false} ReasonsAreKept(lines: seq<string>)
    ensures |Rejections(lines)| <= 8 * 1024 && |Rejections(lines)| <= |AllRows(lines)|
    ensures |AllRows(lines)| <= 8 * 1024 ==> Rejections(lines) == AllRows(lines)
  {
    hide Row;
    if lines != [] {
      ReasonsAreKept(lines[..|lines| - 1]);
      var last := lines[|lines| - 1];
      assert IsRejection(last) <==> "!\t" <= last;
    }
  }

  /** The names a longer name can make ambiguous are those of a branch or tag that itself begins so. */
  lemma ShadowIff(name: string)
    ensures IsShadow(name) <==> "refs/heads/refs/" <= name || "refs/tags/refs/" <= name
  {
    assert "refs/heads/" <= name ==> name[5] == 'h' && name == name[..11] + name[11..];
    assert "refs/tags/" <= name ==> name[5] == 't' && name == name[..10] + name[10..];
    assert "refs/heads/refs/" <= name ==> name[..11] == "refs/heads/" && name[11..][..5] == name[11..16];
    assert "refs/tags/refs/" <= name ==> name[..10] == "refs/tags/" && name[10..][..5] == name[10..15];
    assert "refs/heads/" <= name && "refs/" <= name[11..] ==> name[..16] == name[..11] + name[11..][..5];
    assert "refs/tags/" <= name && "refs/" <= name[10..] ==> name[..15] == name[..10] + name[10..][..5];
  }

  // ---------------------------------------------------------------- reading back what git reports

  datatype Entry = Entry(flag: char, name: string, summary: string)

  predicate Reportable(e: Entry) {
    && Plans(e.flag) && ValidPushRef(e.name) && '\n' !in e.summary
    && 2 * |e.name| + |e.summary| + 4 <= MAX_PLAN_LINE
  }

  function Render(e: Entry): string {
    [e.flag, '\t'] + (if e.flag == '-' then "" else e.name) + ":" + e.name + "\t" + e.summary
  }

  function Rendered(es: seq<Entry>): (lines: seq<string>)
    ensures |lines| == |es| && forall i | 0 <= i < |es| :: lines[i] == Render(es[i])
  {
    seq(|es|, i requires 0 <= i < |es| => Render(es[i]))
  }

  /** git's report: where it pushed, a line for each ref, and a last word. */
  function Report(url: string, es: seq<Entry>): string { Joined(["To " + url] + Rendered(es) + ["Done"]) }

  lemma NamesAreClean(name: string)
    requires ValidPushRef(name)
    ensures '\t' !in name && ':' !in name && '\n' !in name
  {
    assert Forbidden('\t') && Forbidden(':') && Forbidden('\n');
  }

  lemma PairOf(line: string, flag: char, from: string, to: string, summary: string)
    requires '\t' !in from && '\t' !in to && ':' !in from
    requires line == [flag, '\t'] + (from + ":" + to) + "\t" + summary
    ensures IsStatus(line) && line[0] == flag && Pair(line) == Some((from, to))
  {
    hide Find;
    var field := from + ":" + to;
    assert line[2..] == field + "\t" + summary;
    assert line[2..][..|field|] == field;
    FoundAt(line[2..], '\t', |field|);
    assert line[2..2 + |field|] == field;
    assert field[..|from|] == from;
    FoundAt(field, ':', |from|);
    assert field[|from| + 1..] == to;
  }

  lemma ReadsBack(e: Entry)
    requires Reportable(e)
    ensures IsPlanned(Render(e)) && Render(e)[0] == e.flag && Named(Render(e)) == Some(e.name) && '\n' !in Render(e)
  {
    hide ValidPushRef, Find, Pair;
    NamesAreClean(e.name);
    var from := if e.flag == '-' then "" else e.name;
    assert Render(e) == [e.flag, '\t'] + (from + ":" + e.name) + "\t" + e.summary;
    PairOf(Render(e), e.flag, from, e.name, e.summary);
  }

  /** The plan that noting the entries one by one makes. */
  function NotedAll(es: seq<Entry>): Plan {
    if es == [] then EMPTY_PLAN
    else
      var e := es[|es| - 1];
      Noted(NotedAll(es[..|es| - 1]), e.flag, e.name)
  }

  lemma {:induction false} PlanOfRendered(head: string, es: seq<Entry>)
    requires !IsPlanned(head) && forall e <- es :: Reportable(e)
    ensures PlanLines([head] + Rendered(es)) == NotedAll(es)
  {
    hide Noted, Named, IsPlanned, Reportable;
    if es == [] {
      assert PlanLines([head]) == PlanLine(PlanLines([]), head);
    } else {
      var front, e := es[..|es| - 1], es[|es| - 1];
      PlanOfRendered(head, front);
      ReadsBack(e);
      assert [head] + Rendered(es) == ([head] + Rendered(front)) + [Render(e)];
      PlanOfLines([head] + Rendered(front), Render(e));
    }
  }

  /** Reading git's report back gives exactly what it reported, entry by entry. */
  lemma ReportIsReadBack(url: string, es: seq<Entry>)
    requires '\n' !in url && forall e <- es :: Reportable(e)
    ensures PlanOf(Report(url, es)) == NotedAll(es)
  {
    hide PlanLine, Joined, Render, Named, Reportable;
    var head, body := "To " + url, ["To " + url] + Rendered(es);
    forall e <- es ensures '\n' !in Render(e) {
      ReadsBack(e);
    }
    LinesOfJoined(body + ["Done"]);
    PlanOfRendered(head, es);
    PlanOfLines(body, "Done");
    PlanOfLines(body + ["Done"], "");
    assert Lines(Report(url, es)) == body + ["Done"] + [""];
    assert PlanLine(NotedAll(es), "Done") == NotedAll(es) && PlanLine(NotedAll(es), "") == NotedAll(es) by {
      NotStatusIsIgnored(NotedAll(es), "Done");
      NotStatusIsIgnored(NotedAll(es), "");
    }
  }

  lemma NotStatusIsIgnored(p: Plan, line: string)
    requires !IsStatus(line)
    ensures PlanLine(p, line) == p
  {
  }
}
