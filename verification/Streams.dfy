/** The other readers of a stream: the two-ended and the capped buffer, and the scan of a
    `.gitattributes` file (internal/gitsync/probe.go, internal/gitsync/lfs.go). */
module Streams {
  import opened Text

  // ---------------------------------------------------------------- keeping both ends

  const TRUNCATION_MARKER := "\n[... output truncated ...]\n"

  /** A text in at most `max` bytes: all of it, or its first half, the marker and its last half. */
  function BothEnds(text: string, max: nat): string {
    if |text| <= max then text
    else text[..max / 2] + TRUNCATION_MARKER + text[|text| - (max - max / 2)..]
  }

  /** What is kept begins and ends as the text does, in half of `max` bytes each; it is all of the text if that
      is no longer, and otherwise says between the two that something is missing. */
  lemma BothEndsAre(text: string, max: nat)
    ensures |text| <= max ==> BothEnds(text, max) == text
    ensures |text| > max ==>
              var (kept, n) := (BothEnds(text, max), max / 2);
              && |kept| == max + 28
              && kept[..n] == text[..n] && kept[n + 28..] == text[|text| - (max - n)..]
              && kept[n..n + 28] == "\n[... output truncated ...]\n"
  {
  }

  /** The last `n` of `s` at most. */
  function LastOf(s: string, n: nat): string { if |s| <= n then s else s[|s| - n..] }

  /** What of a text is beyond its first `n`. */
  function PastOf(s: string, n: nat): string { if |s| <= n then "" else s[n..] }

  /** How many of `p` still fit in the first `n` after `s`. */
  function TakeOf(s: string, p: string, n: nat): nat {
    if |s| >= n then 0 else if n - |s| <= |p| then n - |s| else |p|
  }

  lemma EndsGrow(s: string, p: string, n: nat)
    ensures var take := TakeOf(s, p, n);
            && Capped(s + p, n) == Capped(s, n) + p[..take]
            && PastOf(s + p, n) == PastOf(s, n) + p[take..]
  {
  }

  lemma LastGrows(s: string, p: string, n: nat)
    ensures LastOf(s + p, n) == LastOf(LastOf(s, n) + p, n)
    ensures |LastOf(s, n) + p| > n || |s| > n <==> |s + p| > n
  {
  }

  class LimitedBuffer {
    const max: nat
    var head: string
    var tail: string
    var dropped: bool
    ghost var written: string

    ghost predicate Valid()
      reads this
    {
      && head == Capped(written, max / 2)
      && tail == LastOf(PastOf(written, max / 2), max - max / 2)
      && dropped == (|PastOf(written, max / 2)| > max - max / 2)
    }

    constructor (max: nat)
      ensures Valid() && written == "" && this.max == max
    {
      this.max := max;
      head, tail, dropped, written := "", "", false, "";
    }

    method Write(b: string) returns (n: nat)
      requires Valid()
      modifies this
      ensures Valid() && written == old(written) + b && n == |b|
    {
      hide Capped, PastOf, LastOf;
      n := |b|;
      var headCap := max / 2;
      EndsGrow(written, b, headCap);
      var p := FillHead(b, headCap);
      KeepTail(p, max - headCap, PastOf(written, headCap));
      written := written + b;
    }

    /** What still fits goes to the head; the rest is for the tail. */
    method FillHead(b: string, headCap: nat) returns (p: string)
      requires head == Capped(written, headCap)
      modifies this`head
      ensures head == Capped(written + b, headCap) && p == b[TakeOf(written, b, headCap)..]
    {
      p := b;
      EndsGrow(written, b, headCap);
      if |head| < headCap {
        var take := if headCap - |head| <= |p| then headCap - |head| else |p|;
        head := head + p[..take];
        p := p[take..];
      } else {
        assert head + b[..0] == head;
      }
    }

    /** The tail slides over what does not fit the head. */
    method KeepTail(p: string, tailCap: nat, ghost past: string)
      requires tail == LastOf(past, tailCap) && dropped == (|past| > tailCap)
      modifies this`tail, this`dropped
      ensures tail == LastOf(past + p, tailCap) && dropped == (|past + p| > tailCap)
    {
      LastGrows(past, p, tailCap);
      if |p| > 0 {
        tail := tail + p;
        if |tail| > tailCap {
          dropped := true;
          tail := tail[|tail| - tailCap..];
        }
      } else {
        assert past + p == past;
      }
    }

    /** However the text was cut into writes, what is kept is the text, or both its ends. */
    method Bytes() returns (out: string)
      requires Valid()
      ensures out == BothEnds(written, max)
    {
      out := head;
      if dropped {
        out := out + TRUNCATION_MARKER;
      }
      out := out + tail;
      assert !dropped && |written| > max / 2 ==> written == written[..max / 2] + written[max / 2..];
    }
  }

  class CappedBuffer {
    const max: nat
    var buf: string
    var over: bool
    ghost var written: string

    ghost predicate Valid()
      reads this
    {
      buf == Capped(written, max) && over == (|written| > max)
    }

    constructor (max: nat)
      ensures Valid() && written == "" && this.max == max
    {
      this.max := max;
      buf, over, written := "", false, "";
    }

    method Write(b: string) returns (n: nat)
      requires Valid()
      modifies this
      ensures Valid() && written == old(written) + b && n == |b|
    {
      n := |b|;
      var p, room := b, max - |buf|;
      if |p| > room {
        over := true;
        p := p[..room];
      }
      buf := buf + p;
      written := written + b;
    }
  }

  // ---------------------------------------------------------------- one line of .gitattributes

  const MAX_ATTRIBUTES_BYTES := 1024 * 1024
  const MAX_ATTRIBUTES_LINE := 2048
  const LFS_FILTER := "filter=lfs"

  const BOM: string := [239 as char, 187 as char, 191 as char]

  predicate IsBlank(c: char) { c == ' ' || c == '\t' || c == '\r' }

  function TrimLeft(s: string): (r: string)
    ensures |r| <= |s| && (r == "" || !IsBlank(r[0]))
  {
    if s != "" && IsBlank(s[0]) then TrimLeft(s[1..]) else s
  }

  function BlankAt(s: string): (i: nat)
    ensures i <= |s| && (forall k | 0 <= k < i :: !IsBlank(s[k])) && (i < |s| ==> IsBlank(s[i]))
  {
    if s == "" || IsBlank(s[0]) then 0 else 1 + BlankAt(s[1..])
  }

  /** The runs of `s` without a blank in them. */
  function Fields(s: string): (fs: seq<string>)
    ensures forall f <- fs :: f != "" && forall c <- f :: !IsBlank(c)
    decreases |s|
  {
    var t := TrimLeft(s);
    if t == "" then [] else [t[..BlankAt(t)]] + Fields(t[BlankAt(t)..])
  }

  /** Within a quoted string: the byte at `i` follows a backslash that is not itself escaped. */
  predicate Escaped(text: string, i: nat)
    requires i <= |text|
  {
    i > 1 && text[i - 1] == '\\' && !Escaped(text, i - 1)
  }

  predicate Closes(text: string, i: nat)
    requires i < |text|
  {
    i >= 1 && text[i] == '"' && !Escaped(text, i)
  }

  /** The first closing quote from `i` on, or -1. */
  function CloseOf(text: string, i: nat): (r: int)
    requires i <= |text|
    ensures r == -1 || (i <= r < |text| && Closes(text, r))
    ensures forall k | i <= k < |text| && (r == -1 || k < r) :: !Closes(text, k)
    decreases |text| - i
  {
    if i == |text| then -1 else if Closes(text, i) then i else CloseOf(text, i + 1)
  }

  method ClosingQuote(text: string) returns (r: int)
    requires text != ""
    ensures r == CloseOf(text, 1)
  {
    var i := 1;
    while i < |text|
      invariant 1 <= i && (i <= |text| ==> !Escaped(text, i))
      invariant CloseOf(text, 1) == if i <= |text| then CloseOf(text, i) else -1
      decreases |text| - i
    {
      if text[i] == '\\' {
        i := i + 1;
      } else if text[i] == '"' {
        return i;
      }
      i := i + 1;
    }
    r := -1;
  }

  predicate IsNameByte(c: char) {
    'a' <= c <= 'z' || 'A' <= c <= 'Z' || '0' <= c <= '9' || c == '-' || c == '.' || c == '_'
  }

  predicate ValidName(name: string) { name != "" && name[0] != '-' && forall c <- name :: IsNameByte(c) }

  function NameOf(attr: string): string
    requires attr != ""
  {
    if attr[0] == '-' || attr[0] == '!' then attr[1..] else attr[..Find(attr, '=')]
  }

  function Unmarked(line: string, first: bool): string {
    TrimLeft(if first && BOM <= line then line[3..] else line)
  }

  /** Where the pattern and the attributes of a line are, if it is a line git reads. */
  datatype Parts = Ignored | Parts(pattern: string, rest: string)

  function PartsOf(text: string): Parts {
    if text == "" || text[0] == '#' then Ignored
    else if text[0] == '"' then
      var end := CloseOf(text, 1);
      if end < 0 then Ignored else Parts(text[1..end], text[end + 1..])
    else
      var end := BlankAt(text);
      if end == |text| then Ignored else Parts(text[..end], text[end..])
  }

  /** The line sets the LFS filter: git reads it, its pattern is not negative, every attribute has a
      valid name, and one of them is the filter. */
  predicate AssignsLFS(line: string, first: bool) {
    var parts := PartsOf(Unmarked(line, first));
    && parts.Parts? && !("!" <= parts.pattern)
    && (forall attr <- Fields(parts.rest) :: ValidName(NameOf(attr)))
    && LFS_FILTER in Fields(parts.rest)
  }

  method AssignsLFSFilter(line: string, first: bool) returns (r: bool)
    ensures r == AssignsLFS(line, first)
  {
    hide Fields, BlankAt, CloseOf, TrimLeft, ValidName, NameOf;
    var text := Unmarked(line, first);
    if text == "" || text[0] == '#' {
      return false;
    }
    var pattern, rest;
    if text[0] == '"' {
      var end := ClosingQuote(text);
      if end < 0 {
        return false;
      }
      pattern, rest := text[1..end], text[end + 1..];
    } else {
      var end := BlankAt(text);
      if end == |text| {
        return false;
      }
      pattern, rest := text[..end], text[end..];
    }
    if "!" <= pattern {
      return false;
    }
    r := AnyIsFilter(Fields(rest));
  }

  /** The loop over the attributes: one invalid name makes git ignore the line. */
  method AnyIsFilter(attrs: seq<string>) returns (found: bool)
    requires forall attr <- attrs :: attr != ""
    ensures found <==> (forall attr <- attrs :: ValidName(NameOf(attr))) && LFS_FILTER in attrs
  {
    hide ValidName, NameOf;
    found := false;
    for k := 0 to |attrs|
      invariant forall attr <- attrs[..k] :: attr != "" && ValidName(NameOf(attr))
      invariant found <==> LFS_FILTER in attrs[..k]
    {
      assert attrs[..k + 1] == attrs[..k] + [attrs[k]] && attrs[k] in attrs;
      if !ValidName(NameOf(attrs[k])) {
        return false;
      }
      if attrs[k] == LFS_FILTER {
        found := true;
      }
    }
    assert attrs[..|attrs|] == attrs;
  }

  // ---------------------------------------------------------------- the scan

  /** Some line of those counts: it is short enough and sets the filter. */
  predicate AnyAssigns(lines: seq<string>) {
    exists i | 0 <= i < |lines| :: |lines[i]| < MAX_ATTRIBUTES_LINE && AssignsLFS(lines[i], i == 0)
  }

  /** What a scan of the whole file must say: of the bytes inspected, some line sets the filter. */
  predicate SetsLFS(text: string) { AnyAssigns(Lines(Capped(text, MAX_ATTRIBUTES_BYTES))) }

  lemma AnyGrows(lines: seq<string>, line: string)
    ensures AnyAssigns(lines + [line]) <==> AnyAssigns(lines) || (|line| < MAX_ATTRIBUTES_LINE && AssignsLFS(line, lines == []))
  {
    hide AssignsLFS;
    var all := lines + [line];
    assert all[|lines|] == line;
    assert forall i | 0 <= i < |lines| :: all[i] == lines[i];
  }

  lemma EmptyLineAssignsNothing(first: bool)
    ensures !AssignsLFS("", first)
  {
  }

  class AttributesScanner {
    var line: string
    var long: bool
    var lines: nat
    var total: nat
    var found: bool
    ghost var seen: string

    /** What was inspected of the text `seen` so far. */
    ghost predicate Inside(t: string)
      reads this
    {
      && (found <==> AnyAssigns(Complete(t)))
      && (!found ==> lines == |Complete(t)| && long == (|Tail(t)| >= MAX_ATTRIBUTES_LINE) && line == if long then "" else Tail(t))
    }

    ghost predicate Valid()
      reads this
    {
      && total == |Capped(seen, MAX_ATTRIBUTES_BYTES)|
      && Inside(Capped(seen, MAX_ATTRIBUTES_BYTES))
    }

    constructor ()
      ensures Valid() && seen == ""
    {
      line, long, lines, total, found, seen := "", false, 0, 0, false, "";
    }

    method Write(b: string) returns (n: nat)
      requires Valid()
      modifies this
      ensures Valid() && seen == old(seen) + b && n == |b|
    {
      hide AnyAssigns, Complete, Tail;
      n := |b|;
      if found || total >= MAX_ATTRIBUTES_BYTES {
        if found {
          StillAssigns(Capped(seen, MAX_ATTRIBUTES_BYTES), Capped(seen + b, MAX_ATTRIBUTES_BYTES));
        } else {
          assert Capped(seen + b, MAX_ATTRIBUTES_BYTES) == Capped(seen, MAX_ATTRIBUTES_BYTES);
        }
        total := if total + n <= MAX_ATTRIBUTES_BYTES then total + n else MAX_ATTRIBUTES_BYTES;
        seen := seen + b;
        return;
      }
      var p := b;
      if |p| > MAX_ATTRIBUTES_BYTES - total {
        p := p[..MAX_ATTRIBUTES_BYTES - total];
      }
      total := total + |p|;
      ghost var start := seen;
      assert Capped(start, MAX_ATTRIBUTES_BYTES) == start && Capped(start + b, MAX_ATTRIBUTES_BYTES) == start + p;
      var k := 0;
      assert start + p[..0] == start;
      while k < |p| && !found
        invariant 0 <= k <= |p| && total == |start + p| && Inside(start + p[..k])
      {
        assert start + p[..k + 1] == start + p[..k] + [p[k]];
        Next(p[k], start + p[..k]);
        k := k + 1;
      }
      if found {
        StillAssigns(start + p[..k], start + p);
      } else {
        assert p[..k] == p;
      }
      seen := start + b;
    }

    /** One byte. */
    method Next(c: char, ghost t: string)
      requires Inside(t) && !found
      modifies this`line, this`long, this`lines, this`found
      ensures Inside(t + [c])
    {
      hide AnyAssigns, Complete, Tail;
      LinesGrow(t, c);
      if c == '\n' {
        EndLine(t);
        return;
      }
      if long {
        return;
      }
      if |line| >= MAX_ATTRIBUTES_LINE - 1 {
        long, line := true, "";
        return;
      }
      line := line + [c];
    }

    method EndLine(ghost t: string)
      requires Inside(t) && !found
      modifies this`line, this`long, this`lines, this`found
      ensures found <==> AnyAssigns(Lines(t))
      ensures line == "" && !long && lines == |Lines(t)|
    {
      hide AnyAssigns, Complete, Tail, AssignsLFS;
      AnyGrows(Complete(t), Tail(t));
      if !long {
        found := AssignsLFSFilter(line, lines == 0);
      }
      line, long := "", false;
      lines := lines + 1;
    }

    /** Whatever the chunks were, the answer is that of the whole text; asking again gives it again. */
    method Found() returns (r: bool)
      requires Valid()
      modifies this`line, this`long, this`lines, this`found
      ensures r == found == SetsLFS(seen)
    {
      hide AnyAssigns, Complete, Tail, AssignsLFS;
      ghost var t := Capped(seen, MAX_ATTRIBUTES_BYTES);
      AnyGrows(Complete(t), Tail(t));
      EmptyLineAssignsNothing(Complete(t) == []);
      if !found && (|line| > 0 || long) {
        EndLine(t);
      }
      r := found;
    }
  }

  /** More text after a line that sets the filter changes nothing. */
  lemma {:induction false} StillAssigns(a: string, b: string)
    requires a <= b && AnyAssigns(Complete(a))
    ensures AnyAssigns(Complete(b))
  {
    hide AnyAssigns, Complete, Tail;
    if |a| < |b| {
      StillAssigns(a, Front(b));
      var c := b[|b| - 1];
      assert b == Front(b) + [c];
      LinesGrow(Front(b), c);
      AnyGrows(Complete(Front(b)), Tail(Front(b)));
    } else {
      assert a == b;
    }
  }
}
