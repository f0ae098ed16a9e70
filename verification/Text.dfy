/** A text as its lines: what every reader of a stream is measured against. A byte is a `char`. */
module Text {
  /** Where `c` first stands in `s`, or the length of `s`. */
  function Find(s: string, c: char): (i: nat)
    ensures i <= |s| && c !in s[..i] && (i < |s| ==> s[i] == c)
  {
    if s == "" || s[0] == c then 0
    else
      var i := Find(s[1..], c);
      assert s[..i + 1] == [s[0]] + s[1..][..i];
      i + 1
  }

  lemma FoundAt(s: string, c: char, i: nat)
    requires i <= |s| && c !in s[..i] && (i < |s| ==> s[i] == c)
    ensures Find(s, c) == i
  {
    var j := Find(s, c);
    assert forall k | 0 <= k < i :: s[k] == s[..i][k];
    assert forall k | 0 <= k < j :: s[k] == s[..j][k];
  }

  function Front(s: string): string
    requires s != ""
  {
    s[..|s| - 1]
  }

  /** The lines of `text` that have ended, without their newlines. */
  function Complete(text: string): seq<string> {
    if text == "" then []
    else if text[|text| - 1] == '\n' then Complete(Front(text)) + [Tail(Front(text))]
    else Complete(Front(text))
  }

  /** What follows the last newline of `text`. */
  function Tail(text: string): string {
    if text == "" || text[|text| - 1] == '\n' then "" else Tail(Front(text)) + [text[|text| - 1]]
  }

  /** The lines of `text`, the last one ended or not. */
  function Lines(text: string): seq<string> { Complete(text) + [Tail(text)] }

  lemma LinesGrow(text: string, c: char)
    ensures c == '\n' ==> Complete(text + [c]) == Complete(text) + [Tail(text)] && Tail(text + [c]) == ""
    ensures c != '\n' ==> Complete(text + [c]) == Complete(text) && Tail(text + [c]) == Tail(text) + [c]
  {
    assert Front(text + [c]) == text;
  }

  function Joined(lines: seq<string>): string {
    if lines == [] then "" else Joined(lines[..|lines| - 1]) + lines[|lines| - 1] + "\n"
  }

  /** The lines are the text: joined again they give it back, and none holds a newline. */
  lemma {:induction false} LinesAreTheText(text: string)
    ensures Joined(Complete(text)) + Tail(text) == text
    ensures '\n' !in Tail(text) && forall line <- Complete(text) :: '\n' !in line
  {
    if text != "" {
      var c := text[|text| - 1];
      LinesAreTheText(Front(text));
      assert text == Front(text) + [c];
      if c == '\n' {
        assert Complete(text)[..|Complete(text)| - 1] == Complete(Front(text));
        calc {
          text;
          Joined(Complete(Front(text))) + Tail(Front(text)) + "\n";
          Joined(Complete(text)) + Tail(text);
        }
      } else {
        calc {
          text;
          Joined(Complete(Front(text))) + Tail(Front(text)) + [c];
          Joined(Complete(text)) + Tail(text);
        }
      }
    }
  }

  lemma {:induction false} CompleteOfLine(text: string, line: string)
    requires '\n' !in line
    ensures Complete(text + line) == Complete(text) && Tail(text + line) == Tail(text) + line
  {
    hide Complete, Tail;
    if line == "" {
      assert text + line == text && Tail(text) + line == Tail(text);
    } else {
      var c := line[|line| - 1];
      assert c in line && forall x <- Front(line) :: x in line;
      CompleteOfLine(text, Front(line));
      assert text + line == (text + Front(line)) + [c];
      LinesGrow(text + Front(line), c);
      assert Tail(text) + line == Tail(text) + Front(line) + [c];
    }
  }

  /** Lines joined are read back as those lines. */
  lemma {:induction false} LinesOfJoined(lines: seq<string>)
    requires forall line <- lines :: '\n' !in line
    ensures Complete(Joined(lines)) == lines && Tail(Joined(lines)) == ""
  {
    if lines != [] {
      hide Complete, Tail;
      var front, last := lines[..|lines| - 1], lines[|lines| - 1];
      LinesOfJoined(front);
      CompleteOfLine(Joined(front), last);
      assert "" + last == last;
      LinesGrow(Joined(front) + last, '\n');
      assert Joined(lines) == (Joined(front) + last) + ['\n'];
      assert lines == front + [last];
    }
  }

  /** At most the first `max` of `s`. */
  function Capped(s: string, max: nat): string { if |s| <= max then s else s[..max] }
}
