/** Removing credential parameters from a raw query string (internal/plugin/handler.go).

    A byte is a `char`. Lower-casing is that of ASCII. */
module QueryFilter {
  import opened Basics
  import opened Option
  import opened Text

  // ---------------------------------------------------------------- names as an upstream reads them

  predicate IsHexDigit(c: char) { '0' <= c <= '9' || 'a' <= c <= 'f' || 'A' <= c <= 'F' }

  function HexValue(c: char): (v: nat)
    requires IsHexDigit(c)
    ensures v < 16
  {
    if c <= '9' then c as int - '0' as int
    else if c <= 'F' then c as int - 'A' as int + 10
    else c as int - 'a' as int + 10
  }

  function HexPair(a: char, b: char): char
    requires IsHexDigit(a) && IsHexDigit(b)
  {
    (16 * HexValue(a) + HexValue(b)) as char
  }

  /** Percent-decoding of a query component; a `+` is a blank. */
  function Unescape(s: string): Option<string> {
    if s == "" then Some("")
    else if s[0] == '%' then
      if |s| < 3 || !IsHexDigit(s[1]) || !IsHexDigit(s[2]) then None
      else match Unescape(s[3..]) case None => None case Some(rest) => Some([HexPair(s[1], s[2])] + rest)
    else
      match Unescape(s[1..]) case None => None case Some(rest) => Some([if s[0] == '+' then ' ' else s[0]] + rest)
  }

  predicate IsBracket(c: char) { c == '[' || c == ']' }

  function TrimBrackets(s: string): (r: string)
    ensures r == "" || !IsBracket(r[0])
  {
    if s != "" && IsBracket(s[0]) then TrimBrackets(s[1..]) else s
  }

  /** The part before the first bracket. */
  function Base(s: string): (r: string)
    ensures forall c <- r :: !IsBracket(c)
  {
    if s == "" || IsBracket(s[0]) then "" else [s[0]] + Base(s[1..])
  }

  function Folded(c: char): char {
    if c == '.' || c == ' ' then '_' else if 'A' <= c <= 'Z' then (c as int - 'A' as int + 'a' as int) as char else c
  }

  function Fold(s: string): (r: string)
    ensures |r| == |s| && forall i | 0 <= i < |s| :: r[i] == Folded(s[i])
  {
    seq(|s|, i requires 0 <= i < |s| => Folded(s[i]))
  }

  /** The normal form a key is matched in, or nothing if it does not decode. */
  function Canonical(key: string): Option<string> {
    match Unescape(key) case None => None case Some(d) => Some(Fold(Base(TrimBrackets(d))))
  }

  predicate Undecodable(s: string) { '%' in s || '+' in s }

  lemma {:induction false} PlainDecodesToItself(s: string)
    ensures !Undecodable(s) ==> Unescape(s) == Some(s)
  {
    if s != "" {
      PlainDecodesToItself(s[1..]);
      assert s == [s[0]] + s[1..];
    }
  }

  lemma {:induction false} DecodingChanges(s: string)
    ensures Unescape(s).Some? ==> |Unescape(s).value| <= |s|
    ensures Unescape(s) == Some(s) ==> !Undecodable(s)
  {
    if s != "" {
      if s[0] == '%' && |s| >= 3 {
        DecodingChanges(s[3..]);
      } else {
        DecodingChanges(s[1..]);
        assert s == [s[0]] + s[1..];
      }
    }
  }

  lemma {:induction false} BaseOfPlain(s: string)
    requires forall c <- s :: !IsBracket(c)
    ensures Base(s) == s && TrimBrackets(s) == s
  {
    if s != "" {
      BaseOfPlain(s[1..]);
      assert s == [s[0]] + s[1..];
    }
  }

  /** A normal form is its own normal form if and only if nothing in it would be decoded again: it
      holds for every configured name without `%` or `+`. */
  lemma CanonicalIsFixedIff(key: string)
    requires Canonical(key).Some?
    ensures var name := Canonical(key).value; Canonical(name) == Some(name) <==> !Undecodable(name)
  {
    var base := Base(TrimBrackets(Unescape(key).value));
    var name := Canonical(key).value;
    assert name == Fold(base);
    forall c <- name ensures !IsBracket(c) && Folded(c) == c {
      var i :| 0 <= i < |name| && name[i] == c;
      assert base[i] in base;
    }
    if !Undecodable(name) {
      PlainDecodesToItself(name);
      BaseOfPlain(name);
      assert Fold(name) == name;
    } else {
      DecodingChanges(name);
      if Unescape(name).Some? {
        ShorterUnlessPlain(name);
      }
    }
  }

  /** Decoding something that needs it gives something shorter, or turns a `+` into a blank, which no
      normal form holds. */
  lemma ShorterUnlessPlain(name: string)
    requires Undecodable(name) && Unescape(name).Some? && '.' !in name && ' ' !in name
    ensures Canonical(name) != Some(name)
  {
    var d := Unescape(name).value;
    var b := Base(TrimBrackets(d));
    DecodingChanges(name);
    TrimmedIsNoLonger(d);
    if Fold(b) == name {
      assert |b| == |d| == |name|;
      SameLengthDecodes(name);
    }
  }

  lemma {:induction false} TrimmedIsNoLonger(s: string)
    ensures |TrimBrackets(s)| <= |s| && |Base(TrimBrackets(s))| <= |s|
    ensures |Base(TrimBrackets(s))| == |s| ==> Base(TrimBrackets(s)) == s
  {
    if s != "" {
      BaseIsNoLonger(TrimBrackets(s));
      if IsBracket(s[0]) {
        TrimmedIsNoLonger(s[1..]);
      }
    }
  }

  lemma {:induction false} BaseIsNoLonger(s: string)
    ensures |Base(s)| <= |s| && (|Base(s)| == |s| ==> Base(s) == s)
  {
    if s != "" {
      BaseIsNoLonger(s[1..]);
      assert s == [s[0]] + s[1..];
    }
  }

  /** If decoding keeps the length there was no escape: only blanks for `+`. */
  lemma {:induction false} SameLengthDecodes(s: string)
    requires Unescape(s).Some? && |Unescape(s).value| == |s|
    ensures '%' !in s && forall i | 0 <= i < |s| :: Unescape(s).value[i] == if s[i] == '+' then ' ' else s[i]
  {
    if s != "" {
      if s[0] == '%' {
        DecodingChanges(s[3..]);
      } else {
        SameLengthDecodes(s[1..]);
        assert s == [s[0]] + s[1..];
      }
    }
  }

  function Paired(a: Option<string>, b: Option<string>): Option<string> {
    if a.None? || b.None? then None else Some(a.value + b.value)
  }

  lemma JoiningIsAssociative(c: char, a: Option<string>, b: Option<string>)
    ensures Paired(Paired(Some([c]), a), b) == Paired(Some([c]), Paired(a, b))
  {
    if a.Some? && b.Some? {
      assert [c] + (a.value + b.value) == [c] + a.value + b.value;
    }
  }

  /** How much of `s` its first decoded byte takes, and what it is. */
  lemma DecodesFirst(s: string) returns (n: nat, c: char)
    requires s != "" && (s[0] == '%' ==> |s| >= 3 && IsHexDigit(s[1]) && IsHexDigit(s[2]))
    ensures n == (if s[0] == '%' then 3 else 1) && n <= |s|
    ensures c == if s[0] == '%' then HexPair(s[1], s[2]) else if s[0] == '+' then ' ' else s[0]
    ensures Unescape(s) == Paired(Some([c]), Unescape(s[n..]))
  {
    n := if s[0] == '%' then 3 else 1;
    c := if s[0] == '%' then HexPair(s[1], s[2]) else if s[0] == '+' then ' ' else s[0];
  }

  lemma {:induction false} DecodesInParts(a: string, b: string)
    requires Unescape(a).Some?
    ensures Unescape(a + b) == Paired(Unescape(a), Unescape(b))
  {
    if a == "" {
      assert a + b == b;
      if Unescape(b).Some? {
        assert "" + Unescape(b).value == Unescape(b).value;
      }
    } else {
      var n, c := DecodesFirst(a);
      var m, d := DecodesFirst(a + b);
      assert (a + b)[n..] == a[n..] + b;
      hide Unescape;
      DecodesInParts(a[n..], b);
      JoiningIsAssociative(c, Unescape(a[n..]), Unescape(b));
    }
  }

  lemma {:induction false} BaseStopsAtBracket(s: string, c: char, rest: string)
    requires IsBracket(c)
    ensures TrimBrackets(s) != "" ==> Base(TrimBrackets(s + [c] + rest)) == Base(TrimBrackets(s))
  {
    if s != "" {
      assert (s + [c] + rest)[1..] == s[1..] + [c] + rest;
      if IsBracket(s[0]) {
        BaseStopsAtBracket(s[1..], c, rest);
      } else {
        BaseOf(s, c, rest);
      }
    }
  }

  lemma {:induction false} BaseOf(s: string, c: char, rest: string)
    requires IsBracket(c)
    ensures Base(s + [c] + rest) == Base(s)
  {
    if s == "" {
      assert (s + [c] + rest)[0] == c;
    } else {
      assert (s + [c] + rest)[1..] == s[1..] + [c] + rest;
      BaseOf(s[1..], c, rest);
    }
  }

  lemma BracketDecodes(bracket: string) returns (c: char)
    requires bracket in {"[", "]", "%5B", "%5b", "%5D", "%5d"}
    ensures IsBracket(c) && Unescape(bracket) == Some([c])
  {
    c := if |bracket| == 1 then bracket[0] else HexPair('5', bracket[2]);
    assert [c] + "" == [c];
    assert |bracket| == 1 ==> bracket[1..] == "" && Unescape(bracket) == Some([c] + "");
    assert |bracket| == 3 ==> bracket[3..] == "" && Unescape(bracket) == Some([c] + "");
  }

  /** A credential cannot hide behind array syntax: what follows a bracket, plain or encoded, changes
      nothing as long as it decodes. */
  lemma BracketsDoNotHide(key: string, bracket: string, rest: string)
    requires bracket in {"[", "]", "%5B", "%5b", "%5D", "%5d"}
    requires Unescape(key).Some? && Unescape(rest).Some? && TrimBrackets(Unescape(key).value) != ""
    ensures Canonical(key + bracket + rest) == Canonical(key)
  {
    hide Unescape, TrimBrackets, Base, Fold;
    var d, r := Unescape(key).value, Unescape(rest).value;
    var c := BracketDecodes(bracket);
    DecodesInParts(key, bracket + rest);
    DecodesInParts(bracket, rest);
    assert key + bracket + rest == key + (bracket + rest);
    assert d + ([c] + r) == d + [c] + r;
    BaseStopsAtBracket(d, c, r);
  }

  // ---------------------------------------------------------------- a query as its parameters

  predicate IsSeparator(c: char) { c == '&' || c == ';' }

  /** A token and the separator before it, empty for the first. */
  datatype Piece = Piece(sep: string, token: string)

  /** The pieces of a query that a separator has ended, and the one after the last separator. */
  function Ended(raw: string): seq<Piece> {
    if raw == "" then []
    else if IsSeparator(raw[|raw| - 1]) then Ended(Front(raw)) + [Open(Front(raw))]
    else Ended(Front(raw))
  }

  function Open(raw: string): Piece {
    if raw == "" then Piece("", "")
    else
      var c := raw[|raw| - 1];
      if IsSeparator(c) then Piece([c], "") else Piece(Open(Front(raw)).sep, Open(Front(raw)).token + [c])
  }

  function Pieces(raw: string): seq<Piece> { Ended(raw) + [Open(raw)] }

  function Written(ps: seq<Piece>): string {
    if ps == [] then "" else Written(ps[..|ps| - 1]) + ps[|ps| - 1].sep + ps[|ps| - 1].token
  }

  lemma Grows(raw: string, c: char)
    ensures IsSeparator(c) ==> Ended(raw + [c]) == Ended(raw) + [Open(raw)] && Open(raw + [c]) == Piece([c], "")
    ensures !IsSeparator(c) ==> Ended(raw + [c]) == Ended(raw) && Open(raw + [c]) == Piece(Open(raw).sep, Open(raw).token + [c])
  {
    assert Front(raw + [c]) == raw;
  }

  lemma WrittenGrows(ps: seq<Piece>, p: Piece)
    ensures Written(ps + [p]) == Written(ps) + p.sep + p.token
  {
    assert (ps + [p])[..|ps|] == ps;
  }

  predicate WellFormed(p: Piece) {
    (p.sep == "" || p.sep == "&" || p.sep == ";") && forall c <- p.token :: !IsSeparator(c)
  }

  /** One more byte: a separator starts a piece, any other extends the last one. */
  lemma PiecesGrow(raw: string, c: char)
    ensures Pieces(raw) == Ended(raw) + [Open(raw)]
    ensures Pieces(raw + [c]) == if IsSeparator(c) then Pieces(raw) + [Piece([c], "")]
                                 else Ended(raw) + [Piece(Open(raw).sep, Open(raw).token + [c])]
  {
    hide Ended, Open;
    Grows(raw, c);
  }

  lemma NoPiecesYet()
    ensures Pieces("") == [Piece("", "")]
  {
  }

  /** Written out, the pieces give the query back. */
  lemma {:induction false} WrittenOutIsTheQuery(raw: string)
    ensures Written(Pieces(raw)) == raw
  {
    hide Pieces, Ended, Open, Written;
    if raw == "" {
      NoPiecesYet();
      WrittenNone();
      WrittenGrows([], Piece("", ""));
      assert [] + [Piece("", "")] == [Piece("", "")];
    } else {
      var f, c := Front(raw), raw[|raw| - 1];
      assert raw == f + [c];
      WrittenOutIsTheQuery(f);
      PiecesGrow(f, c);
      var before, last := Ended(f), Open(f);
      WrittenGrows(before, last);
      if IsSeparator(c) {
        WrittenGrows(Pieces(f), Piece([c], ""));
      } else {
        WrittenGrows(before, Piece(last.sep, last.token + [c]));
        assert Written(before) + last.sep + (last.token + [c]) == Written(before) + last.sep + last.token + [c];
      }
    }
  }

  /** No token holds a separator. */
  lemma {:induction false} PiecesAreWellFormed(raw: string)
    ensures forall p <- Pieces(raw) :: WellFormed(p)
  {
    hide Pieces, Ended, Open;
    if raw == "" {
      NoPiecesYet();
    } else {
      var f, c := Front(raw), raw[|raw| - 1];
      assert raw == f + [c];
      PiecesAreWellFormed(f);
      PiecesGrow(f, c);
      assert Open(f) in Pieces(f);
    }
  }

  /** Only the first piece has no separator before it. */
  lemma {:induction false} SeparatorsAreBetween(raw: string)
    ensures Pieces(raw) != [] && Pieces(raw)[0].sep == ""
    ensures forall i | 0 < i < |Pieces(raw)| :: Pieces(raw)[i].sep != ""
  {
    hide Pieces, Ended, Open;
    if raw == "" {
      NoPiecesYet();
    } else {
      var f, c := Front(raw), raw[|raw| - 1];
      assert raw == f + [c];
      SeparatorsAreBetween(f);
      PiecesGrow(f, c);
      var n := |Ended(f)|;
      assert Pieces(f)[n] == Open(f);
      if !IsSeparator(c) {
        assert Pieces(raw)[n].sep == Open(f).sep;
        assert forall i | 0 <= i < n :: Pieces(raw)[i] == Pieces(f)[i];
      }
    }
  }

  /** The pieces are the query: written out they give it back, no token holds a separator, and only the
      first has none before it. */
  lemma PiecesAreTheQuery(raw: string)
    ensures Written(Pieces(raw)) == raw
    ensures forall p <- Pieces(raw) :: WellFormed(p)
    ensures Pieces(raw)[0].sep == "" && forall i | 0 < i < |Pieces(raw)| :: Pieces(raw)[i].sep != ""
  {
    hide Ended, Open, Written, WellFormed;
    WrittenOutIsTheQuery(raw);
    PiecesAreWellFormed(raw);
    SeparatorsAreBetween(raw);
  }

  function KeyOf(token: string): string { token[..Find(token, '=')] }

  /** A parameter the filter removes: its name does not decode, or is to be stripped. */
  predicate IsStripped(token: string, strip: set<string>) {
    token != "" && (Canonical(KeyOf(token)).None? || Canonical(KeyOf(token)).value in strip)
  }

  function Kept(ps: seq<Piece>, strip: set<string>): seq<Piece> {
    if ps == [] then []
    else
      var p := ps[|ps| - 1];
      Kept(ps[..|ps| - 1], strip) + if p.token == "" || IsStripped(p.token, strip) then [] else [p]
  }

  predicate AnyStripped(ps: seq<Piece>, strip: set<string>) { exists p <- ps :: IsStripped(p.token, strip) }

  /** The first without its separator. */
  function Leading(ps: seq<Piece>): seq<Piece> { if ps == [] then [] else [Piece("", ps[0].token)] + ps[1..] }

  /** The query without the parameters to strip: as it was if there are none; otherwise the others, in
      order, each after the separator it had, unless it comes first now. */
  function Stripped(raw: string, strip: set<string>): string {
    if strip == {} || !AnyStripped(Pieces(raw), strip) then raw else Written(Leading(Kept(Pieces(raw), strip)))
  }

  // ---------------------------------------------------------------- the loop

  /** What the loop has written after the pieces `ps`. */
  predicate Wrote(b: string, ps: seq<Piece>, strip: set<string>) { b == Written(Leading(Kept(ps, strip))) }

  lemma KeptGrows(ps: seq<Piece>, p: Piece, strip: set<string>)
    ensures Kept(ps + [p], strip) == Kept(ps, strip) + if p.token == "" || IsStripped(p.token, strip) then [] else [p]
    ensures AnyStripped(ps + [p], strip) <==> AnyStripped(ps, strip) || IsStripped(p.token, strip)
  {
    assert (ps + [p])[..|ps|] == ps;
    assert p in ps + [p] && forall q <- ps :: q in ps + [p];
  }

  /** Exactly the parameters that hold something and are not to be stripped are kept. */
  lemma {:induction false} KeptAre(ps: seq<Piece>, strip: set<string>)
    ensures forall p :: p in Kept(ps, strip) <==> p in ps && p.token != "" && !IsStripped(p.token, strip)
  {
    if ps != [] {
      assert ps == ps[..|ps| - 1] + [ps[|ps| - 1]];
      KeptAre(ps[..|ps| - 1], strip);
    }
  }

  /** They stay in order, each as often as it stands in the query. */
  lemma {:induction false} KeptInOrder(ps: seq<Piece>, strip: set<string>)
    ensures Kept(ps, strip) == Filter(ps, (p: Piece) => p.token != "" && !IsStripped(p.token, strip))
  {
    hide IsStripped;
    if ps != [] {
      KeptInOrder(ps[..|ps| - 1], strip);
    }
  }

  lemma WritesNext(ps: seq<Piece>, p: Piece)
    requires forall q <- ps :: q.token != ""
    ensures Written(Leading(ps + [p])) == Written(Leading(ps)) + (if ps == [] then "" else p.sep) + p.token
    ensures Written(Leading(ps)) == "" <==> ps == []
  {
    if ps == [] {
      assert Leading(ps + [p]) == [] + [Piece("", p.token)];
      WrittenGrows([], Piece("", p.token));
    } else {
      assert Leading(ps + [p]) == Leading(ps) + [p];
      WrittenGrows(Leading(ps), p);
      var front, last := Leading(ps)[..|ps| - 1], Leading(ps)[|ps| - 1];
      assert Leading(ps) == front + [last] && (last.token == ps[|ps| - 1].token);
      WrittenGrows(front, last);
    }
  }

  method Flush(token: string, sep: string, strip: set<string>, b: string, changed: bool, ghost ps: seq<Piece>)
    returns (b2: string, changed2: bool)
    requires Wrote(b, ps, strip) && (changed <==> AnyStripped(ps, strip)) && (sep == "" ==> ps == [])
    ensures Wrote(b2, ps + [Piece(sep, token)], strip) && (changed2 <==> AnyStripped(ps + [Piece(sep, token)], strip))
  {
    hide Canonical, KeyOf, Written, Leading, Kept, AnyStripped;
    KeptGrows(ps, Piece(sep, token), strip);
    b2, changed2 := b, changed;
    assert Kept(ps, strip) + [] == Kept(ps, strip);
    if token == "" {
      return;
    }
    var key := KeyOf(token);
    var name := Canonical(key);
    KeptAre(ps, strip);
    WritesNext(Kept(ps, strip), Piece(sep, token));
    NoneKeptOfNone(strip);
    assert b + "" + token == b + token && b + sep + token == b + (sep + token);
    if name.None? || name.value in strip {
      changed2 := true;
    } else {
      if |b2| > 0 && sep != "" {
        b2 := b2 + sep;
      }
      b2 := b2 + token;
    }
  }

  lemma NoneKeptOfNone(strip: set<string>)
    ensures Kept([], strip) == [] && Written(Leading([])) == "" && !AnyStripped([], strip)
  {
  }

  method StripQueryParamsFromRaw(raw: string, strip: set<string>) returns (r: string)
    ensures r == Stripped(raw, strip)
  {
    hide Wrote, AnyStripped, Open, Ended, Stripped;
    if raw == "" || strip == {} {
      NoneStripped(raw, strip);
      return raw;
    }
    var b, changed, start, sep := "", false, 0, "";
    NothingYet(strip);
    assert raw[..0] == "";
    for i := 0 to |raw|
      invariant 0 <= start <= i && Open(raw[..i]) == Piece(sep, raw[start..i])
      invariant Wrote(b, Ended(raw[..i]), strip) && (changed <==> AnyStripped(Ended(raw[..i]), strip))
      invariant sep == "" ==> Ended(raw[..i]) == []
    {
      var c := raw[i];
      assert raw[..i + 1] == raw[..i] + [c];
      Grows(raw[..i], c);
      if IsSeparator(c) {
        b, changed := Flush(raw[start..i], sep, strip, b, changed, Ended(raw[..i]));
        start, sep := i + 1, [c];
      } else {
        assert raw[start..i + 1] == raw[start..i] + [c];
      }
    }
    assert raw[..|raw|] == raw && raw[start..|raw|] == raw[start..];
    b, changed := Flush(raw[start..], sep, strip, b, changed, Ended(raw));
    Finishes(raw, strip, b, changed);
    r := if changed then b else raw;
  }

  lemma NothingYet(strip: set<string>)
    ensures Open("") == Piece("", "") && Ended("") == [] && Wrote("", [], strip) && !AnyStripped([], strip)
  {
  }

  lemma Finishes(raw: string, strip: set<string>, b: string, changed: bool)
    requires strip != {} && Wrote(b, Pieces(raw), strip) && (changed <==> AnyStripped(Pieces(raw), strip))
    ensures (if changed then b else raw) == Stripped(raw, strip)
  {
  }

  lemma NoneStripped(raw: string, strip: set<string>)
    requires raw == "" || strip == {}
    ensures Stripped(raw, strip) == raw
  {
    assert Pieces("") == [Piece("", "")];
  }

  // ---------------------------------------------------------------- what the filter does

  lemma {:induction false} OfToken(raw: string, token: string)
    requires forall c <- token :: !IsSeparator(c)
    ensures Ended(raw + token) == Ended(raw) && Open(raw + token) == Piece(Open(raw).sep, Open(raw).token + token)
  {
    hide Ended, Open;
    if token == "" {
      assert raw + token == raw && Open(raw).token + token == Open(raw).token;
    } else {
      var c := token[|token| - 1];
      assert forall x <- Front(token) :: x in token;
      assert c in token;
      OfToken(raw, Front(token));
      assert raw + token == raw + Front(token) + [c];
      Grows(raw + Front(token), c);
      assert Open(raw).token + token == Open(raw).token + Front(token) + [c];
    }
  }

  lemma FirstReadsBack(token: string)
    requires forall c <- token :: !IsSeparator(c)
    ensures Pieces("" + "" + token) == [Piece("", token)]
  {
    hide Ended, Open;
    NothingYet({});
    OfToken("", token);
    assert "" + "" + token == "" + token == token;
  }

  lemma NextReadsBack(w: string, p: Piece)
    requires WellFormed(p) && p.sep != ""
    ensures Pieces(w + p.sep + p.token) == Pieces(w) + [p]
  {
    hide Ended, Open;
    var c := p.sep[0];
    assert p.sep == [c] && IsSeparator(c);
    Grows(w, c);
    OfToken(w + [c], p.token);
    assert "" + p.token == p.token;
  }

  ghost predicate Readable(ps: seq<Piece>) {
    && (forall i | 0 <= i < |ps| :: WellFormed(ps[i]))
    && (ps != [] ==> ps[0].sep == "")
    && forall i | 0 < i < |ps| :: ps[i].sep != ""
  }

  /** Pieces written out are read back. */
  lemma {:induction false} WrittenIsReadBack(ps: seq<Piece>)
    requires ps != [] && Readable(ps)
    ensures Pieces(Written(ps)) == ps
  {
    hide Pieces, Written, WellFormed;
    var front, p := ps[..|ps| - 1], ps[|ps| - 1];
    assert ps == front + [p];
    WrittenGrows(front, p);
    if front == [] {
      WrittenNone();
      TokensHoldNoSeparator(p);
      FirstReadsBack(p.token);
    } else {
      WrittenIsReadBack(front);
      NextReadsBack(Written(front), p);
    }
  }

  lemma WrittenNone()
    ensures Written([]) == ""
  {
  }

  lemma TokensHoldNoSeparator(p: Piece)
    requires WellFormed(p)
    ensures forall c <- p.token :: !IsSeparator(c)
  {
  }

  lemma {:induction false} KeptAreWellFormed(ps: seq<Piece>, strip: set<string>)
    requires (forall p <- ps :: WellFormed(p)) && forall i | 0 < i < |ps| :: ps[i].sep != ""
    ensures (forall p <- Kept(ps, strip) :: WellFormed(p)) && forall i | 0 < i < |Kept(ps, strip)| :: Kept(ps, strip)[i].sep != ""
    ensures |Kept(ps, strip)| <= |ps|
  {
    if ps != [] {
      KeptAreWellFormed(ps[..|ps| - 1], strip);
    }
  }

  /** What the filter returns, as parameters: the kept ones, in order, each with its separator, the first
      without. */
  lemma ReturnsTheKept(raw: string, strip: set<string>)
    requires strip != {} && AnyStripped(Pieces(raw), strip)
    ensures var kept := Leading(Kept(Pieces(raw), strip));
            Pieces(Stripped(raw, strip)) == if kept == [] then [Piece("", "")] else kept
  {
    hide Ended, Open, Kept, AnyStripped;
    var kept := Kept(Pieces(raw), strip);
    PiecesAreTheQuery(raw);
    KeptAreWellFormed(Pieces(raw), strip);
    if kept == [] {
      NothingYet(strip);
    } else {
      assert kept[0] in kept && forall p <- kept[1..] :: p in kept;
      WrittenIsReadBack(Leading(kept));
    }
  }

  /** Nothing to strip is left. */
  lemma NothingStrippedSurvives(raw: string, strip: set<string>)
    requires strip != {}
    ensures !AnyStripped(Pieces(Stripped(raw, strip)), strip)
  {
    if AnyStripped(Pieces(raw), strip) {
      hide Stripped, Ended, Open, Kept;
      ReturnsTheKept(raw, strip);
      var kept := Kept(Pieces(raw), strip);
      KeptAre(Pieces(raw), strip);
      forall p <- Leading(kept) ensures !IsStripped(p.token, strip) {
        assert p.token == kept[0].token || p in kept;
        assert kept[0] in kept;
      }
    }
  }

  /** Filtering twice changes nothing more. */
  lemma FilteringIsIdempotent(raw: string, strip: set<string>)
    ensures Stripped(Stripped(raw, strip), strip) == Stripped(raw, strip)
  {
    if strip != {} {
      NothingStrippedSurvives(raw, strip);
    }
  }

  lemma {:induction false} KeptIsShorter(ps: seq<Piece>, strip: set<string>)
    ensures |Written(Kept(ps, strip))| <= |Written(ps)|
    ensures AnyStripped(ps, strip) ==> |Written(Kept(ps, strip))| < |Written(ps)|
  {
    if ps != [] {
      var front, p := ps[..|ps| - 1], ps[|ps| - 1];
      assert ps == front + [p];
      KeptIsShorter(front, strip);
      KeptGrows(front, p, strip);
      WrittenGrows(front, p);
      if p.token == "" || IsStripped(p.token, strip) {
        assert Kept(ps, strip) == Kept(front, strip);
      } else {
        WrittenGrows(Kept(front, strip), p);
      }
    }
  }

  lemma {:induction false} LeadingIsNoLonger(ps: seq<Piece>)
    ensures |Written(Leading(ps))| <= |Written(ps)|
  {
    if |ps| > 1 {
      var front, p := ps[..|ps| - 1], ps[|ps| - 1];
      LeadingIsNoLonger(front);
      assert Leading(ps) == Leading(front) + [p];
      WrittenGrows(Leading(front), p);
    } else if |ps| == 1 {
      assert ps == [] + [ps[0]] && Leading(ps) == [] + [Piece("", ps[0].token)];
      WrittenGrows([], ps[0]);
      WrittenGrows([], Piece("", ps[0].token));
    }
  }

  /** The query is forwarded byte for byte if and only if it holds nothing to strip. */
  lemma VerbatimIffNothingStripped(raw: string, strip: set<string>)
    requires strip != {}
    ensures Stripped(raw, strip) == raw <==> !AnyStripped(Pieces(raw), strip)
  {
    hide Ended, Open, Kept, AnyStripped, Written, Leading;
    PiecesAreTheQuery(raw);
    KeptIsShorter(Pieces(raw), strip);
    LeadingIsNoLonger(Kept(Pieces(raw), strip));
  }

  // ---------------------------------------------------------------- the names to strip

  const DEFAULT_PARAMS: set<string> := {"private_token", "job_token", "access_token", "token"}

  function StripSet(params: seq<string>, haveCred: bool, direct: bool): set<string> {
    (if haveCred then set n | n in params && Canonical(n).Some? :: Canonical(n).value else {})
    + (if direct then DEFAULT_PARAMS else {})
  }

  method QueryStripSet(params: seq<string>, haveCred: bool, direct: bool) returns (names: set<string>)
    ensures names == StripSet(params, haveCred, direct)
  {
    names := {};
    if haveCred && |params| > 0 {
      for k := 0 to |params|
        invariant names == set n | n in params[..k] && Canonical(n).Some? :: Canonical(n).value
      {
        hide Canonical;
        assert params[..k + 1] == params[..k] + [params[k]];
        var name := Canonical(params[k]);
        if name.Some? {
          names := names + {name.value};
        }
      }
      assert params[..|params|] == params;
    }
    if direct {
      names := names + DEFAULT_PARAMS;
    }
  }

  /** A configured name strips every spelling with its normal form, however either side writes it; with
      plain names configured, every name to strip is its own normal form. */
  lemma ConfiguredNamesMatch(params: seq<string>, haveCred: bool, direct: bool, n: string, token: string)
    requires haveCred && n in params && Canonical(n).Some? && token != ""
    ensures Canonical(KeyOf(token)) == Canonical(n) ==> IsStripped(token, StripSet(params, haveCred, direct))
    ensures !Undecodable(n) ==> Canonical(Canonical(n).value) == Canonical(n)
  {
    hide KeyOf, Unescape;
    if !Undecodable(n) {
      PlainDecodesToItself(n);
      PlainStaysPlain(n);
      CanonicalIsFixedIff(n);
    }
  }

  lemma {:induction false} PlainStaysPlain(s: string)
    requires !Undecodable(s)
    ensures !Undecodable(Fold(Base(TrimBrackets(s))))
  {
    if s != "" {
      if IsBracket(s[0]) {
        PlainStaysPlain(s[1..]);
      } else {
        BasePlain(s);
      }
    }
  }

  lemma {:induction false} BasePlain(s: string)
    requires !Undecodable(s)
    ensures !Undecodable(Base(s)) && !Undecodable(Fold(Base(s)))
  {
    if s != "" {
      BasePlain(s[1..]);
      assert s[0] in s;
    }
  }
}
