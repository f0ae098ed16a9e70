/** What the query filter does, said of the raw text: which parameters of a request get through, and
    which spellings of a name are the same name (internal/plugin/handler.go). */
module QueryParams {
  import opened Option
  import opened Text
  import opened QueryFilter

  // ---------------------------------------------------------------- a parameter in the text

  predicate Delimits(text: string, i: int)
    requires 0 <= i <= |text|
  {
    i == 0 || text[i - 1] == '&' || text[i - 1] == ';'
  }

  predicate Delimited(text: string, j: int)
    requires 0 <= j <= |text|
  {
    j == |text| || text[j] == '&' || text[j] == ';'
  }

  predicate Plain(token: string) { '&' !in token && ';' !in token }

  /** Somewhere in the text `token` stands between separators, or the ends. */
  predicate HasParam(text: string, token: string) {
    exists i, j | 0 <= i <= j <= |text| :: text[i..j] == token && Delimits(text, i) && Delimited(text, j)
  }

  lemma {:induction false} EndsWithSeparator(raw: string)
    requires Delimits(raw, |raw|)
    ensures Open(raw).token == ""
  {
  }

  lemma {:induction false} EndedStays(raw: string, rest: string, p: Piece)
    requires p in Ended(raw)
    ensures p in Ended(raw + rest)
  {
    hide Ended, Open;
    if rest == "" {
      assert raw + rest == raw;
    } else {
      EndedStays(raw, Front(rest), p);
      assert raw + rest == raw + Front(rest) + [rest[|rest| - 1]];
      Grows(raw + Front(rest), rest[|rest| - 1]);
    }
  }

  lemma ParamIsPiece(text: string, token: string, i: nat, j: nat)
    requires i <= j <= |text| && text[i..j] == token && Delimits(text, i) && Delimited(text, j) && Plain(token)
    ensures exists p <- Pieces(text) :: p.token == token
  {
    hide Ended, Open;
    var before := text[..i];
    EndsWithSeparator(before);
    OfToken(before, token);
    assert text[..j] == before + token && "" + token == token;
    var p := Open(text[..j]);
    if j < |text| {
      Grows(text[..j], text[j]);
      assert p in Ended(text[..j] + [text[j]]);
      EndedStays(text[..j] + [text[j]], text[j + 1..], p);
      assert text == text[..j] + [text[j]] + text[j + 1..];
    } else {
      assert text[..j] == text;
    }
    assert p in Pieces(text);
  }

  lemma {:induction false} OpenStarts(text: string) returns (i: nat)
    ensures i <= |text| && text[i..] == Open(text).token && Delimits(text, i)
  {
    if text == "" {
      i := 0;
    } else {
      var f, c := Front(text), text[|text| - 1];
      assert text == f + [c];
      Grows(f, c);
      hide Ended, Open;
      if IsSeparator(c) {
        i := |text|;
      } else {
        i := OpenStarts(f);
        assert text[i..] == f[i..] + [c];
      }
    }
  }

  lemma {:induction false} EndedIsParam(text: string, p: Piece) returns (i: nat, j: nat)
    requires p in Ended(text)
    ensures i <= j < |text| && text[i..j] == p.token && Delimits(text, i) && Delimited(text, j)
  {
    var f, c := Front(text), text[|text| - 1];
    assert text == f + [c];
    Grows(f, c);
    hide Ended, Open;
    if p in Ended(f) {
      i, j := EndedIsParam(f, p);
      assert text[i..j] == f[i..j];
    } else {
      i := OpenStarts(f);
      j := |f|;
      assert text[i..j] == f[i..];
    }
  }

  /** The parameters in the text are the tokens of its pieces. */
  lemma HasParamIff(text: string, token: string)
    requires Plain(token)
    ensures HasParam(text, token) <==> exists p <- Pieces(text) :: p.token == token
  {
    hide Ended, Open;
    if HasParam(text, token) {
      var i, j :| 0 <= i <= j <= |text| && text[i..j] == token && Delimits(text, i) && Delimited(text, j);
      ParamIsPiece(text, token, i, j);
    }
    if p :| p in Pieces(text) && p.token == token {
      if p in Ended(text) {
        var i, j := EndedIsParam(text, p);
      } else {
        var i := OpenStarts(text);
        assert text[i..|text|] == token && Delimited(text, |text|);
      }
    }
  }

  // ---------------------------------------------------------------- which parameters get through

  lemma KeyIsName(name: string, value: string)
    requires '=' !in name
    ensures KeyOf(name + "=" + value) == name && KeyOf(name) == name
  {
    assert (name + "=" + value)[..|name|] == name;
    FoundAt(name + "=" + value, '=', |name|);
    assert name[..|name|] == name;
    FoundAt(name, '=', |name|);
  }

  /** The name and the value of a parameter as it stands in the query; without a value there may be no
      `=`, but an empty parameter has no name. */
  predicate IsParam(token: string, name: string) {
    '=' !in name && Plain(token) && token != "" && (token == name || (|token| > |name| && token[..|name| + 1] == name + "="))
  }

  lemma KeyOfParam(token: string, name: string)
    requires IsParam(token, name)
    ensures KeyOf(token) == name
  {
    if token == name {
      KeyIsName(name, "");
    } else {
      assert token == name + "=" + token[|name| + 1..];
      KeyIsName(name, token[|name| + 1..]);
    }
  }

  lemma TokensOfResult(raw: string, strip: set<string>, token: string)
    requires strip != {} && Plain(token) && token != ""
    ensures HasParam(Stripped(raw, strip), token) <==> HasParam(raw, token) && !IsStripped(token, strip)
  {
    hide Pieces, Stripped, IsStripped, HasParam, Kept;
    var r := Stripped(raw, strip);
    HasParamIff(raw, token);
    HasParamIff(r, token);
    VerbatimIffNothingStripped(raw, strip);
    if AnyStripped(Pieces(raw), strip) {
      var kept := Kept(Pieces(raw), strip);
      ReturnsTheKept(raw, strip);
      KeptAre(Pieces(raw), strip);
      TokensOfLeading(kept, token);
    }
  }

  lemma TokensOfLeading(ps: seq<Piece>, token: string)
    ensures (exists p <- Leading(ps) :: p.token == token) <==> exists p <- ps :: p.token == token
  {
    if p :| p in ps && p.token == token {
      assert p == ps[0] || p in ps[1..];
      assert Leading(ps)[0].token == ps[0].token && Leading(ps)[0] in Leading(ps);
    }
    if p :| p in Leading(ps) && p.token == token {
      assert p == Leading(ps)[0] || p in ps[1..];
      assert ps[0] in ps;
    }
  }

  /** The filter on the raw text: with names to strip, a parameter stands in the result if and only if it
      stood in the query, its name decodes, and the normal form of that is not one to strip. */
  lemma GetsThroughIff(raw: string, strip: set<string>, token: string, name: string)
    requires strip != {} && IsParam(token, name)
    ensures HasParam(Stripped(raw, strip), token) <==>
              HasParam(raw, token) && Canonical(name).Some? && Canonical(name).value !in strip
  {
    hide Stripped, HasParam, Canonical, KeyOf;
    KeyOfParam(token, name);
    TokensOfResult(raw, strip, token);
  }

  lemma StripSetIs(params: seq<string>, haveCred: bool, direct: bool, x: string)
    ensures x in StripSet(params, haveCred, direct) <==>
              || (haveCred && exists n <- params :: Canonical(n) == Some(x))
              || (direct && x in {"private_token", "job_token", "access_token", "token"})
  {
    hide Canonical;
    if haveCred && exists n <- params :: Canonical(n) == Some(x) {
      var n :| n in params && Canonical(n) == Some(x);
      assert Canonical(n).value == x;
    }
  }

  /** A request's parameter is forwarded if and only if nothing is to be stripped, or its name decodes and
      is, in normal form, neither that of a configured name nor, where the local credential is applied,
      one of the four names a credential goes by. */
  lemma ForwardedIff(raw: string, params: seq<string>, haveCred: bool, direct: bool, token: string, name: string)
    requires IsParam(token, name) && HasParam(raw, token)
    ensures var nothing := !direct && !(haveCred && exists n <- params :: Canonical(n).Some?);
            HasParam(Stripped(raw, StripSet(params, haveCred, direct)), token) <==>
              || nothing
              || (&& Canonical(name).Some?
                  && !(haveCred && exists n <- params :: Canonical(n) == Canonical(name))
                  && !(direct && Canonical(name).value in {"private_token", "job_token", "access_token", "token"}))
  {
    hide Stripped, StripSet, HasParam, IsParam, Canonical;
    var strip := StripSet(params, haveCred, direct);
    if x :| x in strip {
      StripSetIs(params, haveCred, direct, x);
      GetsThroughIff(raw, strip, token, name);
      if Canonical(name).Some? {
        StripSetIs(params, haveCred, direct, Canonical(name).value);
      }
    } else {
      NothingToStrip(params, haveCred, direct);
      NoneStripped(raw, strip);
    }
  }

  lemma NothingToStrip(params: seq<string>, haveCred: bool, direct: bool)
    requires StripSet(params, haveCred, direct) == {}
    ensures !direct && !(haveCred && exists n <- params :: Canonical(n).Some?)
  {
    hide Canonical;
    StripSetIs(params, haveCred, direct, "token");
    if n :| haveCred && n in params && Canonical(n).Some? {
      StripSetIs(params, haveCred, direct, Canonical(n).value);
    }
  }

  // ---------------------------------------------------------------- which spellings are one name

  /** A name decodes just when each percent sign in it is followed by two hexadecimal digits. */
  lemma {:induction false} DecodesIff(s: string)
    ensures Canonical(s).Some? <==> forall i | 0 <= i < |s| && s[i] == '%' :: i + 2 < |s| && IsHexDigit(s[i + 1]) && IsHexDigit(s[i + 2])
  {
    if s != "" {
      var n := if s[0] == '%' && |s| >= 3 then 3 else 1;
      DecodesIff(s[n..]);
      assert forall i | n <= i < |s| :: s[i] == s[n..][i - n];
      if s[0] == '%' && |s| >= 3 && IsHexDigit(s[1]) && IsHexDigit(s[2]) {
        assert s[1] != '%' && s[2] != '%';
      }
    }
  }

  /** The digits of a byte in either case. */
  predicate Escapes(h: char, l: char, c: char) {
    c as int < 256
    && (h == "0123456789abcdef"[c as int / 16] || h == "0123456789ABCDEF"[c as int / 16])
    && (l == "0123456789abcdef"[c as int % 16] || l == "0123456789ABCDEF"[c as int % 16])
  }

  lemma DigitOf(h: char, v: nat)
    requires v < 16 && (h == "0123456789abcdef"[v] || h == "0123456789ABCDEF"[v])
    ensures IsHexDigit(h) && HexValue(h) == v
  {
  }

  lemma SameDecoding(a: string, x: string, y: string, b: string)
    requires Unescape(a).Some? && Unescape(x).Some? && Unescape(x) == Unescape(y)
    ensures Unescape(a + x + b) == Unescape(a + y + b)
  {
    hide Unescape;
    DecodesInParts(a, x + b);
    DecodesInParts(a, y + b);
    DecodesInParts(x, b);
    DecodesInParts(y, b);
    assert a + x + b == a + (x + b) && a + y + b == a + (y + b);
  }

  /** A byte written as an escape, in either case, is the same name, and so is a `+` for a blank. */
  lemma EscapesDoNotHide(a: string, c: char, h: char, l: char, b: string)
    requires Unescape(a).Some? && Escapes(h, l, c)
    ensures c != '%' && c != '+' ==> Canonical(a + ['%', h, l] + b) == Canonical(a + [c] + b)
    ensures c == ' ' ==> Canonical(a + "+" + b) == Canonical(a + ['%', h, l] + b)
  {
    DigitOf(h, c as int / 16);
    DigitOf(l, c as int % 16);
    assert ['%', h, l][3..] == "" && [c][1..] == "" && "+"[1..] == "";
    assert HexPair(h, l) == c;
    assert Unescape(['%', h, l]) == Some([c] + "");
    if c != '%' && c != '+' {
      assert Unescape([c]) == Some([c] + "");
      SameDecoding(a, ['%', h, l], [c], b);
    }
    if c == ' ' {
      assert Unescape("+") == Some([' '] + "");
      SameDecoding(a, "+", ['%', h, l], b);
    }
  }

  /** A name without escapes, blanks for `+`, or brackets. */
  predicate IsPlainName(s: string) { !Undecodable(s) && forall c <- s :: !IsBracket(c) }

  /** Letters but for their case; dots, blanks and underscores are one. */
  predicate SameLetter(a: char, b: char) {
    || a == b
    || (a in " ._" && b in " ._")
    || ('A' <= a <= 'Z' && b as int == a as int + 32)
    || ('A' <= b <= 'Z' && a as int == b as int + 32)
  }

  lemma CanonicalOfPlain(s: string)
    requires IsPlainName(s)
    ensures Canonical(s) == Some(Fold(s))
  {
    hide Fold;
    PlainDecodesToItself(s);
    BaseOfPlain(s);
  }

  /** Two plain names are the same name if and only if they agree letter by letter. */
  lemma SameNameIff(a: string, b: string)
    requires IsPlainName(a) && IsPlainName(b)
    ensures Canonical(a) == Canonical(b) <==> |a| == |b| && forall i | 0 <= i < |a| :: SameLetter(a[i], b[i])
  {
    CanonicalOfPlain(a);
    CanonicalOfPlain(b);
    hide Canonical;
    forall x: char, y: char ensures Folded(x) == Folded(y) <==> SameLetter(x, y) {
    }
    if Fold(a) == Fold(b) {
      assert forall i | 0 <= i < |a| :: Fold(a)[i] == Fold(b)[i];
    } else if |a| == |b| {
      var i :| 0 <= i < |a| && Fold(a)[i] != Fold(b)[i];
    }
  }

  /** Brackets before a name, plain or escaped, are not part of it. */
  lemma LeadingBracketsDoNotHide(bracket: string, key: string)
    requires bracket in {"[", "]", "%5B", "%5b", "%5D", "%5d"}
    ensures Canonical(bracket + key) == Canonical(key)
  {
    assert ("[" + key)[1..] == key && ("]" + key)[1..] == key;
    assert |bracket| == 3 ==> (bracket + key)[3..] == key && IsHexDigit((bracket + key)[1]) && IsHexDigit((bracket + key)[2]);
    assert IsBracket(HexPair('5', 'B')) && IsBracket(HexPair('5', 'b')) && IsBracket(HexPair('5', 'D')) && IsBracket(HexPair('5', 'd'));
  }
}
