/**
 The amount field: pledge-fe/src/components/NumericalInput/index.tsx with `escapeRegExp` of
 pledge-fe/src/utils/index.ts.  The regular expression is run on the escaped text.
 */
module NumericInput {
  import opened Prelude

  predicate IsSpecial(c: char) {
    c in ".*+?^${}()|[]\\"
  }

  predicate IsDigit(c: char) {
    '0' <= c <= '9'
  }

  /** Every special character is put behind a backslash. */
  function Escape(s: string): string {
    if s == "" then ""
    else (if IsSpecial(s[0]) then ['\\', s[0]] else [s[0]]) + Escape(s[1..])
  }

  /** Drops the backslash in front of each escaped character. */
  function Unescape(s: string): string {
    if s == "" then ""
    else if s[0] == '\\' && |s| > 1 then [s[1]] + Unescape(s[2..])
    else [s[0]] + Unescape(s[1..])
  }

  predicate AllDigits(s: string) {
    forall i :: 0 <= i < |s| ==> IsDigit(s[i])
  }

  /** The text after the leading digits: digits again, behind at most one escaped dot. */
  predicate MatchesTail(s: string) {
    AllDigits(s) || (|s| >= 2 && s[0] == '\\' && s[1] == '.' && AllDigits(s[2..]))
  }

  predicate MatchesAt(s: string, i: nat)
    requires i <= |s|
  {
    AllDigits(s[..i]) && MatchesTail(s[i..])
  }

  /** inputRegex: digits, optionally an escaped dot, digits, from the start of the text to its end. */
  ghost predicate MatchesInputRegex(s: string) {
    exists i :: 0 <= i <= |s| && MatchesAt(s, i)
  }

  /** value.replace(/,/g, '.') */
  function CommasToDots(s: string): string {
    seq(|s|, i requires 0 <= i < |s| => if s[i] == ',' then '.' else s[i])
  }

  /** The text handed to `onUserInput`, if any. */
  ghost function Forwarded(typed: string): Option<string> {
    var text := CommasToDots(typed);
    if text == "" || MatchesInputRegex(Escape(text)) then Some(text) else None
  }

  // ----- The language meant -----

  function Dots(s: string): nat {
    if s == "" then 0 else (if s[0] == '.' then 1 else 0) + Dots(s[1..])
  }

  /** Digits with at most one decimal point among them. */
  predicate IsDecimal(s: string) {
    (forall i :: 0 <= i < |s| ==> IsDigit(s[i]) || s[i] == '.') && Dots(s) <= 1
  }

  /** The pattern the input element declares for the text as typed: digits, one of "." and ",", digits. */
  ghost predicate MatchesDeclaredPattern(s: string) {
    exists i :: 0 <= i <= |s| && DeclaredAt(s, i)
  }

  predicate DeclaredAt(s: string, i: nat)
    requires i <= |s|
  {
    AllDigits(s[..i]) && (AllDigits(s[i..]) || (s[i] in ".," && AllDigits(s[i + 1..])))
  }

  lemma {:induction false} UnescapeEscape(s: string)
    ensures Unescape(Escape(s)) == s
  {
    if s != "" {
      UnescapeEscape(s[1..]);
      var head := if IsSpecial(s[0]) then ['\\', s[0]] else [s[0]];
      assert Escape(s)[|head|..] == Escape(s[1..]);
    }
  }

  lemma EscapeIsInjective(s: string, t: string)
    requires Escape(s) == Escape(t)
    ensures s == t
  {
    UnescapeEscape(s);
    UnescapeEscape(t);
  }

  lemma {:induction false} EscapeConcat(s: string, t: string)
    ensures Escape(s + t) == Escape(s) + Escape(t)
  {
    if s == "" {
      assert s + t == t;
    } else {
      assert (s + t)[1..] == s[1..] + t;
      EscapeConcat(s[1..], t);
    }
  }

  lemma {:induction false} EscapeDigits(s: string)
    requires AllDigits(s)
    ensures Escape(s) == s && Dots(s) == 0
  {
    if s != "" {
      EscapeDigits(s[1..]);
    }
  }

  lemma {:induction false} EscapedDigits(s: string)
    requires AllDigits(Escape(s))
    ensures AllDigits(s)
  {
    if s != "" {
      assert Escape(s)[0] == if IsSpecial(s[0]) then '\\' else s[0];
      assert IsDigit(Escape(s)[0]);
      assert Escape(s)[1..] == Escape(s[1..]);
      EscapedDigits(s[1..]);
      assert s == [s[0]] + s[1..];
    }
  }

  lemma {:induction false} DotsConcat(s: string, t: string)
    ensures Dots(s + t) == Dots(s) + Dots(t)
  {
    if s == "" {
      assert s + t == t;
    } else {
      assert (s + t)[1..] == s[1..] + t;
      DotsConcat(s[1..], t);
    }
  }

  /** A decimal is digits, or digits around one dot at `i`. */
  lemma {:induction false} SplitDecimal(s: string) returns (i: nat)
    requires IsDecimal(s)
    ensures i <= |s| && AllDigits(s[..i]) && (i == |s| || (s[i] == '.' && AllDigits(s[i + 1..])))
  {
    i := 0;
    if s != "" {
      var rest := s[1..];
      assert forall j :: 0 <= j < |rest| ==> rest[j] == s[j + 1];
      if s[0] == '.' {
        NoDots(rest);
      } else {
        var k := SplitDecimal(rest);
        i := k + 1;
        assert s[..i] == [s[0]] + rest[..k];
        assert k < |rest| ==> s[i + 1..] == rest[k + 1..];
      }
    }
  }

  lemma {:induction false} NoDots(s: string)
    requires (forall i :: 0 <= i < |s| ==> IsDigit(s[i]) || s[i] == '.') && Dots(s) == 0
    ensures AllDigits(s)
  {
    if s != "" {
      assert forall j :: 0 <= j < |s[1..]| ==> s[1..][j] == s[j + 1];
      NoDots(s[1..]);
      assert s == [s[0]] + s[1..];
    }
  }

  lemma DecimalAround(left: string, right: string)
    requires AllDigits(left) && AllDigits(right)
    ensures IsDecimal(left + "." + right)
  {
    var s := left + "." + right;
    EscapeDigits(left);
    EscapeDigits(right);
    DotsConcat(left + ".", right);
    DotsConcat(left, ".");
    assert Dots(".") == 1 by {
      assert "."[1..] == "";
    }
    forall i | 0 <= i < |s|
      ensures IsDigit(s[i]) || s[i] == '.'
    {
      if i > |left| {
        assert s[i] == right[i - |left| - 1];
      }
    }
  }

  lemma DecimalIsMatched(s: string)
    requires IsDecimal(s)
    ensures MatchesInputRegex(Escape(s))
  {
    var i := SplitDecimal(s);
    if i == |s| {
      assert s[..i] == s;
      EscapeDigits(s);
      assert MatchesAt(s, |s|);
    } else {
      var left, right := s[..i], s[i + 1..];
      assert s == left + ("." + right);
      EscapeConcat(left, "." + right);
      assert ("." + right)[1..] == right;
      EscapeDigits(left);
      EscapeDigits(right);
      var e := Escape(s);
      assert e == left + (['\\', '.'] + right);
      assert e[..i] == left && e[i..] == ['\\', '.'] + right && e[i..][2..] == right;
      assert MatchesAt(e, i);
    }
  }

  lemma {:induction false} MatchedIsDecimal(s: string, i: nat)
    requires i <= |Escape(s)| && MatchesAt(Escape(s), i)
    ensures IsDecimal(s)
  {
    var e := Escape(s);
    var left, tail := e[..i], e[i..];
    assert e == left + tail;
    if AllDigits(tail) {
      assert AllDigits(e);
      EscapedDigits(s);
      EscapeDigits(s);
    } else {
      var right := tail[2..];
      assert tail == ['\\', '.'] + right;
      var t := left + "." + right;
      EscapeConcat(left + ".", right);
      EscapeConcat(left, ".");
      EscapeDigits(left);
      EscapeDigits(right);
      assert Escape(".") == ['\\', '.'] by {
        assert "."[1..] == "";
      }
      assert Escape(t) == e;
      EscapeIsInjective(s, t);
      DecimalAround(left, right);
    }
  }

  /** A string is forwarded, commas read as points, exactly when that makes it a decimal. */
  lemma ForwardedIff(typed: string)
    ensures Forwarded(typed) == if IsDecimal(CommasToDots(typed)) then Some(CommasToDots(typed)) else None
  {
    var text := CommasToDots(typed);
    if IsDecimal(text) {
      DecimalIsMatched(text);
    }
    if MatchesInputRegex(Escape(text)) {
      var i :| 0 <= i <= |Escape(text)| && MatchesAt(Escape(text), i);
      MatchedIsDecimal(text, i);
    }
  }

  lemma DigitsStay(s: string)
    requires AllDigits(s) || AllDigits(CommasToDots(s))
    ensures CommasToDots(s) == s && AllDigits(s)
  {
    forall i | 0 <= i < |s|
      ensures CommasToDots(s)[i] == s[i] && IsDigit(s[i])
    {
      assert IsDigit(s[i]) || IsDigit(CommasToDots(s)[i]);
    }
  }

  lemma CommasConcat(s: string, t: string)
    ensures CommasToDots(s + t) == CommasToDots(s) + CommasToDots(t)
  {
  }

  lemma DecimalIsDeclared(typed: string)
    requires IsDecimal(CommasToDots(typed))
    ensures MatchesDeclaredPattern(typed)
  {
    var i := SplitDecimal(CommasToDots(typed));
    assert CommasToDots(typed)[..i] == CommasToDots(typed[..i]);
    DigitsStay(typed[..i]);
    if i < |typed| {
      assert CommasToDots(typed)[i + 1..] == CommasToDots(typed[i + 1..]);
      DigitsStay(typed[i + 1..]);
      assert typed[i] == '.' || typed[i] == ',';
    } else {
      assert AllDigits(typed[i..]);
    }
    assert DeclaredAt(typed, i);
  }

  lemma DeclaredIsDecimal(typed: string, i: nat)
    requires i <= |typed| && DeclaredAt(typed, i)
    ensures IsDecimal(CommasToDots(typed))
  {
    var left, tail := typed[..i], typed[i..];
    assert typed == left + tail;
    CommasConcat(left, tail);
    DigitsStay(left);
    if AllDigits(tail) {
      DigitsStay(tail);
      assert AllDigits(left + tail);
      EscapeDigits(left + tail);
    } else {
      var right := typed[i + 1..];
      assert tail == [typed[i]] + right;
      CommasConcat([typed[i]], right);
      DigitsStay(right);
      assert CommasToDots([typed[i]]) == ".";
      assert CommasToDots(typed) == left + "." + right;
      DecimalAround(left, right);
    }
  }

  /** The handler accepts exactly the text that the element's own pattern describes. */
  lemma ForwardedMeansDeclaredPattern(typed: string)
    ensures Forwarded(typed).Some? <==> MatchesDeclaredPattern(typed)
  {
    ForwardedIff(typed);
    if IsDecimal(CommasToDots(typed)) {
      DecimalIsDeclared(typed);
    }
    if i :| 0 <= i <= |typed| && DeclaredAt(typed, i) {
      DeclaredIsDecimal(typed, i);
    }
  }

  // ----- Character by character -----

  lemma {:induction false} FewDots(s: string)
    ensures Dots(s) == 0 <==> forall i :: 0 <= i < |s| ==> s[i] != '.'
    ensures Dots(s) <= 1 <==> forall i, j :: 0 <= i < j < |s| ==> !(s[i] == '.' && s[j] == '.')
  {
    if s != "" {
      var rest := s[1..];
      FewDots(rest);
      assert forall i :: 0 < i < |s| ==> s[i] == rest[i - 1];
      assert forall i :: 0 <= i < |rest| ==> rest[i] == s[i + 1];
    }
  }

  /** What reaches the caller: the text with points for its commas, if it has nothing but the ten digits, points
      and commas, and at most one of the latter. */
  lemma ForwardedExactly(typed: string)
    ensures Forwarded(typed).Some? <==>
      && (forall i :: 0 <= i < |typed| ==> typed[i] in "0123456789.,")
      && (forall i, j :: 0 <= i < j < |typed| ==> !(typed[i] in ".," && typed[j] in ".,"))
    ensures Forwarded(typed).Some? ==>
      && |Forwarded(typed).value| == |typed|
      && forall i :: 0 <= i < |typed| ==> Forwarded(typed).value[i] == if typed[i] == ',' then '.' else typed[i]
  {
    ForwardedIff(typed);
    var text := CommasToDots(typed);
    FewDots(text);
    forall i | 0 <= i < |typed|
      ensures typed[i] in "0123456789.," <==> IsDigit(text[i]) || text[i] == '.'
      ensures typed[i] in ".," <==> text[i] == '.'
    {
      assert text[i] == if typed[i] == ',' then '.' else typed[i];
      DigitCharacters(typed[i]);
    }
  }

  lemma DigitCharacters(c: char)
    ensures IsDigit(c) <==> c in "0123456789"
  {
  }

  /** The characters with a meaning in a regular expression, and no others, are put behind a backslash. */
  lemma EscapeCharacter(c: char)
    ensures Escape([c]) ==
      if c in {'.', '*', '+', '?', '^', '$', '{', '}', '(', ')', '|', '[', ']', '\\'} then ['\\', c] else [c]
  {
    assert [c][1..] == "";
    assert Escape([c][1..]) == "";
  }
}
