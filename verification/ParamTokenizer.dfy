/**
 The parameter tokenizer behind a memo, `parseOnlyOneParam` of
 pledge-backend/api/validate/validateFuncs.go.  Its expression is '[^']*'|\S+ .
 */
module ParamTokenizer {
  /** What \S excludes. */
  predicate IsSpace(c: char) {
    c == ' ' || c == '\t' || c == '\n' || c == '\r' || c == '\U{000C}'
  }

  predicate AllSpace(s: string) {
    forall i :: 0 <= i < |s| ==> IsSpace(s[i])
  }

  predicate QuoteFree(s: string) {
    '\'' !in s
  }

  /** The length up to the first quote, or of all of `s`. */
  function UpToQuote(s: string): (n: nat)
    ensures n <= |s|
  {
    if s == "" || s[0] == '\'' then 0 else 1 + UpToQuote(s[1..])
  }

  /** The length of the leading run of \S. */
  function RunLength(s: string): (n: nat)
    ensures n <= |s|
  {
    if s == "" || IsSpace(s[0]) then 0 else 1 + RunLength(s[1..])
  }

  /** The length of the match at the start of `s`, zero if there is none: a quoted stretch if it closes,
      else a run of \S. */
  function MatchLength(s: string): (n: nat)
    ensures n <= |s|
  {
    if s == "" then 0
    else if s[0] == '\'' && 1 + UpToQuote(s[1..]) < |s| then 2 + UpToQuote(s[1..])
    else RunLength(s)
  }

  /** FindAllString: the matches from left to right, skipping characters where none starts. */
  function FindAll(s: string): seq<string>
    decreases |s|
  {
    if s == "" then []
    else if MatchLength(s) == 0 then FindAll(s[1..])
    else [s[..MatchLength(s)]] + FindAll(s[MatchLength(s)..])
  }

  /** strings.Replace(s, "'", "", -1) */
  function StripQuotes(s: string): string {
    if s == "" then "" else (if s[0] == '\'' then "" else [s[0]]) + StripQuotes(s[1..])
  }

  function StripAll(matches: seq<string>): seq<string> {
    seq(|matches|, i requires 0 <= i < |matches| => StripQuotes(matches[i]))
  }

  function Parse(s: string): seq<string> {
    StripAll(FindAll(s))
  }

  class ParamParser {
    var oneofValsCache: map<string, seq<string>>

    /** Every memoised answer is the parse of its key. */
    ghost predicate Valid()
      reads this
    {
      forall s :: s in oneofValsCache ==> oneofValsCache[s] == Parse(s)
    }

    constructor ()
      ensures Valid() && oneofValsCache == map[]
    {
      oneofValsCache := map[];
    }

    /** The section under the write lock; another caller may have filled the entry since the lookup. */
    method Fill(s: string) returns (vals: seq<string>)
      requires Valid()
      modifies this
      ensures Valid() && vals == Parse(s)
      ensures oneofValsCache == old(oneofValsCache)[s := vals]
    {
      vals := FindAll(s);
      for i := 0 to |vals|
        invariant |vals| == |FindAll(s)|
        invariant forall j :: 0 <= j < i ==> vals[j] == StripQuotes(FindAll(s)[j])
        invariant forall j :: i <= j < |vals| ==> vals[j] == FindAll(s)[j]
      {
        vals := vals[i := StripQuotes(vals[i])];
      }
      oneofValsCache := oneofValsCache[s := vals];
    }

    /** Whatever was asked before, the answer is the one an uncached parse gives. */
    method ParseOnlyOneParam(s: string) returns (vals: seq<string>)
      requires Valid()
      modifies this
      ensures Valid() && vals == Parse(s)
      ensures oneofValsCache == old(oneofValsCache)[s := vals]
    {
      if s in oneofValsCache {
        vals := oneofValsCache[s];
        assert oneofValsCache == oneofValsCache[s := vals];
      } else {
        vals := Fill(s);
      }
    }
  }

  // ----- Round trip -----

  /** A word in single quotes, or bare. */
  datatype Word = Quoted(text: string) | Bare(text: string)

  /** A word and the white space written after it. */
  datatype Piece = Piece(word: Word, gap: string)

  function WordText(w: Word): string {
    if w.Quoted? then "'" + w.text + "'" else w.text
  }

  function Print(pieces: seq<Piece>): string {
    if pieces == [] then "" else WordText(pieces[0].word) + pieces[0].gap + Print(pieces[1..])
  }

  function Texts(pieces: seq<Piece>): seq<string> {
    seq(|pieces|, i requires 0 <= i < |pieces| => pieces[i].word.text)
  }

  /** No quotes inside; a bare word is a run of \S, and a gap keeps it from the next word. */
  predicate Printable(pieces: seq<Piece>) {
    forall i :: 0 <= i < |pieces| ==>
      && QuoteFree(pieces[i].word.text)
      && AllSpace(pieces[i].gap)
      && (pieces[i].word.Bare? ==>
            && pieces[i].word.text != ""
            && (forall j :: 0 <= j < |pieces[i].word.text| ==> !IsSpace(pieces[i].word.text[j]))
            && (pieces[i].gap != "" || i == |pieces| - 1))
  }

  lemma {:induction false} UpToQuoteOf(text: string, rest: string)
    requires QuoteFree(text)
    ensures UpToQuote(text + "'" + rest) == |text|
  {
    if text != "" {
      assert (text + "'" + rest)[1..] == text[1..] + "'" + rest;
      UpToQuoteOf(text[1..], rest);
    }
  }

  lemma {:induction false} RunLengthOf(text: string, rest: string)
    requires forall j :: 0 <= j < |text| ==> !IsSpace(text[j])
    requires rest != "" ==> IsSpace(rest[0])
    ensures RunLength(text + rest) == |text|
  {
    if text == "" {
      assert text + rest == rest;
    } else {
      assert (text + rest)[1..] == text[1..] + rest;
      RunLengthOf(text[1..], rest);
    }
  }

  lemma {:induction false} SkipSpace(gap: string, rest: string)
    requires AllSpace(gap)
    ensures FindAll(gap + rest) == FindAll(rest)
  {
    if gap == "" {
      assert gap + rest == rest;
    } else {
      var s := gap + rest;
      assert IsSpace(s[0]) && s[1..] == gap[1..] + rest;
      assert MatchLength(s) == 0;
      SkipSpace(gap[1..], rest);
    }
  }

  lemma {:induction false} StripQuoteFree(s: string)
    requires QuoteFree(s)
    ensures StripQuotes(s) == s
  {
    if s != "" {
      StripQuoteFree(s[1..]);
    }
  }

  lemma {:induction false} StripConcat(s: string, t: string)
    ensures StripQuotes(s + t) == StripQuotes(s) + StripQuotes(t)
  {
    if s == "" {
      assert s + t == t;
    } else {
      assert (s + t)[1..] == s[1..] + t;
      StripConcat(s[1..], t);
    }
  }

  lemma StripWord(w: Word)
    requires QuoteFree(w.text)
    ensures StripQuotes(WordText(w)) == w.text
  {
    StripQuoteFree(w.text);
    if w.Quoted? {
      StripConcat("'" + w.text, "'");
      StripConcat("'", w.text);
      assert "'"[1..] == "";
      assert StripQuotes("'") == "";
    }
  }

  /** A printed word at the start of the text is the first match. */
  lemma WordMatches(w: Word, rest: string)
    requires QuoteFree(w.text)
    requires w.Bare? ==> w.text != "" && (forall j :: 0 <= j < |w.text| ==> !IsSpace(w.text[j]))
    requires w.Bare? && rest != "" ==> IsSpace(rest[0])
    ensures MatchLength(WordText(w) + rest) == |WordText(w)| > 0
  {
    var s := WordText(w) + rest;
    if w.Quoted? {
      assert s[1..] == w.text + "'" + rest;
      UpToQuoteOf(w.text, rest);
    } else {
      assert s[0] == w.text[0];
      RunLengthOf(w.text, rest);
    }
  }

  function WordTexts(pieces: seq<Piece>): seq<string> {
    if pieces == [] then [] else [WordText(pieces[0].word)] + WordTexts(pieces[1..])
  }

  lemma {:induction false} WordTextsAt(pieces: seq<Piece>)
    ensures |WordTexts(pieces)| == |pieces|
    ensures forall i :: 0 <= i < |pieces| ==> WordTexts(pieces)[i] == WordText(pieces[i].word)
  {
    if pieces != [] {
      WordTextsAt(pieces[1..]);
    }
  }

  lemma {:induction false} PrintedMatches(pieces: seq<Piece>)
    requires Printable(pieces)
    ensures FindAll(Print(pieces)) == WordTexts(pieces)
  {
    if pieces != [] {
      var w, gap, tail := pieces[0].word, pieces[0].gap, pieces[1..];
      var rest := gap + Print(tail);
      assert forall i :: 0 <= i < |tail| ==> tail[i] == pieces[i + 1];
      assert Printable(tail);
      assert Print(pieces) == WordText(w) + rest;
      if w.Bare? && rest != "" {
        assert |pieces| > 1 ==> gap != "";
        assert |pieces| == 1 ==> tail == [];
        assert IsSpace(rest[0]);
      }
      WordMatches(w, rest);
      assert (WordText(w) + rest)[|WordText(w)|..] == rest;
      SkipSpace(gap, Print(tail));
      PrintedMatches(tail);
    }
  }

  /** Printing a list of words, quoted or bare, with white space behind them, and parsing it gives the
      words back. */
  lemma ParsePrinted(lead: string, pieces: seq<Piece>)
    requires AllSpace(lead) && Printable(pieces)
    ensures Parse(lead + Print(pieces)) == Texts(pieces)
  {
    SkipSpace(lead, Print(pieces));
    PrintedMatches(pieces);
    WordTextsAt(pieces);
    forall i | 0 <= i < |pieces|
      ensures StripQuotes(WordText(pieces[i].word)) == pieces[i].word.text
    {
      StripWord(pieces[i].word);
    }
  }

  /** Each word in single quotes, one space behind it. */
  function QuotedPieces(words: seq<string>): seq<Piece> {
    seq(|words|, i requires 0 <= i < |words| => Piece(Quoted(words[i]), " "))
  }

  /** Any list of quote-free words, empty ones and ones with spaces included, survives quoting and parsing. */
  lemma QuotedRoundTrip(words: seq<string>)
    requires forall i :: 0 <= i < |words| ==> QuoteFree(words[i])
    ensures Parse(Print(QuotedPieces(words))) == words
  {
    var pieces := QuotedPieces(words);
    assert "" + Print(pieces) == Print(pieces);
    ParsePrinted("", pieces);
    assert Texts(pieces) == words;
  }

  /** The caller's panic on an empty list happens for white space only. */
  lemma {:induction false} NoWordsIff(s: string)
    ensures Parse(s) == [] <==> AllSpace(s)
  {
    if s != "" {
      if IsSpace(s[0]) {
        NoWordsIff(s[1..]);
        assert s == [s[0]] + s[1..];
      } else {
        assert MatchLength(s) > 0;
      }
    }
  }

  // ----- Quotes inside a word, and what separates words -----

  predicate SpaceFree(s: string) {
    forall i :: 0 <= i < |s| ==> !IsSpace(s[i])
  }

  /** A run of \S that does not open a closed quotation is one match. */
  lemma RunIsOneMatch(s: string)
    requires s != "" && SpaceFree(s)
    requires s[0] == '\'' ==> QuoteFree(s[1..])
    ensures FindAll(s) == [s]
  {
    assert s + "" == s;
    RunLengthOf(s, "");
    if s[0] == '\'' {
      NoQuoteAhead(s[1..]);
    }
    assert MatchLength(s) == |s|;
    assert s[..|s|] == s && s[|s|..] == "";
  }

  lemma {:induction false} NoQuoteAhead(s: string)
    requires QuoteFree(s)
    ensures UpToQuote(s) == |s|
  {
    if s != "" {
      NoQuoteAhead(s[1..]);
    }
  }

  lemma StripOneQuote()
    ensures StripQuotes("'") == ""
  {
    assert "'"[1..] == "";
  }

  lemma StripBehind(left: string, quote: string)
    requires QuoteFree(left) && StripQuotes(quote) == ""
    ensures StripQuotes(left + quote) == left
  {
    StripConcat(left, quote);
    StripQuoteFree(left);
  }

  lemma StripAround(left: string, right: string)
    requires QuoteFree(left) && QuoteFree(right)
    ensures StripQuotes(left + "'" + right) == left + right
  {
    StripOneQuote();
    StripBehind(left, "'");
    StripConcat(left + "'", right);
    StripQuoteFree(right);
  }

  /** A single quote inside a word, or one that is never closed, does not split it; it is dropped. */
  lemma QuoteInWord(left: string, right: string)
    requires QuoteFree(left) && QuoteFree(right) && SpaceFree(left) && SpaceFree(right)
    ensures Parse(left + "'" + right) == [left + right]
  {
    var s := left + "'" + right;
    assert left == "" ==> s[1..] == right;
    assert left != "" ==> s[0] == left[0];
    RunIsOneMatch(s);
    StripAround(left, right);
  }

  /** The characters that separate words are the five white-space characters of \s. */
  lemma SeparatesIff(c: char)
    ensures Parse(['a', c, 'b']) == ["a", "b"] <==> c in {' ', '\t', '\n', '\r', '\U{000C}'}
  {
    var s := ['a', c, 'b'];
    if IsSpace(c) {
      var pieces := [Piece(Bare("a"), [c]), Piece(Bare("b"), "")];
      assert pieces[1..] == [pieces[1]] && pieces[1..][1..] == [];
      assert Print(pieces[1..]) == "b";
      assert "" + Print(pieces) == s;
      ParsePrinted("", pieces);
      assert Texts(pieces) == ["a", "b"];
    } else {
      assert SpaceFree(s);
      RunIsOneMatch(s);
      assert |Parse(s)| == 1;
    }
  }
}
