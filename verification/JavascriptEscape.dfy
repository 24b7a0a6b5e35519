/** Escaping a text for a JavaScript string literal by five passes of replacement over it. */
module JavascriptEscape {
  import opened Basics

  /** Each `c` in the text becomes `with`, every other character stays. */
  function ReplaceEach(text: string, c: char, with: string): string {
    if text == "" then ""
    else (if text[0] == c then with else [text[0]]) + ReplaceEach(text[1..], c, with)
  }

  /** Where `c` first occurs in the text; the length of the text when it does not. */
  function Find(text: string, c: char): (i: nat)
    ensures i <= |text|
    ensures forall j :: 0 <= j < i ==> text[j] != c
    ensures i < |text| ==> text[i] == c
  {
    if text == "" || text[0] == c then 0 else 1 + Find(text[1..], c)
  }

  lemma {:induction false} ReplaceEachAppend(a: string, b: string, c: char, with: string)
    ensures ReplaceEach(a + b, c, with) == ReplaceEach(a, c, with) + ReplaceEach(b, c, with)
  {
    if a == "" {
      assert a + b == b;
    } else {
      assert (a + b)[1..] == a[1..] + b;
      ReplaceEachAppend(a[1..], b, c, with);
    }
  }

  lemma {:induction false} NothingToReplace(text: string, c: char, with: string)
    requires forall j :: 0 <= j < |text| ==> text[j] != c
    ensures ReplaceEach(text, c, with) == text
  {
    if text == "" {
    } else {
      NothingToReplace(text[1..], c, with);
      assert [text[0]] + text[1..] == text;
    }
  }

  /** What there is to do: nothing, or one replacement and then the rest. */
  lemma NextReplacement(text: string, c: char, with: string)
    ensures var i := Find(text, c);
            ReplaceEach(text, c, with) ==
            if i == |text| then text else text[..i] + (with + ReplaceEach(text[i + 1..], c, with))
  {
    var i := Find(text, c);
    if i == |text| {
      NothingToReplace(text, c, with);
    } else {
      NothingToReplace(text[..i], c, with);
      assert text == text[..i] + text[i..];
      ReplaceEachAppend(text[..i], text[i..], c, with);
      assert text[i..][1..] == text[i + 1..];
    }
  }

  /** One replacement in a text whose front is done. */
  lemma ReplaceStep(done: string, rest: string, c: char, with: string)
    requires Find(rest, c) < |rest|
    ensures var text, i := done + rest, Find(rest, c);
            var done', rest' := done + rest[..i] + with, rest[i + 1..];
            && text[..|done| + i] + with + text[|done| + i + 1..] == done' + rest'
            && done + ReplaceEach(rest, c, with) == done' + ReplaceEach(rest', c, with)
  {
    NextReplacement(rest, c, with);
  }

  /** Replaces in place, going on after each replacement, so that replaced text is not looked at again. */
  method ReplaceAll(original: string, c: char, str: string) returns (text: string)
    ensures text == ReplaceEach(original, c, str)
  {
    text := original;
    var pos := 0;
    ghost var done, rest := "", text;
    var searching := true;
    while searching
      invariant text == done + rest && pos == |done|
      invariant done + ReplaceEach(rest, c, str) == ReplaceEach(original, c, str)
      invariant !searching ==> ReplaceEach(rest, c, str) == rest
      decreases searching, |rest|
    {
      assert text[pos..] == rest;
      var found := pos + Find(text[pos..], c);
      if found == |text| {
        NextReplacement(rest, c, str);
        searching := false;
      } else {
        ReplaceStep(done, rest, c, str);
        text := text[..found] + str + text[found + 1..];
        done, rest := done + rest[..found - pos] + str, rest[found - pos + 1..];
        pos := found + |str|;
      }
    }
  }

  // ---------------------------------------------------------------------------
  // The passes together
  // ---------------------------------------------------------------------------

  /** The character that pass `k` replaces, and what it becomes. */
  function Target(k: nat): char
    requires k < 5
  {
    ['\\', '\'', '\"', '\n', '\r'][k]
  }

  function Replacement(k: nat): string
    requires k < 5
  {
    ["\\\\", "\\\'", "\\\"", "\\n", "\\r"][k]
  }

  /** One character after the first `passes` passes. */
  function EscapeChar(passes: nat, ch: char): string
    requires passes <= 5
  {
    if passes > 0 && ch == Target(0) then Replacement(0)
    else if passes > 1 && ch == Target(1) then Replacement(1)
    else if passes > 2 && ch == Target(2) then Replacement(2)
    else if passes > 3 && ch == Target(3) then Replacement(3)
    else if passes > 4 && ch == Target(4) then Replacement(4)
    else [ch]
  }

  /** The text escaped character by character, left to right. */
  function EscapeUpTo(passes: nat, s: string): string
    requires passes <= 5
  {
    if s == "" then "" else EscapeChar(passes, s[0]) + EscapeUpTo(passes, s[1..])
  }

  function Escape(s: string): string {
    EscapeUpTo(5, s)
  }

  /** What a pass leaves behind is not a target of a later pass, except the character it replaces. */
  lemma PassOnChar(k: nat, ch: char)
    requires k < 5
    ensures ReplaceEach(EscapeChar(k, ch), Target(k), Replacement(k)) == EscapeChar(k + 1, ch)
  {
    var e, c, with := EscapeChar(k, ch), Target(k), Replacement(k);
    assert 1 <= |e| <= 2;
    if |e| == 1 {
      assert e == [ch];
      assert ReplaceEach(e[1..], c, with) == "";
    } else {
      assert e[0] != c && e[1] != c;
      assert e[1..] == [e[1]] && e[1..][1..] == "";
      assert ReplaceEach(e[1..], c, with) == [e[1]];
    }
  }

  lemma {:induction false} PassOnText(k: nat, s: string)
    requires k < 5
    ensures ReplaceEach(EscapeUpTo(k, s), Target(k), Replacement(k)) == EscapeUpTo(k + 1, s)
  {
    if s == "" {
    } else {
      PassOnChar(k, s[0]);
      PassOnText(k, s[1..]);
      ReplaceEachAppend(EscapeChar(k, s[0]), EscapeUpTo(k, s[1..]), Target(k), Replacement(k));
    }
  }

  lemma {:induction false} NoPassIsIdentity(s: string)
    ensures EscapeUpTo(0, s) == s
  {
    if s == "" {
    } else {
      NoPassIsIdentity(s[1..]);
    }
  }

  /** Five passes over the text make one left-to-right escape of each character. */
  method EscapeJavascriptString(str: string) returns (escaped: string)
    ensures escaped == Escape(str)
  {
    NoPassIsIdentity(str);
    escaped := str;
    PassOnText(0, str);
    escaped := ReplaceAll(escaped, '\\', "\\\\");
    PassOnText(1, str);
    escaped := ReplaceAll(escaped, '\'', "\\\'");
    PassOnText(2, str);
    escaped := ReplaceAll(escaped, '\"', "\\\"");
    PassOnText(3, str);
    escaped := ReplaceAll(escaped, '\n', "\\n");
    PassOnText(4, str);
    escaped := ReplaceAll(escaped, '\r', "\\r");
  }

  // ---------------------------------------------------------------------------
  // What a reader of string literals makes of it
  // ---------------------------------------------------------------------------

  /** What the character after a backslash stands for. */
  function Unescaped(ch: char): Option<char> {
    match ch
    case '\\' => Some('\\')
    case '\'' => Some('\'')
    case '\"' => Some('\"')
    case 'n' => Some('\n')
    case 'r' => Some('\r')
    case 't' => Some('\t')
    case _ => None
  }

  /** Reads the rest of a literal up to its closing quote: its content, and the text after the quote.
      A raw line end, or the end of the text, is an error. */
  function ReadLiteral(quote: char, text: string): Option<(string, string)> {
    if text == "" then None
    else if text[0] == quote then Some(("", text[1..]))
    else if text[0] == '\n' || text[0] == '\r' then None
    else if text[0] != '\\' then Prepend(text[0], ReadLiteral(quote, text[1..]))
    else if |text| == 1 || Unescaped(text[1]).None? then None
    else Prepend(Unescaped(text[1]).value, ReadLiteral(quote, text[2..]))
  }

  function Prepend(ch: char, r: Option<(string, string)>): Option<(string, string)> {
    match r
    case None => None
    case Some(pair) => Some(([ch] + pair.0, pair.1))
  }

  predicate IsQuote(quote: char) {
    quote == '\'' || quote == '\"'
  }

  lemma ReadEscapedChar(quote: char, ch: char, rest: string)
    requires IsQuote(quote)
    ensures ReadLiteral(quote, EscapeChar(5, ch) + rest) == Prepend(ch, ReadLiteral(quote, rest))
  {
    var e := EscapeChar(5, ch);
    var text := e + rest;
    if |e| == 1 {
      assert text[1..] == rest;
    } else {
      assert text[0] == '\\' && text[1] == e[1] && text[2..] == rest;
    }
  }

  /** Between quotes of either kind, a reader takes exactly the escaped text for the content, recovers
      the original, and stops at the closing quote, whatever comes after it. */
  lemma {:induction false} LiteralRoundTrip(quote: char, s: string, rest: string)
    requires IsQuote(quote)
    ensures ReadLiteral(quote, Escape(s) + [quote] + rest) == Some((s, rest))
  {
    if s == "" {
      assert Escape(s) + [quote] + rest == [quote] + rest;
      assert ([quote] + rest)[1..] == rest;
    } else {
      LiteralRoundTrip(quote, s[1..], rest);
      ReadEscapedChar(quote, s[0], Escape(s[1..]) + [quote] + rest);
      assert Escape(s) + [quote] + rest == EscapeChar(5, s[0]) + (Escape(s[1..]) + [quote] + rest);
      assert [s[0]] + s[1..] == s;
    }
  }

  /** The escaped text has no raw line end. */
  lemma {:induction false} NoRawLineEnds(s: string)
    ensures '\n' !in Escape(s) && '\r' !in Escape(s)
  {
    if s == "" {
    } else {
      NoRawLineEnds(s[1..]);
    }
  }

  /** Different texts are never escaped to the same. */
  lemma EscapeIsInjective(s: string, t: string)
    requires Escape(s) == Escape(t)
    ensures s == t
  {
    LiteralRoundTrip('\"', s, "");
    LiteralRoundTrip('\"', t, "");
  }

  /** A character that the escape changes. */
  predicate Special(ch: char) {
    ch == '\\' || ch == '\'' || ch == '\"' || ch == '\n' || ch == '\r'
  }

  /** Nothing else is touched: the escaped text is as long as the text and one more for each special character,
      and it is the text itself exactly when there is none. */
  lemma {:induction false} OnlySpecialGrows(s: string)
    ensures |Escape(s)| == |s| + Specials(s)
    ensures Escape(s) == s <==> Specials(s) == 0
  {
    if s == "" {
    } else {
      OnlySpecialGrows(s[1..]);
      var e := EscapeChar(5, s[0]);
      assert Escape(s) == e + Escape(s[1..]);
      assert [s[0]] + s[1..] == s;
      if Specials(s) != 0 {
        assert |Escape(s)| != |s|;
      }
    }
  }

  function Specials(s: string): nat {
    if s == "" then 0 else (if Special(s[0]) then 1 else 0) + Specials(s[1..])
  }
}
