/** The text form of a cookie list, one cookie a line. */
module CookieText {
  import opened CookieCrc
  import opened TextLines

  type Cookie = seq<Byte>

  const NEWLINE: Byte := 10

  /** The cookies, each followed by a newline. */
  function Serialize(cookies: seq<Cookie>): seq<Byte> {
    if cookies == [] then [] else cookies[0] + [NEWLINE] + Serialize(cookies[1..])
  }

  lemma SerializeTurn(text: seq<Byte>, cookies: seq<Cookie>)
    requires cookies != []
    ensures text + cookies[0] + [NEWLINE] + Serialize(cookies[1..]) == text + Serialize(cookies)
  {
  }

  method SerializeCookies(cookies: seq<Cookie>) returns (text: seq<Byte>)
    ensures text == Serialize(cookies)
  {
    text := [];
    var i := 0;
    while i < |cookies|
      invariant 0 <= i <= |cookies|
      invariant text + Serialize(cookies[i..]) == Serialize(cookies)
    {
      assert cookies[i..][0] == cookies[i] && cookies[i..][1..] == cookies[i + 1..];
      SerializeTurn(text, cookies[i..]);
      text := text + cookies[i] + [NEWLINE];
      i := i + 1;
    }
  }

  /** A line as a list of cookies: none when it is empty. */
  function Keep(line: Cookie): seq<Cookie> {
    if line == [] then [] else [line]
  }

  function NonEmpty(cookies: seq<Cookie>): seq<Cookie> {
    if cookies == [] then [] else Keep(cookies[0]) + NonEmpty(cookies[1..])
  }

  /** The cookies that a text stands for: its non-empty lines. */
  function Parse(text: seq<Byte>): seq<Cookie> {
    NonEmpty(Lines(text, NEWLINE))
  }

  /** One line parsed, and what is left. */
  lemma ParseUnfolds(text: seq<Byte>)
    ensures var n := LineLength(text, NEWLINE);
            Parse(text) == Keep(text[..n]) + if n == |text| then [] else Parse(text[n + 1..])
  {
    var n := LineLength(text, NEWLINE);
    assert NonEmpty([text[..n]]) == Keep(text[..n]);
    LinesUnfold(text, NEWLINE);
    NonEmptyAppend([text[..n]], if n == |text| then [] else Lines(text[n + 1..], NEWLINE));
  }

  /** Reads line by line until the end of the stream and appends every line that is not empty. */
  method Deserialize(cookies: seq<Byte>, known: seq<Cookie>) returns (result: seq<Cookie>)
    ensures result == known + Parse(cookies)
  {
    result := known;
    var ss, good := cookies, true;
    ghost var left := Parse(ss);
    while good
      invariant left == if good then Parse(ss) else []
      invariant result + left == known + Parse(cookies)
      decreases good, |ss|
    {
      var n := LineLength(ss, NEWLINE);
      var cookie := ss[..n];
      ParseUnfolds(ss);
      if n == |ss| {
        good, left := false, [];
      } else {
        ss := ss[n + 1..];
        left := Parse(ss);
      }
      assert result + (Keep(cookie) + left) == (result + Keep(cookie)) + left;
      if cookie != [] {
        result := result + [cookie];
      }
    }
  }

  /** The cookie has no line feed, which is byte 10. */
  predicate IsLine(cookie: Cookie) {
    10 !in cookie
  }

  /** The lines of every cookie, in order. */
  function AllLines(cookies: seq<Cookie>): seq<Cookie> {
    if cookies == [] then [] else Lines(cookies[0], NEWLINE) + AllLines(cookies[1..])
  }

  lemma {:induction false} NonEmptyAppend(a: seq<Cookie>, b: seq<Cookie>)
    ensures NonEmpty(a + b) == NonEmpty(a) + NonEmpty(b)
  {
    if a == [] {
      assert a + b == b;
    } else {
      assert (a + b)[1..] == a[1..] + b;
      NonEmptyAppend(a[1..], b);
    }
  }

  lemma EmptyText()
    ensures Parse([]) == []
  {
    var lines := Lines<Byte>([], NEWLINE);
    assert lines[0] == [] && lines[1..] == [];
    assert NonEmpty(lines) == Keep(lines[0]) + NonEmpty(lines[1..]);
  }

  /** For every cookie list at all, reading back its text gives the non-empty lines of its cookies. */
  lemma {:induction false} ParseSerialize(cookies: seq<Cookie>)
    ensures Parse(Serialize(cookies)) == NonEmpty(AllLines(cookies))
  {
    if cookies == [] {
      EmptyText();
    } else {
      ParseSerialize(cookies[1..]);
      LinesAppend(cookies[0], Serialize(cookies[1..]), NEWLINE);
      NonEmptyAppend(Lines(cookies[0], NEWLINE), Lines(Serialize(cookies[1..]), NEWLINE));
      NonEmptyAppend(Lines(cookies[0], NEWLINE), AllLines(cookies[1..]));
    }
  }

  lemma ParseAppend(a: seq<Byte>, b: seq<Byte>)
    ensures Parse(a + [NEWLINE] + b) == NonEmpty(Lines(a, NEWLINE)) + Parse(b)
  {
    LinesAppend(a, b, NEWLINE);
    NonEmptyAppend(Lines(a, NEWLINE), Lines(b, NEWLINE));
  }

  /** The same with more text behind: the last line counts with or without its newline. */
  lemma {:induction false} ParseSerializeAndMore(cookies: seq<Cookie>, more: seq<Byte>)
    ensures Parse(Serialize(cookies) + more) == NonEmpty(AllLines(cookies)) + Parse(more)
  {
    if cookies == [] {
      assert Serialize(cookies) + more == more;
    } else {
      var first, rest := cookies[0], Serialize(cookies[1..]) + more;
      ParseSerializeAndMore(cookies[1..], more);
      assert Serialize(cookies) + more == first + [NEWLINE] + rest;
      ParseAppend(first, rest);
      NonEmptyAppend(Lines(first, NEWLINE), AllLines(cookies[1..]));
      Associate(NonEmpty(Lines(first, NEWLINE)), NonEmpty(AllLines(cookies[1..])), Parse(more));
    }
  }

  lemma Associate(a: seq<Cookie>, b: seq<Cookie>, c: seq<Cookie>)
    ensures a + (b + c) == a + b + c
  {
  }

  /** A text without newlines is one cookie, or none when it is empty. */
  lemma ParseLine(line: Cookie)
    requires IsLine(line)
    ensures Parse(line) == if line == [] then [] else [line]
  {
    LineIsItsOnlyLine(line, NEWLINE);
    assert NonEmpty([line]) == Keep(line) + NonEmpty([line][1..]);
  }

  lemma {:induction false} LineFreeAllLines(cookies: seq<Cookie>)
    requires forall i :: 0 <= i < |cookies| ==> IsLine(cookies[i])
    ensures AllLines(cookies) == cookies
  {
    if cookies == [] {
    } else {
      LineIsItsOnlyLine(cookies[0], NEWLINE);
      LineFreeAllLines(cookies[1..]);
    }
  }

  lemma {:induction false} NonEmptySelf(cookies: seq<Cookie>)
    requires forall i :: 0 <= i < |cookies| ==> cookies[i] != []
    ensures NonEmpty(cookies) == cookies
  {
    if cookies == [] {
    } else {
      NonEmptySelf(cookies[1..]);
    }
  }

  lemma {:induction false} NonEmptyMembers(cookies: seq<Cookie>)
    requires forall i :: 0 <= i < |cookies| ==> IsLine(cookies[i])
    ensures forall i :: 0 <= i < |NonEmpty(cookies)| ==>
              NonEmpty(cookies)[i] != [] && IsLine(NonEmpty(cookies)[i])
  {
    if cookies == [] {
    } else {
      NonEmptyMembers(cookies[1..]);
    }
  }

  /** A list survives the text form unchanged exactly when no cookie is empty or has a newline. */
  lemma SerializeIsFaithful(cookies: seq<Cookie>)
    ensures Parse(Serialize(cookies)) == cookies <==>
            forall i :: 0 <= i < |cookies| ==> cookies[i] != [] && IsLine(cookies[i])
  {
    if forall i :: 0 <= i < |cookies| ==> cookies[i] != [] && IsLine(cookies[i]) {
      ParseSerialize(cookies);
      LineFreeAllLines(cookies);
      NonEmptySelf(cookies);
    }
    LinesAreLines(Serialize(cookies), NEWLINE);
    NonEmptyMembers(Lines(Serialize(cookies), NEWLINE));
  }
}
