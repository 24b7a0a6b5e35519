/** Splitting a text into lines, as reading it line by line does. */
module TextLines {

  /** The length of the first line, where reading stops. */
  function LineLength<T(==)>(text: seq<T>, newline: T): (n: nat)
    ensures n <= |text|
  {
    if text == [] || text[0] == newline then 0 else 1 + LineLength(text[1..], newline)
  }

  /** The text split at its newlines; the piece after the last newline is a line too. */
  function Lines<T(==)>(text: seq<T>, newline: T): (lines: seq<seq<T>>)
    ensures lines != []
  {
    if text == [] then [[]]
    else
      var rest := Lines(text[1..], newline);
      if text[0] == newline then [[]] + rest else [[text[0]] + rest[0]] + rest[1..]
  }

  /** The first line and the lines after it. */
  lemma {:induction false} LinesUnfold<T>(text: seq<T>, newline: T)
    ensures var n := LineLength(text, newline);
            Lines(text, newline) == [text[..n]] + if n == |text| then [] else Lines(text[n + 1..], newline)
  {
    if text != [] && text[0] != newline {
      var n := LineLength(text, newline);
      LinesUnfold(text[1..], newline);
      assert text[..n] == [text[0]] + text[1..][..n - 1];
      assert n < |text| ==> text[n + 1..] == text[1..][n..];
    }
  }

  /** A newline between two texts separates their lines. */
  lemma {:induction false} LinesAppend<T>(a: seq<T>, b: seq<T>, newline: T)
    ensures Lines(a + [newline] + b, newline) == Lines(a, newline) + Lines(b, newline)
  {
    var whole := a + [newline] + b;
    if a == [] {
      assert whole[1..] == b;
    } else {
      assert whole[1..] == a[1..] + [newline] + b;
      LinesAppend(a[1..], b, newline);
    }
  }

  lemma {:induction false} LineIsItsOnlyLine<T>(line: seq<T>, newline: T)
    requires newline !in line
    ensures Lines(line, newline) == [line]
  {
    if line == [] {
    } else {
      LineIsItsOnlyLine(line[1..], newline);
      assert line[0] in line && [line[0]] + line[1..] == line;
    }
  }

  lemma {:induction false} LinesAreLines<T>(text: seq<T>, newline: T)
    ensures forall i :: 0 <= i < |Lines(text, newline)| ==> newline !in Lines(text, newline)[i]
  {
    if text == [] {
    } else {
      LinesAreLines(text[1..], newline);
    }
  }
}
