/** Settings kept in a file, one `key=value` line for each entry that has a value. */
module Settings {
  import opened Basics
  import opened TextLines

  type Data = map<string, string>

  /** The line of one entry; entries without a value are not written. */
  function EntryText(data: Data, key: string): string
    requires key in data
  {
    if data[key] == "" then "" else key + "=" + data[key] + "\n"
  }

  /** The file for the entries in the given order. */
  function Print(data: Data, order: seq<string>): string
    requires forall i :: 0 <= i < |order| ==> order[i] in data
  {
    if order == [] then "" else EntryText(data, order[0]) + Print(data, order[1..])
  }

  /** How many characters stand up to and including the last '='; none when there is no '='. */
  function LastEquals(line: string): (n: nat)
    ensures n <= |line|
    ensures n > 0 ==> line[n - 1] == '='
    ensures forall i :: n <= i < |line| ==> line[i] != '='
  {
    if line == "" then 0
    else if line[|line| - 1] == '=' then |line|
    else LastEquals(line[..|line| - 1])
  }

  /** A line sets the key before its last '=' to the value after it; other lines set nothing. */
  function ReadLine(data: Data, line: string): Data {
    var n := LastEquals(line);
    if n == 0 then data else data[line[..n - 1] := line[n..]]
  }

  function ReadLines(data: Data, lines: seq<string>): Data
    decreases |lines|
  {
    if lines == [] then data else ReadLines(ReadLine(data, lines[0]), lines[1..])
  }

  /** What reading the file adds to the data. */
  function Read(data: Data, content: string): Data {
    ReadLines(data, Lines(content, '\n'))
  }

  /** The entries that have a value. */
  function WithValues(data: Data): Data {
    map key | key in data && data[key] != "" :: data[key]
  }

  /** The entry survives the file: no newline in it, and no '=' in the value. Keys may have '='. */
  predicate Writable(key: string, value: string) {
    '\n' !in key && '\n' !in value && '=' !in value
  }

  ghost predicate AllWritable(data: Data) {
    forall key :: key in data && data[key] != "" ==> Writable(key, data[key])
  }

  // ---------------------------------------------------------------------------
  // Round trip
  // ---------------------------------------------------------------------------

  lemma SplitsAtLastEquals(key: string, value: string)
    requires '=' !in value
    ensures var line := key + "=" + value;
            LastEquals(line) == |key| + 1 && line[..|key|] == key && line[|key| + 1..] == value
  {
    var line := key + "=" + value;
    var n := LastEquals(line);
    assert line[|key|] == '=';
    assert forall i :: |key| < i < |line| ==> line[i] == value[i - (|key| + 1)];
  }

  /** A line without an equals sign, the empty line too, sets nothing wherever it stands in a file. */
  lemma LineWithoutEqualsSetsNothing(data: Data, before: string, line: string, rest: string)
    requires '=' !in line && '\n' !in line
    ensures Read(data, before + ['\n'] + (line + ['\n'] + rest)) == Read(data, before + ['\n'] + rest)
    ensures Read(data, before + ['\n'] + line) == Read(data, before)
  {
    NoEqualsSign(line);
    SkipMiddle(data, before, line, rest);
    SkipLast(data, before, line);
  }

  lemma NoEqualsSign(line: string)
    requires '=' !in line
    ensures LastEquals(line) == 0
  {
  }

  lemma SkipMiddle(data: Data, before: string, line: string, rest: string)
    requires LastEquals(line) == 0 && '\n' !in line
    ensures Read(data, before + ['\n'] + (line + ['\n'] + rest)) == Read(data, before + ['\n'] + rest)
  {
    LineIsItsOnlyLine(line, '\n');
    LinesAppend(line, rest, '\n');
    LinesAppend(before, line + ['\n'] + rest, '\n');
    LinesAppend(before, rest, '\n');
    SkipLine(data, Lines(before, '\n'), line, Lines(rest, '\n'));
    Associate(Lines(before, '\n'), [line], Lines(rest, '\n'));
  }

  lemma SkipLast(data: Data, before: string, line: string)
    requires LastEquals(line) == 0 && '\n' !in line
    ensures Read(data, before + ['\n'] + line) == Read(data, before)
  {
    LineIsItsOnlyLine(line, '\n');
    LinesAppend(before, line, '\n');
    SkipLine(data, Lines(before, '\n'), line, []);
    Associate(Lines(before, '\n'), [line], []);
    assert Lines(before, '\n') + [] == Lines(before, '\n') && [line] + [] == [line];
  }

  lemma Associate(a: seq<string>, b: seq<string>, c: seq<string>)
    ensures a + (b + c) == a + b + c
  {
  }

  lemma {:induction false} SkipLine(data: Data, before: seq<string>, line: string, rest: seq<string>)
    requires LastEquals(line) == 0
    ensures ReadLines(data, before + [line] + rest) == ReadLines(data, before + rest)
    decreases |before|
  {
    var all := before + [line] + rest;
    if before == [] {
      assert all[0] == line && all[1..] == rest && before + rest == rest;
    } else {
      assert all[1..] == before[1..] + [line] + rest && (before + rest)[1..] == before[1..] + rest;
      SkipLine(ReadLine(data, before[0]), before[1..], line, rest);
    }
  }

  lemma EntryIsOneLine(key: string, value: string, rest: string)
    requires Writable(key, value)
    ensures Lines(key + "=" + value + "\n" + rest, '\n') == [key + "=" + value] + Lines(rest, '\n')
  {
    var line := key + "=" + value;
    LinesAppend(line, rest, '\n');
    LineIsItsOnlyLine(line, '\n');
    assert "\n" == ['\n'];
  }

  lemma EntryReadsBack(data: Data, key: string, value: string, rest: string)
    requires Writable(key, value)
    ensures Read(data, key + "=" + value + "\n" + rest) == Read(data[key := value], rest)
  {
    EntryIsOneLine(key, value, rest);
    SplitsAtLastEquals(key, value);
    var lines := [key + "=" + value] + Lines(rest, '\n');
    assert lines[1..] == Lines(rest, '\n');
  }

  /** The entries of some keys. */
  function Restrict(data: Data, keys: set<string>): Data {
    map key | key in data && key in keys :: data[key]
  }

  lemma {:induction false} PrintReadsBack(known: Data, data: Data, order: seq<string>)
    requires forall i :: 0 <= i < |order| ==> order[i] in data
    requires AllWritable(data)
    ensures Read(known, Print(data, order)) == known + Restrict(WithValues(data), set key | key in order)
    decreases |order|
  {
    if order == [] {
      var lines := Lines("", '\n');
      assert ReadLines(ReadLine(known, lines[0]), lines[1..]) == known;
    } else {
      var known' := Entered(known, data, order[0]);
      FirstEntryReadsBack(known, data, order);
      PrintReadsBack(known', data, order[1..]);
      RestrictStep(known, data, order);
    }
  }

  /** The data with one entry added, if it has a value. */
  function Entered(known: Data, data: Data, key: string): Data
    requires key in data
  {
    if data[key] == "" then known else known[key := data[key]]
  }

  lemma FirstEntryReadsBack(known: Data, data: Data, order: seq<string>)
    requires order != [] && forall i :: 0 <= i < |order| ==> order[i] in data
    requires AllWritable(data)
    ensures Read(known, Print(data, order)) == Read(Entered(known, data, order[0]), Print(data, order[1..]))
  {
    var key, rest := order[0], Print(data, order[1..]);
    if data[key] != "" {
      EntryReadsBack(known, key, data[key], rest);
      assert Print(data, order) == key + "=" + data[key] + "\n" + rest;
    } else {
      assert Print(data, order) == rest;
    }
  }

  lemma RestrictStep(known: Data, data: Data, order: seq<string>)
    requires order != [] && forall i :: 0 <= i < |order| ==> order[i] in data
    ensures Entered(known, data, order[0]) + Restrict(WithValues(data), set k | k in order[1..])
            == known + Restrict(WithValues(data), set k | k in order)
  {
    var left, right := set k | k in order[1..], set k | k in order;
    assert order == [order[0]] + order[1..];
    assert right == left + {order[0]};
    RestrictAdds(known, WithValues(data), left, order[0]);
  }

  lemma RestrictAdds(known: Data, data: Data, keys: set<string>, key: string)
    ensures (if key in data then known[key := data[key]] else known) + Restrict(data, keys)
            == known + Restrict(data, keys + {key})
  {
  }

  lemma {:induction false} ReadIsWritable(data: Data, lines: seq<string>)
    requires forall i :: 0 <= i < |lines| ==> '\n' !in lines[i]
    requires forall key :: key in data ==> Writable(key, data[key])
    ensures forall key :: key in ReadLines(data, lines) ==> Writable(key, ReadLines(data, lines)[key])
    decreases |lines|
  {
    if lines == [] {
    } else {
      var line := lines[0];
      var n := LastEquals(line);
      if n > 0 {
        assert forall i :: 0 <= i < |line[n..]| ==> line[n..][i] == line[n + i];
        assert Writable(line[..n - 1], line[n..]);
      }
      ReadIsWritable(ReadLine(data, line), lines[1..]);
    }
  }

  /** Every key of the data exactly once, in some order. */
  ghost predicate Orders(data: Data, order: seq<string>) {
    && (set key | key in order) == data.Keys
    && (forall i :: 0 <= i < |order| ==> order[i] in data)
    && (forall i, j :: 0 <= i < j < |order| ==> order[i] != order[j])
  }

  /** The file holds each entry with a value once. */
  ghost predicate Holds(content: string, data: Data) {
    exists order :: Orders(data, order) && content == Print(data, order)
  }

  /** Whatever order the entries are written in, reading the file back gives exactly the entries that have
      a value if and only if every one of those is free of newlines and has no '=' in its value. */
  lemma FileRoundTrip(data: Data, order: seq<string>)
    requires Orders(data, order)
    ensures Read(map[], Print(data, order)) == WithValues(data) <==> AllWritable(data)
  {
    if AllWritable(data) {
      PrintReadsBack(map[], data, order);
      RestrictToAll(data, order);
    } else if Read(map[], Print(data, order)) == WithValues(data) {
      OnlyWritable(data, Print(data, order));
    }
  }

  lemma RestrictToAll(data: Data, order: seq<string>)
    requires (set key | key in order) == data.Keys
    ensures map[] + Restrict(WithValues(data), set key | key in order) == WithValues(data)
  {
  }

  /** Only writable entries can come from a file. */
  lemma OnlyWritable(data: Data, content: string)
    requires Read(map[], content) == WithValues(data)
    ensures AllWritable(data)
  {
    LinesAreLines(content, '\n');
    ReadIsWritable(map[], Lines(content, '\n'));
    forall key | key in data && data[key] != ""
      ensures Writable(key, data[key])
    {
      assert key in WithValues(data);
    }
  }

  /** All keys but those left have been written, once each. */
  ghost predicate WrittenSoFar(data: Data, order: seq<string>, left: set<string>) {
    && left <= data.Keys
    && (forall i :: 0 <= i < |order| ==> order[i] in data && order[i] !in left)
    && (forall key :: key in data && key !in left ==> key in order)
    && (forall i, j :: 0 <= i < j < |order| ==> order[i] != order[j])
  }

  lemma WriteTurn(data: Data, order: seq<string>, left: set<string>, key: string)
    requires WrittenSoFar(data, order, left) && key in left
    ensures WrittenSoFar(data, order + [key], left - {key})
    ensures Print(data, order + [key]) == Print(data, order) + EntryText(data, key)
  {
    assert forall other :: other in order ==> other in order + [key];
    PrintAppend(data, order, key);
  }

  /** One line read, and what is left. */
  lemma ReadTurn(data: Data, left: string)
    ensures var n := LineLength(left, '\n');
            var data' := ReadLine(data, left[..n]);
            Read(data, left) == if n == |left| then data' else Read(data', left[n + 1..])
  {
    LinesUnfold(left, '\n');
    var n := LineLength(left, '\n');
    ReadFirst(data, left[..n], if n == |left| then [] else Lines(left[n + 1..], '\n'));
  }

  lemma ReadFirst(data: Data, first: string, rest: seq<string>)
    ensures ReadLines(data, [first] + rest) == ReadLines(ReadLine(data, first), rest)
  {
    assert ([first] + rest)[1..] == rest;
  }

  class SettingsFile {
    var file: Option<string>
    var data: Data

    /** Loads the settings, or creates an empty file when there is none. */
    constructor (existing: Option<string>)
      ensures data == if existing.Some? then Read(map[], existing.value) else map[]
      ensures file == if existing.Some? then existing else Some("")
    {
      file, data := existing, map[];
      new;
      var ok := ReadFromFile();
      if !ok {
        file := Some("");
      }
    }

    /** Reads line by line to the end of the file; false when there is no file. */
    method ReadFromFile() returns (ok: bool)
      modifies `data
      ensures ok == file.Some?
      ensures data == if file.Some? then Read(old(data), file.value) else old(data)
    {
      if file.None? {
        return false;
      }
      var left, eof := file.value, false;
      while !eof
        invariant (if eof then data else Read(data, left)) == Read(old(data), file.value)
        decreases !eof, |left|
      {
        ReadTurn(data, left);
        var n := LineLength(left, '\n');
        var content := left[..n];
        if n == |left| {
          eof := true;
        } else {
          left := left[n + 1..];
        }
        var pos := LastEquals(content);
        if pos > 0 {
          data := data[content[..pos - 1] := content[pos..]];
        }
      }
      ok := true;
    }

    /** Writes the entries that have a value, in any order; false when there is no file. */
    method WriteToFile() returns (ok: bool)
      modifies `file
      ensures ok == old(file).Some? && file.Some? == old(file).Some?
      ensures ok ==> Holds(file.value, data)
      ensures ok ==> (Read(map[], file.value) == WithValues(data) <==> AllWritable(data))
    {
      if file.None? {
        return false;
      }
      var ofile := "";
      var left := data.Keys;
      ghost var order: seq<string> := [];
      while left != {}
        invariant left <= data.Keys
        invariant WrittenSoFar(data, order, left)
        invariant ofile == Print(data, order)
        decreases left
      {
        var key :| key in left;
        left := left - {key};
        WriteTurn(data, order, left + {key}, key);
        order := order + [key];
        if data[key] != "" {
          ofile := ofile + key + "=" + data[key] + "\n";
        }
      }
      file := Some(ofile);
      assert Orders(data, order);
      FileRoundTrip(data, order);
      ok := true;
    }

    method SetValue(key: string, value: string) returns (ok: bool)
      modifies this
      ensures data == old(data)[key := value]
      ensures ok == old(file).Some?
      ensures ok ==> file.Some? && Holds(file.value, data)
      ensures ok ==> (Read(map[], file.value) == WithValues(data) <==> AllWritable(data))
    {
      data := data[key := value];
      ok := WriteToFile();
    }

    method Contains(key: string) returns (found: bool)
      ensures found <==> key in WithValues(data)
    {
      found := key in data && data[key] != "";
    }

    method Remove(key: string) returns (ok: bool)
      modifies this
      ensures data == old(data) - {key}
      ensures ok == old(file).Some?
      ensures ok ==> file.Some? && Holds(file.value, data)
      ensures ok ==> (Read(map[], file.value) == WithValues(data) <==> AllWritable(data))
    {
      data := data - {key};
      var found := Contains(key);
      ok := false;
      if !found {
        ok := WriteToFile();
      }
    }
  }

  lemma {:induction false} PrintAppend(data: Data, order: seq<string>, key: string)
    requires forall i :: 0 <= i < |order| ==> order[i] in data
    requires key in data
    ensures Print(data, order + [key]) == Print(data, order) + EntryText(data, key)
  {
    if order == [] {
      assert order + [key] == [key] && [key][1..] == [];
    } else {
      assert (order + [key])[1..] == order[1..] + [key];
      PrintAppend(data, order[1..], key);
    }
  }
}
