/**
 Textareas with one item per line: lines, trimming, cutting at a character, and the loop that parses
 every line that is not blank.
 */
module FormText {
  import opened Options
  import opened Json
  import opened Text

  // ----- Trimming -----

  predicate Trimmed(text: string) {
    text == "" || (!IsSpace(text[0]) && !IsSpace(text[|text| - 1]))
  }

  function TrimStart(text: string): (t: string)
    ensures |t| <= |text|
    ensures t != "" ==> !IsSpace(t[0]) && t[|t| - 1] == text[|text| - 1]
  {
    if text != "" && IsSpace(text[0]) then TrimStart(text[1..]) else text
  }

  function TrimEnd(text: string): (t: string)
    ensures t <= text
    ensures t != "" ==> !IsSpace(t[|t| - 1])
  {
    if text != "" && IsSpace(text[|text| - 1]) then TrimEnd(text[..|text| - 1]) else text
  }

  function Trim(text: string): (t: string)
    ensures Trimmed(t)
    ensures Trimmed(text) ==> t == text
  {
    TrimEnd(TrimStart(text))
  }

  lemma {:induction false} TrimStartKeeps(text: string, c: char)
    requires c !in text
    ensures c !in TrimStart(text)
  {
    if text != "" && IsSpace(text[0]) {
      TrimStartKeeps(text[1..], c);
    }
  }

  /** Trimming brings in no character. */
  lemma TrimKeeps(text: string, c: char)
    requires c !in text
    ensures c !in Trim(text)
  {
    TrimStartKeeps(text, c);
  }

  // ----- Cutting -----

  /** str::split_once at a character. */
  function CutAt(text: string, c: char): (halves: Option<(string, string)>)
    ensures halves.None? <==> c !in text
    ensures halves.Some? ==> text == halves.value.0 + [c] + halves.value.1 && c !in halves.value.0
  {
    if text == "" then None
    else if text[0] == c then Some(("", text[1..]))
    else
      var rest := CutAt(text[1..], c);
      if rest.None? then None else Some(([text[0]] + rest.value.0, rest.value.1))
  }

  lemma {:induction false} CutFirst(first: string, rest: string, c: char)
    requires c !in first
    ensures CutAt(first + [c] + rest, c) == Some((first, rest))
  {
    var text := first + [c] + rest;
    if first == "" {
      assert text[0] == c && text[1..] == rest;
    } else {
      assert text[0] == first[0] && first[0] in first && text[1..] == first[1..] + [c] + rest;
      assert forall x :: x in first[1..] ==> x in first;
      CutFirst(first[1..], rest, c);
      assert [first[0]] + first[1..] == first;
    }
  }

  // ----- Lines -----

  function StripReturn(line: string): string {
    if line != "" && line[|line| - 1] == '\r' then line[..|line| - 1] else line
  }

  /** str::lines: an unfinished last line counts, an empty one after the last newline does not. */
  function Lines(text: string): (lines: seq<string>)
    ensures forall i :: 0 <= i < |lines| ==> '\n' !in lines[i]
    decreases |text|
  {
    if text == "" then []
    else
      var halves := CutAt(text, '\n');
      if halves.None? then [text] else [StripReturn(halves.value.0)] + Lines(halves.value.1)
  }

  /**
   A line ends at a newline, with a carriage return before it dropped; a blank line in between counts, what
   follows the last newline counts if there is anything.
   */
  lemma LinesAre(line: string, rest: string)
    requires '\n' !in line
    ensures Lines(line + "\n" + rest) == [if line != "" && line[|line| - 1] == '\r' then line[..|line| - 1] else line] + Lines(rest)
    ensures Lines(line) == if line == "" then [] else [line]
  {
    CutFirst(line, rest, '\n');
  }

  /** A printed item: something on one line, with no white space around it. */
  predicate OneLine(text: string) {
    text != "" && Trimmed(text) && '\n' !in text
  }

  lemma {:induction false} LinesOfJoin(items: seq<string>)
    requires forall i :: 0 <= i < |items| ==> OneLine(items[i])
    ensures Lines(JoinWith(items, '\n')) == items
  {
    if |items| > 1 {
      CutFirst(items[0], JoinWith(items[1..], '\n'), '\n');
      assert StripReturn(items[0]) == items[0];
      LinesOfJoin(items[1..]);
    }
  }

  // ----- Parsing line by line -----

  datatype Problem = MissingPart | EmptyName | UnknownWord | MissingValue | NoDays

  datatype LineError = LineError(line: nat, problem: Problem)

  predicate AllSpace(text: string) {
    forall i :: 0 <= i < |text| ==> IsSpace(text[i])
  }

  lemma {:induction false} TrimStartParts(text: string) returns (before: string)
    ensures AllSpace(before) && text == before + TrimStart(text)
  {
    if text != "" && IsSpace(text[0]) {
      var rest := TrimStartParts(text[1..]);
      before := [text[0]] + rest;
      Regroup([text[0]], rest, TrimStart(text[1..]));
      assert text == [text[0]] + text[1..];
    } else {
      before := "";
    }
  }

  lemma {:induction false} TrimEndParts(text: string) returns (after: string)
    ensures AllSpace(after) && text == TrimEnd(text) + after
  {
    if text != "" && IsSpace(text[|text| - 1]) {
      var rest := TrimEndParts(text[..|text| - 1]);
      after := rest + [text[|text| - 1]];
      Regroup(TrimEnd(text[..|text| - 1]), rest, [text[|text| - 1]]);
      assert text == text[..|text| - 1] + [text[|text| - 1]];
    } else {
      after := "";
    }
  }

  lemma {:induction false} TrimStartOf(before: string, text: string)
    requires AllSpace(before) && (text != "" ==> !IsSpace(text[0]))
    ensures TrimStart(before + text) == text
  {
    if before == "" {
      assert before + text == text;
    } else {
      assert (before + text)[1..] == before[1..] + text;
      TrimStartOf(before[1..], text);
    }
  }

  lemma {:induction false} TrimEndOf(text: string, after: string)
    requires AllSpace(after) && (text != "" ==> !IsSpace(text[|text| - 1]))
    ensures TrimEnd(text + after) == text
  {
    if after == "" {
      assert text + after == text;
    } else {
      assert (text + after)[..|text + after| - 1] == text + after[..|after| - 1];
      TrimEndOf(text, after[..|after| - 1]);
    }
  }

  lemma TrimOf(before: string, t: string, after: string)
    requires AllSpace(before) && AllSpace(after) && Trimmed(t)
    ensures Trim(before + t + after) == t
  {
    if t == "" {
      assert before + t + after == (before + after) + "";
      TrimStartOf(before + after, "");
    } else {
      assert before + t + after == before + (t + after);
      TrimStartOf(before, t + after);
      TrimEndOf(t, after);
    }
  }

  ghost predicate SpacedOut(text: string, t: string) {
    exists before, after :: AllSpace(before) && AllSpace(after) && text == before + t + after
  }

  /** Trimming takes off white space, only that, and all of it at both ends. */
  lemma TrimExact(text: string, t: string)
    ensures t == Trim(text) <==> Trimmed(t) && SpacedOut(text, t)
  {
    var before := TrimStartParts(text);
    var after := TrimEndParts(TrimStart(text));
    assert text == before + Trim(text) + after;
    if Trimmed(t) && SpacedOut(text, t) {
      var front, back :| AllSpace(front) && AllSpace(back) && text == front + t + back;
      TrimOf(front, t, back);
    }
  }

  /** The outcome with one more line, the one with the given number. */
  function Next<T>(before: Result<seq<T>, LineError>, line: string, number: nat, parse: string -> Result<T, Problem>)
    : Result<seq<T>, LineError>
  {
    if before.Err? || line == "" then before
    else
      match parse(line)
      case Err(problem) => Err(LineError(number, problem))
      case Ok(item) => Ok(before.value + [item])
  }

  /** The items of all lines that are not blank, or the first problem with its line number. */
  function ParseLines<T>(lines: seq<string>, parse: string -> Result<T, Problem>): Result<seq<T>, LineError> {
    if lines == [] then Ok([])
    else Next(ParseLines(lines[..|lines| - 1], parse), Trim(lines[|lines| - 1]), |lines|, parse)
  }

  method ParseText<T>(text: string, parse: string -> Result<T, Problem>) returns (items: Result<seq<T>, LineError>)
    ensures items == ParseLines(Lines(text), parse)
  {
    var lines := Lines(text);
    var found := [];
    for i := 0 to |lines|
      invariant ParseLines(lines[..i], parse) == Ok(found)
    {
      OneLineMore(lines, parse, i);
      var line := Trim(lines[i]);
      if line != "" {
        var item := parse(line);
        if item.Err? {
          FirstErrorStays(lines, parse, i + 1);
          return Err(LineError(i + 1, item.error));
        }
        found := found + [item.value];
      }
    }
    assert lines[..|lines|] == lines;
    return Ok(found);
  }

  lemma OneLineMore<T>(lines: seq<string>, parse: string -> Result<T, Problem>, i: nat)
    requires i < |lines|
    ensures var before, line := ParseLines(lines[..i], parse), Trim(lines[i]);
      ParseLines(lines[..i + 1], parse) ==
        if before.Err? || line == "" then before
        else if parse(line).Err? then Err(LineError(i + 1, parse(line).error))
        else Ok(before.value + [parse(line).value])
  {
    assert lines[..i + 1][..i] == lines[..i];
  }

  lemma {:induction false} FirstErrorStays<T>(lines: seq<string>, parse: string -> Result<T, Problem>, n: nat)
    requires n <= |lines| && ParseLines(lines[..n], parse).Err?
    ensures ParseLines(lines, parse) == ParseLines(lines[..n], parse)
    decreases |lines|
  {
    if n == |lines| {
      assert lines[..n] == lines;
    } else {
      assert lines[..|lines| - 1][..n] == lines[..n];
      FirstErrorStays(lines[..|lines| - 1], parse, n);
    }
  }

  /** The line is blank or holds an item. */
  predicate Accepted<T>(line: string, parse: string -> Result<T, Problem>) {
    line == "" || parse(line).Ok?
  }

  lemma ParseLast<T>(init: seq<string>, last: string, parse: string -> Result<T, Problem>)
    ensures ParseLines(init + [last], parse) == Next(ParseLines(init, parse), Trim(last), |init| + 1, parse)
  {
    assert (init + [last])[..|init|] == init;
  }

  /** A text is accepted if every line is; it has no items if every line is blank. */
  lemma {:induction false} AcceptedAll<T>(lines: seq<string>, parse: string -> Result<T, Problem>)
    ensures ParseLines(lines, parse).Ok? <==> forall i :: 0 <= i < |lines| ==> Accepted(Trim(lines[i]), parse)
    ensures ParseLines(lines, parse) == Ok([]) <==> forall i :: 0 <= i < |lines| ==> Trim(lines[i]) == ""
  {
    if lines != [] {
      var init, last := lines[..|lines| - 1], lines[|lines| - 1];
      AcceptedAll(init, parse);
      ParseLast(init, last, parse);
      assert lines == init + [last];
    }
  }

  /** A text is refused with the first problem, at the number of its line counted from 1, blank lines included. */
  lemma {:induction false} FirstProblem<T>(lines: seq<string>, parse: string -> Result<T, Problem>, n: nat, problem: Problem)
    ensures ParseLines(lines, parse) == Err(LineError(n, problem))
       <==> 1 <= n <= |lines| && Trim(lines[n - 1]) != "" && parse(Trim(lines[n - 1])) == Err(problem)
            && forall i :: 0 <= i < n - 1 ==> Accepted(Trim(lines[i]), parse)
  {
    if lines != [] {
      var init, last := lines[..|lines| - 1], lines[|lines| - 1];
      FirstProblem(init, parse, n, problem);
      AcceptedAll(init, parse);
      ParseLast(init, last, parse);
      assert lines == init + [last];
    }
  }

  /** The items of lines after other lines come after the items of those. */
  lemma {:induction false} ItemsInOrder<T>(front: seq<string>, back: seq<string>, parse: string -> Result<T, Problem>)
    requires ParseLines(front, parse).Ok? && ParseLines(back, parse).Ok?
    ensures ParseLines(front + back, parse) == Ok(ParseLines(front, parse).value + ParseLines(back, parse).value)
  {
    if back == [] {
      assert front + back == front && ParseLines(front, parse).value + [] == ParseLines(front, parse).value;
    } else {
      var init, last := back[..|back| - 1], back[|back| - 1];
      assert back == init + [last];
      ParseLast(init, last, parse);
      ItemsInOrder(front, init, parse);
      ParseLast(front + init, last, parse);
      Regroup(front, init, [last]);
      NextAppends(ParseLines(front, parse).value, ParseLines(init, parse).value, Trim(last), |back|, |front + back|, parse);
    }
  }

  lemma NextAppends<T>(front: seq<T>, back: seq<T>, line: string, n: nat, m: nat, parse: string -> Result<T, Problem>)
    requires Next(Ok(back), line, n, parse).Ok?
    ensures Next(Ok(front + back), line, m, parse) == Ok(front + Next(Ok(back), line, n, parse).value)
  {
    if line != "" {
      Regroup(front, back, [parse(line).value]);
    }
  }

  function PrintLines<T>(items: seq<T>, show: T -> string): (lines: seq<string>)
    ensures |lines| == |items| && forall i :: 0 <= i < |items| ==> lines[i] == show(items[i])
  {
    if items == [] then [] else PrintLines(items[..|items| - 1], show) + [show(items[|items| - 1])]
  }

  lemma PrintLast<T>(init: seq<T>, last: T, show: T -> string)
    ensures PrintLines(init + [last], show) == PrintLines(init, show) + [show(last)]
  {
    assert (init + [last])[..|init|] == init;
  }

  /** What a printer and a line parser must do for the items that are in order. */
  ghost predicate Codec<T(!new)>(parse: string -> Result<T, Problem>, show: T -> string, ok: T -> bool) {
    && (forall line :: OneLine(line) && parse(line).Ok? ==> ok(parse(line).value))
    && (forall item :: ok(item) ==> Returns(item, parse, show))
  }

  lemma {:induction false} ParsedItemsOk<T(!new)>(lines: seq<string>, parse: string -> Result<T, Problem>, show: T -> string, ok: T -> bool)
    requires Codec(parse, show, ok) && forall i :: 0 <= i < |lines| ==> '\n' !in lines[i]
    requires ParseLines(lines, parse).Ok?
    ensures forall i :: 0 <= i < |ParseLines(lines, parse).value| ==> ok(ParseLines(lines, parse).value[i])
  {
    if lines != [] {
      ParsedItemsOk(lines[..|lines| - 1], parse, show, ok);
      var line := Trim(lines[|lines| - 1]);
      if line != "" {
        TrimKeeps(lines[|lines| - 1], '\n');
        assert OneLine(line);
      }
    }
  }

  lemma ParseOneMore<T>(lines: seq<string>, line: string, parse: string -> Result<T, Problem>, items: seq<T>, item: T)
    requires ParseLines(lines, parse) == Ok(items)
    requires OneLine(line) && parse(line) == Ok(item)
    ensures ParseLines(lines + [line], parse) == Ok(items + [item])
  {
    ParseLast(lines, line, parse);
    assert Trim(line) == line;
  }

  /** The printed form of an item is one line that parses back to it. */
  predicate Returns<T(==)>(item: T, parse: string -> Result<T, Problem>, show: T -> string) {
    OneLine(show(item)) && parse(show(item)) == Ok(item)
  }

  lemma PrintedMore<T>(init: seq<T>, last: T, parse: string -> Result<T, Problem>, show: T -> string)
    requires ParseLines(PrintLines(init, show), parse) == Ok(init) && Returns(last, parse, show)
    ensures ParseLines(PrintLines(init + [last], show), parse) == Ok(init + [last])
  {
    PrintLast(init, last, show);
    ParseOneMore(PrintLines(init, show), show(last), parse, init, last);
  }

  lemma {:induction false} ParseOfPrinted<T>(items: seq<T>, parse: string -> Result<T, Problem>, show: T -> string)
    requires forall i :: 0 <= i < |items| ==> Returns(items[i], parse, show)
    ensures ParseLines(PrintLines(items, show), parse) == Ok(items)
  {
    if items != [] {
      var init, last := items[..|items| - 1], items[|items| - 1];
      assert items == init + [last] && Returns(last, parse, show);
      ParseOfPrinted(init, parse, show);
      PrintedMore(init, last, parse, show);
    }
  }

  /** Every list of items in order survives printing and parsing, and parsing gives such lists. */
  lemma TextRoundTrip<T(!new)>(text: string, parse: string -> Result<T, Problem>, show: T -> string, ok: T -> bool)
    requires Codec(parse, show, ok) && ParseLines(Lines(text), parse).Ok?
    ensures var items := ParseLines(Lines(text), parse).value;
      ParseLines(Lines(JoinWith(PrintLines(items, show), '\n')), parse) == Ok(items)
  {
    var items := ParseLines(Lines(text), parse).value;
    ParsedItemsOk(Lines(text), parse, show, ok);
    assert forall i :: 0 <= i < |items| ==> ok(items[i]) && Returns(items[i], parse, show);
    ParseOfPrinted(items, parse, show);
    LinesOfJoin(PrintLines(items, show));
  }

  /** No items at all is stored as "none configured". */
  function Listed<T>(items: Result<seq<T>, LineError>): Result<Option<seq<T>>, LineError> {
    match items
    case Err(error) => Err(error)
    case Ok(list) => if list == [] then Ok(None) else Ok(Some(list))
  }

  /** What a text stands for. */
  function Stored<T>(text: string, parse: string -> Result<T, Problem>): Result<Option<seq<T>>, LineError> {
    Listed(ParseLines(Lines(text), parse))
  }

  function PrintText<T>(items: Option<seq<T>>, show: T -> string): string {
    if items.None? then "" else JoinWith(PrintLines(items.value, show), '\n')
  }

  /** The lists that some text parses to are exactly the lists, other than the empty one, of items in order. */
  lemma Storable<T(!new)>(items: seq<T>, parse: string -> Result<T, Problem>, show: T -> string, ok: T -> bool)
    requires Codec(parse, show, ok)
    ensures (exists text :: Stored(text, parse) == Ok(Some(items)))
       <==> items != [] && forall i :: 0 <= i < |items| ==> ok(items[i])
  {
    if items != [] && forall i :: 0 <= i < |items| ==> ok(items[i]) {
      assert forall i :: 0 <= i < |items| ==> Returns(items[i], parse, show);
      ParseOfPrinted(items, parse, show);
      LinesOfJoin(PrintLines(items, show));
      assert Stored(JoinWith(PrintLines(items, show), '\n'), parse) == Ok(Some(items));
    }
    if text :| Stored(text, parse) == Ok(Some(items)) {
      ParsedItemsOk(Lines(text), parse, show, ok);
    }
  }
}
