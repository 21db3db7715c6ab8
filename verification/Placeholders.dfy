/**
 Which texts are placeholders, and what the command is, placeholder by placeholder from the left.  `word` is the
 regex library's word class: no white space and no closing brace.
 */
module Placeholders {
  import opened Options
  import opened Json
  import opened Text
  import opened Shell

  // ----- Placeholders -----

  predicate White(text: string) {
    forall i :: 0 <= i < |text| ==> IsSpace(text[i])
  }

  predicate PathText(text: string, word: char -> bool) {
    text != "" && forall i :: 0 <= i < |text| ==> word(text[i]) || text[i] == '.'
  }

  /** Two braces, white space, the path, white space, two braces. */
  function Braces(before: string, path: string, after: string): string {
    "{{" + before + path + after + "}}"
  }

  ghost predicate Bracketed(text: string, path: string) {
    exists before, after :: White(before) && White(after) && text == Braces(before, path, after)
  }

  /** The first `n` characters are a placeholder with this path. */
  ghost predicate IsPlaceholder(text: string, word: char -> bool, n: nat, path: string) {
    n <= |text| && PathText(path, word) && Bracketed(text[..n], path)
  }

  ghost predicate WordClass(word: char -> bool) {
    !word('}') && forall c :: word(c) ==> !IsSpace(c)
  }

  /** A placeholder by its places: white space, path, white space between `2`, `from`, `to` and `end`. */
  ghost predicate Placed(text: string, word: char -> bool, from: nat, to: nat, end: nat) {
    && 2 <= from < to <= end && end + 2 <= |text|
    && text[0] == '{' && text[1] == '{' && text[end] == '}' && text[end + 1] == '}'
    && (forall i :: 2 <= i < from || to <= i < end ==> IsSpace(text[i]))
    && (forall i :: from <= i < to ==> word(text[i]) || text[i] == '.')
  }

  lemma SpanIs(text: string, from: nat, test: char -> bool, end: nat)
    requires from <= end < |text| && (forall i :: from <= i < end ==> test(text[i])) && !test(text[end])
    ensures SpanEnd(text, from, test) == end
  {
  }

  lemma PlacedFound(text: string, word: char -> bool, from: nat, to: nat, end: nat)
    requires WordClass(word) && Placed(text, word, from, to, end)
    ensures PlaceholderAt(text, word) == Some((end + 2, text[from..to]))
  {
    assert !IsSpace(text[from]) && !IsSpace(text[end]) && !Dotted(word)(text[to]);
    SpanIs(text, 2, IsSpace, from);
    SpanIs(text, from, Dotted(word), to);
    SpanIs(text, to, IsSpace, end);
    assert text[..2] == "{{" && text[end..][..2] == "}}";
  }

  lemma FoundPlaced(text: string, word: char -> bool) returns (from: nat, to: nat, end: nat)
    requires PlaceholderAt(text, word).Some?
    ensures Placed(text, word, from, to, end) && PlaceholderAt(text, word) == Some((end + 2, text[from..to]))
  {
    from := SpanEnd(text, 2, IsSpace);
    to := SpanEnd(text, from, Dotted(word));
    end := SpanEnd(text, to, IsSpace);
    assert text[..2] == "{{" && text[end..][..2] == "}}";
  }

  lemma BracesPlaced(text: string, word: char -> bool, before: string, path: string, after: string)
    requires White(before) && White(after) && PathText(path, word) && Braces(before, path, after) <= text
    ensures var from := 2 + |before|;
      Placed(text, word, from, from + |path|, from + |path| + |after|) && text[from..from + |path|] == path
  {
    var front := Braces(before, path, after);
    assert forall i :: 0 <= i < |front| ==> text[i] == front[i];
    assert text[2 + |before|..2 + |before| + |path|] == front[2 + |before|..2 + |before| + |path|] == path;
  }

  lemma PlacedBraces(text: string, word: char -> bool, from: nat, to: nat, end: nat)
    requires Placed(text, word, from, to, end)
    ensures White(text[2..from]) && PathText(text[from..to], word) && White(text[to..end])
    ensures text[..end + 2] == Braces(text[2..from], text[from..to], text[to..end])
  {
    assert text[..2] == "{{" && text[end..end + 2] == "}}";
  }

  lemma PlaceholderRead(text: string, word: char -> bool)
    requires PlaceholderAt(text, word).Some?
    ensures var (n, path) := PlaceholderAt(text, word).value; IsPlaceholder(text, word, n, path)
  {
    var from, to, end := FoundPlaced(text, word);
    PlacedBraces(text, word, from, to, end);
  }

  lemma PlaceholderWritten(text: string, word: char -> bool, n: nat, path: string)
    requires WordClass(word) && IsPlaceholder(text, word, n, path)
    ensures PlaceholderAt(text, word) == Some((n, path))
  {
    var before, after :| White(before) && White(after) && text[..n] == Braces(before, path, after);
    BracesFound(text, word, before, path, after);
  }

  lemma BracesFound(text: string, word: char -> bool, before: string, path: string, after: string)
    requires WordClass(word) && White(before) && White(after) && PathText(path, word) && Braces(before, path, after) <= text
    ensures PlaceholderAt(text, word) == Some((|Braces(before, path, after)|, path))
  {
    BracesPlaced(text, word, before, path, after);
    var from := 2 + |before|;
    var to := from + |path|;
    PlacedFound(text, word, from, to, to + |after|);
  }

  /**
   Exactly two braces, any white space, a path of word characters and dots, any white space and two braces
   are a placeholder.
   */
  lemma PlaceholderExact(text: string, word: char -> bool, n: nat, path: string)
    requires WordClass(word)
    ensures PlaceholderAt(text, word) == Some((n, path)) <==> IsPlaceholder(text, word, n, path)
  {
    if PlaceholderAt(text, word) == Some((n, path)) {
      PlaceholderRead(text, word);
    }
    if IsPlaceholder(text, word, n, path) {
      PlaceholderWritten(text, word, n, path);
    }
  }

  // ----- The command -----

  /** No placeholder begins before place `i`. */
  ghost predicate NoneBefore(text: string, word: char -> bool, i: nat) {
    i <= |text| && forall j, n, path :: 0 <= j < i ==> !IsPlaceholder(text[j..], word, n, path)
  }

  predicate NoneFound(text: string, word: char -> bool, i: nat) {
    i <= |text| && forall j :: 0 <= j < i ==> PlaceholderAt(text[j..], word).None?
  }

  lemma NoneBeforeFound(text: string, word: char -> bool, i: nat)
    requires WordClass(word) && NoneBefore(text, word, i)
    ensures NoneFound(text, word, i)
  {
    forall j | 0 <= j < i ensures PlaceholderAt(text[j..], word).None? {
      if PlaceholderAt(text[j..], word).Some? {
        PlaceholderRead(text[j..], word);
      }
    }
  }

  /** Characters as segments. */
  function Literals(text: string): seq<Segment> {
    if text == "" then [] else [Literal(text[0])] + Literals(text[1..])
  }

  /** Up to a place before which nothing is found, the template is copied. */
  lemma {:induction false} CopyUpTo(text: string, word: char -> bool, i: nat)
    requires NoneFound(text, word, i)
    ensures Segments(text, word) == Literals(text[..i]) + Segments(text[i..], word)
    decreases i
  {
    if i == 0 {
      assert text[0..] == text && Literals(text[..0]) == [];
    } else {
      var rest := text[1..];
      NoneFoundBehind(text, word, i);
      CopyUpTo(rest, word, i - 1);
      CopyOne(text, word);
      RestSlices(text, i);
      Regroup([Literal(text[0])], Literals(rest[..i - 1]), Segments(text[i..], word));
    }
  }

  lemma RestSlices(text: string, i: nat)
    requires 0 < i <= |text|
    ensures text[1..][i - 1..] == text[i..]
    ensures Literals(text[..i]) == [Literal(text[0])] + Literals(text[1..][..i - 1])
  {
    assert text[..i][1..] == text[1..][..i - 1];
  }

  lemma NoneFoundBehind(text: string, word: char -> bool, i: nat)
    requires i > 0 && NoneFound(text, word, i)
    ensures PlaceholderAt(text, word).None? && NoneFound(text[1..], word, i - 1)
  {
    assert text[0..] == text;
    forall j | 0 <= j < i - 1 ensures PlaceholderAt(text[1..][j..], word).None? {
      assert text[1..][j..] == text[j + 1..];
    }
  }

  lemma CopyOne(text: string, word: char -> bool)
    requires text != "" && PlaceholderAt(text, word).None?
    ensures Segments(text, word) == [Literal(text[0])] + Segments(text[1..], word)
  {
  }

  lemma RenderFront(segment: Segment, rest: seq<Segment>, values: Values)
    ensures Render([segment] + rest, values) == SegmentText(segment, values) + Render(rest, values)
  {
    assert ([segment] + rest)[1..] == rest;
  }

  lemma {:induction false} RenderLiterals(text: string, segments: seq<Segment>, values: Values)
    ensures Render(Literals(text) + segments, values) == text + Render(segments, values)
  {
    if text == "" {
      assert Literals(text) + segments == segments;
    } else {
      var first, more := Literal(text[0]), Literals(text[1..]);
      Regroup([first], more, segments);
      RenderFront(first, more + segments, values);
      RenderLiterals(text[1..], segments, values);
      Regroup([text[0]], text[1..], Render(segments, values));
      assert text == [text[0]] + text[1..];
    }
  }

  /** Values that agree on the holes give the same command. */
  lemma {:induction false} RenderAgrees(segments: seq<Segment>, values: Values, other: Values)
    requires forall i :: 0 <= i < |segments| && segments[i].Hole? ==>
               (segments[i].path in values <==> segments[i].path in other)
               && (segments[i].path in values ==> values[segments[i].path] == other[segments[i].path])
    ensures Render(segments, values) == Render(segments, other)
  {
    if segments != [] {
      RenderAgrees(segments[1..], values, other);
    }
  }

  /** What is resolved for more segments gives the same command for these. */
  lemma RenderPart(segments: seq<Segment>, all: seq<Segment>, payload: Json, compact: Json -> string)
    requires forall i :: 0 <= i < |segments| ==> segments[i] in all
    ensures Render(segments, Resolved(all, payload, compact)) == Render(segments, Resolved(segments, payload, compact))
  {
    var values, others := Resolved(all, payload, compact), Resolved(segments, payload, compact);
    forall i | 0 <= i < |segments| && segments[i].Hole?
      ensures segments[i].path in values <==> segments[i].path in others
      ensures segments[i].path in values ==> values[segments[i].path] == others[segments[i].path]
    {
      var k :| 0 <= k < |all| && all[k] == segments[i];
    }
    RenderAgrees(segments, values, others);
  }

  lemma CommandIsRender(text: string, word: char -> bool, payload: Json, compact: Json -> string)
    ensures InterpolateCommand(text, word, payload, compact)
            == Render(Segments(text, word), Resolved(Segments(text, word), payload, compact))
  {
    ShortcutIsExact(text, word, Resolved(Segments(text, word), payload, compact));
  }

  /** A text without a placeholder is the command. */
  lemma CommandWithout(text: string, word: char -> bool, payload: Json, compact: Json -> string)
    requires WordClass(word) && NoneBefore(text, word, |text|)
    ensures InterpolateCommand(text, word, payload, compact) == text
  {
    NoneBeforeFound(text, word, |text|);
    CopyUpTo(text, word, |text|);
    CommandIsRender(text, word, payload, compact);
    assert text[|text|..] == "" && text[..|text|] == text;
    RenderLiterals(text, [], Resolved(Segments(text, word), payload, compact));
  }

  /** The command of a template that begins with a placeholder. */
  lemma FirstSegments(text: string, word: char -> bool, i: nat, n: nat, path: string)
    requires WordClass(word) && NoneBefore(text, word, i) && IsPlaceholder(text[i..], word, n, path)
    ensures n > 0 && i + n <= |text|
    ensures Segments(text, word)
            == Literals(text[..i]) + ([Hole(path, text[i..i + n])] + Segments(text[i + n..], word))
  {
    var tail := text[i..];
    NoneBeforeFound(text, word, i);
    CopyUpTo(text, word, i);
    PlaceholderWritten(tail, word, n, path);
    FoundFirst(tail, word, n, path);
    TailSlices(text, i, n);
  }

  lemma TailSlices(text: string, i: nat, n: nat)
    requires i + n <= |text|
    ensures text[i..][..n] == text[i..i + n] && text[i..][n..] == text[i + n..]
  {
  }

  lemma FoundFirst(text: string, word: char -> bool, n: nat, path: string)
    requires PlaceholderAt(text, word) == Some((n, path))
    ensures Segments(text, word) == [Hole(path, text[..n])] + Segments(text[n..], word)
  {
  }

  /**
   Up to the leftmost placeholder the command is the template; there it is the quoted text of the value that
   the payload has at the path, or the placeholder itself if it has none; and then the command of the rest.
   */
  lemma CommandFirst(text: string, word: char -> bool, i: nat, n: nat, path: string, payload: Json, compact: Json -> string)
    requires WordClass(word) && NoneBefore(text, word, i) && IsPlaceholder(text[i..], word, n, path)
    ensures i + n <= |text|
    ensures var value := Resolve(payload, path);
      InterpolateCommand(text, word, payload, compact)
      == text[..i] + ((if value.Some? then ShellEscape(ValueToString(value.value, compact)) else text[i..i + n])
         + InterpolateCommand(text[i + n..], word, payload, compact))
  {
    FirstSegments(text, word, i, n, path);
    var hole, rest := Hole(path, text[i..i + n]), Segments(text[i + n..], word);
    CommandIsRender(text, word, payload, compact);
    CommandIsRender(text[i + n..], word, payload, compact);
    RenderHole(text[..i], hole, rest, payload, compact);
  }

  lemma RenderHole(front: string, hole: Segment, rest: seq<Segment>, payload: Json, compact: Json -> string)
    requires hole.Hole?
    ensures var segments, value := Literals(front) + ([hole] + rest), Resolve(payload, hole.path);
      Render(segments, Resolved(segments, payload, compact))
      == front + ((if value.Some? then ShellEscape(ValueToString(value.value, compact)) else hole.raw)
         + Render(rest, Resolved(rest, payload, compact)))
  {
    var segments := Literals(front) + ([hole] + rest);
    var values := Resolved(segments, payload, compact);
    RenderLiterals(front, [hole] + rest, values);
    RenderFront(hole, rest, values);
    forall i | 0 <= i < |rest| ensures rest[i] in segments {
      assert segments[|Literals(front)| + 1 + i] == rest[i];
    }
    assert segments[|Literals(front)|] == hole;
    RenderPart(rest, segments, payload, compact);
  }

  /** The texts of values: a missing one is none, a null one is empty. */
  lemma ValueTexts(compact: Json -> string)
    ensures ValueToString(Null, compact) == "" && forall text :: ValueToString(Json.Text(text), compact) == text
    ensures ValueToString(Bool(true), compact) == "true" && ValueToString(Bool(false), compact) == "false"
    ensures forall digits :: ValueToString(Number(digits), compact) == digits
  {
  }
}
