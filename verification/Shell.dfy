/**
 Interpolation of payload values into a shell command, against the quoting rules of the POSIX Shell Command
 Language: section 2.2.1 (escape character), section 2.2.2 (single-quotes), section 2.2.3
 (double-quotes), the token rules of section 2.3 as far as blanks, operators and comments go, and the
 extent of what is read by other rules: a command between backquotes (section 2.6.3), and whatever
 follows the operator of a here-document (section 2.7.4).  Other expansions are not interpreted.
 */
module Shell {
  import opened Options
  import opened Json
  import opened Text

  // ----- The lexer -----

  /** Ticks: between backquotes, `quoted` when these stand in double-quotes; Document: after `<<`. */
  datatype Mode =
    | Plain | Escaped | Single | Double | DoubleEscaped | Comment
    | Ticks(quoted: bool, escaped: bool) | Document

  /** A character of a word, with whether quoting protects it; or the place of a value still to be filled in. */
  datatype Piece = Char(c: char, quoted: bool) | Slot(path: string)

  datatype Token = Word(pieces: seq<Piece>) | Operator(c: char)

  datatype Lexer = Lexer(mode: Mode, word: Option<seq<Piece>>, tokens: seq<Token>)

  const START := Lexer(Plain, None, [])

  function Pieces(l: Lexer): seq<Piece> {
    if l.word.Some? then l.word.value else []
  }

  function Add(l: Lexer, more: seq<Piece>): Lexer {
    l.(word := Some(Pieces(l) + more))
  }

  function Delimit(l: Lexer): Lexer {
    if l.word.Some? then l.(word := None, tokens := l.tokens + [Word(l.word.value)]) else l
  }

  function Emit(l: Lexer, c: char): Lexer {
    var ended := Delimit(l);
    ended.(tokens := ended.tokens + [Operator(c)])
  }

  function TickMode(mode: Mode, c: char): Mode
    requires mode.Ticks?
  {
    if mode.escaped then mode.(escaped := false)
    else if c == '\\' then mode.(escaped := true)
    else if c != '`' then mode
    else if mode.quoted then Double
    else Plain
  }

  /** The command behind a backquote is kept as it stands, up to the next backquote that is not escaped. */
  function Tick(l: Lexer, c: char): Lexer
    requires l.mode.Ticks?
  {
    Add(l, [Char(c, l.mode.quoted)]).(mode := TickMode(l.mode, c))
  }

  /** Has a `<` just been read? A second one begins a here-document. */
  predicate AfterLess(l: Lexer) {
    l.word.None? && l.tokens != [] && l.tokens[|l.tokens| - 1] == Operator('<')
  }

  function Step(l: Lexer, c: char): Lexer {
    match l.mode
    case Plain =>
      if c == '\'' then Add(l, []).(mode := Single)
      else if c == '"' then Add(l, []).(mode := Double)
      else if c == '\\' then l.(mode := Escaped)
      else if c == '#' && l.word.None? then l.(mode := Comment)
      else if c == ' ' || c == '\t' then Delimit(l)
      else if c == '<' && AfterLess(l) then Emit(l, c).(mode := Document)
      else if c in {'|', '&', ';', '<', '>', '(', ')', '\n'} then Emit(l, c)
      else if c == '`' then Add(l, [Char(c, false)]).(mode := Ticks(false, false))
      else Add(l, [Char(c, false)])
    case Escaped => if c == '\n' then l.(mode := Plain) else Add(l, [Char(c, true)]).(mode := Plain)
    case Single => if c == '\'' then l.(mode := Plain) else Add(l, [Char(c, true)])
    case Double =>
      if c == '"' then l.(mode := Plain)
      else if c == '\\' then l.(mode := DoubleEscaped)
      else if c == '`' then Add(l, [Char(c, true)]).(mode := Ticks(true, false))
      else Add(l, [Char(c, true)])
    case DoubleEscaped =>
      if c == '\n' then l.(mode := Double)
      else if c in {'$', '`', '"', '\\'} then Add(l, [Char(c, true)]).(mode := Double)
      else Add(l, [Char('\\', true), Char(c, true)]).(mode := Double)
    case Comment => if c == '\n' then Emit(l, c).(mode := Plain) else l
    case Ticks(_, _) => Tick(l, c)
    case Document => Add(l, [Char(c, false)])
  }

  function Lex(l: Lexer, text: string): Lexer
    decreases text
  {
    if text == "" then l else Lex(Step(l, text[0]), text[1..])
  }

  lemma {:induction false} LexConcat(l: Lexer, front: string, back: string)
    ensures Lex(l, front + back) == Lex(Lex(l, front), back)
    decreases front
  {
    if front == "" {
      assert front + back == back;
    } else {
      assert (front + back)[1..] == front[1..] + back;
      LexConcat(Step(l, front[0]), front[1..], back);
    }
  }

  // ----- Escaping -----

  function EscapeQuotes(value: string): string {
    if value == "" then ""
    else (if value[0] == '\'' then "'\\''" else [value[0]]) + EscapeQuotes(value[1..])
  }

  function ShellEscape(value: string): string {
    if '\'' !in value then "'" + value + "'" else "'" + EscapeQuotes(value) + "'"
  }

  function Quoted(value: string): seq<Piece> {
    seq(|value|, i requires 0 <= i < |value| => Char(value[i], true))
  }

  lemma {:induction false} NoQuotes(value: string)
    requires '\'' !in value
    ensures EscapeQuotes(value) == value
  {
    if value != "" {
      assert value[0] in value && forall c :: c in value[1..] ==> c in value;
      NoQuotes(value[1..]);
    }
  }

  /** The idiom for a quote: close, escaped quote, open. */
  lemma QuoteIdiom(l: Lexer)
    requires l.mode == Single
    ensures Lex(l, "'\\''") == Add(l, [Char('\'', true)])
  {
    var text := "'\\''";
    assert text[1..] == "\\''" && "\\''"[1..] == "''" && "''"[1..] == "'" && "'"[1..] == "";
    var closed := Step(l, '\'');
    var escaped := Step(closed, '\\');
    var added := Step(escaped, '\'');
    var inside := Step(added, '\'');
    assert Lex(inside, "") == inside;
    assert Lex(added, "'") == inside && Lex(escaped, "''") == inside;
    assert Lex(closed, "\\''") == inside;
    assert Pieces(l) + [Char('\'', true)] + [] == Pieces(l) + [Char('\'', true)];
  }

  /** Between the quotes, every character of the value joins the word as a quoted character. */
  lemma {:induction false} InsideQuotes(l: Lexer, value: string)
    requires l.mode == Single && l.word.Some?
    ensures Lex(l, EscapeQuotes(value)) == Add(l, Quoted(value))
    decreases value
  {
    if value == "" {
      assert Pieces(l) + Quoted(value) == Pieces(l);
    } else {
      var first := if value[0] == '\'' then "'\\''" else [value[0]];
      var next := Add(l, [Char(value[0], true)]);
      if value[0] == '\'' {
        QuoteIdiom(l);
      } else {
        assert first[1..] == "" && Lex(l, first) == Lex(Step(l, value[0]), "") == next;
      }
      LexConcat(l, first, EscapeQuotes(value[1..]));
      InsideQuotes(next, value[1..]);
      assert Quoted(value) == [Char(value[0], true)] + Quoted(value[1..]);
      assert Pieces(l) + Quoted(value) == Pieces(l) + [Char(value[0], true)] + Quoted(value[1..]);
    }
  }

  /** In an unquoted position an escaped value contributes exactly its own characters, quoted, to one word. */
  lemma EscapedValue(l: Lexer, value: string)
    requires l.mode == Plain
    ensures Lex(l, ShellEscape(value)) == Add(l, Quoted(value))
  {
    var inner := EscapeQuotes(value);
    if '\'' !in value {
      NoQuotes(value);
    }
    assert ShellEscape(value) == "'" + inner + "'";
    var inside := Step(l, '\'');
    assert "'"[1..] == "";
    assert Lex(l, "'") == Lex(inside, "") == inside;
    LexConcat(l, "'", inner + "'");
    assert "'" + (inner + "'") == "'" + inner + "'";
    LexConcat(inside, inner, "'");
    InsideQuotes(inside, value);
    var filled := Add(inside, Quoted(value));
    assert Lex(filled, "'") == Lex(Step(filled, '\''), "") == Step(filled, '\'');
    assert Pieces(l) + [] + Quoted(value) == Pieces(l) + Quoted(value);
  }

  /** The position is one where every value, whatever its characters, just joins the word. */
  ghost predicate SafePosition(l: Lexer) {
    forall value :: Lex(l, ShellEscape(value)) == Add(l, Quoted(value))
  }

  lemma LexTwo(l: Lexer, a: char, b: char)
    ensures Lex(l, [a, b]) == Step(Step(l, a), b)
  {
    assert [a, b][1..] == [b] && [b][1..] == "";
    assert Lex(Step(l, a), [b]) == Lex(Step(Step(l, a), b), "");
  }

  lemma LexThree(l: Lexer, a: char, b: char, c: char)
    ensures Lex(l, [a, b, c]) == Step(Step(Step(l, a), b), c)
  {
    assert [a, b, c][1..] == [b, c];
    LexTwo(Step(l, a), b, c);
  }

  /**
   Exactly the unquoted positions are safe: not inside quotes or backquotes, after a backslash, in a
   comment, or after the operator of a here-document.
   */
  lemma SafePositionExact(l: Lexer)
    ensures SafePosition(l) <==> l.mode == Plain
  {
    if l.mode == Plain {
      forall value ensures Lex(l, ShellEscape(value)) == Add(l, Quoted(value)) {
        EscapedValue(l, value);
      }
    } else if l.mode == Single || l.mode == Comment {
      UnsafeLetter(l);
    } else if l.mode.Ticks? {
      UnsafeTick(l);
    } else {
      UnsafeEmpty(l);
    }
  }

  lemma UnsafeEmpty(l: Lexer)
    requires l.mode in {Escaped, Double, DoubleEscaped, Document}
    ensures Lex(l, ShellEscape("")) != Add(l, Quoted(""))
  {
    assert ShellEscape("") == ['\'', '\''];
    LexTwo(l, '\'', '\'');
    assert |Pieces(Add(l, Quoted("")))| == |Pieces(l)|;
  }

  /** A backquote in a value ends the command substitution around it. */
  lemma UnsafeTick(l: Lexer)
    requires l.mode.Ticks?
    ensures Lex(l, ShellEscape("`")) != Add(l, Quoted("`"))
  {
    assert ShellEscape("`") == ['\'', '`', '\''];
    LexThree(l, '\'', '`', '\'');
    assert !Lex(l, ShellEscape("`")).mode.Ticks?;
  }

  lemma UnsafeLetter(l: Lexer)
    requires l.mode == Single || l.mode == Comment
    ensures Lex(l, ShellEscape("a")) != Add(l, Quoted("a"))
  {
    assert ShellEscape("a") == ['\'', 'a', '\''];
    LexThree(l, '\'', 'a', '\'');
    var joined := Add(l, Quoted("a"));
    assert Pieces(joined)[|Pieces(l)|] == Char('a', true);
    if l.mode == Single {
      assert Pieces(Lex(l, ShellEscape("a")))[|Pieces(l)|] == Char('a', false);
    } else {
      assert Lex(l, ShellEscape("a")) == l && |Pieces(joined)| == |Pieces(l)| + 1;
    }
  }

  // ----- Templates -----

  /** A template cut at its placeholders. */
  datatype Segment = Literal(c: char) | Hole(path: string, raw: string)

  /** The place behind the characters from `from` on that satisfy the test. */
  function SpanEnd(text: string, from: nat, test: char -> bool): (end: nat)
    requires from <= |text|
    ensures from <= end <= |text| && forall i :: from <= i < end ==> test(text[i])
    ensures end < |text| ==> !test(text[end])
    decreases |text| - from
  {
    if from < |text| && test(text[from]) then SpanEnd(text, from + 1, test) else from
  }

  /** The characters of a path. */
  function Dotted(word: char -> bool): char -> bool {
    c => word(c) || c == '.'
  }

  /**
   The length and path of a placeholder at the start of the text: two braces, white space, a path of
   word characters and dots, white space, two braces.  `word` is the regex library's word class.
   */
  function PlaceholderAt(text: string, word: char -> bool): (found: Option<(nat, string)>)
    ensures found.Some? ==> 0 < found.value.0 <= |text|
  {
    if !("{{" <= text) then None
    else
      var from := SpanEnd(text, 2, IsSpace);
      var to := SpanEnd(text, from, Dotted(word));
      var end := SpanEnd(text, to, IsSpace);
      if from < to && "}}" <= text[end..] then Some((end + 2, text[from..to])) else None
  }

  function Segments(text: string, word: char -> bool): seq<Segment>
    decreases |text|
  {
    if text == "" then []
    else
      match PlaceholderAt(text, word)
      case None => [Literal(text[0])] + Segments(text[1..], word)
      case Some((n, path)) => [Hole(path, text[..n])] + Segments(text[n..], word)
  }

  /** The texts of the resolved paths. */
  type Values = map<string, string>

  function SegmentText(segment: Segment, values: Values): string {
    match segment
    case Literal(c) => [c]
    case Hole(path, raw) => if path in values then ShellEscape(values[path]) else raw
  }

  function Render(segments: seq<Segment>, values: Values): string {
    if segments == [] then "" else SegmentText(segments[0], values) + Render(segments[1..], values)
  }

  predicate Braced(text: string) {
    text != "" && ("{{" <= text || Braced(text[1..]))
  }

  function Interpolate(template: string, word: char -> bool, values: Values): string {
    if !Braced(template) then template else Render(Segments(template, word), values)
  }

  /** The shortcut for a template without braces changes nothing. */
  lemma {:induction false} ShortcutIsExact(template: string, word: char -> bool, values: Values)
    ensures Interpolate(template, word, values) == Render(Segments(template, word), values)
  {
    if !Braced(template) && template != "" {
      ShortcutIsExact(template[1..], word, values);
      assert Segments(template, word)[1..] == Segments(template[1..], word);
      assert [template[0]] + template[1..] == template;
    }
  }

  // ----- Lexing a template with its slots still open -----

  function SegmentStep(l: Lexer, segment: Segment, known: set<string>): Lexer {
    match segment
    case Literal(c) => Step(l, c)
    case Hole(path, raw) => if path in known then Add(l, [Slot(path)]) else Lex(l, raw)
  }

  /** The lexer over a template whose resolved holes, `known`, are slots of the word they stand in. */
  function LexTemplate(l: Lexer, segments: seq<Segment>, known: set<string>): Lexer
    decreases segments
  {
    if segments == [] then l else LexTemplate(SegmentStep(l, segments[0], known), segments[1..], known)
  }

  /** Every resolved hole stands in an unquoted position; none between backquotes or after `<<`. */
  predicate HolesUnquoted(l: Lexer, segments: seq<Segment>, known: set<string>)
    decreases segments
  {
    segments == []
    || ((segments[0].Hole? && segments[0].path in known ==> l.mode == Plain)
        && HolesUnquoted(SegmentStep(l, segments[0], known), segments[1..], known))
  }

  // ----- Filling the slots -----

  function FillPiece(piece: Piece, values: Values): seq<Piece> {
    match piece
    case Char(_, _) => [piece]
    case Slot(path) => if path in values then Quoted(values[path]) else []
  }

  function FillPieces(pieces: seq<Piece>, values: Values): seq<Piece> {
    if pieces == [] then [] else FillPieces(pieces[..|pieces| - 1], values) + FillPiece(pieces[|pieces| - 1], values)
  }

  function FillToken(token: Token, values: Values): Token {
    match token
    case Word(pieces) => Word(FillPieces(pieces, values))
    case Operator(c) => token
  }

  function FillTokens(tokens: seq<Token>, values: Values): seq<Token> {
    seq(|tokens|, i requires 0 <= i < |tokens| => FillToken(tokens[i], values))
  }

  function Fill(l: Lexer, values: Values): Lexer {
    Lexer(l.mode, if l.word.Some? then Some(FillPieces(l.word.value, values)) else None, FillTokens(l.tokens, values))
  }

  lemma FillAppend(pieces: seq<Piece>, piece: Piece, values: Values)
    ensures FillPieces(pieces + [piece], values) == FillPieces(pieces, values) + FillPiece(piece, values)
  {
    assert (pieces + [piece])[..|pieces|] == pieces;
  }

  lemma {:induction false} FillConcat(front: seq<Piece>, back: seq<Piece>, values: Values)
    ensures FillPieces(front + back, values) == FillPieces(front, values) + FillPieces(back, values)
  {
    if back == [] {
      assert front + back == front;
    } else {
      var init, last := back[..|back| - 1], back[|back| - 1];
      assert back == init + [last];
      calc {
        FillPieces(front + back, values);
        { Regroup(front, init, [last]); }
        FillPieces((front + init) + [last], values);
        { FillAppend(front + init, last, values); FillConcat(front, init, values); }
        (FillPieces(front, values) + FillPieces(init, values)) + FillPiece(last, values);
        { Regroup(FillPieces(front, values), FillPieces(init, values), FillPiece(last, values)); FillAppend(init, last, values); }
        FillPieces(front, values) + FillPieces(back, values);
      }
    }
  }

  lemma FillChars(c: char, quoted: bool, values: Values)
    ensures FillPieces([Char(c, quoted)], values) == [Char(c, quoted)]
  {
    assert [Char(c, quoted)][..0] == [];
  }

  lemma FillAdd(l: Lexer, more: seq<Piece>, values: Values)
    ensures Fill(Add(l, more), values) == Add(Fill(l, values), FillPieces(more, values))
  {
    FillConcat(Pieces(l), more, values);
  }

  lemma FillDelimit(l: Lexer, values: Values)
    ensures Fill(Delimit(l), values) == Delimit(Fill(l, values))
  {
    if l.word.Some? {
      var tokens := l.tokens + [Word(l.word.value)];
      assert FillTokens(tokens, values) == FillTokens(l.tokens, values) + [Word(FillPieces(l.word.value, values))];
    }
  }

  lemma FillEmit(l: Lexer, c: char, values: Values)
    ensures Fill(Emit(l, c), values) == Emit(Fill(l, values), c)
  {
    FillDelimit(l, values);
    var ended := Delimit(l);
    assert FillTokens(ended.tokens + [Operator(c)], values) == FillTokens(ended.tokens, values) + [Operator(c)];
  }

  /** Adding one character and changing the mode. */
  lemma FillAddChar(l: Lexer, c: char, quoted: bool, values: Values)
    ensures Fill(Add(l, [Char(c, quoted)]), values) == Add(Fill(l, values), [Char(c, quoted)])
  {
    FillAdd(l, [Char(c, quoted)], values);
    FillChars(c, quoted, values);
  }

  lemma FillPlain(l: Lexer, c: char, values: Values)
    requires l.mode == Plain
    ensures Fill(Step(l, c), values) == Step(Fill(l, values), c)
  {
    if c == '\'' || c == '"' {
      FillAdd(l, [], values);
    } else if c == ' ' || c == '\t' {
      FillDelimit(l, values);
    } else if c in {'|', '&', ';', '<', '>', '(', ')', '\n'} {
      FillEmit(l, c, values);
      FillMode(Emit(l, c), Document, values);
      FillAfterLess(l, values);
    } else {
      FillAddChar(l, c, false, values);
      FillMode(Add(l, [Char(c, false)]), Ticks(false, false), values);
    }
  }

  lemma FillMode(l: Lexer, mode: Mode, values: Values)
    ensures Fill(l.(mode := mode), values) == Fill(l, values).(mode := mode)
  {
  }

  lemma FillAfterLess(l: Lexer, values: Values)
    ensures AfterLess(Fill(l, values)) <==> AfterLess(l)
  {
  }

  lemma FillTick(l: Lexer, c: char, values: Values)
    requires l.mode.Ticks?
    ensures Fill(Step(l, c), values) == Step(Fill(l, values), c)
  {
    FillAddChar(l, c, l.mode.quoted, values);
    FillMode(Add(l, [Char(c, l.mode.quoted)]), TickMode(l.mode, c), values);
  }

  lemma FillDoubleEscaped(l: Lexer, c: char, values: Values)
    requires l.mode == DoubleEscaped
    ensures Fill(Step(l, c), values) == Step(Fill(l, values), c)
  {
    if c in {'$', '`', '"', '\\'} {
      FillAddChar(l, c, true, values);
    } else if c != '\n' {
      FillAdd(l, [Char('\\', true), Char(c, true)], values);
      FillConcat([Char('\\', true)], [Char(c, true)], values);
      FillChars('\\', true, values);
      FillChars(c, true, values);
      assert [Char('\\', true)] + [Char(c, true)] == [Char('\\', true), Char(c, true)];
    }
  }

  lemma FillQuoted(l: Lexer, c: char, values: Values)
    requires l.mode == Escaped || l.mode == Single || l.mode == Double
    ensures Fill(Step(l, c), values) == Step(Fill(l, values), c)
  {
    var added := Add(l, [Char(c, true)]);
    assert Fill(added, values) == Add(Fill(l, values), [Char(c, true)]) by {
      FillAddChar(l, c, true, values);
    }
    FillMode(added, Step(l, c).mode, values);
  }

  lemma FillComment(l: Lexer, c: char, values: Values)
    requires l.mode == Comment
    ensures Fill(Step(l, c), values) == Step(Fill(l, values), c)
  {
    if c == '\n' {
      FillEmit(l, c, values);
      assert Fill(Emit(l, c).(mode := Plain), values) == Fill(Emit(l, c), values).(mode := Plain);
    }
  }

  lemma FillStep(l: Lexer, c: char, values: Values)
    ensures Fill(Step(l, c), values) == Step(Fill(l, values), c)
  {
    if l.mode == Plain {
      FillPlain(l, c, values);
    } else if l.mode == DoubleEscaped {
      FillDoubleEscaped(l, c, values);
    } else if l.mode == Comment {
      FillComment(l, c, values);
    } else if l.mode.Ticks? {
      FillTick(l, c, values);
    } else if l.mode == Document {
      FillAddChar(l, c, false, values);
    } else {
      FillQuoted(l, c, values);
    }
  }

  lemma {:induction false} FillLex(l: Lexer, text: string, values: Values)
    ensures Fill(Lex(l, text), values) == Lex(Fill(l, values), text)
    decreases text
  {
    if text != "" {
      FillStep(l, text[0], values);
      FillLex(Step(l, text[0]), text[1..], values);
    }
  }

  lemma FillSlot(l: Lexer, path: string, values: Values)
    requires path in values
    ensures Fill(Add(l, [Slot(path)]), values) == Add(Fill(l, values), Quoted(values[path]))
  {
    FillAdd(l, [Slot(path)], values);
    assert [Slot(path)][..0] == [];
    assert FillPieces([Slot(path)], values) == Quoted(values[path]);
  }

  /** One segment: lexing its text over a filled lexer is filling after lexing the template. */
  lemma SegmentCommutes(l: Lexer, segment: Segment, values: Values)
    requires segment.Hole? && segment.path in values ==> l.mode == Plain
    ensures Lex(Fill(l, values), SegmentText(segment, values)) == Fill(SegmentStep(l, segment, values.Keys), values)
  {
    match segment
    case Literal(c) =>
      FillStep(l, c, values);
      assert [c][1..] == "" && Lex(Step(Fill(l, values), c), "") == Step(Fill(l, values), c);
    case Hole(path, raw) =>
      if path in values {
        EscapedValue(Fill(l, values), values[path]);
        FillSlot(l, path, values);
      } else {
        FillLex(l, raw, values);
      }
  }

  lemma {:induction false} SegmentsCommute(l: Lexer, segments: seq<Segment>, values: Values)
    requires HolesUnquoted(l, segments, values.Keys)
    ensures Lex(Fill(l, values), Render(segments, values)) == Fill(LexTemplate(l, segments, values.Keys), values)
    decreases segments
  {
    if segments != [] {
      SegmentCommutes(l, segments[0], values);
      LexConcat(Fill(l, values), SegmentText(segments[0], values), Render(segments[1..], values));
      SegmentsCommute(SegmentStep(l, segments[0], values.Keys), segments[1..], values);
    }
  }

  /**
   Interpolation commutes with lexing.  When the resolved placeholders stand in unquoted positions, the
   tokens of the command are those of the template, in which each slot is filled with exactly the
   characters of its value, all quoted: braces, quotes, blanks or operators in a value mean nothing.
   */
  lemma InterpolationCommutes(template: string, word: char -> bool, values: Values)
    requires HolesUnquoted(START, Segments(template, word), values.Keys)
    ensures Lex(START, Interpolate(template, word, values))
            == Fill(LexTemplate(START, Segments(template, word), values.Keys), values)
  {
    ShortcutIsExact(template, word, values);
    SegmentsCommute(START, Segments(template, word), values);
    assert Fill(START, values) == START;
  }

  // ----- From the payload -----

  /** The placeholders that the payload resolves, with their texts. */
  function Resolved(segments: seq<Segment>, payload: Json, compact: Json -> string): (values: Values)
    ensures forall path :: path in values ==>
              Resolve(payload, path).Some? && values[path] == ValueToString(Resolve(payload, path).value, compact)
    ensures forall i :: 0 <= i < |segments| && segments[i].Hole? ==>
              (segments[i].path in values <==> Resolve(payload, segments[i].path).Some?)
  {
    map i | 0 <= i < |segments| && segments[i].Hole? && Resolve(payload, segments[i].path).Some?
      :: segments[i].path := ValueToString(Resolve(payload, segments[i].path).value, compact)
  }

  function InterpolateCommand(template: string, word: char -> bool, payload: Json, compact: Json -> string): string {
    Interpolate(template, word, Resolved(Segments(template, word), payload, compact))
  }

  function RawText(segment: Segment): string {
    match segment
    case Literal(c) => [c]
    case Hole(_, raw) => raw
  }

  function Raw(segments: seq<Segment>): string {
    if segments == [] then "" else RawText(segments[0]) + Raw(segments[1..])
  }

  /** The segments cover the template. */
  lemma {:induction false} SegmentsCover(text: string, word: char -> bool)
    ensures Raw(Segments(text, word)) == text
    decreases |text|
  {
    if text != "" {
      var found := PlaceholderAt(text, word);
      var n := if found.Some? then found.value.0 else 1;
      SegmentsCover(text[n..], word);
      assert Segments(text, word)[1..] == Segments(text[n..], word);
      assert text == text[..n] + text[n..];
    }
  }

  predicate NoneResolves(segments: seq<Segment>, payload: Json) {
    forall i :: 0 <= i < |segments| && segments[i].Hole? ==> Resolve(payload, segments[i].path).None?
  }

  lemma {:induction false} RenderRaw(segments: seq<Segment>, values: Values)
    requires forall i :: 0 <= i < |segments| && segments[i].Hole? ==> segments[i].path !in values
    ensures Render(segments, values) == Raw(segments)
  {
    if segments != [] {
      RenderRaw(segments[1..], values);
    }
  }

  /** Without a placeholder that the payload resolves the command is the template. */
  lemma UnresolvedUnchanged(template: string, word: char -> bool, payload: Json, compact: Json -> string)
    requires NoneResolves(Segments(template, word), payload)
    ensures InterpolateCommand(template, word, payload, compact) == template
  {
    var segments := Segments(template, word);
    var values := Resolved(segments, payload, compact);
    ShortcutIsExact(template, word, values);
    RenderRaw(segments, values);
    SegmentsCover(template, word);
  }

  // ----- Two payloads -----

  /** The characters of a word that no quoting protects. */
  function Unquoted(pieces: seq<Piece>): seq<char> {
    if pieces == [] then []
    else
      var last := pieces[|pieces| - 1];
      Unquoted(pieces[..|pieces| - 1]) + if last.Char? && !last.quoted then [last.c] else []
  }

  lemma {:induction false} UnquotedConcat(front: seq<Piece>, back: seq<Piece>)
    ensures Unquoted(front + back) == Unquoted(front) + Unquoted(back)
  {
    if back == [] {
      assert front + back == front;
    } else {
      var init := back[..|back| - 1];
      assert (front + back)[..|front + back| - 1] == front + init;
      UnquotedConcat(front, init);
    }
  }

  lemma {:induction false} NothingUnquoted(pieces: seq<Piece>)
    requires forall i :: 0 <= i < |pieces| ==> pieces[i].Char? && pieces[i].quoted
    ensures Unquoted(pieces) == []
  {
    if pieces != [] {
      NothingUnquoted(pieces[..|pieces| - 1]);
    }
  }

  /** Filling the slots brings in nothing unquoted. */
  lemma {:induction false} FillUnquoted(pieces: seq<Piece>, values: Values)
    ensures Unquoted(FillPieces(pieces, values)) == Unquoted(pieces)
  {
    if pieces != [] {
      var init, last := pieces[..|pieces| - 1], pieces[|pieces| - 1];
      FillUnquoted(init, values);
      UnquotedConcat(FillPieces(init, values), FillPiece(last, values));
      if last.Slot? {
        NothingUnquoted(FillPiece(last, values));
      } else {
        assert [last][..0] == [];
      }
    }
  }

  /** The payloads resolve the same placeholders. */
  predicate SameResolved(segments: seq<Segment>, payload: Json, other: Json) {
    forall i :: 0 <= i < |segments| && segments[i].Hole? ==>
      (Resolve(payload, segments[i].path).Some? <==> Resolve(other, segments[i].path).Some?)
  }

  predicate SameShape(token: Token, other: Token) {
    match token
    case Operator(_) => token == other
    case Word(pieces) => other.Word? && Unquoted(pieces) == Unquoted(other.pieces)
  }

  lemma FillShape(token: Token, values: Values, other: Values)
    ensures SameShape(FillToken(token, values), FillToken(token, other))
  {
    if token.Word? {
      FillUnquoted(token.pieces, values);
      FillUnquoted(token.pieces, other);
    }
  }

  /**
   Two payloads that resolve the same placeholders, in unquoted positions, give commands of the same
   structure: the same operators, and in corresponding words the same characters outside quotes.
   */
  lemma SameStructure(template: string, word: char -> bool, payload: Json, other: Json, compact: Json -> string)
    requires SameResolved(Segments(template, word), payload, other)
    requires HolesUnquoted(START, Segments(template, word), Resolved(Segments(template, word), payload, compact).Keys)
    ensures var l := Lex(START, InterpolateCommand(template, word, payload, compact));
      var m := Lex(START, InterpolateCommand(template, word, other, compact));
      && l.mode == m.mode && |l.tokens| == |m.tokens| && (l.word.Some? <==> m.word.Some?)
      && (forall i :: 0 <= i < |l.tokens| ==> SameShape(l.tokens[i], m.tokens[i]))
      && (l.word.Some? ==> Unquoted(l.word.value) == Unquoted(m.word.value))
  {
    var segments := Segments(template, word);
    var values, others := Resolved(segments, payload, compact), Resolved(segments, other, compact);
    SameKeys(segments, payload, other, compact);
    InterpolationCommutes(template, word, values);
    InterpolationCommutes(template, word, others);
    var open := LexTemplate(START, segments, values.Keys);
    forall i | 0 <= i < |open.tokens|
      ensures SameShape(FillToken(open.tokens[i], values), FillToken(open.tokens[i], others))
    {
      FillShape(open.tokens[i], values, others);
    }
    if open.word.Some? {
      FillUnquoted(open.word.value, values);
      FillUnquoted(open.word.value, others);
    }
  }

  lemma SameKeys(segments: seq<Segment>, payload: Json, other: Json, compact: Json -> string)
    requires SameResolved(segments, payload, other)
    ensures Resolved(segments, payload, compact).Keys == Resolved(segments, other, compact).Keys
  {
  }
}
