/**
 The four textareas of the hook form: payload fields, payload filters, time windows and environment.  Each is
 printed for the edit page and parsed on submit; every text that is accepted survives the way through the page.
 */
module HookForm {
  import opened Options
  import opened Json
  import opened FormText
  import opened Text

  // ----- Payload fields -----

  datatype FieldType = StringType | NumberType | BooleanType | ObjectType | ArrayType

  datatype Field = Field(name: string, fieldType: FieldType, required: bool)

  function TypeName(t: FieldType): string {
    match t
    case StringType => "string"
    case NumberType => "number"
    case BooleanType => "boolean"
    case ObjectType => "object"
    case ArrayType => "array"
  }

  function TypeOf(word: string): (t: Option<FieldType>)
    ensures t.Some? ==> TypeName(t.value) == word
    ensures t.None? ==> forall u :: TypeName(u) != word
  {
    if word == "string" then Some(StringType)
    else if word == "number" then Some(NumberType)
    else if word == "boolean" then Some(BooleanType)
    else if word == "object" then Some(ObjectType)
    else if word == "array" then Some(ArrayType)
    else None
  }

  /** A line of a form, cut at its first two colons: two or three parts, or none of it when there is no colon. */
  datatype Parts = Parts(name: string, word: string, rest: Option<string>)

  function CutTwice(line: string): Option<Parts> {
    match CutAt(line, ':')
    case None => None
    case Some((name, tail)) =>
      match CutAt(tail, ':')
      case None => Some(Parts(name, tail, None))
      case Some((word, rest)) => Some(Parts(name, word, Some(rest)))
  }

  function FieldOf(parts: Parts): Result<Field, Problem> {
    var name, word := Trim(parts.name), TypeOf(Trim(parts.word));
    if name == "" then Err(EmptyName)
    else if word.None? then Err(UnknownWord)
    else if parts.rest.None? then Ok(Field(name, word.value, false))
    else
      var flag := Trim(parts.rest.value);
      if flag == "required" then Ok(Field(name, word.value, true))
      else if flag == "optional" || flag == "" then Ok(Field(name, word.value, false))
      else Err(UnknownWord)
  }

  function ParseField(line: string): Result<Field, Problem> {
    var parts := CutTwice(line);
    if parts.None? then Err(MissingPart) else FieldOf(parts.value)
  }

  /** The parts of a line, put together again. */
  function JoinParts(parts: Parts): string {
    parts.name + [':'] + if parts.rest.None? then parts.word else parts.word + [':'] + parts.rest.value
  }

  function FieldParts(field: Field): Parts {
    Parts(field.name, TypeName(field.fieldType), if field.required then Some("required") else None)
  }

  function PrintField(field: Field): string {
    JoinParts(FieldParts(field))
  }

  /** A name as the form can hold it: cut at a colon and trimmed. */
  predicate Name(text: string, cut: char) {
    OneLine(text) && cut !in text
  }

  /** The words of the form and the types they name. */
  lemma TypeWords(word: string)
    ensures TypeOf(word) ==
      if word == "string" then Some(StringType) else if word == "number" then Some(NumberType)
      else if word == "boolean" then Some(BooleanType) else if word == "object" then Some(ObjectType)
      else if word == "array" then Some(ArrayType) else None
  {
  }

  /**
   What a line stands for: a trimmed name that is not empty, the word of a type, and then nothing, "optional",
   nothing after a colon, or "required", with white space anywhere around the three.
   */
  lemma FieldAccepted(name: string, word: string, rest: Option<string>, field: Field)
    requires ':' !in name && ':' !in word
    ensures ParseField(JoinParts(Parts(name, word, rest))) == Ok(field)
       <==> && field.name == Trim(name) != "" && Trim(word) == TypeName(field.fieldType)
            && if field.required then rest.Some? && Trim(rest.value) == "required"
               else rest.None? || Trim(rest.value) == "optional" || Trim(rest.value) == ""
  {
    CutTwiceExact(JoinParts(Parts(name, word, rest)), Parts(name, word, rest));
    FieldOfParts(Parts(name, word, rest), field);
  }

  lemma FieldOfParts(parts: Parts, field: Field)
    ensures FieldOf(parts) == Ok(field)
       <==> && field.name == Trim(parts.name) != "" && Trim(parts.word) == TypeName(field.fieldType)
            && if field.required then parts.rest.Some? && Trim(parts.rest.value) == "required"
               else parts.rest.None? || Trim(parts.rest.value) == "optional" || Trim(parts.rest.value) == ""
  {
    TypeBack(field.fieldType);
  }

  lemma TypeBack(t: FieldType)
    ensures TypeOf(TypeName(t)) == Some(t)
  {
  }

  /** Why a line is refused, in the order in which the reasons are looked for. */
  lemma FieldRefused(line: string, name: string, word: string, rest: Option<string>)
    ensures ':' !in line ==> ParseField(line) == Err(MissingPart)
    ensures line == JoinParts(Parts(name, word, rest)) && ':' !in name && ':' !in word ==>
      && (Trim(name) == "" ==> ParseField(line) == Err(EmptyName))
      && (Trim(name) != "" && Trim(word) !in {"string", "number", "boolean", "object", "array"} ==> ParseField(line) == Err(UnknownWord))
      && (Trim(name) != "" && rest.Some? && Trim(rest.value) !in {"required", "optional", ""} ==> ParseField(line) == Err(UnknownWord))
  {
    CutTwiceExact(line, Parts(name, word, rest));
  }

  predicate FieldOk(field: Field) { Name(field.name, ':') }

  // ----- Payload filters -----

  datatype Operator = Equals | NotEquals | Contains | Regex | Exists | Gt | Lt | Gte | Lte

  datatype Filter = Filter(field: string, operator: Operator, value: Option<string>)

  function OperatorName(operator: Operator): string {
    match operator
    case Equals => "equals"
    case NotEquals => "not_equals"
    case Contains => "contains"
    case Regex => "regex"
    case Exists => "exists"
    case Gt => "gt"
    case Lt => "lt"
    case Gte => "gte"
    case Lte => "lte"
  }

  function OperatorOf(word: string): (operator: Option<Operator>)
    ensures operator.Some? ==> OperatorName(operator.value) == word
    ensures operator.None? ==> forall o :: OperatorName(o) != word
  {
    if word == "equals" then Some(Equals)
    else if word == "not_equals" then Some(NotEquals)
    else if word == "contains" then Some(Contains)
    else if word == "regex" then Some(Regex)
    else if word == "exists" then Some(Exists)
    else if word == "gt" then Some(Gt)
    else if word == "lt" then Some(Lt)
    else if word == "gte" then Some(Gte)
    else if word == "lte" then Some(Lte)
    else None
  }

  function FilterOf(parts: Parts): Result<Filter, Problem> {
    var name, word := Trim(parts.name), OperatorOf(Trim(parts.word));
    if name == "" then Err(EmptyName)
    else if word.None? then Err(UnknownWord)
    else if word.value == Exists then Ok(Filter(name, Exists, None))
    else if parts.rest.None? || Trim(parts.rest.value) == "" then Err(MissingValue)
    else Ok(Filter(name, word.value, Some(Trim(parts.rest.value))))
  }

  function ParseFilter(line: string): Result<Filter, Problem> {
    var parts := CutTwice(line);
    if parts.None? then Err(MissingPart) else FilterOf(parts.value)
  }

  function FilterParts(filter: Filter): Parts {
    Parts(filter.field, OperatorName(filter.operator), filter.value)
  }

  function PrintFilter(filter: Filter): string {
    JoinParts(FilterParts(filter))
  }

  /** The words of the form and the operators they name. */
  lemma OperatorWords()
    ensures OperatorOf("equals") == Some(Equals) && OperatorOf("not_equals") == Some(NotEquals)
    ensures OperatorOf("contains") == Some(Contains) && OperatorOf("regex") == Some(Regex) && OperatorOf("exists") == Some(Exists)
    ensures OperatorOf("gt") == Some(Gt) && OperatorOf("lt") == Some(Lt)
    ensures OperatorOf("gte") == Some(Gte) && OperatorOf("lte") == Some(Lte)
  {
  }

  /** What a line stands for: "exists" has no value, whatever follows it; every other operator has a trimmed one. */
  lemma FilterAccepted(name: string, word: string, rest: Option<string>, filter: Filter)
    requires ':' !in name && ':' !in word
    ensures ParseFilter(JoinParts(Parts(name, word, rest))) == Ok(filter)
       <==> && filter.field == Trim(name) != "" && Trim(word) == OperatorName(filter.operator)
            && filter.value == (if filter.operator == Exists || rest.None? then None else Some(Trim(rest.value)))
            && (filter.operator != Exists ==> rest.Some? && Trim(rest.value) != "")
  {
    CutTwiceExact(JoinParts(Parts(name, word, rest)), Parts(name, word, rest));
    FilterOfParts(Parts(name, word, rest), filter);
  }

  /** Why a line is refused, in the order in which the reasons are looked for. */
  lemma FilterRefused(line: string, name: string, word: string, rest: Option<string>)
    ensures ':' !in line ==> ParseFilter(line) == Err(MissingPart)
    ensures line == JoinParts(Parts(name, word, rest)) && ':' !in name && ':' !in word ==>
      && (Trim(name) == "" ==> ParseFilter(line) == Err(EmptyName))
      && (Trim(name) != "" && OperatorOf(Trim(word)).None? ==> ParseFilter(line) == Err(UnknownWord))
      && (Trim(name) != "" && OperatorOf(Trim(word)).Some? && Trim(word) != "exists" && (rest.Some? ==> Trim(rest.value) == "") ==>
            ParseFilter(line) == Err(MissingValue))
  {
    CutTwiceExact(line, Parts(name, word, rest));
  }

  lemma FilterOfParts(parts: Parts, filter: Filter)
    ensures FilterOf(parts) == Ok(filter)
       <==> && filter.field == Trim(parts.name) != "" && Trim(parts.word) == OperatorName(filter.operator)
            && filter.value == (if filter.operator == Exists || parts.rest.None? then None else Some(Trim(parts.rest.value)))
            && (filter.operator != Exists ==> parts.rest.Some? && Trim(parts.rest.value) != "")
  {
    OperatorBack(filter.operator);
  }

  lemma OperatorBack(operator: Operator)
    ensures OperatorOf(OperatorName(operator)) == Some(operator)
  {
  }

  predicate FilterOk(filter: Filter) {
    && Name(filter.field, ':')
    && (filter.value.None? <==> filter.operator == Exists)
    && (filter.value.Some? ==> OneLine(filter.value.value))
  }

  // ----- Time windows -----

  datatype Window = Window(days: seq<string>, start: string, end: string)

  /** The trimmed pieces that are not empty. */
  function Days(pieces: seq<string>): seq<string> {
    if pieces == [] then []
    else if Trim(pieces[0]) == "" then Days(pieces[1..])
    else [Trim(pieces[0])] + Days(pieces[1..])
  }

  function WindowOf(days: seq<string>, time: string): Result<Window, Problem> {
    if days == [] then Err(NoDays)
    else
      match CutAt(time, '-')
      case None => Err(MissingPart)
      case Some((start, end)) =>
        if Trim(start) == "" || Trim(end) == "" then Err(MissingValue)
        else Ok(Window(days, Trim(start), Trim(end)))
  }

  function ParseWindow(line: string): Result<Window, Problem> {
    match CutAt(line, ':')
    case None => Err(MissingPart)
    case Some((days, time)) => WindowOf(Days(SplitAt(days, ',')), time)
  }

  function PrintWindow(window: Window): string {
    JoinWith(window.days, ',') + [':'] + (window.start + ['-'] + window.end)
  }

  /** The days of a line are its pieces between commas, trimmed, in order, without the empty ones. */
  lemma {:induction false} DaysConcat(front: seq<string>, back: seq<string>)
    ensures Days(front + back) == Days(front) + Days(back)
  {
    if front == [] {
      assert front + back == back;
    } else {
      assert (front + back)[1..] == front[1..] + back;
      DaysConcat(front[1..], back);
    }
  }

  lemma OneDay(piece: string)
    ensures Days([piece]) == if Trim(piece) == "" then [] else [Trim(piece)]
  {
    assert [piece][1..] == [];
  }

  /** What a line stands for: days before the first colon, then a time cut at its first dash, both ends trimmed. */
  lemma WindowAccepted(days: seq<string>, start: string, end: string, window: Window)
    requires days != [] && forall i :: 0 <= i < |days| ==> ',' !in days[i]
    requires ':' !in JoinWith(days, ',') && '-' !in start
    ensures ParseWindow(JoinWith(days, ',') + ":" + (start + "-" + end)) == Ok(window)
       <==> window == Window(Days(days), Trim(start), Trim(end)) && Days(days) != [] && Trim(start) != "" && Trim(end) != ""
  {
    SplitOfJoin(days, ',');
    CutFirst(JoinWith(days, ','), start + "-" + end, ':');
    CutFirst(start, end, '-');
  }

  /** Why a line is refused. */
  lemma WindowRefused(days: string, time: string)
    requires ':' !in days
    ensures ParseWindow(days) == Err(MissingPart)
    ensures Days(SplitAt(days, ',')) == [] ==> ParseWindow(days + ":" + time) == Err(NoDays)
    ensures Days(SplitAt(days, ',')) != [] && '-' !in time ==> ParseWindow(days + ":" + time) == Err(MissingPart)
  {
    CutFirst(days, time, ':');
  }

  predicate DaysOk(days: seq<string>) {
    forall i :: 0 <= i < |days| ==> Name(days[i], ':') && ',' !in days[i]
  }

  predicate WindowOk(window: Window) {
    window.days != [] && DaysOk(window.days) && Name(window.start, '-') && OneLine(window.end)
  }

  // ----- The texts -----

  method ParsePayloadText(text: string) returns (schema: Result<Option<seq<Field>>, LineError>)
    ensures schema == Stored(text, ParseField)
  {
    var items := ParseText(text, ParseField);
    schema := Listed(items);
  }

  method ParseFiltersText(text: string) returns (filters: Result<Option<seq<Filter>>, LineError>)
    ensures filters == Stored(text, ParseFilter)
  {
    var items := ParseText(text, ParseFilter);
    filters := Listed(items);
  }

  method ParseWindowsText(text: string) returns (windows: Result<Option<seq<Window>>, LineError>)
    ensures windows == Stored(text, ParseWindow)
  {
    var items := ParseText(text, ParseWindow);
    windows := Listed(items);
  }

  // ----- One line there and back -----

  /** Both ends of a line that begins and ends with text that is in order are in order. */
  lemma Framed(first: string, middle: string, last: string)
    requires OneLine(first) && '\n' !in middle && OneLine(last)
    ensures OneLine(first + middle + last)
  {
    var line := first + middle + last;
    assert line[0] == first[0] && line[|line| - 1] == last[|last| - 1];
  }

  lemma CutKeeps(line: string, c: char, x: char)
    requires x !in line && CutAt(line, c).Some?
    ensures x !in CutAt(line, c).value.0 && x !in CutAt(line, c).value.1
  {
    var (first, rest) := CutAt(line, c).value;
    assert forall y :: y in first || y in rest ==> y in line;
  }

  /** A trimmed piece of text without line breaks is empty or one line. */
  lemma TrimmedLine(text: string)
    requires '\n' !in text
    ensures Trim(text) == "" || OneLine(Trim(text))
  {
    TrimKeeps(text, '\n');
  }

  lemma TrimmedName(text: string, cut: char)
    requires '\n' !in text && cut !in text
    ensures Trim(text) == "" || Name(Trim(text), cut)
  {
    TrimmedLine(text);
    TrimKeeps(text, cut);
  }

  lemma CutTwiceParts(line: string)
    requires '\n' !in line && CutTwice(line).Some?
    ensures var parts := CutTwice(line).value;
      && (Trim(parts.name) == "" || Name(Trim(parts.name), ':'))
      && (parts.rest.Some? ==> Trim(parts.rest.value) == "" || OneLine(Trim(parts.rest.value)))
  {
    var (name, tail) := CutAt(line, ':').value;
    CutKeeps(line, ':', '\n');
    TrimmedName(name, ':');
    if CutAt(tail, ':').Some? {
      CutKeeps(tail, ':', '\n');
      TrimmedLine(CutAt(tail, ':').value.1);
    }
  }

  /** The parts of a line are the one way to write it with a first and, if there are two colons, a second colon. */
  lemma CutTwiceExact(line: string, parts: Parts)
    ensures CutTwice(line) == Some(parts)
       <==> line == JoinParts(parts) && ':' !in parts.name && ':' !in parts.word
  {
    var tail := if parts.rest.None? then parts.word else parts.word + [':'] + parts.rest.value;
    if line == JoinParts(parts) && ':' !in parts.name && ':' !in parts.word {
      CutFirst(parts.name, tail, ':');
      if parts.rest.Some? {
        CutFirst(parts.word, parts.rest.value, ':');
      }
    }
  }

  predicate PartsOk(parts: Parts) {
    Name(parts.name, ':') && Name(parts.word, ':') && (parts.rest.Some? ==> OneLine(parts.rest.value))
  }

  lemma CutTwiceJoined(parts: Parts)
    requires PartsOk(parts)
    ensures CutTwice(JoinParts(parts)) == Some(parts)
  {
    CutTwiceExact(JoinParts(parts), parts);
  }

  lemma JoinedOneLine(parts: Parts)
    requires PartsOk(parts)
    ensures OneLine(JoinParts(parts))
  {
    if parts.rest.Some? {
      Framed(parts.word, [':'], parts.rest.value);
      Framed(parts.name, [':'], parts.word + [':'] + parts.rest.value);
    } else {
      Framed(parts.name, [':'], parts.word);
    }
  }

  lemma TypeNameOk(t: FieldType)
    ensures Name(TypeName(t), ':')
  {
    assert TypeName(t)[0] in TypeName(t);
  }

  lemma OperatorNameOk(operator: Operator)
    ensures Name(OperatorName(operator), ':')
  {
    assert OperatorName(operator)[0] in OperatorName(operator);
  }

  lemma FieldPartsReturn(field: Field)
    requires FieldOk(field)
    ensures PartsOk(FieldParts(field)) && FieldOf(FieldParts(field)) == Ok(field)
  {
    TypeNameOk(field.fieldType);
    assert TypeOf(TypeName(field.fieldType)) == Some(field.fieldType);
    assert Trimmed("required") && '\n' !in "required";
  }

  lemma FilterPartsReturn(filter: Filter)
    requires FilterOk(filter)
    ensures PartsOk(FilterParts(filter)) && FilterOf(FilterParts(filter)) == Ok(filter)
  {
    OperatorNameOk(filter.operator);
    assert OperatorOf(OperatorName(filter.operator)) == Some(filter.operator);
  }

  lemma FieldReturns(field: Field)
    requires FieldOk(field)
    ensures Returns(field, ParseField, PrintField)
  {
    FieldPartsReturn(field);
    CutTwiceJoined(FieldParts(field));
    JoinedOneLine(FieldParts(field));
  }

  lemma FilterReturns(filter: Filter)
    requires FilterOk(filter)
    ensures Returns(filter, ParseFilter, PrintFilter)
  {
    FilterPartsReturn(filter);
    CutTwiceJoined(FilterParts(filter));
    JoinedOneLine(FilterParts(filter));
  }

  lemma {:induction false} DaysKept(days: seq<string>)
    requires DaysOk(days)
    ensures Days(days) == days
  {
    if days != [] {
      DaysKept(days[1..]);
    }
  }

  lemma {:induction false} DaysInOrder(pieces: seq<string>)
    requires forall i :: 0 <= i < |pieces| ==> ':' !in pieces[i] && '\n' !in pieces[i] && ',' !in pieces[i]
    ensures DaysOk(Days(pieces))
  {
    if pieces != [] {
      DaysInOrder(pieces[1..]);
      TrimmedName(pieces[0], ':');
      TrimKeeps(pieces[0], ',');
    }
  }

  lemma {:induction false} JoinedDays(days: seq<string>)
    requires days != [] && DaysOk(days)
    ensures Name(JoinWith(days, ','), ':')
  {
    if |days| > 1 {
      JoinedDays(days[1..]);
      Framed(days[0], [','], JoinWith(days[1..], ','));
    }
  }

  lemma DaysReturn(days: seq<string>)
    requires days != [] && DaysOk(days)
    ensures Days(SplitAt(JoinWith(days, ','), ',')) == days
  {
    SplitOfJoin(days, ',');
    DaysKept(days);
  }

  lemma WindowReturns(window: Window)
    requires WindowOk(window)
    ensures Returns(window, ParseWindow, PrintWindow)
  {
    var time := window.start + ['-'] + window.end;
    JoinedDays(window.days);
    Framed(window.start, ['-'], window.end);
    Framed(JoinWith(window.days, ','), [':'], time);
    DaysReturn(window.days);
    TimeReturns(window);
    CutFirst(JoinWith(window.days, ','), time, ':');
  }

  lemma TimeReturns(window: Window)
    requires WindowOk(window)
    ensures WindowOf(window.days, window.start + ['-'] + window.end) == Ok(window)
  {
    CutFirst(window.start, window.end, '-');
  }

  lemma {:induction false} PiecesOf(text: string, c: char, i: nat)
    requires i < |SplitAt(text, c)|
    ensures forall x :: x in SplitAt(text, c)[i] ==> x in text
  {
    if text != "" {
      var rest := SplitAt(text[1..], c);
      if text[0] == c {
        if i > 0 { PiecesOf(text[1..], c, i - 1); }
      } else {
        PiecesOf(text[1..], c, i);
      }
      assert forall x :: x in text[1..] ==> x in text;
    }
  }

  lemma ParsedDays(text: string)
    requires ':' !in text && '\n' !in text
    ensures DaysOk(Days(SplitAt(text, ',')))
  {
    var pieces := SplitAt(text, ',');
    forall i | 0 <= i < |pieces|
      ensures ':' !in pieces[i] && '\n' !in pieces[i]
    {
      PiecesOf(text, ',', i);
    }
    DaysInOrder(pieces);
  }

  lemma ParsedTime(days: seq<string>, time: string)
    requires '\n' !in time && DaysOk(days) && WindowOf(days, time).Ok?
    ensures WindowOk(WindowOf(days, time).value)
  {
    CutKeeps(time, '-', '\n');
    var (start, end) := CutAt(time, '-').value;
    TrimmedName(start, '-');
    TrimmedLine(end);
  }

  lemma ParsedWindow(line: string)
    requires OneLine(line) && ParseWindow(line).Ok?
    ensures WindowOk(ParseWindow(line).value)
  {
    CutKeeps(line, ':', '\n');
    var (days, time) := CutAt(line, ':').value;
    ParsedDays(days);
    ParsedTime(Days(SplitAt(days, ',')), time);
  }

  lemma FieldCodec()
    ensures Codec(ParseField, PrintField, FieldOk)
  {
    forall line | OneLine(line) && ParseField(line).Ok? ensures FieldOk(ParseField(line).value) {
      CutTwiceParts(line);
    }
    forall field | FieldOk(field) ensures Returns(field, ParseField, PrintField) {
      FieldReturns(field);
    }
  }

  lemma FilterCodec()
    ensures Codec(ParseFilter, PrintFilter, FilterOk)
  {
    forall line | OneLine(line) && ParseFilter(line).Ok? ensures FilterOk(ParseFilter(line).value) {
      CutTwiceParts(line);
    }
    forall filter | FilterOk(filter) ensures Returns(filter, ParseFilter, PrintFilter) {
      FilterReturns(filter);
    }
  }

  lemma WindowCodec()
    ensures Codec(ParseWindow, PrintWindow, WindowOk)
  {
    forall line | OneLine(line) && ParseWindow(line).Ok? ensures WindowOk(ParseWindow(line).value) {
      ParsedWindow(line);
    }
    forall window | WindowOk(window) ensures Returns(window, ParseWindow, PrintWindow) {
      WindowReturns(window);
    }
  }

  // ----- Whole texts there and back -----

  /** What the page shows for an accepted payload text is accepted again, with the same fields. */
  lemma PayloadRoundTrip(text: string)
    requires Stored(text, ParseField).Ok?
    ensures Stored(PrintText(Stored(text, ParseField).value, PrintField), ParseField) == Stored(text, ParseField)
  {
    FieldCodec();
    TextRoundTrip(text, ParseField, PrintField, FieldOk);
  }

  /** The same for filters, whose values may hold colons. */
  lemma FiltersRoundTrip(text: string)
    requires Stored(text, ParseFilter).Ok?
    ensures Stored(PrintText(Stored(text, ParseFilter).value, PrintFilter), ParseFilter) == Stored(text, ParseFilter)
  {
    FilterCodec();
    TextRoundTrip(text, ParseFilter, PrintFilter, FilterOk);
  }

  /** The same for time windows, whose end times may hold dashes. */
  lemma WindowsRoundTrip(text: string)
    requires Stored(text, ParseWindow).Ok?
    ensures Stored(PrintText(Stored(text, ParseWindow).value, PrintWindow), ParseWindow) == Stored(text, ParseWindow)
  {
    WindowCodec();
    TextRoundTrip(text, ParseWindow, PrintWindow, WindowOk);
  }

  /** The configurations that a submitted form can hold are exactly those that are in order item by item. */
  lemma StorableFields(fields: seq<Field>)
    ensures (exists text :: Stored(text, ParseField) == Ok(Some(fields)))
       <==> fields != [] && forall i :: 0 <= i < |fields| ==> FieldOk(fields[i])
  {
    FieldCodec();
    Storable(fields, ParseField, PrintField, FieldOk);
  }

  lemma StorableFilters(filters: seq<Filter>)
    ensures (exists text :: Stored(text, ParseFilter) == Ok(Some(filters)))
       <==> filters != [] && forall i :: 0 <= i < |filters| ==> FilterOk(filters[i])
  {
    FilterCodec();
    Storable(filters, ParseFilter, PrintFilter, FilterOk);
  }

  lemma StorableWindows(windows: seq<Window>)
    ensures (exists text :: Stored(text, ParseWindow) == Ok(Some(windows)))
       <==> windows != [] && forall i :: 0 <= i < |windows| ==> WindowOk(windows[i])
  {
    WindowCodec();
    Storable(windows, ParseWindow, PrintWindow, WindowOk);
  }

  // ----- Environment -----

  /** One trimmed line of the environment: without '=' or without a key it says nothing; a later line wins. */
  function EnvLine(env: map<string, string>, line: string): map<string, string> {
    match CutAt(line, '=')
    case None => env
    case Some((key, value)) => if Trim(key) == "" then env else env[Trim(key) := value]
  }

  function EnvOfLines(lines: seq<string>): map<string, string> {
    if lines == [] then map[] else EnvLine(EnvOfLines(lines[..|lines| - 1]), Trim(lines[|lines| - 1]))
  }

  function EnvOf(text: string): map<string, string> { EnvOfLines(Lines(text)) }

  method ParseEnvText(text: string) returns (env: map<string, string>)
    ensures env == EnvOf(text)
  {
    var lines := Lines(text);
    env := map[];
    for i := 0 to |lines|
      invariant env == EnvOfLines(lines[..i])
    {
      assert lines[..i + 1][..i] == lines[..i];
      var line := Trim(lines[i]);
      if line != "" {
        var halves := CutAt(line, '=');
        if halves.Some? {
          var key := Trim(halves.value.0);
          if key != "" {
            env := env[key := halves.value.1];
          }
        }
      }
    }
    assert lines[..|lines|] == lines;
  }

  /** The pair that a line of the text gives, if any. */
  function Says(line: string): Option<(string, string)> {
    match CutAt(Trim(line), '=')
    case None => None
    case Some((key, value)) => if Trim(key) == "" then None else Some((Trim(key), value))
  }

  /** Line `i` gives the pair and no later line names the key. */
  predicate SaysLast(lines: seq<string>, i: nat, key: string, value: string) {
    && i < |lines| && Says(lines[i]) == Some((key, value))
    && forall j :: i < j < |lines| && Says(lines[j]).Some? ==> Says(lines[j]).value.0 != key
  }

  predicate SaidLast(lines: seq<string>, key: string, value: string) {
    exists i :: 0 <= i < |lines| && SaysLast(lines, i, key, value)
  }

  lemma EnvLineSays(lines: seq<string>)
    requires lines != []
    ensures var init, last := EnvOfLines(lines[..|lines| - 1]), Says(lines[|lines| - 1]);
      EnvOfLines(lines) == if last.None? then init else init[last.value.0 := last.value.1]
  {
  }

  lemma LastNames(lines: seq<string>, key: string, value: string)
    requires lines != [] && Says(lines[|lines| - 1]).Some? && Says(lines[|lines| - 1]).value.0 == key
    ensures SaidLast(lines, key, value) <==> Says(lines[|lines| - 1]).value.1 == value
  {
    if Says(lines[|lines| - 1]).value.1 == value {
      assert SaysLast(lines, |lines| - 1, key, value);
    }
  }

  lemma LastSilent(lines: seq<string>, init: seq<string>, line: string, i: nat, key: string, value: string)
    requires lines == init + [line] && (Says(line).Some? ==> Says(line).value.0 != key)
    ensures SaysLast(lines, i, key, value) <==> SaysLast(init, i, key, value)
  {
    assert forall j :: 0 <= j < |init| ==> lines[j] == init[j];
    assert lines[|init|] == line;
  }

  lemma LastLineSilent(lines: seq<string>, init: seq<string>, line: string, key: string, value: string)
    requires lines == init + [line] && (Says(line).Some? ==> Says(line).value.0 != key)
    ensures SaidLast(lines, key, value) <==> SaidLast(init, key, value)
  {
    forall i: nat ensures SaysLast(lines, i, key, value) <==> SaysLast(init, i, key, value) {
      LastSilent(lines, init, line, i, key, value);
    }
  }

  /** The value of a key is what the last line that names it says. */
  lemma {:induction false} LastLineWins(lines: seq<string>, key: string, value: string)
    ensures key in EnvOfLines(lines) && EnvOfLines(lines)[key] == value <==> SaidLast(lines, key, value)
  {
    if lines != [] {
      var init, line := lines[..|lines| - 1], lines[|lines| - 1];
      LastLineWins(init, key, value);
      EnvLineSays(lines);
      if Says(line).Some? && Says(line).value.0 == key {
        LastNames(lines, key, value);
      } else {
        LastLineSilent(lines, init, line, key, value);
      }
    }
  }

  /** The keys of the environment in some order, each once; the edit page sorts them. */
  predicate KeysOf(keys: seq<string>, env: map<string, string>) {
    && (forall i, j :: 0 <= i < j < |keys| ==> keys[i] != keys[j])
    && (forall key :: key in keys ==> key in env)
    && (forall key :: key in env ==> key in keys)
  }

  function EnvLines(keys: seq<string>, env: map<string, string>): (lines: seq<string>)
    requires forall i :: 0 <= i < |keys| ==> keys[i] in env
    ensures |lines| == |keys| && forall i :: 0 <= i < |keys| ==> lines[i] == keys[i] + ['='] + env[keys[i]]
  {
    if keys == [] then []
    else
      var last := keys[|keys| - 1];
      EnvLines(keys[..|keys| - 1], env) + [last + ['='] + env[last]]
  }

  function PrintEnv(keys: seq<string>, env: map<string, string>): string
    requires KeysOf(keys, env)
  {
    JoinWith(EnvLines(keys, env), '\n')
  }

  /** A value has no line break and no white space at its end; it may begin with white space. */
  predicate PairOk(key: string, value: string) {
    Name(key, '=') && '\n' !in value && (value == "" || !IsSpace(value[|value| - 1]))
  }

  predicate EnvOk(env: map<string, string>) {
    forall key :: key in env ==> PairOk(key, env[key])
  }

  lemma PairReturns(key: string, value: string, env: map<string, string>)
    requires PairOk(key, value)
    ensures OneLine(key + ['='] + value)
    ensures EnvLine(env, key + ['='] + value) == env[key := value]
  {
    var line := key + ['='] + value;
    assert line[0] == key[0] && line[|line| - 1] == (if value == "" then '=' else value[|value| - 1]);
    CutFirst(key, value, '=');
  }

  lemma EnvLineOk(env: map<string, string>, line: string)
    requires EnvOk(env) && '\n' !in line && Trimmed(line)
    ensures EnvOk(EnvLine(env, line))
  {
    if CutAt(line, '=').Some? {
      var (key, value) := CutAt(line, '=').value;
      CutKeeps(line, '=', '\n');
      TrimmedName(key, '=');
      assert value != "" ==> value[|value| - 1] == line[|line| - 1];
    }
  }

  lemma {:induction false} ParsedEnvOk(lines: seq<string>)
    requires forall i :: 0 <= i < |lines| ==> '\n' !in lines[i]
    ensures EnvOk(EnvOfLines(lines))
  {
    if lines != [] {
      ParsedEnvOk(lines[..|lines| - 1]);
      TrimKeeps(lines[|lines| - 1], '\n');
      EnvLineOk(EnvOfLines(lines[..|lines| - 1]), Trim(lines[|lines| - 1]));
    }
  }

  lemma EnvOneMore(lines: seq<string>, key: string, value: string)
    requires PairOk(key, value)
    ensures EnvOfLines(lines + [key + ['='] + value]) == EnvOfLines(lines)[key := value]
  {
    var line := key + ['='] + value;
    var all := lines + [line];
    assert all[..|all| - 1] == lines && all[|all| - 1] == line;
    PairReturns(key, value, EnvOfLines(lines));
  }

  lemma OneMoreKey(keys: seq<string>, last: string, env: map<string, string>)
    requires forall i :: 0 <= i < |keys| ==> keys[i] in env
    requires last in env
    ensures (map key | key in keys :: env[key])[last := env[last]] == map key | key in keys + [last] :: env[key]
  {
  }

  lemma {:induction false} EnvReturns(keys: seq<string>, env: map<string, string>)
    requires EnvOk(env) && forall i :: 0 <= i < |keys| ==> keys[i] in env
    ensures EnvOfLines(EnvLines(keys, env)) == map key | key in keys :: env[key]
  {
    if keys != [] {
      var init, last := keys[..|keys| - 1], keys[|keys| - 1];
      EnvReturns(init, env);
      EnvOneMore(EnvLines(init, env), last, env[last]);
      OneMoreKey(init, last, env);
      assert keys == init + [last];
    }
  }

  lemma EnvLinesWhole(keys: seq<string>, env: map<string, string>)
    requires EnvOk(env) && forall i :: 0 <= i < |keys| ==> keys[i] in env
    ensures Lines(JoinWith(EnvLines(keys, env), '\n')) == EnvLines(keys, env)
  {
    var lines := EnvLines(keys, env);
    forall i | 0 <= i < |lines| ensures OneLine(lines[i]) {
      PairReturns(keys[i], env[keys[i]], map[]);
    }
    LinesOfJoin(lines);
  }

  /** In whatever order the page lists the keys, submitting the page leaves the environment as it was. */
  lemma EnvRoundTrip(text: string, keys: seq<string>)
    requires KeysOf(keys, EnvOf(text))
    ensures EnvOf(PrintEnv(keys, EnvOf(text))) == EnvOf(text)
  {
    var env := EnvOf(text);
    ParsedEnvOk(Lines(text));
    EnvReturns(keys, env);
    EnvLinesWhole(keys, env);
  }
}
