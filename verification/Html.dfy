/** Escaping log text for the page, with what makes it safe there and a decoder that undoes it. */
module Html {
  import opened Text

  function EscapeChar(c: char): string {
    match c
    case '&' => "&amp;"
    case '<' => "&lt;"
    case '>' => "&gt;"
    case '"' => "&quot;"
    case _ => [c]
  }

  function Escape(text: string): string {
    if text == "" then "" else Escape(text[..|text| - 1]) + EscapeChar(text[|text| - 1])
  }

  method HtmlEscape(text: string) returns (out: string)
    ensures out == Escape(text) && Safe(out) && Unescape(out) == text
  {
    out := "";
    for i := 0 to |text|
      invariant out == Escape(text[..i])
    {
      assert text[..i + 1][..i] == text[..i];
      out := out + EscapeChar(text[i]);
    }
    assert text[..|text|] == text;
    EscapeIsSafe(text);
    UnescapeOfEscape(text);
  }

  lemma {:induction false} EscapeConcat(front: string, back: string)
    ensures Escape(front + back) == Escape(front) + Escape(back)
  {
    if back == "" {
      assert front + back == front;
    } else {
      var init, last := back[..|back| - 1], back[|back| - 1];
      assert back == init + [last];
      calc {
        Escape(front + back);
        { Regroup(front, init, [last]); }
        Escape((front + init) + [last]);
        { EscapeAppend(front + init, last); EscapeConcat(front, init); }
        (Escape(front) + Escape(init)) + EscapeChar(last);
        { Regroup(Escape(front), Escape(init), EscapeChar(last)); EscapeAppend(init, last); }
        Escape(front) + Escape(back);
      }
    }
  }

  lemma EscapeAppend(text: string, c: char)
    ensures Escape(text + [c]) == Escape(text) + EscapeChar(c)
  {
    assert (text + [c])[..|text|] == text;
  }

  lemma {:induction false} EscapePlain(text: string)
    requires forall i :: 0 <= i < |text| ==> text[i] !in {'&', '<', '>', '"'}
    ensures Escape(text) == text
  {
    if text != "" {
      EscapePlain(text[..|text| - 1]);
      assert text == text[..|text| - 1] + [text[|text| - 1]];
    }
  }

  // ----- Safe on the page -----

  /** One of the four entities begins here. */
  predicate EntityAt(text: string, i: nat)
    requires i <= |text|
  {
    "&amp;" <= text[i..] || "&lt;" <= text[i..] || "&gt;" <= text[i..] || "&quot;" <= text[i..]
  }

  /** No character of the text can open or close a tag or an attribute, or an entity other than the four. */
  predicate Safe(text: string) {
    forall i :: 0 <= i < |text| ==> text[i] !in {'<', '>', '"'} && (text[i] == '&' ==> EntityAt(text, i))
  }

  lemma EntityMore(text: string, more: string, i: nat)
    requires i <= |text| && EntityAt(text, i)
    ensures EntityAt(text + more, i)
  {
    assert (text + more)[i..] == text[i..] + more;
  }

  lemma SafeConcat(front: string, back: string)
    requires Safe(front) && Safe(back)
    ensures Safe(front + back)
  {
    var text := front + back;
    forall i | 0 <= i < |text| ensures text[i] !in {'<', '>', '"'} && (text[i] == '&' ==> EntityAt(text, i)) {
      if i < |front| {
        assert text[i] == front[i];
        if front[i] == '&' {
          EntityMore(front, back, i);
        }
      } else {
        assert text[i] == back[i - |front|] && text[i..] == back[i - |front|..];
      }
    }
  }

  lemma SafeChar(c: char)
    ensures Safe(EscapeChar(c))
  {
    var text := EscapeChar(c);
    assert text[0..] == text;
    if c in {'&', '<', '>', '"'} {
      assert EntityAt(text, 0);
    }
  }

  lemma {:induction false} EscapeIsSafe(text: string)
    ensures Safe(Escape(text))
  {
    if text != "" {
      EscapeIsSafe(text[..|text| - 1]);
      SafeChar(text[|text| - 1]);
      SafeConcat(Escape(text[..|text| - 1]), EscapeChar(text[|text| - 1]));
    }
  }

  // ----- Decoding -----

  /** The characters that the entities stand for; everything else stands for itself. */
  function Unescape(text: string): string {
    if text == "" then ""
    else if "&amp;" <= text then "&" + Unescape(text[5..])
    else if "&lt;" <= text then "<" + Unescape(text[4..])
    else if "&gt;" <= text then ">" + Unescape(text[4..])
    else if "&quot;" <= text then "\"" + Unescape(text[6..])
    else [text[0]] + Unescape(text[1..])
  }

  lemma UnescapeFront(c: char, rest: string)
    ensures Unescape(EscapeChar(c) + rest) == [c] + Unescape(rest)
  {
    var text := EscapeChar(c) + rest;
    assert text[|EscapeChar(c)|..] == rest && EscapeChar(c) <= text;
    assert text[0] == EscapeChar(c)[0];
    if c in {'&', '<', '>', '"'} {
      assert text[1] == EscapeChar(c)[1];
    }
  }

  lemma EscapeFront(c: char, text: string)
    ensures Escape([c] + text) == EscapeChar(c) + Escape(text)
  {
    EscapeConcat([c], text);
    assert [c][..0] == [];
  }

  /** The browser shows the text as it was. */
  lemma {:induction false} UnescapeOfEscape(text: string)
    ensures Unescape(Escape(text)) == text
  {
    if text != "" {
      assert text == [text[0]] + text[1..];
      EscapeFront(text[0], text[1..]);
      UnescapeFront(text[0], Escape(text[1..]));
      UnescapeOfEscape(text[1..]);
    }
  }

  /** Texts with the same escaped form are the same. */
  lemma EscapeInjective(text: string, other: string)
    requires Escape(text) == Escape(other)
    ensures text == other
  {
    UnescapeOfEscape(text);
    UnescapeOfEscape(other);
  }
}
