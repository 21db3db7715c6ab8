/**
 For exactly which later secrets the stream and the batch form of the masker agree.  A secret that begins with
 the mask character, or that holds a mask before its last character, can be put together by masking
 another secret next to its rest.  The batch form then masks it as well; the stream has already sent
 the mask when the rest arrives.
 */
module StreamExact {
  import opened Masking
  import opened LogStream
  import opened Text
  import opened Html

  // ----- A replacement shows -----

  lemma {:induction false} ReplaceLength(text: string, secret: string)
    requires secret != ""
    ensures |secret| <= 3 ==> |Replace(text, secret)| >= |text|
    ensures |secret| >= 3 ==> |Replace(text, secret)| <= |text|
  {
    if text != "" {
      ReplaceLength(text[if secret <= text then |secret| else 1..], secret);
    }
  }

  lemma OccursFirst(text: string, part: string)
    ensures OccursAt(text, part, 0) ==> part <= text
  {
    assert 0 + |part| == |part|;
  }

  /** Replacing an occurrence of a secret other than the mask changes the text. */
  lemma {:induction false} ReplaceChanges(text: string, secret: string, i: nat)
    requires secret != "" && secret != MASK && OccursAt(text, secret, i)
    ensures Replace(text, secret) != text
  {
    if secret <= text {
      ReplaceLength(text[|secret|..], secret);
      assert Replace(text, secret)[..3] == MASK && text[..|secret|] == secret;
    } else {
      OccursFirst(text, secret);
      assert text == text[..1] + text[1..];
      ShiftOccurrence(text[..1], text[1..], secret, i - 1);
      ReplaceChanges(text[1..], secret, i - 1);
      assert Replace(text, secret)[1..] == Replace(text[1..], secret);
    }
  }

  // ----- Witnesses -----

  /** A character other than the two. */
  function Other(a: char, b: char): (c: char)
    ensures c != a && c != b
  {
    if 'x' != a && 'x' != b then 'x' else if 'y' != a && 'y' != b then 'y' else 'z'
  }

  /** `n` times the same character. */
  function Fill(c: char, n: nat): (text: string)
    ensures |text| == n && forall i :: 0 <= i < n ==> text[i] == c
  {
    seq(n, _ => c)
  }

  /**
   A first secret for a given one: longer than it, ending in a character that does not begin it, and
   otherwise of one character that neither begins it nor ends `front`.
   */
  function First(secret: string, front: string): (first: string)
    requires secret != ""
    ensures |first| == |secret| + 1 && first != ""
  {
    var c := Other(secret[0], if front == "" then secret[0] else front[|front| - 1]);
    Fill(c, |secret|) + [Other(secret[0], c)]
  }

  /** The rest of the text: `back`, filled up to the length of the first secret. */
  function Rest(secret: string, front: string, back: string): (rest: string)
    requires secret != "" && |back| < |secret|
    ensures |rest| == |secret| + 1 && back <= rest
  {
    var first := First(secret, front);
    back + Fill(Other(secret[|secret| - 1], first[|secret|]), |secret| + 1 - |back|)
  }

  lemma FirstNotInFront(secret: string, front: string, rest: string, i: nat)
    requires secret != "" && |front| < |secret| && i < |front|
    ensures !OccursAt(front + (First(secret, front) + rest), First(secret, front), i)
  {
    var first := First(secret, front);
    var text := front + (first + rest);
    if OccursAt(text, first, i) {
      OccurrenceAt(text, first, i, |front| - 1 - i);
    }
  }

  lemma FirstNotInRest(secret: string, front: string, back: string, i: nat)
    requires secret != "" && |back| < |secret|
    ensures !OccursAt(Rest(secret, front, back), First(secret, front), i)
  {
    var first, rest := First(secret, front), Rest(secret, front, back);
    if OccursAt(rest, first, i) {
      OccurrenceAt(rest, first, i, |secret|);
    }
  }

  lemma SecretNotInRest(secret: string, front: string, back: string, i: nat)
    requires secret != "" && |back| < |secret|
    ensures !OccursAt(Rest(secret, front, back), secret, i)
  {
    var rest := Rest(secret, front, back);
    if OccursAt(rest, secret, i) {
      OccurrenceAt(rest, secret, i, |secret| - 1);
    }
  }

  /** Masking the first secret puts the mask between `front` and the rest. */
  lemma FirstMasked(secret: string, front: string, back: string)
    requires secret != "" && |front| < |secret| && |back| < |secret|
    ensures var first, rest := First(secret, front), Rest(secret, front, back);
      && Replace(front + (first + rest), first) == front + (MASK + rest)
      && Replace(front + first, first) == front + MASK
      && Replace(rest, first) == rest
  {
    var first, rest := First(secret, front), Rest(secret, front, back);
    forall i | 0 <= i <= |rest| ensures !OccursAt(rest, first, i) {
      FirstNotInRest(secret, front, back, i);
    }
    AbsentUnchanged(rest, first);
    Passed(secret, front, rest);
    Passed(secret, front, "");
    assert (first + rest)[|first|..] == rest && (first + "")[|first|..] == "";
    assert first + "" == first && MASK + "" == MASK;
  }

  lemma Passed(secret: string, front: string, rest: string)
    requires secret != "" && |front| < |secret|
    ensures var first := First(secret, front);
      Replace(front + (first + rest), first) == front + Replace(first + rest, first)
  {
    var first := First(secret, front);
    forall i | 0 <= i < |front| ensures !OccursAt(front + (first + rest), first, i) {
      FirstNotInFront(secret, front, rest, i);
    }
    PassOver(front, first + rest, first);
  }

  lemma EndsWithPrefix(text: string, secret: string, n: nat, k: nat)
    requires EndsInPrefix(text, secret, n) && k < n
    ensures text[|text| - n + k] == secret[k]
  {
    assert text[|text| - n..][k] == secret[..n][k];
  }

  /** The place behind the first secret is a clean cut. */
  lemma CleanForSecret(secret: string, front: string)
    requires secret != "" && |front| < |secret|
    ensures CleanFor(front + First(secret, front), secret)
  {
    var first := First(secret, front);
    var text := front + first;
    forall n | 0 < n < |secret| ensures !EndsInPrefix(text, secret, n) {
      if EndsInPrefix(text, secret, n) {
        EndsWithPrefix(text, secret, n, 0);
      }
    }
  }

  lemma CleanForFirst(secret: string, front: string)
    requires secret != "" && |front| < |secret|
    ensures CleanFor(front + First(secret, front), First(secret, front))
  {
    var first := First(secret, front);
    var text := front + first;
    forall n | 0 < n < |first| ensures !EndsInPrefix(text, first, n) {
      if EndsInPrefix(text, first, n) {
        EndsWithPrefix(text, first, n, n - 1);
      }
    }
  }

  lemma CutBehindFirst(secret: string, front: string, back: string)
    requires secret != "" && |front| < |secret| && |back| < |secret|
    ensures var first := First(secret, front);
      Cut(front + first + Rest(secret, front, back), [first, secret]) == |front + first|
  {
    var first, rest := First(secret, front), Rest(secret, front, back);
    var secrets, text := [first, secret], front + first + rest;
    assert secrets[..1] == [first] && [first][..0] == [] && MaxLength([first]) == |first|;
    assert text[..|front + first|] == front + first;
    CleanForSecret(secret, front);
    CleanForFirst(secret, front);
  }

  predicate Agrees(chunks: seq<string>, secrets: seq<string>)
    requires NonEmpty(secrets)
  {
    var (out, buffer) := Stream(chunks, secrets);
    out + MaskAndEscape(buffer, secrets) == MaskAndEscape(Join(chunks), secrets)
  }

  /** What the stream sends for a text in one chunk, before escaping. */
  lemma SentInTwo(text: string, secrets: seq<string>)
    requires NonEmpty(secrets) && Agrees([text], secrets)
    ensures var cut := Cut(text, secrets);
      MaskAll(text[..cut], secrets) + MaskAll(text[cut..], secrets) == MaskAll(text, secrets)
  {
    var cut := Cut(text, secrets);
    StreamOne(text, secrets);
    assert [text][..0] == [] && Join([text]) == "" + text == text;
    EscapeConcat(MaskAll(text[..cut], secrets), MaskAll(text[cut..], secrets));
    EscapeInjective(MaskAll(text[..cut], secrets) + MaskAll(text[cut..], secrets), MaskAll(text, secrets));
  }

  /** The secret occurs across the cut once the first one is masked, and on neither side of it. */
  lemma Differs(secret: string, front: string, back: string, i: nat)
    requires secret != "" && secret != MASK && |front| < |secret| && |back| < |secret|
    requires OccursAt(front + (MASK + back), secret, i) && !Contains(front + MASK, secret)
    ensures var first := First(secret, front);
      !Agrees([front + first + Rest(secret, front, back)], [first, secret])
  {
    var first, rest := First(secret, front), Rest(secret, front, back);
    var text, secrets := front + first + rest, [first, secret];
    if Agrees([text], secrets) {
      SentInTwo(text, secrets);
      CutBehindFirst(secret, front, back);
      assert text[..|front + first|] == front + first && text[|front + first|..] == rest;
      MaskTwo(front + first, first, secret);
      MaskTwo(rest, first, secret);
      MaskTwo(text, first, secret);
      Regroup(front, first, rest);
      FirstMasked(secret, front, back);
      SecondMasked(secret, front, back, i);
    }
  }

  lemma SecondMasked(secret: string, front: string, back: string, i: nat)
    requires secret != "" && secret != MASK && |front| < |secret| && |back| < |secret|
    requires OccursAt(front + (MASK + back), secret, i) && !Contains(front + MASK, secret)
    ensures var rest := Rest(secret, front, back);
      Replace(front + (MASK + rest), secret) != Replace(front + MASK, secret) + Replace(rest, secret)
  {
    var rest := Rest(secret, front, back);
    var whole := front + (MASK + rest);
    AbsentUnchanged(front + MASK, secret);
    forall k | 0 <= k <= |rest| ensures !OccursAt(rest, secret, k) {
      SecretNotInRest(secret, front, back, k);
    }
    AbsentUnchanged(rest, secret);
    Regroup(front, MASK, rest);
    OccursBefore(front + (MASK + back), rest[|back|..], secret, i);
    assert front + (MASK + back) + rest[|back|..] == whole;
    ReplaceChanges(whole, secret, i);
  }

  lemma OccursBefore(text: string, more: string, part: string, i: nat)
    requires OccursAt(text, part, i)
    ensures OccursAt(text + more, part, i)
  {
    assert (text + more)[i..i + |part|] == text[i..i + |part|];
  }

  // ----- The secrets that are not harmless -----

  lemma InsideMask(secret: string, i: nat)
    requires |secret| > 1 && OccursAt(MASK, secret, i)
    ensures secret == "**" || secret == MASK
  {
    forall k | 0 <= k < |secret| ensures secret[k] == '*' {
      OccurrenceAt(MASK, secret, i, k);
    }
    assert |secret| == 2 ==> secret == "**";
  }

  /** A star first, and more: the mask of another secret before the rest. */
  lemma StarFirstDiffers(secret: string) returns (first: string, chunks: seq<string>)
    requires |secret| > 1 && secret[0] == '*' && secret != MASK && secret != "**"
    ensures first != "" && !Agrees(chunks, [first, secret])
  {
    var back := secret[1..];
    var masked := "" + (MASK + back);
    assert masked[2..2 + |secret|] == secret;
    assert "" + MASK == MASK;
    if i: nat :| i <= 3 && OccursAt(MASK, secret, i) {
      InsideMask(secret, i);
    }
    Differs(secret, "", back, 2);
    first, chunks := First(secret, ""), ["" + First(secret, "") + Rest(secret, "", back)];
  }

  /** A mask inside: the mask of another secret between what stands before it and what stands after it. */
  lemma MaskInsideDiffers(secret: string, at: nat) returns (first: string, chunks: seq<string>)
    requires |secret| > 1 && secret[0] != '*' && OccursAt(secret, MASK, at) && at + 3 < |secret|
    ensures first != "" && !Agrees(chunks, [first, secret])
  {
    var front, back := secret[..at], secret[at + 3..];
    assert front + (MASK + back) == secret by {
      assert secret[at..at + 3] == MASK;
    }
    assert OccursAt(secret, secret, 0);
    assert !Contains(front + MASK, secret);
    Differs(secret, front, back, 0);
    first, chunks := First(secret, front), [front + First(secret, front) + Rest(secret, front, back)];
  }

  /** Two stars: three of the mask and one of the text make two masks in the batch, one and two stars in the stream. */
  lemma TwoStarsDiffer()
    ensures !Agrees(["x*y"], ["x", "**"])
  {
    var secrets := ["x", "**"];
    TwoStarsCut();
    assert "x*y"[..1] == "x" && "x*y"[1..] == "*y";
    MaskTwo("x", "x", "**");
    MaskTwo("*y", "x", "**");
    MaskTwo("x*y", "x", "**");
    TwoStarsReplaced();
    if Agrees(["x*y"], secrets) {
      SentInTwo("x*y", secrets);
    }
  }

  lemma TwoStarsCut()
    ensures Cut("x*y", ["x", "**"]) == 1
  {
    var secrets := ["x", "**"];
    assert secrets[..1] == ["x"] && ["x"][..0] == [] && MaxLength(["x"]) == 1;
    assert "x*y"[..1] == "x" && "**"[..1] == "*";
    forall i | 0 <= i < |secrets| ensures CleanFor("x", secrets[i]) {
    }
  }

  lemma TwoStarsReplaced()
    ensures |Replace(Replace("x", "x"), "**")| == 4
    ensures |Replace(Replace("*y", "x"), "**")| == 2
    ensures |Replace(Replace("x*y", "x"), "**")| == 7
  {
    assert Replace("", "x") == "" && Replace("", "**") == "";
    assert "x"[1..] == "" && "y"[1..] == "" && "*y"[1..] == "y" && "x*y"[1..] == "*y";
    assert Replace("y", "x") == "y" && Replace("*y", "x") == "*y";
    assert Replace("x", "x") == "***" && Replace("x*y", "x") == "****y";
    assert "***"[2..] == "*" && "*"[1..] == "" && "****y"[2..] == "**y" && "**y"[2..] == "y";
    assert Replace("*", "**") == "*" && Replace("y", "**") == "y" && Replace("*y", "**") == "*y";
    assert "***"[..2] == "**" && Replace("***", "**") == "****";
    assert "**y"[..2] == "**" && Replace("**y", "**") == "***y";
    assert "****y"[..2] == "**" && Replace("****y", "**") == "******y";
  }

  lemma NotHarmlessDiffers(secret: string) returns (first: string, chunks: seq<string>)
    requires secret != "" && !Harmless(secret)
    ensures first != "" && !Agrees(chunks, [first, secret])
  {
    if secret == "**" {
      TwoStarsDiffer();
      first, chunks := "x", ["x*y"];
    } else if secret[0] == '*' {
      first, chunks := StarFirstDiffers(secret);
    } else {
      var init := secret[..|secret| - 1];
      var at :| 0 <= at <= |init| && OccursAt(init, MASK, at);
      assert secret[at..at + 3] == init[at..at + 3];
      first, chunks := MaskInsideDiffers(secret, at);
    }
  }

  /** Stream and batch agree whatever secret is masked before this one, and however the text arrives. */
  ghost predicate AlwaysAgrees(secret: string)
    requires secret != ""
  {
    forall first, chunks :: first != "" ==> Agrees(chunks, [first, secret])
  }

  /** Exactly the harmless secrets may be masked after another one. */
  lemma StreamAgreesExact(secret: string)
    requires secret != ""
    ensures AlwaysAgrees(secret) <==> Harmless(secret)
  {
    if Harmless(secret) {
      forall first, chunks | first != "" ensures Agrees(chunks, [first, secret]) {
        StreamEqualsBatch(chunks, [first, secret]);
      }
    } else {
      var first, chunks := NotHarmlessDiffers(secret);
      assert !AlwaysAgrees(secret);
    }
  }
}
