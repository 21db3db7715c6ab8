/**
 The live log: text arrives in arbitrary chunks, the masker keeps a tail back so that no secret is cut in
 two, and masks and escapes what it emits.  The whole stream equals the batch form, `MaskAndEscape`.
 */
module LogStream {
  import opened Options
  import opened Masking
  import opened Text
  import opened Html

  function MaskAndEscape(text: string, secrets: seq<string>): string
    requires NonEmpty(secrets)
  {
    Escape(MaskAll(text, secrets))
  }

  method MaskAndEscapeLog(text: string, names: seq<string>, env: Env) returns (out: string)
    ensures out == MaskAndEscape(text, SecretValues(names, env)) && Safe(out)
  {
    if names == [] {
      out := HtmlEscape(text);
      return;
    }
    var masked := MaskSecrets(text, names, env);
    out := HtmlEscape(masked);
  }

  // ----- Cuts -----

  predicate EndsWith(text: string, tail: string) {
    |tail| <= |text| && text[|text| - |tail|..] == tail
  }

  /** The text ends in the first `n` characters of the secret, and more of the secret is missing. */
  predicate EndsInPrefix(text: string, secret: string, n: nat) {
    0 < n < |secret| && EndsWith(text, secret[..n])
  }

  /** No non-empty proper prefix of the secret ends the text. */
  predicate CleanFor(text: string, secret: string) {
    forall n :: 0 < n < |secret| ==> !EndsInPrefix(text, secret, n)
  }

  predicate Clean(text: string, secrets: seq<string>) {
    forall i :: 0 <= i < |secrets| ==> CleanFor(text, secrets[i])
  }

  /** The greatest clean cut at or below a limit. */
  function GreatestClean(text: string, limit: nat, secrets: seq<string>): (cut: nat)
    requires limit <= |text|
    ensures cut <= limit && Clean(text[..cut], secrets)
    ensures forall c :: cut < c <= limit ==> !Clean(text[..c], secrets)
  {
    if limit == 0 then 0
    else if Clean(text[..limit], secrets) then limit
    else GreatestClean(text, limit - 1, secrets)
  }

  function MaxLength(secrets: seq<string>): (max: nat)
    ensures forall i :: 0 <= i < |secrets| ==> |secrets[i]| <= max
    ensures if secrets == [] then max == 0 else exists i :: 0 <= i < |secrets| && |secrets[i]| == max
  {
    if secrets == [] then 0
    else
      var rest := MaxLength(secrets[..|secrets| - 1]);
      var last := |secrets[|secrets| - 1]|;
      if last > rest then last else rest
  }

  function EmitLimit(text: string, tailChars: nat): (limit: nat)
    ensures limit == if tailChars <= |text| then |text| - tailChars else 0
  {
    if tailChars == 0 then |text| else if tailChars <= |text| then |text| - tailChars else 0
  }

  method EmitPrefixLen(text: string, tailChars: nat) returns (limit: nat)
    ensures limit == EmitLimit(text, tailChars)
  {
    if tailChars == 0 {
      return |text|;
    }
    var retained := 0;
    var index := |text|;
    while index > 0
      invariant retained == |text| - index && retained < tailChars
    {
      index := index - 1;
      retained := retained + 1;
      if retained == tailChars {
        return index;
      }
    }
    return 0;
  }

  /** The longest proper prefix of a secret that ends the text is taken off. */
  method AdjustEmitLen(text: string, emitLen: nat, secrets: seq<string>) returns (adjusted: nat)
    requires emitLen <= |text|
    ensures adjusted <= emitLen
    ensures forall i, n :: 0 <= i < |secrets| && EndsInPrefix(text[..emitLen], secrets[i], n) ==> adjusted <= emitLen - n
    ensures adjusted < emitLen ==>
              exists i :: 0 <= i < |secrets| && EndsInPrefix(text[..emitLen], secrets[i], emitLen - adjusted)
  {
    var emitted := text[..emitLen];
    adjusted := emitLen;
    for k := 0 to |secrets|
      invariant adjusted <= emitLen
      invariant forall i, n :: 0 <= i < k && EndsInPrefix(emitted, secrets[i], n) ==> adjusted <= emitLen - n
      invariant adjusted < emitLen ==> exists i :: 0 <= i < k && EndsInPrefix(emitted, secrets[i], emitLen - adjusted)
    {
      var secret := secrets[k];
      var prefixEnd := 1;
      while prefixEnd < |secret|
        invariant 1 <= prefixEnd && adjusted <= emitLen
        invariant forall i, n :: 0 <= i < k && EndsInPrefix(emitted, secrets[i], n) ==> adjusted <= emitLen - n
        invariant forall n: nat :: n < prefixEnd && EndsInPrefix(emitted, secret, n) ==> adjusted <= emitLen - n
        invariant adjusted < emitLen ==> exists i :: 0 <= i <= k && EndsInPrefix(emitted, secrets[i], emitLen - adjusted)
      {
        var prefix := secret[..prefixEnd];
        if EndsWith(emitted, prefix) {
          if emitLen - prefixEnd < adjusted {
            assert EndsInPrefix(emitted, secrets[k], prefixEnd);
            adjusted := emitLen - prefixEnd;
          }
        }
        prefixEnd := prefixEnd + 1;
      }
    }
  }

  /** Between two cuts that differ by a proper prefix of a secret no cut is clean. */
  lemma NoCleanBetween(text: string, emitLen: nat, secret: string, n: nat, cut: nat)
    requires emitLen <= |text| && EndsInPrefix(text[..emitLen], secret, n) && emitLen - n < cut < emitLen
    ensures !CleanFor(text[..cut], secret)
  {
    var m := cut - (emitLen - n);
    assert text[..cut][|text[..cut]| - m..] == text[emitLen - n..emitLen][..m];
    assert text[..emitLen][emitLen - n..] == text[emitLen - n..emitLen];
    assert secret[..n][..m] == secret[..m];
    assert EndsInPrefix(text[..cut], secret, m);
  }

  /** Terminates, and returns the greatest clean cut that leaves the tail behind. */
  method SafeEmitPrefixLen(text: string, tailChars: nat, secrets: seq<string>) returns (cut: nat)
    ensures cut == GreatestClean(text, EmitLimit(text, tailChars), secrets)
  {
    cut := EmitPrefixLen(text, tailChars);
    ghost var limit := cut;
    while true
      invariant cut <= limit == EmitLimit(text, tailChars)
      invariant forall c :: cut < c <= limit ==> !Clean(text[..c], secrets)
      decreases cut
    {
      if cut == 0 {
        return 0;
      }
      var adjusted := AdjustEmitLen(text, cut, secrets);
      if adjusted == cut {
        assert Clean(text[..cut], secrets);
        return cut;
      }
      forall c | adjusted < c <= cut ensures !Clean(text[..c], secrets) {
        var i :| 0 <= i < |secrets| && EndsInPrefix(text[..cut], secrets[i], cut - adjusted);
        if c < cut {
          NoCleanBetween(text, cut, secrets[i], cut - adjusted, c);
        }
        assert !CleanFor(text[..c], secrets[i]);
      }
      cut := adjusted;
    }
  }

  // ----- A clean cut splits the masking -----

  /** Masking one secret on both sides of a clean cut. */
  lemma {:induction false} ReplaceSplits(front: string, back: string, secret: string)
    requires secret != "" && CleanFor(front, secret)
    ensures Replace(front + back, secret) == Replace(front, secret) + Replace(back, secret)
  {
    var text := front + back;
    if front == "" {
      assert text == back;
    } else if secret <= text {
      if |front| < |secret| {
        assert secret[..|front|] == front;
        assert EndsInPrefix(front, secret, |front|);
      }
      assert secret <= front && text[|secret|..] == front[|secret|..] + back;
      CleanSuffix(front, |secret|, secret);
      ReplaceSplits(front[|secret|..], back, secret);
    } else {
      assert |secret| <= |front| ==> front[..|secret|] == text[..|secret|];
      assert text[1..] == front[1..] + back;
      CleanSuffix(front, 1, secret);
      ReplaceSplits(front[1..], back, secret);
    }
  }

  lemma CleanSuffix(text: string, k: nat, secret: string)
    requires k <= |text| && CleanFor(text, secret)
    ensures CleanFor(text[k..], secret)
  {
    forall n | 0 < n < |secret| ensures !EndsInPrefix(text[k..], secret, n) {
      if n <= |text| - k {
        assert text[k..][|text| - k - n..] == text[|text| - n..];
      }
      assert !EndsInPrefix(text, secret, n);
    }
  }

  /** Text that no mask can be part of, unless it ends in the first stars of one. */
  predicate Plain(text: string) {
    text != "" && text[0] != '*' && !Contains(text, MASK)
  }

  lemma EndsWithSame(front: string, back: string, tail: string)
    requires |tail| <= |back|
    ensures EndsWith(front + back, tail) <==> EndsWith(back, tail)
  {
    assert (front + back)[|front + back| - |tail|..] == back[|back| - |tail|..];
  }

  /** A plain tail that reaches into what the first step puts out is all there is. */
  lemma TailIsAll(after: string, rest: string, tail: string)
    requires EndsWith(after + rest, tail) && |rest| < |tail| && Plain(tail)
    requires after == MASK || |after| == 1
    ensures tail == after + rest
  {
    var all := after + rest;
    assert all[|all| - |tail|] == tail[0];
  }

  /** A plain tail of the masked text was the tail before. */
  lemma {:induction false} TailUntouched(text: string, secret: string, tail: string)
    requires secret != "" && EndsWith(Replace(text, secret), tail) && Plain(tail)
    ensures EndsWith(text, tail)
  {
    var front, after := FirstStep(text, secret);
    var rest := Replace(text[front..], secret);
    if |tail| <= |rest| {
      EndsWithSame(after, rest, tail);
      TailUntouched(text[front..], secret, tail);
      EndsWithSame(text[..front], text[front..], tail);
      assert text == text[..front] + text[front..];
    } else {
      TailIsAll(after, rest, tail);
      NothingReplaced(text, secret);
    }
  }

  lemma {:induction false} NothingReplaced(text: string, secret: string)
    requires secret != "" && !Contains(Replace(text, secret), MASK)
    ensures Replace(text, secret) == text
  {
    if text != "" {
      var front, after := FirstStep(text, secret);
      var rest := Replace(text[front..], secret);
      assert after == MASK ==> OccursAt(Replace(text, secret), MASK, 0);
      if Contains(rest, MASK) {
        ContainsTail(after, rest, MASK);
      }
      NothingReplaced(text[1..], secret);
    }
  }

  /** No star at the start, and no mask before the last character. */
  predicate Calm(secret: string) {
    |secret| > 1 ==> Plain(secret[..|secret| - 1])
  }

  lemma StarFreeIsCalm(secret: string)
    requires StarFree(secret)
    ensures Calm(secret)
  {
    if |secret| > 1 {
      assert StarFree(secret[..|secret| - 1]);
      StarFreeIsQuiet(secret[..|secret| - 1]);
    }
  }

  lemma PlainPrefix(text: string, n: nat)
    requires Plain(text) && 0 < n <= |text|
    ensures Plain(text[..n])
  {
    if i: nat :| i <= n && OccursAt(text[..n], MASK, i) {
      assert text[..n][i..i + 3] == text[i..i + 3];
      assert OccursAt(text, MASK, i);
    }
  }

  /** Masking a secret creates no new tail that a calm secret could begin with. */
  lemma ReplaceKeepsClean(text: string, secret: string, other: string)
    requires secret != "" && Calm(other) && CleanFor(text, other)
    ensures CleanFor(Replace(text, secret), other)
  {
    var masked := Replace(text, secret);
    forall n | 0 < n < |other| ensures !EndsInPrefix(masked, other, n) {
      if EndsInPrefix(masked, other, n) {
        PlainPrefix(other[..|other| - 1], n);
        assert other[..|other| - 1][..n] == other[..n];
        TailUntouched(text, secret, other[..n]);
        assert EndsInPrefix(text, other, n);
      }
    }
  }

  /** Calm, or the mask itself, whose replacement changes nothing. */
  predicate Harmless(secret: string) {
    Calm(secret) || secret == MASK
  }

  lemma {:induction false} MaskIsIdentity(text: string)
    ensures Replace(text, MASK) == text
  {
    if text != "" {
      var front := if MASK <= text then |MASK| else 1;
      MaskIsIdentity(text[front..]);
      assert text == text[..front] + text[front..];
    }
  }

  /** All secrets but the first one masked are harmless. */
  predicate LaterHarmless(secrets: seq<string>) {
    forall i :: 0 < i < |secrets| ==> Harmless(secrets[i])
  }

  lemma {:induction false} MaskKeepsClean(text: string, secrets: seq<string>, other: string)
    requires NonEmpty(secrets) && CleanFor(text, other) && (secrets != [] ==> Calm(other))
    ensures CleanFor(MaskAll(text, secrets), other)
  {
    if secrets != [] {
      MaskKeepsClean(text, secrets[..|secrets| - 1], other);
      ReplaceKeepsClean(MaskAll(text, secrets[..|secrets| - 1]), secrets[|secrets| - 1], other);
    }
  }

  /** Masking all secrets, one after the other, on both sides of a clean cut. */
  lemma {:induction false} MaskSplits(front: string, back: string, secrets: seq<string>)
    requires NonEmpty(secrets) && LaterHarmless(secrets) && Clean(front, secrets)
    ensures MaskAll(front + back, secrets) == MaskAll(front, secrets) + MaskAll(back, secrets)
  {
    if secrets != [] {
      var init, last := secrets[..|secrets| - 1], secrets[|secrets| - 1];
      assert forall i :: 0 <= i < |init| ==> init[i] == secrets[i];
      MaskSplits(front, back, init);
      if last == MASK {
        MaskIsIdentity(MaskAll(front + back, init));
        MaskIsIdentity(MaskAll(front, init));
        MaskIsIdentity(MaskAll(back, init));
      } else {
        MaskKeepsClean(front, init, last);
        ReplaceSplits(MaskAll(front, init), MaskAll(back, init), last);
      }
    }
  }

  /** No occurrence of a secret, in any continuation, straddles a clean cut. */
  lemma NothingStraddles(front: string, back: string, secret: string, i: nat)
    requires CleanFor(front, secret) && OccursAt(front + back, secret, i)
    ensures i + |secret| <= |front| || |front| <= i
  {
    var n := |front| - i;
    if 0 < n < |secret| {
      assert secret[..n] == (front + back)[i..i + n] == front[i..];
      assert EndsInPrefix(front, secret, n);
    }
  }

  // ----- The stream -----

  /** What push emits and keeps. */
  function Cut(buffer: string, secrets: seq<string>): (cut: nat)
    ensures cut <= |buffer| && Clean(buffer[..cut], secrets)
  {
    GreatestClean(buffer, EmitLimit(buffer, MaxLength(secrets)), secrets)
  }

  /** Nothing is kept back for longer than a secret may need: up to a clean cut there, all but the longest length is sent. */
  lemma SendsAllButTail(buffer: string, secrets: seq<string>, longest: nat)
    requires forall i :: 0 <= i < |secrets| ==> |secrets[i]| <= longest
    requires if secrets == [] then longest == 0 else exists i :: 0 <= i < |secrets| && |secrets[i]| == longest
    requires longest <= |buffer|
    requires forall i, n :: 0 <= i < |secrets| && 0 < n < |secrets[i]| ==>
               !EndsWith(buffer[..|buffer| - longest], secrets[i][..n])
    ensures Cut(buffer, secrets) == |buffer| - longest
  {
    var limit := |buffer| - longest;
    assert MaxLength(secrets) == longest;
    forall i | 0 <= i < |secrets| ensures CleanFor(buffer[..limit], secrets[i]) {
    }
    assert Clean(buffer[..limit], secrets);
  }

  function Join(chunks: seq<string>): string {
    if chunks == [] then "" else Join(chunks[..|chunks| - 1]) + chunks[|chunks| - 1]
  }

  /** The text of an event, if one was sent. */
  function Sent(event: Option<string>): string {
    if event.Some? then event.value else ""
  }

  class LogStreamMasker {
    const secrets: seq<string>
    const tailChars: nat
    var buffer: string

    predicate Valid() {
      NonEmpty(secrets) && tailChars == MaxLength(secrets)
    }

    constructor (names: seq<string>, env: Env)
      ensures Valid() && secrets == SecretValues(names, env) && buffer == ""
    {
      secrets := SecretValues(names, env);
      tailChars := MaxLength(SecretValues(names, env));
      buffer := "";
    }

    method MaskChunk(chunk: string) returns (out: string)
      requires Valid()
      ensures out == MaskAndEscape(chunk, secrets) && Safe(out)
    {
      if secrets == [] {
        out := HtmlEscape(chunk);
        return;
      }
      var masked := chunk;
      for i := 0 to |secrets|
        invariant NonEmpty(secrets[..i])
        invariant masked == MaskAll(chunk, secrets[..i])
      {
        assert secrets[..i + 1][..i] == secrets[..i];
        masked := Replace(masked, secrets[i]);
      }
      assert secrets[..|secrets|] == secrets;
      out := HtmlEscape(masked);
    }

    method Push(text: string) returns (event: Option<string>)
      requires Valid()
      modifies this
      ensures var whole := old(buffer) + text;
        buffer == whole[Cut(whole, secrets)..] && Sent(event) == MaskAndEscape(whole[..Cut(whole, secrets)], secrets)
      ensures event != Some("") && Safe(Sent(event))
    {
      buffer := buffer + text;
      var cut := SafeEmitPrefixLen(buffer, tailChars, secrets);
      if cut == 0 {
        EmptyMasked(secrets);
        assert buffer[..0] == "" && buffer[0..] == buffer;
        return None;
      }
      var chunk := buffer[..cut];
      buffer := buffer[cut..];
      var out := MaskChunk(chunk);
      event := if out == "" then None else Some(out);
    }

    method Flush() returns (event: Option<string>)
      requires Valid()
      modifies this
      ensures buffer == "" && Sent(event) == MaskAndEscape(old(buffer), secrets)
      ensures event != Some("") && Safe(Sent(event))
    {
      if buffer == "" {
        EmptyMasked(secrets);
        return None;
      }
      var chunk := buffer;
      buffer := "";
      var out := MaskChunk(chunk);
      event := if out == "" then None else Some(out);
    }
  }

  lemma {:induction false} EmptyMasked(secrets: seq<string>)
    requires NonEmpty(secrets)
    ensures MaskAll("", secrets) == "" && MaskAndEscape("", secrets) == ""
  {
    if secrets != [] {
      EmptyMasked(secrets[..|secrets| - 1]);
    }
  }

  /** Output so far, and the buffer, after the chunks have been pushed. */
  function Stream(chunks: seq<string>, secrets: seq<string>): (string, string)
    requires NonEmpty(secrets)
  {
    if chunks == [] then ("", "")
    else
      var (out, buffer) := Stream(chunks[..|chunks| - 1], secrets);
      var whole := buffer + chunks[|chunks| - 1];
      var cut := Cut(whole, secrets);
      (out + MaskAndEscape(whole[..cut], secrets), whole[cut..])
  }

  /** Masking of the text up to here does not depend on what follows. */
  ghost predicate Settled(front: string, secrets: seq<string>)
    requires NonEmpty(secrets)
  {
    forall rest :: MaskAll(front + rest, secrets) == MaskAll(front, secrets) + MaskAll(rest, secrets)
  }

  lemma SettledExtends(front: string, more: string, secrets: seq<string>)
    requires NonEmpty(secrets) && LaterHarmless(secrets) && Settled(front, secrets) && Clean(more, secrets)
    ensures Settled(front + more, secrets)
  {
    forall rest ensures MaskAll(front + more + rest, secrets) == MaskAll(front + more, secrets) + MaskAll(rest, secrets) {
      Regroup(front, more, rest);
      MaskSplits(more, rest, secrets);
      Regroup(MaskAll(front, secrets), MaskAll(more, secrets), MaskAll(rest, secrets));
    }
  }

  lemma EmptySettled(secrets: seq<string>)
    requires NonEmpty(secrets)
    ensures MaskAndEscape("", secrets) == "" && Settled("", secrets)
  {
    EmptyMasked(secrets);
    assert forall rest: string :: "" + rest == rest;
  }

  /** One push: `before` has been emitted, `now` is emitted next, `later` stays in the buffer. */
  lemma PushSettles(before: string, now: string, later: string, buffer: string, last: string, secrets: seq<string>)
    requires NonEmpty(secrets) && LaterHarmless(secrets) && Settled(before, secrets) && Clean(now, secrets)
    requires buffer + last == now + later
    ensures Settled(before + now, secrets)
    ensures MaskAndEscape(before, secrets) + MaskAndEscape(now, secrets) == MaskAndEscape(before + now, secrets)
    ensures (before + buffer) + last == (before + now) + later
  {
    SettledExtends(before, now, secrets);
    EscapeConcat(MaskAll(before, secrets), MaskAll(now, secrets));
    Regroup(before, buffer, last);
    Regroup(before, now, later);
  }

  lemma OnePush(before: string, buffer: string, last: string, secrets: seq<string>)
    requires NonEmpty(secrets) && LaterHarmless(secrets) && Settled(before, secrets)
    ensures var whole := buffer + last;
      var cut := Cut(whole, secrets);
      && Settled(before + whole[..cut], secrets)
      && MaskAndEscape(before, secrets) + MaskAndEscape(whole[..cut], secrets) == MaskAndEscape(before + whole[..cut], secrets)
      && (before + buffer) + last == (before + whole[..cut]) + whole[cut..]
  {
    var whole := buffer + last;
    var cut := Cut(whole, secrets);
    PushSettles(before, whole[..cut], whole[cut..], buffer, last, secrets);
  }

  /** The emitted part of the text, unmasked. */
  lemma {:induction false} EmittedPart(chunks: seq<string>, secrets: seq<string>) returns (emitted: string)
    requires NonEmpty(secrets) && LaterHarmless(secrets)
    ensures Join(chunks) == emitted + Stream(chunks, secrets).1
    ensures Stream(chunks, secrets).0 == MaskAndEscape(emitted, secrets) && Settled(emitted, secrets)
  {
    if chunks == [] {
      emitted := "";
      EmptySettled(secrets);
    } else {
      var init, last := chunks[..|chunks| - 1], chunks[|chunks| - 1];
      var before := EmittedPart(init, secrets);
      var (out, buffer) := Stream(init, secrets);
      var whole := buffer + last;
      var cut := Cut(whole, secrets);
      emitted := before + whole[..cut];
      OnePush(before, buffer, last, secrets);
      assert Join(chunks) == (before + buffer) + last;
      assert Stream(chunks, secrets) == (out + MaskAndEscape(whole[..cut], secrets), whole[cut..]);
    }
  }

  /**
   Streaming refines batch: however a text is cut into chunks, the events of the pushes and of the final
   flush join to the masked and escaped text, provided that every secret but the first one masked is
   harmless: so always for a single secret.  Module StreamExact says why no other secret will do.
   */
  lemma StreamEqualsBatch(chunks: seq<string>, secrets: seq<string>)
    requires NonEmpty(secrets) && LaterHarmless(secrets)
    ensures var (out, buffer) := Stream(chunks, secrets);
      out + MaskAndEscape(buffer, secrets) == MaskAndEscape(Join(chunks), secrets)
  {
    var emitted := EmittedPart(chunks, secrets);
    var (out, buffer) := Stream(chunks, secrets);
    EscapeConcat(MaskAll(emitted, secrets), MaskAll(buffer, secrets));
  }

  /** In particular for secrets free of the mask character. */
  lemma StarFreeStream(chunks: seq<string>, secrets: seq<string>)
    requires NonEmpty(secrets) && forall i :: 0 <= i < |secrets| ==> StarFree(secrets[i])
    ensures var (out, buffer) := Stream(chunks, secrets);
      out + MaskAndEscape(buffer, secrets) == MaskAndEscape(Join(chunks), secrets)
  {
    forall i | 0 < i < |secrets| ensures Harmless(secrets[i]) {
      StarFreeIsCalm(secrets[i]);
    }
    StreamEqualsBatch(chunks, secrets);
  }

  lemma MaskTwo(text: string, first: string, second: string)
    requires first != "" && second != ""
    ensures MaskAll(text, [first, second]) == Replace(Replace(text, first), second)
  {
    var one, two := [first], [first, second];
    assert two[..|two| - 1] == one && one[..|one| - 1] == [];
    assert MaskAll(text, one) == Replace(text, first);
  }

  lemma StreamOne(text: string, secrets: seq<string>)
    requires NonEmpty(secrets)
    ensures Stream([text], secrets) == (MaskAndEscape(text[..Cut(text, secrets)], secrets), text[Cut(text, secrets)..])
  {
    var chunks := [text];
    assert chunks[..|chunks| - 1] == [] && "" + text == text;
    var first := MaskAndEscape(text[..Cut(text, secrets)], secrets);
    assert "" + first == first;
  }

  lemma MaskPlainTwo(text: string, first: string, second: string, masked: string)
    requires first != "" && second != "" && Replace(Replace(text, first), second) == masked
    requires forall i :: 0 <= i < |masked| ==> masked[i] !in {'&', '<', '>', '"'}
    ensures MaskAndEscape(text, [first, second]) == masked
  {
    MaskTwo(text, first, second);
    EscapePlain(masked);
  }

  /** The whole output for a text that arrives in one chunk. */
  lemma StreamSide(text: string, secrets: seq<string>, now: string, later: string)
    requires NonEmpty(secrets)
    requires MaskAndEscape(text[..Cut(text, secrets)], secrets) == now
    requires MaskAndEscape(text[Cut(text, secrets)..], secrets) == later
    ensures var (out, buffer) := Stream([text], secrets); out + MaskAndEscape(buffer, secrets) == now + later
  {
    StreamOne(text, secrets);
  }

  lemma StarredStream()
    ensures var (out, buffer) := Stream(["xyz"], ["x", "*y"]);
      out + MaskAndEscape(buffer, ["x", "*y"]) == "***" + "yz"
  {
    StarredCut();
    StarredReplacements();
    assert "xyz"[..1] == "x" && "xyz"[1..] == "yz";
    MaskPlainTwo("x", "x", "*y", "***");
    MaskPlainTwo("yz", "x", "*y", "yz");
    StreamSide("xyz", ["x", "*y"], "***", "yz");
  }

  /**
   Otherwise the two can differ.  With the secrets "x" and "*y", the batch form masks the "*y" that the
   first mask creates; the stream has already sent that mask when the "y" arrives.
   */
  lemma StarredSecretDiffers()
    ensures var secrets := ["x", "*y"];
      var (out, buffer) := Stream(["xyz"], secrets);
      out + MaskAndEscape(buffer, secrets) == "***" + "yz" && MaskAndEscape("xyz", secrets) == "*****z"
  {
    StarredStream();
    StarredReplacements();
    MaskPlainTwo("xyz", "x", "*y", "*****z");
  }

  lemma StarredCut()
    ensures Cut("xyz", ["x", "*y"]) == 1
  {
    var secrets := ["x", "*y"];
    assert |secrets[1]| == 2 && "xyz"[..1] == "x" && "*y"[..1] == "*";
    forall i, n | 0 <= i < |secrets| && 0 < n < |secrets[i]| ensures !EndsWith("xyz"[..1], secrets[i][..n]) {
      assert i == 1 && n == 1;
    }
    SendsAllButTail("xyz", secrets, 2);
  }

  lemma StarredReplacements()
    ensures Replace(Replace("x", "x"), "*y") == "***"
    ensures Replace(Replace("yz", "x"), "*y") == "yz"
    ensures Replace(Replace("xyz", "x"), "*y") == "*****z"
  {
    assert Replace("", "x") == "" && Replace("", "*y") == "";
    assert "z"[1..] == "" && "yz"[1..] == "z" && "xyz"[1..] == "yz" && "x"[1..] == "";
    assert Replace("z", "x") == "z" && Replace("yz", "x") == "yz";
    assert Replace("x", "x") == "***" && Replace("xyz", "x") == "***yz";
    assert "***yz"[1..] == "**yz" && "**yz"[1..] == "*yz" && "*yz"[2..] == "z";
    assert "***"[1..] == "**" && "**"[1..] == "*" && "*"[1..] == "";
    assert Replace("z", "*y") == "z" && Replace("yz", "*y") == "yz";
    assert "*yz"[..2] == "*y" && Replace("*yz", "*y") == "***z";
    assert Replace("**yz", "*y") == "****z" && Replace("***yz", "*y") == "*****z";
    assert Replace("*", "*y") == "*" && Replace("**", "*y") == "**" && Replace("***", "*y") == "***";
  }

  /** The streaming loop: push every chunk, then flush. */
  method StreamLog(chunks: seq<string>, names: seq<string>, env: Env) returns (output: string)
    ensures var secrets := SecretValues(names, env);
      var (out, buffer) := Stream(chunks, secrets);
      && output == out + MaskAndEscape(buffer, secrets) && Safe(output)
      && (LaterHarmless(secrets) ==> output == MaskAndEscape(Join(chunks), secrets))
  {
    var masker := new LogStreamMasker(names, env);
    output := "";
    for i := 0 to |chunks|
      invariant masker.Valid() && masker.secrets == SecretValues(names, env)
      invariant (output, masker.buffer) == Stream(chunks[..i], masker.secrets) && Safe(output)
    {
      assert chunks[..i + 1][..i] == chunks[..i];
      var event := masker.Push(chunks[i]);
      SafeConcat(output, Sent(event));
      output := output + Sent(event);
    }
    assert chunks[..|chunks|] == chunks;
    if LaterHarmless(masker.secrets) {
      StreamEqualsBatch(chunks, masker.secrets);
    }
    var event := masker.Flush();
    SafeConcat(output, Sent(event));
    output := output + Sent(event);
  }
}
