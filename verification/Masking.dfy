/**
 Masking of configured secret values: every occurrence of a value is replaced by `***`, one value after
 the other.  No regex patterns are configured.  Strings are sequences of characters; the source compares
 UTF-8 bytes, which agrees because it only cuts at character boundaries.
 */
module Masking {
  import opened Options
  import opened Text

  const MASK := "***"

  /** The environment: first the hook's own variables, then the server's. */
  datatype Env = Env(hook: map<string, string>, system: map<string, string>)

  function Lookup(env: Env, name: string): Option<string> {
    if name in env.hook then Some(env.hook[name])
    else if name in env.system then Some(env.system[name])
    else None
  }

  /** The values to mask, in configuration order; unset and empty ones are skipped. */
  function SecretValues(names: seq<string>, env: Env): (values: seq<string>)
    ensures NonEmpty(values)
  {
    if names == [] then []
    else
      var rest := SecretValues(names[..|names| - 1], env);
      var value := Lookup(env, names[|names| - 1]);
      if value.Some? && value.value != "" then rest + [value.value] else rest
  }

  /** Replace leftmost, non-overlapping occurrences of `secret`. */
  function Replace(text: string, secret: string): string
    requires secret != ""
  {
    if text == "" then ""
    else if secret <= text then MASK + Replace(text[|secret|..], secret)
    else [text[0]] + Replace(text[1..], secret)
  }

  predicate NonEmpty(secrets: seq<string>) {
    forall i :: 0 <= i < |secrets| ==> secrets[i] != ""
  }

  function MaskAll(text: string, secrets: seq<string>): string
    requires NonEmpty(secrets)
  {
    if secrets == [] then text
    else Replace(MaskAll(text, secrets[..|secrets| - 1]), secrets[|secrets| - 1])
  }

  // ----- Which values are secrets -----

  /** The value is what the name stands for: the hook's own if the hook sets the name, else the server's. */
  predicate IsSecret(env: Env, name: string, value: string) {
    && value != ""
    && ((name in env.hook && env.hook[name] == value)
        || (name !in env.hook && name in env.system && env.system[name] == value))
  }

  /** One name stands for one value or for none. */
  lemma SecretOfName(name: string, env: Env)
    ensures name in env.hook && env.hook[name] != "" ==> SecretValues([name], env) == [env.hook[name]]
    ensures name in env.hook && env.hook[name] == "" ==> SecretValues([name], env) == []
    ensures name !in env.hook && name in env.system && env.system[name] != "" ==> SecretValues([name], env) == [env.system[name]]
    ensures name !in env.hook && (name in env.system ==> env.system[name] == "") ==> SecretValues([name], env) == []
  {
    assert [name][..0] == [];
  }

  /** The values are in configuration order: those of the first names before those of the next. */
  lemma {:induction false} SecretsInOrder(front: seq<string>, back: seq<string>, env: Env)
    ensures SecretValues(front + back, env) == SecretValues(front, env) + SecretValues(back, env)
  {
    if back == [] {
      assert front + back == front && SecretValues(front, env) + [] == SecretValues(front, env);
    } else {
      var init, all := back[..|back| - 1], front + back;
      assert all[..|all| - 1] == front + init && all[|all| - 1] == back[|back| - 1];
      SecretsInOrder(front, init, env);
      var more := SecretValues(back, env)[|SecretValues(init, env)|..];
      assert SecretValues(back, env) == SecretValues(init, env) + more;
      assert SecretValues(all, env) == SecretValues(front + init, env) + more;
      Regroup(SecretValues(front, env), SecretValues(init, env), more);
    }
  }

  /** The values are exactly those that the names stand for. */
  lemma {:induction false} SecretsExact(names: seq<string>, env: Env, value: string)
    ensures value in SecretValues(names, env) <==> exists name :: name in names && IsSecret(env, name, value)
  {
    if names != [] {
      var init, last := names[..|names| - 1], names[|names| - 1];
      SecretsExact(init, env, value);
      SecretsInOrder(init, [last], env);
      assert names == init + [last];
      SecretOfName(last, env);
      assert value in SecretValues([last], env) <==> IsSecret(env, last, value);
      assert last in names && forall name :: name in names <==> name in init || name == last;
    }
  }

  // ----- Occurrences -----

  predicate OccursAt(text: string, part: string, i: nat) {
    i + |part| <= |text| && text[i..i + |part|] == part
  }

  predicate Contains(text: string, part: string) {
    exists i :: 0 <= i <= |text| && OccursAt(text, part, i)
  }

  predicate StarFree(text: string) {
    '*' !in text
  }

  lemma ShiftOccurrence(front: string, text: string, part: string, i: nat)
    ensures OccursAt(front + text, part, |front| + i) <==> OccursAt(text, part, i)
  {
    if i + |part| <= |text| {
      assert (front + text)[|front| + i..|front| + i + |part|] == text[i..i + |part|];
    }
  }

  /** No star at either end and no mask inside: masking cannot put such a part together. */
  predicate Quiet(part: string) {
    part != "" && part[0] != '*' && part[|part| - 1] != '*' && !Contains(part, MASK)
  }

  lemma StarFreeIsQuiet(part: string)
    requires part != "" && StarFree(part)
    ensures Quiet(part)
  {
    assert part[0] in part && part[|part| - 1] in part;
    if i: nat :| i <= |part| && OccursAt(part, MASK, i) {
      OccurrenceAt(part, MASK, i, 0);
    }
  }

  lemma OccurrenceAt(text: string, part: string, i: nat, k: nat)
    requires OccursAt(text, part, i) && k < |part|
    ensures text[i + k] == part[k] && part[k] in text
  {
    assert text[i..i + |part|][k] == text[i + k];
  }

  /** Text that ends without a star and holds no mask does not begin with one. */
  lemma NoMaskFirst(rest: string, n: nat)
    requires 0 < n <= |MASK + rest| && (MASK + rest)[n - 1] != '*'
    ensures Contains((MASK + rest)[..n], MASK)
  {
    assert OccursAt((MASK + rest)[..n], MASK, 0);
  }

  lemma ContainsTail(first: string, rest: string, part: string)
    requires Contains(rest, part)
    ensures Contains(first + rest, part)
  {
    var i :| 0 <= i <= |rest| && OccursAt(rest, part, i);
    ShiftOccurrence(first, rest, part, i);
    assert OccursAt(first + rest, part, |first| + i);
  }

  /** A quiet prefix of the masked text was there before. */
  lemma {:induction false} PrefixUntouched(text: string, secret: string, n: nat)
    requires secret != "" && n <= |Replace(text, secret)| && !Contains(Replace(text, secret)[..n], MASK)
    requires n > 0 ==> Replace(text, secret)[n - 1] != '*'
    ensures n <= |text| && text[..n] == Replace(text, secret)[..n]
  {
    if n > 0 {
      if secret <= text {
        NoMaskFirst(Replace(text[|secret|..], secret), n);
      }
      var rest := Replace(text[1..], secret);
      assert Replace(text, secret)[..n] == [text[0]] + rest[..n - 1];
      if Contains(rest[..n - 1], MASK) {
        ContainsTail([text[0]], rest[..n - 1], MASK);
      }
      PrefixUntouched(text[1..], secret, n - 1);
      assert text[..n] == [text[0]] + text[1..][..n - 1];
    }
  }

  /** The masked value itself cannot begin the masked text. */
  lemma StartUntouched(text: string, secret: string, part: string)
    requires secret != "" && Quiet(part) && OccursAt(Replace(text, secret), part, 0)
    ensures OccursAt(text, part, 0) && part != secret
  {
    PrefixUntouched(text, secret, |part|);
    assert Replace(text, secret)[0] == part[0];
  }

  /** One replacement or one copied character at the front of the text. */
  lemma FirstStep(text: string, secret: string) returns (front: nat, after: string)
    requires secret != "" && text != ""
    ensures 0 < front <= |text| && Replace(text, secret) == after + Replace(text[front..], secret)
    ensures after == MASK || (front == 1 && after == [text[0]])
  {
    if secret <= text {
      return |secret|, MASK;
    } else {
      return 1, [text[0]];
    }
  }

  /** A quiet occurrence in the masked text was there before, and is not the masked value itself. */
  lemma {:induction false} OccurrenceUntouched(text: string, secret: string, part: string, i: nat) returns (j: nat)
    requires secret != "" && Quiet(part) && OccursAt(Replace(text, secret), part, i)
    ensures OccursAt(text, part, j) && part != secret
  {
    if i == 0 {
      StartUntouched(text, secret, part);
      return 0;
    }
    var masked := Replace(text, secret);
    var front, after := FirstStep(text, secret);
    var tail := text[front..];
    assert masked[i] == part[0];
    assert i >= |after|;
    ShiftOccurrence(after, Replace(tail, secret), part, i - |after|);
    var k := OccurrenceUntouched(tail, secret, part, i - |after|);
    assert text == text[..front] + tail;
    ShiftOccurrence(text[..front], tail, part, k);
    j := front + k;
  }

  lemma {:induction false} NothingNewOccurs(text: string, secrets: seq<string>, part: string)
    requires NonEmpty(secrets) && Quiet(part) && Contains(MaskAll(text, secrets), part)
    ensures Contains(text, part) && part !in secrets
  {
    if secrets != [] {
      var init, last := secrets[..|secrets| - 1], secrets[|secrets| - 1];
      var before := MaskAll(text, init);
      var i :| 0 <= i <= |MaskAll(text, secrets)| && OccursAt(MaskAll(text, secrets), part, i);
      var j := OccurrenceUntouched(before, last, part, i);
      assert OccursAt(before, part, j);
      NothingNewOccurs(text, init, part);
      assert secrets == init + [last];
    }
  }

  /**
   No leak: the masked text contains no secret that is free of the mask character, nor any other quiet
   one, however the secrets overlap or nest and in whatever order they are masked.
   */
  lemma NoSecretSurvives(text: string, secrets: seq<string>)
    requires NonEmpty(secrets)
    ensures forall secret :: secret in secrets && (StarFree(secret) || Quiet(secret)) ==>
              !Contains(MaskAll(text, secrets), secret)
  {
    forall secret | secret in secrets && (StarFree(secret) || Quiet(secret))
      ensures !Contains(MaskAll(text, secrets), secret)
    {
      if StarFree(secret) {
        StarFreeIsQuiet(secret);
      }
      if Contains(MaskAll(text, secrets), secret) {
        NothingNewOccurs(text, secrets, secret);
      }
    }
  }

  /** Only secrets are replaced: a text without any of them is unchanged. */
  lemma {:induction false} CleanTextUnchanged(text: string, secrets: seq<string>)
    requires NonEmpty(secrets) && forall i :: 0 <= i < |secrets| ==> !Contains(text, secrets[i])
    ensures MaskAll(text, secrets) == text
  {
    if secrets != [] {
      CleanTextUnchanged(text, secrets[..|secrets| - 1]);
      AbsentUnchanged(text, secrets[|secrets| - 1]);
    }
  }

  lemma {:induction false} AbsentUnchanged(text: string, secret: string)
    requires secret != "" && !Contains(text, secret)
    ensures Replace(text, secret) == text
  {
    if text != "" {
      assert !OccursAt(text, secret, 0);
      forall i | 0 <= i <= |text[1..]| ensures !OccursAt(text[1..], secret, i) {
        assert !OccursAt(text, secret, i + 1);
        assert text == text[..1] + text[1..];
        ShiftOccurrence(text[..1], text[1..], secret, i);
      }
      AbsentUnchanged(text[1..], secret);
    }
  }

  /** The masked log contains no value that a configured name stands for, if the value is quiet or free of stars. */
  method MaskSecrets(text: string, names: seq<string>, env: Env) returns (result: string)
    ensures result == MaskAll(text, SecretValues(names, env))
    ensures forall name, value :: name in names && IsSecret(env, name, value) && (StarFree(value) || Quiet(value)) ==>
              !Contains(result, value)
  {
    if names == [] {
      return text;
    }
    result := text;
    for i := 0 to |names|
      invariant result == MaskAll(text, SecretValues(names[..i], env))
    {
      assert names[..i + 1][..i] == names[..i];
      var value := Lookup(env, names[i]);
      if value.Some? && value.value != "" {
        ghost var before := SecretValues(names[..i], env);
        assert (before + [value.value])[..|before|] == before;
        result := Replace(result, value.value);
      }
    }
    assert names[..|names|] == names;
    NoSecretSurvives(text, SecretValues(names, env));
    forall name, value | name in names && IsSecret(env, name, value) && (StarFree(value) || Quiet(value))
      ensures !Contains(result, value)
    {
      SecretsExact(names, env, value);
    }
  }

  /** Leftmost first, and nothing twice: up to the first occurrence the text stays, then the mask, then the rest. */
  lemma ReplaceLeftmost(front: string, secret: string, back: string)
    requires secret != "" && forall i :: 0 <= i < |front| ==> !OccursAt(front + (secret + back), secret, i)
    ensures Replace(front + (secret + back), secret) == front + ("***" + Replace(back, secret))
  {
    PassOver(front, secret + back, secret);
    assert (secret + back)[|secret|..] == back;
  }

  // ----- Exactly which secrets are safe -----

  /** Replacing passes over text in which no occurrence begins. */
  lemma {:induction false} PassOver(front: string, text: string, secret: string)
    requires secret != "" && forall i :: 0 <= i < |front| ==> !OccursAt(front + text, secret, i)
    ensures Replace(front + text, secret) == front + Replace(text, secret)
  {
    if front == "" {
      assert front + text == text;
    } else {
      var whole, first, rest := front + text, front[..1], front[1..];
      assert !OccursAt(whole, secret, 0) && whole[1..] == rest + text && whole == first + (rest + text);
      forall i | 0 <= i < |rest| ensures !OccursAt(rest + text, secret, i) {
        ShiftOccurrence(first, rest + text, secret, i);
        assert !OccursAt(whole, secret, i + 1);
      }
      PassOver(rest, text, secret);
    }
  }

  /** What masking makes of an occurrence of `secret` between `front` and a `back` shorter than the secret. */
  lemma MaskBetween(front: string, secret: string, back: string)
    requires |back| < |secret| && forall i :: 0 <= i < |front| ==> !OccursAt(front + (secret + back), secret, i)
    ensures MaskAll(front + (secret + back), [secret]) == front + (MASK + back)
  {
    PassOver(front, secret + back, secret);
    assert (secret + back)[|secret|..] == back;
    AbsentUnchanged(back, secret);
    assert [secret][..0] == [];
  }

  /** A secret that begins with a star, meets the end of a mask. */
  lemma StarFirstLeaks(secret: string) returns (text: string)
    requires secret != "" && secret[0] == '*'
    ensures Contains(MaskAll(text, [secret]), secret)
  {
    text := "" + (secret + secret[1..]);
    MaskBetween("", secret, secret[1..]);
    var masked := "" + (MASK + secret[1..]);
    assert masked[2..2 + |secret|] == secret;
    assert OccursAt(masked, secret, 2);
  }

  /** A secret that ends with a star, meets the start of one. */
  lemma StarLastLeaks(secret: string) returns (text: string)
    requires secret != "" && secret[0] != '*' && secret[|secret| - 1] == '*'
    ensures Contains(MaskAll(text, [secret]), secret)
  {
    var front := secret[..|secret| - 1];
    text := front + (secret + "");
    forall i | 0 <= i < |front| ensures !OccursAt(text, secret, i) {
      if OccursAt(text, secret, i) {
        OccurrenceAt(text, secret, i, 0);
        OccurrenceAt(text, secret, i, |secret| - 1);
      }
    }
    MaskBetween(front, secret, "");
    var masked := front + (MASK + "");
    assert masked[..|secret|] == secret;
    assert OccursAt(masked, secret, 0);
  }

  /** The first of the places where the part occurs. */
  lemma {:induction false} FirstOccurrence(text: string, part: string, i: nat) returns (first: nat)
    requires OccursAt(text, part, i)
    ensures OccursAt(text, part, first) && forall k :: 0 <= k < first ==> !OccursAt(text, part, k)
  {
    if k: nat :| k < i && OccursAt(text, part, k) {
      first := FirstOccurrence(text, part, k);
    } else {
      first := i;
    }
  }

  /** A secret around a mask is rebuilt by masking it between its own ends. */
  lemma MaskInsideLeaks(secret: string) returns (text: string)
    requires Contains(secret, MASK)
    ensures Contains(MaskAll(text, [secret]), secret)
  {
    var at :| 0 <= at <= |secret| && OccursAt(secret, MASK, at);
    var first := FirstOccurrence(secret, MASK, at);
    var front, back := secret[..first], secret[first + 3..];
    text := front + (secret + back);
    forall i | 0 <= i < |front| ensures !OccursAt(text, secret, i) {
      if OccursAt(text, secret, i) {
        EarlierMask(secret, first, back, i);
      }
    }
    MaskBetween(front, secret, back);
    assert front + (MASK + back) == secret by {
      assert secret[first..first + 3] == MASK;
    }
    assert OccursAt(secret, secret, 0);
  }

  lemma EarlierMask(secret: string, first: nat, back: string, i: nat)
    requires OccursAt(secret, MASK, first) && i < first
    requires OccursAt(secret[..first] + (secret + back), secret, i)
    ensures OccursAt(secret, MASK, i)
  {
    var text := secret[..first] + (secret + back);
    forall k | 0 <= k < 3 ensures secret[i + k] == MASK[k] {
      OccurrenceAt(secret, MASK, first, k);
      OccurrenceAt(text, secret, i, first + k);
      assert text[i + first + k] == secret[i + k];
    }
    assert secret[i..i + 3] == MASK;
  }

  ghost predicate NeverSurvives(secret: string) {
    forall text, secrets :: NonEmpty(secrets) && secret in secrets ==> !Contains(MaskAll(text, secrets), secret)
  }

  /**
   A secret never survives, whatever the text and whatever other secrets are masked before and after it,
   if and only if it has no star at either end and no mask inside.
   */
  lemma SafeSecretExact(secret: string)
    requires secret != ""
    ensures NeverSurvives(secret) <==> Quiet(secret)
  {
    if Quiet(secret) {
      forall text, secrets | NonEmpty(secrets) && secret in secrets ensures !Contains(MaskAll(text, secrets), secret) {
        if Contains(MaskAll(text, secrets), secret) {
          NothingNewOccurs(text, secrets, secret);
        }
      }
    } else {
      var text := LoudSecretLeaks(secret);
      LeaksAlone(text, secret);
    }
  }

  lemma LeaksAlone(text: string, secret: string)
    requires secret != "" && Contains(MaskAll(text, [secret]), secret)
    ensures !NeverSurvives(secret)
  {
    assert NonEmpty([secret]) && secret in [secret];
  }

  lemma LoudSecretLeaks(secret: string) returns (text: string)
    requires secret != "" && !Quiet(secret)
    ensures Contains(MaskAll(text, [secret]), secret)
  {
    if secret[0] == '*' {
      text := StarFirstLeaks(secret);
    } else if secret[|secret| - 1] == '*' {
      text := StarLastLeaks(secret);
    } else {
      text := MaskInsideLeaks(secret);
    }
  }
}
