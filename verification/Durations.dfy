/**
 Durations as the edit form prints and reads them.  A duration is a number of nanoseconds; the accepted
 texts are one number and one of the units ms, s, m and h, which covers everything the printer writes.
 */
module Durations {
  import opened Options
  import Decimal

  const MILLI := 1_000_000
  const SECOND := 1_000_000_000

  function Format(duration: nat): string {
    Show(duration / SECOND, duration % SECOND / MILLI)
  }

  function Show(secs: nat, millis: nat): string {
    if secs == 0 && millis > 0 then Decimal.Print(millis) + "ms"
    else if secs < 60 then Decimal.Print(secs) + "s"
    else if secs < 3600 && secs % 60 == 0 then Decimal.Print(secs / 60) + "m"
    else if secs % 3600 == 0 then Decimal.Print(secs / 3600) + "h"
    else Decimal.Print(secs) + "s"
  }

  function Unit(name: string): Option<nat> {
    if name == "ms" then Some(MILLI)
    else if name == "s" then Some(SECOND)
    else if name == "m" then Some(60 * SECOND)
    else if name == "h" then Some(3600 * SECOND)
    else None
  }

  /** The number of leading digits. */
  function Digits(text: string): (n: nat)
    ensures n <= |text| && forall i :: 0 <= i < n ==> Decimal.IsDigit(text[i])
    ensures n < |text| ==> !Decimal.IsDigit(text[n])
  {
    if text != "" && Decimal.IsDigit(text[0]) then 1 + Digits(text[1..]) else 0
  }

  function Parse(text: string): Option<nat> {
    var n := Digits(text);
    var unit := Unit(text[n..]);
    if n == 0 || unit.None? then None else Some(Decimal.Read(text[..n]) * unit.value)
  }

  lemma ParseNumber(number: nat, name: string)
    requires Unit(name).Some? && !Decimal.IsDigit(name[0])
    ensures Parse(Decimal.Print(number) + name) == Some(number * Unit(name).value)
  {
    var digits := Decimal.Print(number);
    var text := digits + name;
    assert text[|digits|] == name[0];
    assert forall i :: 0 <= i < |digits| ==> text[i] == digits[i];
    assert Digits(text) == |digits|;
    assert text[..|digits|] == digits && text[|digits|..] == name;
    Decimal.ReadOfPrint(number);
  }

  /** The whole seconds, or the whole milliseconds below one second. */
  function Kept(duration: nat): nat {
    if duration < SECOND then duration / MILLI * MILLI else duration / SECOND * SECOND
  }

  /** What is printed is a number and the name of a unit, together worth the part that is kept. */
  lemma FormatParts(duration: nat) returns (number: nat, name: string)
    ensures Format(duration) == Decimal.Print(number) + name
    ensures Unit(name).Some? && !Decimal.IsDigit(name[0]) && number * Unit(name).value == Kept(duration)
  {
    var secs, millis := duration / SECOND, duration % SECOND / MILLI;
    if secs == 0 && millis > 0 {
      return millis, "ms";
    } else if secs < 60 {
      return secs, "s";
    } else if secs < 3600 && secs % 60 == 0 {
      return secs / 60, "m";
    } else if secs % 3600 == 0 {
      return secs / 3600, "h";
    } else {
      return secs, "s";
    }
  }

  /** Whole hours are printed in hours, whatever is left below a second. */
  lemma FormatHours(duration: nat, n: nat)
    requires 1 <= n && duration / 1_000_000_000 == n * 3600
    ensures Format(duration) == Decimal.Print(n) + "h"
  {
  }

  /** Whole minutes below one hour are printed in minutes. */
  lemma FormatMinutes(duration: nat, n: nat)
    requires 1 <= n < 60 && duration / 1_000_000_000 == n * 60
    ensures Format(duration) == Decimal.Print(n) + "m"
  {
  }

  /** Other whole seconds are printed in seconds. */
  lemma FormatSeconds(duration: nat, n: nat)
    requires 1 <= n && duration / 1_000_000_000 == n
    requires n < 60 || (n < 3600 && n % 60 != 0) || (n >= 3600 && n % 3600 != 0)
    ensures Format(duration) == Decimal.Print(n) + "s"
  {
  }

  /** Below a second whole milliseconds are printed, and nothing is zero seconds. */
  lemma FormatMillis(duration: nat, n: nat)
    requires duration < 1_000_000_000 && duration / 1_000_000 == n
    ensures Format(duration) == if n == 0 then "0s" else Decimal.Print(n) + "ms"
  {
    Decimal.NoLeadingZero(0);
  }

  lemma ParseOfFormat(duration: nat)
    ensures Parse(Format(duration)) == Some(Kept(duration))
  {
    var number, name := FormatParts(duration);
    ParseNumber(number, name);
  }

  lemma SameFormat(a: nat, b: nat)
    requires a / SECOND == b / SECOND && (a < SECOND ==> a % SECOND / MILLI == b % SECOND / MILLI)
    ensures Format(a) == Format(b)
  {
  }

  lemma KeptParts(duration: nat)
    ensures Kept(duration) <= duration && Kept(duration) / SECOND == duration / SECOND
    ensures duration < SECOND ==> Kept(duration) % SECOND / MILLI == duration % SECOND / MILLI
    ensures Kept(duration) == duration <==> duration % SECOND == 0 || (duration < SECOND && duration % MILLI == 0)
  {
  }

  /**
   Printing and reading back never lengthens a duration, is exact for whole seconds and for whole
   milliseconds below one second and for nothing else, and settles after one round.
   */
  lemma FormatRoundTrip(duration: nat)
    ensures var parsed := Parse(Format(duration));
      && parsed.Some? && parsed.value <= duration
      && (parsed.value == duration <==> duration % SECOND == 0 || (duration < SECOND && duration % MILLI == 0))
      && Format(parsed.value) == Format(duration)
  {
    ParseOfFormat(duration);
    KeptParts(duration);
    SameFormat(Kept(duration), duration);
  }
}
