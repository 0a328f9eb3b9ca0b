/** Wall-clock instants as Python's `datetime` holds them, and the two text forms the
    services write: `strftime('%Y%m%d_%H%M%S')` (inside job ids) and `isoformat()`
    (timestamps in records). The clock itself is never read here: callers pass instants in. */
module Clock {
  import opened Text

  datatype DateTime = DateTime(year: nat, month: nat, day: nat,
                               hour: nat, minute: nat, second: nat, micro: nat)

  /** The ranges `datetime` enforces (days per month are not distinguished). */
  predicate Valid(t: DateTime) {
    1 <= t.year <= 9999 && 1 <= t.month <= 12 && 1 <= t.day <= 31 &&
    t.hour < 24 && t.minute < 60 && t.second < 60 && t.micro < 1000000
  }

  /** `t.strftime('%Y%m%d_%H%M%S')`. */
  function Stamp(t: DateTime): string {
    Fixed(t.year, 4) + Fixed(t.month, 2) + Fixed(t.day, 2) + "_" +
    Fixed(t.hour, 2) + Fixed(t.minute, 2) + Fixed(t.second, 2)
  }

  /** `t.isoformat()`: the fraction is printed only when the microseconds are not zero. */
  function IsoFormat(t: DateTime): string {
    Fixed(t.year, 4) + "-" + Fixed(t.month, 2) + "-" + Fixed(t.day, 2) + "T" +
    Fixed(t.hour, 2) + ":" + Fixed(t.minute, 2) + ":" + Fixed(t.second, 2) +
    (if t.micro == 0 then "" else "." + Fixed(t.micro, 6))
  }

  /** The two instants fall in the same wall-clock second. */
  predicate SameSecond(a: DateTime, b: DateTime) {
    a.year == b.year && a.month == b.month && a.day == b.day &&
    a.hour == b.hour && a.minute == b.minute && a.second == b.second
  }

  /** Where each field sits in the stamp. */
  lemma StampFields(t: DateTime)
    ensures var s := Stamp(t);
      |s| == 15 && s[8] == '_' &&
      s[0..4] == Fixed(t.year, 4) && s[4..6] == Fixed(t.month, 2) && s[6..8] == Fixed(t.day, 2) &&
      s[9..11] == Fixed(t.hour, 2) && s[11..13] == Fixed(t.minute, 2) && s[13..15] == Fixed(t.second, 2)
  {
  }

  /** The stamp is 15 characters with the separator at position 8, and it determines
      the instant up to the second (and conversely). */
  lemma StampExact(a: DateTime, b: DateTime)
    requires Valid(a) && Valid(b)
    ensures |Stamp(a)| == 15 && Stamp(a)[8] == '_'
    ensures Stamp(a) == Stamp(b) <==> SameSecond(a, b)
  {
    StampFields(a);
    if Stamp(a) == Stamp(b) {
      StampFields(b);
      FixedInjective(a.year, b.year, 4);
      FixedInjective(a.month, b.month, 2);
      FixedInjective(a.day, b.day, 2);
      FixedInjective(a.hour, b.hour, 2);
      FixedInjective(a.minute, b.minute, 2);
      FixedInjective(a.second, b.second, 2);
    }
  }
}
