/** `format_timestamp` of log_event.cpp: the suffix of archived files. */
module Timestamp {
  import opened Text
  import opened Numbers
  import opened LogEvents

  const NANOS_PER_MILLISECOND := 1_000_000

  /** `t` counts nanoseconds since the epoch. */
  function FormatTimestamp(t: nat): string {
    Decimal(t / NANOS_PER_SECOND) + ['.'] + Pad3((t % NANOS_PER_SECOND) / NANOS_PER_MILLISECOND)
  }

  function Millisecond(t: nat): nat {
    t / NANOS_PER_MILLISECOND
  }

  lemma MillisecondParts(t: nat)
    ensures Millisecond(t) == 1000 * (t / NANOS_PER_SECOND) + (t % NANOS_PER_SECOND) / NANOS_PER_MILLISECOND
    ensures (t % NANOS_PER_SECOND) / NANOS_PER_MILLISECOND < 1000
  {
  }

  lemma NoPoint(n: nat)
    ensures '.' !in Decimal(n)
  {
    ValueOfDecimal(n);
  }

  /** Seconds without a leading zero, a point, and three digits of milliseconds. */
  lemma ReadsByValue(t: nat)
    ensures var s := FormatTimestamp(t); var n := |s| - 4;
            && n > 0 && s[n] == '.' && AllDigits(s[..n]) && AllDigits(s[n + 1..])
            && Value(s[..n]) == t / 1_000_000_000 && (s[0] == '0' <==> t < 1_000_000_000)
            && Value(s[n + 1..]) == t / 1_000_000 % 1000
  {
    var seconds, millis := t / NANOS_PER_SECOND, (t % NANOS_PER_SECOND) / NANOS_PER_MILLISECOND;
    ValueOfDecimal(seconds);
    NoLeadingZero(seconds);
    MillisecondParts(t);
    ValueOfPad3(millis);
    var s, n := FormatTimestamp(t), |Decimal(seconds)|;
    assert s[..n] == Decimal(seconds) && s[n + 1..] == Pad3(millis);
  }

  /** The text tells the millisecond, and nothing finer. */
  lemma SameTextIffSameMillisecond(t: nat, u: nat)
    ensures FormatTimestamp(t) == FormatTimestamp(u) <==> Millisecond(t) == Millisecond(u)
  {
    var s, m := t / NANOS_PER_SECOND, (t % NANOS_PER_SECOND) / NANOS_PER_MILLISECOND;
    var s', m' := u / NANOS_PER_SECOND, (u % NANOS_PER_SECOND) / NANOS_PER_MILLISECOND;
    MillisecondParts(t);
    MillisecondParts(u);
    if FormatTimestamp(t) == FormatTimestamp(u) {
      NoPoint(s);
      NoPoint(s');
      FindAfter(Decimal(s), Pad3(m), '.');
      FindAfter(Decimal(s'), Pad3(m'), '.');
      DecimalInjective(s, s');
      ValueOfPad3(m);
      ValueOfPad3(m');
    }
  }
}
