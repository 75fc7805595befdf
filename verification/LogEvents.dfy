/** The record every component passes around (log_event.h) and the level order (logger.h). */
module LogEvents {
  datatype Level = Finest | Finer | Fine | Config | Info | Warning | Severe {
    /** Position in the enumeration; the C++ code compares levels by it. */
    function Rank(): nat {
      match this
      case Finest => 0
      case Finer => 1
      case Fine => 2
      case Config => 3
      case Info => 4
      case Warning => 5
      case Severe => 6
    }

    predicate Below(other: Level) {
      Rank() < other.Rank()
    }
  }

  /** A signed 64-bit count of nanoseconds since the epoch. */
  type Clock = t: int | -0x8000_0000_0000_0000 <= t < 0x8000_0000_0000_0000

  const NANOS_PER_SECOND := 1_000_000_000

  datatype LogEvent = LogEvent(
    level: Level,
    message: string,
    time: Clock,
    function_name: string,
    subsystem: string,
    timeString: string)

  /** Whole seconds of a duration, truncated toward zero as `duration_cast` does. */
  function WholeSeconds(nanos: int): int {
    if nanos >= 0 then nanos / NANOS_PER_SECOND else -((-nanos) / NANOS_PER_SECOND)
  }

  /** Seconds an undelivered event of this level is kept for. */
  function ExpiryTime(level: Level): int {
    match level
    case Finest => 900
    case Finer => 900
    case Fine => 1800
    case Config => 1800
    case Info => 3600
    case Warning => 10 * 3600
    case Severe => 0x7FFF_FFFF_FFFF_FFFF
  }

  predicate Expired(e: LogEvent, now: Clock) {
    WholeSeconds(now - e.time) > ExpiryTime(e.level)
  }

  /** The levels are ordered as they are listed in the enumeration. */
  lemma LevelOrder(i: nat, j: nat)
    requires i < 7 && j < 7
    ensures var order := [Finest, Finer, Fine, Config, Info, Warning, Severe];
            order[i].Below(order[j]) <==> i < j
  {
    var order := [Finest, Finer, Fine, Config, Info, Warning, Severe];
    assert order[i].Rank() == i && order[j].Rank() == j;
  }

  /** Raising the filter from the `i`-th to the `j`-th level withholds at least the same events. */
  lemma RaisingTheFilter(level: Level, i: nat, j: nat)
    requires i <= j < 7
    ensures var order := [Finest, Finer, Fine, Config, Info, Warning, Severe];
            level.Below(order[i]) ==> level.Below(order[j])
  {
    LevelOrder(i, j);
    LevelOrder(j, i);
  }

  lemma MoreSeconds(nanos: int, seconds: nat)
    ensures WholeSeconds(nanos) > seconds <==> nanos >= (seconds + 1) * 1_000_000_000
  {
  }

  /** Severe events outlive every clock reading. */
  lemma SevereNeverExpires(e: LogEvent, now: Clock)
    requires e.level == Severe
    ensures !Expired(e, now)
  {
    assert now - e.time < 0x1_0000_0000_0000_0000;
  }

  /** The first age, in nanoseconds, at which an event is too old. */
  lemma ExpiredIff(e: LogEvent, now: Clock)
    ensures Expired(e, now) <==>
            match e.level
            case Finest => now - e.time >= 901_000_000_000
            case Finer => now - e.time >= 901_000_000_000
            case Fine => now - e.time >= 1_801_000_000_000
            case Config => now - e.time >= 1_801_000_000_000
            case Info => now - e.time >= 3_601_000_000_000
            case Warning => now - e.time >= 36_001_000_000_000
            case Severe => false
  {
    if e.level == Severe {
      SevereNeverExpires(e, now);
    } else {
      MoreSeconds(now - e.time, ExpiryTime(e.level));
    }
  }

  /** What has expired stays expired, and so has then every event of that age whose level is listed no
      later: the `i`-th level is never kept longer than the `j`-th. */
  lemma ExpiryIsMonotone(e: LogEvent, now: Clock, other: LogEvent, later: Clock, i: nat, j: nat)
    requires i <= j < 7 && now - e.time <= later - other.time && Expired(e, now)
    requires var order := [Finest, Finer, Fine, Config, Info, Warning, Severe];
             other.level == order[i] && e.level == order[j]
    ensures Expired(other, later)
  {
    ExpiredIff(e, now);
    ExpiredIff(other, later);
  }
}
