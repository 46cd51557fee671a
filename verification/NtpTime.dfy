/**
 NTP timestamps of `internal/webrtc/time_synchronizer.go` and `internal/webrtc/bandwidth_estimator.go`: 32 bits of
 seconds since 1900 and 32 bits of fraction, sections 4 and 6.4.1 of RFC 3550. Shifts of 64-bit words are written as
 multiplications and divisions by powers of two, truncation as a remainder, and `|` of disjoint bits as a sum.
 */
module NtpTime {
  import opened RtpArithmetic

  type uint64 = x: int | 0 <= x < 0x1_0000_0000_0000_0000

  /** A Go time: Unix seconds, and nanoseconds within the second. */
  datatype Time = Time(unix: int, nanos: nat) {
    ghost predicate Valid() { nanos < NANOS }
  }

  const EPOCH_OFFSET := 2208988800
  const NANOS := 1_000_000_000
  const TWO16 := 0x1_0000
  const TWO32 := 0x1_0000_0000
  const TWO64 := 0x1_0000_0000_0000_0000

  lemma FractionFits(n: nat)
    requires n < NANOS
    ensures 0 <= n * TWO32 / NANOS < TWO32
  {
  }

  /** Nanoseconds to units of 2^-32 seconds, rounded down. */
  function Fraction(t: Time): uint32
    requires t.Valid()
  {
    FractionFits(t.nanos);
    t.nanos * TWO32 / NANOS
  }

  lemma ShiftedSeconds(sec: int)
    ensures sec % TWO64 * TWO32 % TWO64 == sec % TWO32 * TWO32
  {
    var high := sec % TWO64 / TWO32;
    assert sec % TWO64 % TWO32 == sec % TWO32;
    assert sec % TWO64 == high * TWO32 + sec % TWO32;
    assert sec % TWO64 * TWO32 == high * TWO64 + sec % TWO32 * TWO32;
  }

  function TimeToNtp(t: Time): (ntp: uint64)
    requires t.Valid()
    ensures ntp == (t.unix + EPOCH_OFFSET) % TWO32 * TWO32 + Fraction(t)
  {
    ShiftedSeconds(t.unix + EPOCH_OFFSET);
    var sec: uint64 := (t.unix + EPOCH_OFFSET) % TWO64;
    var low: int := sec;
    low * TWO32 % TWO64 + Fraction(t)
  }

  function NtpToTime(ntp: uint64): (t: Time)
    ensures t.Valid()
  {
    var word: int := ntp;
    Time(word / TWO32 - EPOCH_OFFSET, word % TWO32 * NANOS / TWO32)
  }

  function CompactNTP(t: Time): int
    requires t.Valid()
  {
    var sec: uint32 := (t.unix + EPOCH_OFFSET) % TWO32;
    var low: int := sec;
    low * TWO16 % TWO32 + Fraction(t) / TWO16
  }

  // ---------- The epochs ----------

  predicate LeapYear(y: int) { y % 4 == 0 && (y % 100 != 0 || y % 400 == 0) }

  /** The days from the start of year a to the start of year b. */
  function Days(a: int, b: int): int
    decreases b - a
  {
    if a >= b then 0 else Days(a, b - 1) + if LeapYear(b - 1) then 366 else 365
  }

  /** NTP counts from the start of 1900, Unix from the start of 1970. */
  lemma EpochsApart()
    ensures EPOCH_OFFSET == Days(1900, 1970) * 24 * 60 * 60
  {
    DaysSince1900(1970);
  }

  lemma {:induction false} DaysSince1900(year: int)
    requires 1901 <= year <= 2100
    ensures Days(1900, year) == (year - 1900) * 365 + (year - 1901) / 4
    decreases year
  {
    if year == 1901 {
      assert Days(1900, 1900) == 0;
    } else {
      DaysSince1900(year - 1);
    }
  }

  /** The seconds of an NTP timestamp count from the start of 1900: at the start of every year up to 2036 they are the
      seconds of the days passed since. */
  lemma YearsInNtp(year: nat)
    requires 1970 <= year && Days(1900, year) * 86400 < TWO32
    ensures TimeToNtp(Time(Days(1970, year) * 86400, 0)) == Days(1900, year) * 86400 * TWO32
  {
    EpochsApart();
    DaysAdd(1900, 1970, year);
  }

  lemma {:induction false} DaysAdd(a: int, b: int, c: int)
    requires a <= b <= c
    ensures Days(a, c) == Days(a, b) + Days(b, c)
    decreases c - b
  {
    if b < c {
      DaysAdd(a, b, c - 1);
    }
  }

  // ---------- Exactness ----------

  /** 8388608 = 2^23 is invertible modulo 1953125 = 5^9. */
  lemma Invertible(m: int, z: int)
    requires m * 8388608 == 1953125 * z
    ensures m == 1953125 * (z * 1241897 - m * 5333907)
  {
  }

  lemma SmallMultiple(m: nat, y: int)
    requires m < 1953125 && m == 1953125 * y
    ensures m == 0
  {
  }

  /** The remainder of the division in `TimeToNtp` vanishes exactly on the multiples of 5^9. */
  lemma ExactNanos(n: nat)
    ensures n * TWO32 % NANOS == 0 <==> n % 1953125 == 0
  {
    var k, m := n / 1953125, n % 1953125;
    assert n == 1953125 * k + m;
    assert n * TWO32 == NANOS * (k * 8388608) + m * TWO32;
    if n * TWO32 % NANOS == 0 {
      var z := n * TWO32 / NANOS - k * 8388608;
      assert m * TWO32 == NANOS * z;
      Invertible(m, z);
      SmallMultiple(m, z * 1241897 - m * 5333907);
    }
    if m == 0 {
      MultipleOfNanos(k * 8388608);
    }
  }

  lemma MultipleOfNanos(x: int)
    ensures NANOS * x % NANOS == 0
  {
  }

  lemma NanosThereAndBack(n: nat)
    requires n < NANOS
    ensures n * TWO32 / NANOS * NANOS / TWO32 == if n % 1953125 == 0 then n else n - 1
  {
    ExactNanos(n);
    var q, r := n * TWO32 / NANOS, n * TWO32 % NANOS;
    assert q * NANOS == n * TWO32 - r;
  }

  /** What one conversion there and back does to any time: the seconds are kept modulo one NTP era, and the
      nanoseconds are exact or one less. */
  lemma ThereAndBack(t: Time)
    requires t.Valid()
    ensures var r := NtpToTime(TimeToNtp(t));
            && r.unix == (t.unix + EPOCH_OFFSET) % TWO32 - EPOCH_OFFSET
            && r.nanos == if t.nanos % 1953125 == 0 then t.nanos else t.nanos - 1
  {
    NanosThereAndBack(t.nanos);
    var s := (t.unix + EPOCH_OFFSET) % TWO32;
    Unpack(s, Fraction(t));
  }

  lemma Unpack(s: uint32, f: uint32)
    ensures (s as int * TWO32 + f) / TWO32 == s && (s as int * TWO32 + f) % TWO32 == f
  {
  }

  /** NTP exactness: the round trip is the identity exactly on the times of era 0 (1900 to 2036) whose nanoseconds are a
      multiple of 1953125. */
  lemma ExactRoundTrip(t: Time)
    requires t.Valid()
    ensures NtpToTime(TimeToNtp(t)) == t <==> 0 <= t.unix + EPOCH_OFFSET < TWO32 && t.nanos % 1953125 == 0
  {
    hide TimeToNtp, NtpToTime;
    ThereAndBack(t);
  }

  /** The other way round the fraction loses at most 5 units of 2^-32 seconds. */
  lemma NtpThereAndBack(ntp: uint64)
    ensures ntp as int - 5 <= TimeToNtp(NtpToTime(ntp)) <= ntp
  {
    var s: uint32 := ntp as int / TWO32;
    var f: uint32 := ntp as int % TWO32;
    var n := f as int * NANOS / TWO32;
    FractionLoss(f);
    assert NtpToTime(ntp) == Time(s - EPOCH_OFFSET, n);
  }

  lemma FractionLoss(f: uint32)
    ensures var n := f as int * NANOS / TWO32;
            0 <= n < NANOS && f as int - 5 <= n * TWO32 / NANOS <= f
  {
    var n := f as int * NANOS / TWO32;
    var r := f as int * NANOS % TWO32;
    var q := n * TWO32 % NANOS;
    assert (f as int - n * TWO32 / NANOS) * NANOS == q + r;
  }

  /** `CompactNTP` is the middle 32 bits of the NTP timestamp, in every era. */
  lemma CompactIsMiddle(t: Time)
    requires t.Valid()
    ensures CompactNTP(t) == TimeToNtp(t) / TWO16 % TWO32
  {
    hide TimeToNtp, Fraction;
    var s: uint32 := (t.unix + EPOCH_OFFSET) % TWO32;
    Middle(s, Fraction(t));
  }

  lemma Middle(s: uint32, f: uint32)
    ensures (s as int * TWO32 + f) / TWO16 % TWO32 == s as int * TWO16 % TWO32 + f / TWO16
  {
    assert (s as int * TWO32 + f) / TWO16 == s as int * TWO16 + f / TWO16;
    var h, l := s / TWO16, s % TWO16;
    assert s as int * TWO16 == h * TWO32 + l * TWO16;
  }
}
