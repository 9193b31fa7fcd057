/** Time-based UUIDs of sole.hpp: the shared clock of `get_time`, the packing of `uuid1` and
    `uuid0`, and the fields that `pretty` takes out again. */
module SoleClock {
  import opened Arithmetic
  import opened SoleUuid

  // ---------------------------------------------------------------------
  // Bit fields of unsigned words, as quotients and remainders
  // ---------------------------------------------------------------------

  /** `low | mid << 32 | hi << 48`, the three parts of a timestamp that go into a UUID. */
  datatype Stamp = Stamp(low: nat, mid: nat, hi: nat) {
    ghost predicate Fits() {
      low < 0x1_0000_0000 && mid < 0x1_0000 && hi < 0x1000
    }

    function Ticks(): nat {
      low + 0x1_0000_0000 * mid + 0x1_0000_0000_0000 * hi
    }
  }

  /** `time_low`, `time_mid` and `time_hi_version` of a 64-bit count of 100 ns intervals. */
  function Split(ns: Word64): (s: Stamp)
    ensures s.Fits()
  {
    Stamp(ns % 0x1_0000_0000, ns / 0x1_0000_0000 % 0x1_0000, ns / 0x1_0000_0000_0000 % 0x1000)
  }

  /** `upper_`: the masked version nibble is bits 12 to 15, where `hi` has nothing. */
  function Upper(s: Stamp, version: nat): Word64
    requires s.Fits() && version < 16
  {
    0x1_0000_0000 * s.low + 0x1_0000 * s.mid + s.hi + 0x1000 * version
  }

  /** `lower_`: 16 bits over a 48-bit node. */
  function Lower(top: nat, mac: nat): Word64
    requires top < 0x1_0000 && mac < 0x1_0000_0000_0000
  {
    0x1_0000_0000_0000 * top + mac
  }

  /** `uuid1` for a timestamp: the 14-bit clock sequence is the low end of the timestamp,
      and the two bits above it become binary 10. */
  function Pack1(ns: Word64, mac: nat): Uuid
    requires mac < 0x1_0000_0000_0000
  {
    Uuid(Upper(Split(ns), 1), Lower(0x8000 + ns % 0x4000, mac))
  }

  /** `uuid0`: the low 16 bits of the process id, and no variant bits. */
  function Pack0(ns: Word64, pid: nat, mac: nat): Uuid
    requires mac < 0x1_0000_0000_0000
  {
    Uuid(Upper(Split(ns), 0), Lower(pid % 0x1_0000, mac))
  }

  // What `pretty` computes from the four 32-bit quarters

  function Version(u: Uuid): nat { u.ab % 0x1_0000_0000 / 0x1000 % 0x10 }

  function Timestamp(u: Uuid): nat {
    var a, b := u.ab / 0x1_0000_0000, u.ab % 0x1_0000_0000;
    0x1_0000_0000_0000 * (b % 0x1000) + 0x1_0000_0000 * (b / 0x1_0000) + a
  }

  function Node(u: Uuid): nat {
    var c, d := u.cd / 0x1_0000_0000, u.cd % 0x1_0000_0000;
    0x1_0000_0000 * (c % 0x1_0000) + d
  }

  function ClockSequence(u: Uuid): nat { u.cd / 0x1_0000_0000 / 0x1_0000 % 0x4000 }

  function Pid(u: Uuid): nat { u.cd / 0x1_0000_0000 / 0x1_0000 }

  function Variant(u: Uuid): nat { u.cd / 0x1_0000_0000 / 0x1_0000 / 0x4000 }

  lemma SplitTicks(ns: Word64)
    ensures Split(ns).Ticks() == ns % 0x1000_0000_0000_0000
  {
    var low, up := ns % 0x1_0000_0000, ns / 0x1_0000_0000;
    var mid, high := up % 0x1_0000, up / 0x1_0000;
    var hi, top := high % 0x1000, high / 0x1000;
    assert ns / 0x1_0000_0000_0000 == high by { DivUnique(ns, 0x1_0000_0000_0000, high, low + 0x1_0000_0000 * mid); }
    DivUnique(ns, 0x1000_0000_0000_0000, top, Stamp(low, mid, hi).Ticks());
  }

  lemma UpperFields(s: Stamp, version: nat)
    requires s.Fits() && version < 16
    ensures var u := Upper(s, version);
            u / 0x1_0000_0000 == s.low && u % 0x1_0000_0000 == 0x1_0000 * s.mid + s.hi + 0x1000 * version
  {
    DivUnique(Upper(s, version), 0x1_0000_0000, s.low, 0x1_0000 * s.mid + s.hi + 0x1000 * version);
  }

  lemma MiddleFields(mid: nat, hi: nat, version: nat)
    requires mid < 0x1_0000 && hi < 0x1000 && version < 16
    ensures var b := 0x1_0000 * mid + hi + 0x1000 * version;
            b / 0x1_0000 == mid && b % 0x1000 == hi && b / 0x1000 % 0x10 == version
  {
    var b := 0x1_0000 * mid + hi + 0x1000 * version;
    DivUnique(b, 0x1_0000, mid, hi + 0x1000 * version);
    DivUnique(b, 0x1000, 16 * mid + version, hi);
    DivUnique(16 * mid + version, 16, mid, version);
  }

  lemma LowerFields(top: nat, mac: nat)
    requires top < 0x1_0000 && mac < 0x1_0000_0000_0000
    ensures var u := Lower(top, mac);
            u / 0x1_0000_0000 / 0x1_0000 == top
            && 0x1_0000_0000 * (u / 0x1_0000_0000 % 0x1_0000) + u % 0x1_0000_0000 == mac
  {
    var d, e := mac % 0x1_0000_0000, mac / 0x1_0000_0000;
    DivUnique(Lower(top, mac), 0x1_0000_0000, 0x1_0000 * top + e, d);
    DivUnique(0x1_0000 * top + e, 0x1_0000, top, e);
  }

  /** Everything packed into a version-1 UUID comes out again: the timestamp modulo 2^60, the clock
      sequence, the 48-bit node, the version and the RFC 4122 variant. */
  lemma Fields1(ns: Word64, mac: nat)
    requires mac < 0x1_0000_0000_0000
    ensures var u := Pack1(ns, mac);
            Timestamp(u) == ns % 0x1000_0000_0000_0000 && ClockSequence(u) == ns % 0x4000
            && Node(u) == mac && Version(u) == 1 && Variant(u) == 2
  {
    hide Split, Upper, Lower;
    var s := Split(ns);
    SplitTicks(ns);
    UpperFields(s, 1); MiddleFields(s.mid, s.hi, 1);
    LowerFields(0x8000 + ns % 0x4000, mac);
    DivUnique(0x8000 + ns % 0x4000, 0x4000, 2, ns % 0x4000);
  }

  lemma Fields0(ns: Word64, pid: nat, mac: nat)
    requires mac < 0x1_0000_0000_0000
    ensures var u := Pack0(ns, pid, mac);
            Timestamp(u) == ns % 0x1000_0000_0000_0000 && Pid(u) == pid % 0x1_0000
            && Node(u) == mac && Version(u) == 0
  {
    hide Split, Upper, Lower;
    var s := Split(ns);
    SplitTicks(ns);
    UpperFields(s, 0); MiddleFields(s.mid, s.hi, 0);
    LowerFields(pid % 0x1_0000, mac);
  }

  // ---------------------------------------------------------------------
  // The clock
  // ---------------------------------------------------------------------

  /** 100 ns intervals between 15 October 1582 and the Unix epoch. */
  const GREGORIAN: Word64 := 0x01b21dd213814000

  const FULL: Word64 := 0xffff_ffff_ffff_ffff

  /** `last_uuid_time` after a reading: a clock that stood still or went back counts as one tick on. */
  function Tick(last: Word64, now: Word64): Word64 {
    if last >= now then (last + 1) % 0x1_0000_0000_0000_0000 else now
  }

  datatype Call = Call1(now: Word64, mac: nat) | Call0(now: Word64, pid: nat, mac: nat) {
    ghost predicate Valid() { mac < 0x1_0000_0000_0000 }
  }

  /** What one call returns when the counter has become `last`. */
  function Issue(last: Word64, call: Call): Uuid
    requires call.Valid()
  {
    match call
    case Call1(_, mac) => Pack1((last + GREGORIAN) % 0x1_0000_0000_0000_0000, mac)
    case Call0(_, pid, mac) => Pack0(last, pid, mac)
  }

  /** The process-wide clock: one `last_uuid_time` serves every kind of UUID. */
  class Clock {
    var last: Word64

    constructor ()
      ensures last == 0
    {
      last := 0;
    }

    method GetTime(now: Word64, offset: Word64) returns (time: Word64)
      modifies this
      ensures last == Tick(old(last), now)
      ensures time == (last + offset) % 0x1_0000_0000_0000_0000
    {
      time := now;
      if last >= time {
        last := (last + 1) % 0x1_0000_0000_0000_0000;
        time := last;
      } else {
        last := time;
      }
      time := (time + offset) % 0x1_0000_0000_0000_0000;
    }

    method Make(call: Call) returns (u: Uuid)
      requires call.Valid()
      modifies this
      ensures last == Tick(old(last), call.now)
      ensures u == Issue(last, call)
    {
      hide Pack0, Pack1, Tick;
      match call
      case Call1(now, mac) =>
        var ns := GetTime(now, GREGORIAN);
        u := Pack1(ns, mac);
      case Call0(now, pid, mac) =>
        var ns := GetTime(now, 0);
        Unmoved(last);
        u := Pack0(ns, pid, mac);
    }

    /** A whole run of calls. */
    method MakeAll(calls: seq<Call>) returns (us: seq<Uuid>)
      requires forall k :: 0 <= k < |calls| ==> calls[k].Valid()
      modifies this
      ensures last == CounterAfter(old(last), calls)
      ensures |us| == |calls|
      ensures forall k :: 0 <= k < |calls| ==> us[k] == Issue(CounterAfter(old(last), calls[..k + 1]), calls[k])
      ensures NeverFull(old(last), calls) && Span60(old(last), calls) ==> forall i, j :: 0 <= i < j < |us| ==> us[i] != us[j]
    {
      hide Tick, Issue, NeverFull, Span60;
      us := [];
      ghost var start := last;
      for k := 0 to |calls|
        invariant last == CounterAfter(start, calls[..k])
        invariant |us| == k
        invariant forall i :: 0 <= i < k ==> us[i] == Issue(CounterAfter(start, calls[..i + 1]), calls[i])
      {
        assert calls[..k + 1][..k] == calls[..k];
        var u := Make(calls[k]);
        us := us + [u];
      }
      assert calls[..|calls|] == calls;
      if NeverFull(start, calls) && Span60(start, calls) {
        forall i, j | 0 <= i < j < |us| ensures us[i] != us[j] {
          AllDistinct(start, calls, i, j);
        }
      }
    }
  }

  function CounterAfter(last: Word64, calls: seq<Call>): Word64 {
    if calls == [] then last else Tick(CounterAfter(last, calls[..|calls| - 1]), calls[|calls| - 1].now)
  }

  /** No call finds the 64-bit counter at its maximum. */
  ghost predicate NeverFull(last: Word64, calls: seq<Call>) {
    forall k :: 0 <= k < |calls| ==> CounterAfter(last, calls[..k]) != FULL
  }

  /** From the first call to the last, less than 2^60 ticks go by (more than 3600 years). */
  ghost predicate Span60(last: Word64, calls: seq<Call>) {
    |calls| > 0 ==> CounterAfter(last, calls) - CounterAfter(last, calls[..1]) < 0x1000_0000_0000_0000
  }

  /** One call moves the counter up, whatever the clock says, exactly when it was not full. */
  lemma TickAdvances(last: Word64, now: Word64)
    ensures last < Tick(last, now) <==> last != FULL
  {
  }

  lemma {:induction false} CounterIncreases(last: Word64, calls: seq<Call>, i: nat, j: nat)
    requires NeverFull(last, calls) && i <= j <= |calls|
    ensures CounterAfter(last, calls[..i]) + (j - i) <= CounterAfter(last, calls[..j])
    decreases j
  {
    hide Tick;
    if i < j {
      CounterIncreases(last, calls, i, j - 1);
      assert calls[..j][..j - 1] == calls[..j - 1];
      TickAdvances(CounterAfter(last, calls[..j - 1]), calls[j - 1].now);
    }
  }

  /** Two version-1 UUIDs are equal exactly when the nodes are, and the timestamps modulo 2^60. */
  lemma EqualExactly(t: Word64, u: Word64, mac: nat, mac': nat)
    requires mac < 0x1_0000_0000_0000 && mac' < 0x1_0000_0000_0000
    ensures Pack1(t, mac) == Pack1(u, mac')
       <==> t % 0x1000_0000_0000_0000 == u % 0x1000_0000_0000_0000 && mac == mac'
  {
    hide Pack1;
    Fields1(t, mac); Fields1(u, mac');
    if t % 0x1000_0000_0000_0000 == u % 0x1000_0000_0000_0000 && mac == mac' {
      SameParts(t, u, mac);
    }
  }

  lemma SameParts(t: Word64, u: Word64, mac: nat)
    requires mac < 0x1_0000_0000_0000
    requires t % 0x1000_0000_0000_0000 == u % 0x1000_0000_0000_0000
    ensures Pack1(t, mac) == Pack1(u, mac)
  {
    Parts(t); Parts(u);
  }

  /** The packed parts depend on the timestamp modulo 2^60 only. */
  lemma Parts(t: Word64)
    ensures var r := t % 0x1000_0000_0000_0000; Split(t) == Split(r) && t % 0x4000 == r % 0x4000
  {
    var q, r := t / 0x1000_0000_0000_0000, t % 0x1000_0000_0000_0000;
    assert t == 0x1000_0000_0000_0000 * q + r;
    LowPart(t, 0x1_0000_0000, 0x1000_0000, q, r);
    LowPart(t, 0x4000, 0x4000_0000_0000, q, r);
    LowPart(t / 0x1_0000_0000, 0x1_0000, 0x1000, q, r / 0x1_0000_0000);
    LowPart(t, 0x1_0000_0000_0000, 0x1000, q, r);
    LowPart(t / 0x1_0000_0000_0000, 0x1000, 1, q, r / 0x1_0000_0000_0000);
  }

  lemma LowPart(t: nat, d: nat, k: nat, q: nat, r: nat)
    requires d > 0 && t == (d * k) * q + r
    ensures t % d == r % d && t / d == k * q + r / d
  {
    assert t == d * (k * q + r / d) + r % d by { assert (d * k) * q == d * (k * q); Spread(d, k * q, r / d); }
    DivUnique(t, d, k * q + r / d, r % d);
  }

  lemma Spread(d: nat, a: nat, b: nat)
    ensures d * (a + b) == d * a + d * b
  {
  }

  /** Timestamps less than 2^60 apart differ modulo 2^60, also after the epoch offset has wrapped. */
  lemma Apart(a: Word64, b: Word64, offset: Word64)
    requires a < b && b - a < 0x1000_0000_0000_0000
    ensures (a + offset) % 0x1_0000_0000_0000_0000 % 0x1000_0000_0000_0000
         != (b + offset) % 0x1_0000_0000_0000_0000 % 0x1000_0000_0000_0000
  {
    ModOfMod(a + offset); ModOfMod(b + offset);
    var x: int, y: int := a + offset, b + offset;
    if x % 0x1000_0000_0000_0000 == y % 0x1000_0000_0000_0000 {
      Multiple(0x1000_0000_0000_0000, y / 0x1000_0000_0000_0000 - x / 0x1000_0000_0000_0000, y - x);
      assert false;
    }
  }

  lemma ModOfMod(x: nat)
    ensures x % 0x1_0000_0000_0000_0000 % 0x1000_0000_0000_0000 == x % 0x1000_0000_0000_0000
  {
    var q, r := x / 0x1_0000_0000_0000_0000, x % 0x1_0000_0000_0000_0000;
    LowPart(x, 0x1000_0000_0000_0000, 16, q, r);
  }

  /** For any clock readings, backwards or repeated, any mix of calls and any nodes and process ids,
      no two of the UUIDs made are equal. */
  lemma AllDistinct(last: Word64, calls: seq<Call>, i: nat, j: nat)
    requires forall k :: 0 <= k < |calls| ==> calls[k].Valid()
    requires NeverFull(last, calls) && Span60(last, calls)
    requires i < j < |calls|
    ensures Issue(CounterAfter(last, calls[..i + 1]), calls[i]) != Issue(CounterAfter(last, calls[..j + 1]), calls[j])
  {
    hide CounterAfter, Pack0, Pack1;
    var a, b := CounterAfter(last, calls[..i + 1]), CounterAfter(last, calls[..j + 1]);
    CounterIncreases(last, calls, 1, i + 1);
    CounterIncreases(last, calls, i + 1, j + 1);
    CounterIncreases(last, calls, j + 1, |calls|);
    assert calls[..|calls|] == calls;
    DistinctPair(a, b, calls[i], calls[j]);
  }

  lemma DistinctPair(a: Word64, b: Word64, c: Call, d: Call)
    requires c.Valid() && d.Valid()
    requires a < b && b - a < 0x1000_0000_0000_0000
    ensures Issue(a, c) != Issue(b, d)
  {
    hide Pack0, Pack1, Timestamp, Version;
    var x, y := (a + GREGORIAN) % 0x1_0000_0000_0000_0000, (b + GREGORIAN) % 0x1_0000_0000_0000_0000;
    if c.Call1? { Fields1(x, c.mac); } else { Fields0(a, c.pid, c.mac); }
    if d.Call1? { Fields1(y, d.mac); } else { Fields0(b, d.pid, d.mac); }
    Apart(a, b, GREGORIAN);
    Apart(a, b, 0);
    Unmoved(a); Unmoved(b);
  }

  /** The counter runs ahead of the readings by no more than the number of calls. */
  lemma {:induction false} CounterBounded(last: Word64, calls: seq<Call>, bound: nat, k: nat)
    requires k <= |calls| && last <= bound && bound + |calls| <= FULL
    requires forall i :: 0 <= i < |calls| ==> calls[i].now <= bound
    ensures CounterAfter(last, calls[..k]) <= bound + k
    decreases k
  {
    if k > 0 {
      CounterBounded(last, calls, bound, k - 1);
      assert calls[..k][..k - 1] == calls[..k - 1];
    }
  }

  /** What a caller can see before the calls: when no reading lies beyond `bound`, and the bound with one tick for
      each call stays within 2^60 of the first reading, no two of the UUIDs are equal. */
  lemma DistinctByReadings(last: Word64, calls: seq<Call>, bound: nat, i: nat, j: nat)
    requires forall k :: 0 <= k < |calls| ==> calls[k].Valid() && calls[k].now <= bound
    requires last <= bound && bound + |calls| <= FULL && i < j < |calls|
    requires bound + |calls| < calls[0].now + 0x1000_0000_0000_0000
    ensures Issue(CounterAfter(last, calls[..i + 1]), calls[i]) != Issue(CounterAfter(last, calls[..j + 1]), calls[j])
  {
    hide Tick, CounterAfter, Issue;
    forall k | 0 <= k < |calls| ensures CounterAfter(last, calls[..k]) != FULL {
      CounterBounded(last, calls, bound, k);
    }
    CounterBounded(last, calls, bound, |calls|);
    assert calls[..|calls|] == calls;
    FirstCounter(last, calls);
    AllDistinct(last, calls, i, j);
  }

  lemma FirstCounter(last: Word64, calls: seq<Call>)
    requires calls != [] && last < FULL
    ensures CounterAfter(last, calls[..1]) >= calls[0].now
  {
    assert calls[..1][..0] == [];
  }

  lemma Unmoved(a: Word64)
    ensures (a + 0) % 0x1_0000_0000_0000_0000 == a
  {
  }

  /** With a full counter the promise fails: the counter starts over and the same reading
      gives the same UUID again. */
  lemma FullCounterRepeats()
    ensures var calls := [Call1(5, 0), Call1(FULL, 0), Call1(5, 0), Call1(5, 0)];
            Issue(CounterAfter(0, calls[..1]), calls[0]) == Issue(CounterAfter(0, calls), calls[3])
  {
    var calls := [Call1(5, 0), Call1(FULL, 0), Call1(5, 0), Call1(5, 0)];
    assert calls[..4] == calls;
    assert calls[..4][..3] == calls[..3] && calls[..3][..2] == calls[..2] && calls[..2][..1] == calls[..1] && calls[..1][..0] == [];
    assert CounterAfter(0, calls[..1]) == 5;
    assert CounterAfter(0, calls[..2]) == FULL;
    assert CounterAfter(0, calls[..3]) == 0;
  }

  // ---------------------------------------------------------------------
  // The epoch, and the counter over a run
  // ---------------------------------------------------------------------

  /** Days from 1 January of the year 1 in the Gregorian calendar to 1 January of this year. */
  function DaysBefore(year: nat): nat
    requires year >= 1
  {
    var y := year - 1;
    365 * y + y / 4 - y / 100 + y / 400
  }

  const TICKS_PER_DAY := 24 * 60 * 60 * 10_000_000

  /** The offset is the time from 15 October 1582, the 288th day of a year without a leap day, to 1 January 1970. */
  lemma GregorianEpoch()
    ensures GREGORIAN == (DaysBefore(1970) - (DaysBefore(1582) + 287)) * TICKS_PER_DAY
    ensures 287 == 31 + 28 + 31 + 30 + 31 + 30 + 31 + 31 + 30 + 14
  {
  }

  /** A call whose reading lies beyond the counter gives a UUID of exactly that time. */
  lemma TimestampIsReading(last: Word64, now: Word64, mac: nat)
    requires last < now && now + GREGORIAN < 0x1000_0000_0000_0000 && mac < 0x1_0000_0000_0000
    ensures Timestamp(Issue(Tick(last, now), Call1(now, mac))) == now + GREGORIAN
  {
    hide Timestamp, Pack1;
    Fields1(now + GREGORIAN, mac);
  }

  /** While it never gets full, the counter after n calls is the largest of what the n calls alone make of its first
      value and what the calls after each reading make of that reading. */
  lemma {:induction false} CounterExactly(last: Word64, calls: seq<Call>)
    requires NeverFull(last, calls)
    ensures var c, n := CounterAfter(last, calls), |calls|;
      && c >= last + n && (forall j :: 0 <= j < n ==> c >= calls[j].now + (n - 1 - j))
      && (c == last + n || exists j :: 0 <= j < n && c == calls[j].now + (n - 1 - j))
    decreases |calls|
  {
    if calls != [] {
      var n := |calls| - 1;
      var front := calls[..n];
      assert NeverFull(last, front) by { forall k | 0 <= k < n ensures CounterAfter(last, front[..k]) != FULL { assert front[..k] == calls[..k]; } }
      CounterExactly(last, front);
      var c := CounterAfter(last, front);
      assert c != FULL;
      forall j | 0 <= j < |calls| ensures CounterAfter(last, calls) >= calls[j].now + (n - j) {
        if j < n { assert front[j].now == calls[j].now; }
      }
      if c < calls[n].now {
        assert CounterAfter(last, calls) == calls[n].now + (n - n);
      } else if c != last + n {
        var j :| 0 <= j < n && c == front[j].now + (n - 1 - j);
        assert CounterAfter(last, calls) == calls[j].now + (n - j);
      }
    }
  }
}
