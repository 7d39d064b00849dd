/**
 How the chosen failover speed becomes heartbeat, lease, takeover and failover times
 (panel/public/assets/mock.js, foSummary). Times inside are whole milliseconds; the summary shows
 seconds rounded to tenths.
 */
module FailoverTiming {
  import opened Basics

  /** Math.round: to the nearest integer, halves up. */
  function Round(x: real): int {
    (x + 0.5).Floor
  }

  function Round100(ms: real): int {
    Round(ms / 100.0) * 100
  }

  /** Milliseconds as seconds to one decimal. */
  function Seconds(ms: int): real {
    Round(ms as real / 100.0) as real / 10.0
  }

  datatype Timing = Timing(heartbeat: int, lease: int, margin: int, detect: int, probe: int,
                           takeover: int, failover: int, blip: int)

  datatype Summary = Summary(failoverSeconds: int, panelTakeoverSeconds: real, databaseFailoverSeconds: real,
                             heartbeatSeconds: real, blipToleranceSeconds: real, leaseSeconds: real, detectSeconds: real)

  const MIN_SECONDS: int := 10

  function TimingFor(sec: int): Timing {
    var t := (sec * 1000) as real;
    var h := Clamp(Round100(t / 15.0), 1000, 5000);
    var l := Clamp(Round100(0.45 * t), 3000, 180000);
    var m := Max(1000, Round100(l as real / 5.0));
    var d := Max(3000, Round100(t / 3.0));
    var probe := Max(500, Round(h as real / 2.0));
    var take := l + h + Min(3000, Round(h as real / 2.0)) + 500;
    Timing(h, l, m, d, probe, take, Max(take, d) + 2 * probe + 2200, Max(0, Min(l - m - 2 * h, d)))
  }

  function FoSummary(sec: int): Summary {
    var t := TimingFor(sec);
    Summary(sec, Seconds(t.takeover), Seconds(t.failover), Seconds(t.heartbeat), Seconds(t.blip), Seconds(t.lease),
            Seconds(t.detect))
  }

  lemma RoundIs(x: real, n: int)
    requires n as real <= x + 0.5 < n as real + 1.0
    ensures Round(x) == n
  {
  }

  /** The same times without fractions. */
  function WholeTiming(sec: int): Timing {
    var h := Clamp((4 * sec + 3) / 6 * 100, 1000, 5000);
    var l := Clamp((9 * sec + 1) / 2 * 100, 3000, 180000);
    var m := Max(1000, (l + 250) / 500 * 100);
    var d := Max(3000, (20 * sec + 3) / 6 * 100);
    Timing(h, l, m, d, Max(500, (h + 1) / 2), Takeover(h, l), Failover(h, l, d), Max(0, Min(l - m - 2 * h, d)))
  }

  function Takeover(h: int, l: int): int {
    l + h + Min(3000, (h + 1) / 2) + 500
  }

  function Failover(h: int, l: int, d: int): int {
    Max(Takeover(h, l), d) + 2 * Max(500, (h + 1) / 2) + 2200
  }

  lemma HeartbeatHundreds(sec: int)
    ensures Round100((sec * 1000) as real / 15.0) == (4 * sec + 3) / 6 * 100
  {
    RoundIs(((sec * 1000) as real / 15.0) / 100.0, (4 * sec + 3) / 6);
  }

  lemma LeaseHundreds(sec: int)
    ensures Round100(0.45 * (sec * 1000) as real) == (9 * sec + 1) / 2 * 100
  {
    RoundIs((0.45 * (sec * 1000) as real) / 100.0, (9 * sec + 1) / 2);
  }

  lemma DetectHundreds(sec: int)
    ensures Round100((sec * 1000) as real / 3.0) == (20 * sec + 3) / 6 * 100
  {
    RoundIs(((sec * 1000) as real / 3.0) / 100.0, (20 * sec + 3) / 6);
  }

  lemma Fifth(l: int)
    ensures Round100(l as real / 5.0) == (l + 250) / 500 * 100
  {
    RoundIs((l as real / 5.0) / 100.0, (l + 250) / 500);
  }

  lemma Half(h: int)
    ensures Round(h as real / 2.0) == (h + 1) / 2
  {
    RoundIs(h as real / 2.0, (h + 1) / 2);
  }

  lemma TimingIsWhole(sec: int)
    ensures TimingFor(sec) == WholeTiming(sec)
  {
    hide Round, Round100;
    HeartbeatHundreds(sec);
    LeaseHundreds(sec);
    DetectHundreds(sec);
    Fifth(WholeTiming(sec).lease);
    Half(WholeTiming(sec).heartbeat);
  }

  /** Rounding to tenths keeps order, and keeps apart what is at least a tenth apart. */
  lemma SecondsOrder(a: int, b: int)
    ensures a <= b ==> Seconds(a) <= Seconds(b)
    ensures a + 100 <= b ==> Seconds(a) < Seconds(b)
    ensures a % 100 == 0 ==> Seconds(a) == a as real / 1000.0
  {
    RoundIs(a as real / 100.0, (a + 50) / 100);
    RoundIs(b as real / 100.0, (b + 50) / 100);
  }

  /** The panel takes over before the database does, by more than the display's rounding. */
  lemma TakeoverFirst(sec: int)
    ensures FoSummary(sec).panelTakeoverSeconds < FoSummary(sec).databaseFailoverSeconds
  {
    var t := TimingFor(sec);
    SecondsOrder(t.takeover, t.failover);
  }

  /** Below ten seconds even the smallest times do not fit; from there up they always do. */
  lemma WholeFailover(sec: int)
    ensures sec >= MIN_SECONDS ==> WholeTiming(sec).failover <= 1000 * sec
    ensures sec < MIN_SECONDS ==> WholeTiming(sec).failover >= 1000 * sec + 100
  {
  }

  lemma AgainstChosen(ms: int, sec: int)
    ensures ms <= 1000 * sec ==> Seconds(ms) <= sec as real
    ensures ms >= 1000 * sec + 100 ==> Seconds(ms) > sec as real
  {
    hide Seconds;
    SecondsOrder(ms, 1000 * sec);
    SecondsOrder(1000 * sec, ms);
    assert 1000 * sec % 100 == 0;
  }

  /**
   The database failover is done within the chosen speed exactly from 10 seconds up, the smallest
   speed the settings route takes: no whole number of seconds below it keeps the promise.
   */
  lemma WithinChosenSpeed(sec: int)
    ensures FoSummary(sec).databaseFailoverSeconds <= sec as real <==> sec >= MIN_SECONDS
  {
    hide Seconds, TimingFor, WholeTiming;
    TimingIsWhole(sec);
    WholeFailover(sec);
    AgainstChosen(TimingFor(sec).failover, sec);
  }

  lemma HundredsMonotone(s: int, t: int)
    requires s <= t
    ensures (4 * s + 3) / 6 <= (4 * t + 3) / 6
    ensures (9 * s + 1) / 2 <= (9 * t + 1) / 2
    ensures (20 * s + 3) / 6 <= (20 * t + 3) / 6
  {
  }

  lemma WholeMonotone(s: int, t: int)
    requires s <= t
    ensures var a, b := WholeTiming(s), WholeTiming(t);
            && a.heartbeat <= b.heartbeat && a.lease <= b.lease && a.detect <= b.detect
            && a.takeover <= b.takeover && a.failover <= b.failover
  {
    hide Takeover, Failover;
    HundredsMonotone(s, t);
    var a, b := WholeTiming(s), WholeTiming(t);
    PartsMonotone(a.heartbeat, a.lease, a.detect, b.heartbeat, b.lease, b.detect);
  }

  lemma PartsMonotone(h: int, l: int, d: int, h': int, l': int, d': int)
    requires h <= h' && l <= l' && d <= d'
    ensures Takeover(h, l) <= Takeover(h', l') && Failover(h, l, d) <= Failover(h', l', d')
  {
    assert (h + 1) / 2 <= (h' + 1) / 2;
  }

  /** One second more lengthens the lease by at least as much as its margin and two heartbeats grow. */
  lemma BlipStep(s: int)
    ensures WholeTiming(s).blip <= WholeTiming(s + 1).blip
  {
    hide Takeover, Failover;
    HundredsMonotone(s, s + 1);
    LeaseStep(s);
    var a, b := WholeTiming(s), WholeTiming(s + 1);
    assert a.lease - a.margin - 2 * a.heartbeat <= b.lease - b.margin - 2 * b.heartbeat by {
      hide Min, Max, Clamp;
      if a.lease != b.lease {
        MarginStep(a.lease, b.lease);
      }
    }
  }

  lemma LeaseStep(s: int)
    ensures var a, b := WholeTiming(s), WholeTiming(s + 1);
            && b.heartbeat <= a.heartbeat + 100
            && (b.lease == a.lease || 100 <= b.lease - a.lease <= 500)
            && (b.lease - a.lease < 400 ==> b.heartbeat == a.heartbeat)
  {
    hide Takeover, Failover, Clamp;
    var h, k, l, m := (4 * s + 3) / 6, (4 * s + 7) / 6, (9 * s + 1) / 2, (9 * s + 10) / 2;
    assert h <= k <= h + 1 && l + 4 <= m <= l + 5;
    assert l < 32 ==> k <= 10;
    assert m >= 1800 ==> h >= 50;
    ClampStep(h, k, l, m);
  }

  lemma ClampStep(h: int, k: int, l: int, m: int)
    requires h <= k <= h + 1 && l + 4 <= m <= l + 5 && (l < 32 ==> k <= 10) && (m >= 1800 ==> h >= 50)
    ensures var (a, b) := (Clamp(h * 100, 1000, 5000), Clamp(k * 100, 1000, 5000));
            var (c, d) := (Clamp(l * 100, 3000, 180000), Clamp(m * 100, 3000, 180000));
            && b <= a + 100 && (d == c || 100 <= d - c <= 500) && (d - c < 400 ==> b == a)
  {
  }

  lemma MarginStep(l: int, k: int)
    requires l < k <= l + 500
    ensures Max(1000, (k + 250) / 500 * 100) <= Max(1000, (l + 250) / 500 * 100) + 100
  {
    assert (k + 250) / 500 <= (l + 250) / 500 + 1;
  }

  lemma {:induction false} BlipMonotone(s: int, t: int)
    requires s <= t
    ensures WholeTiming(s).blip <= WholeTiming(t).blip
    decreases t - s
  {
    hide WholeTiming;
    if s < t {
      BlipStep(s);
      BlipMonotone(s + 1, t);
    }
  }

  /** A slower choice never makes any displayed time shorter. */
  lemma SummaryMonotone(s: int, t: int)
    requires s <= t
    ensures var a, b := FoSummary(s), FoSummary(t);
            && a.panelTakeoverSeconds <= b.panelTakeoverSeconds
            && a.databaseFailoverSeconds <= b.databaseFailoverSeconds
            && a.heartbeatSeconds <= b.heartbeatSeconds
            && a.leaseSeconds <= b.leaseSeconds
            && a.detectSeconds <= b.detectSeconds
            && a.blipToleranceSeconds <= b.blipToleranceSeconds
  {
    hide Seconds, TimingFor;
    TimingIsWhole(s);
    TimingIsWhole(t);
    WholeMonotone(s, t);
    BlipMonotone(s, t);
    var a, b := TimingFor(s), TimingFor(t);
    SecondsOrder(a.blip, b.blip);
    SecondsOrder(a.takeover, b.takeover);
    SecondsOrder(a.failover, b.failover);
    SecondsOrder(a.heartbeat, b.heartbeat);
    SecondsOrder(a.lease, b.lease);
    SecondsOrder(a.detect, b.detect);
  }

  /**
   A network blip shorter than the tolerance cannot cost the leader its lease: the tolerance fits in
   the lease after its margin and two missed heartbeats, and from 10 seconds up there is some.
   */
  lemma BlipTolerated(sec: int)
    requires sec >= MIN_SECONDS
    ensures var t := TimingFor(sec); 0 < t.blip <= t.lease - t.margin - 2 * t.heartbeat && t.blip <= t.detect
    ensures FoSummary(sec).blipToleranceSeconds > 0.0
  {
    TimingIsWhole(sec);
    WholeBlip(sec);
    SecondsOrder(100, TimingFor(sec).blip);
  }

  lemma WholeBlip(sec: int)
    requires sec >= MIN_SECONDS
    ensures var t := WholeTiming(sec); 100 <= t.blip <= t.lease - t.margin - 2 * t.heartbeat && t.blip <= t.detect
  {
  }

  // ---------------------------------------------------------------- what the documentation promises

  /** The speeds of the documentation's table. */
  lemma DocumentedSpeeds()
    ensures FoSummary(10) == Summary(10, 6.5, 9.7, 1.0, 1.5, 4.5, 3.3)
    ensures FoSummary(15) == Summary(15, 8.8, 12.0, 1.0, 3.4, 6.8, 5.0)
    ensures FoSummary(30) == Summary(30, 17.0, 21.2, 2.0, 6.8, 13.5, 10.0)
    ensures FoSummary(60) == Summary(60, 33.5, 39.7, 4.0, 13.6, 27.0, 20.0)
    ensures FoSummary(120) == Summary(120, 62.0, 69.2, 5.0, 33.2, 54.0, 40.0)
    ensures TimingFor(10).margin == 1000 && TimingFor(15).margin == 1400 && TimingFor(30).margin == 2700
    ensures TimingFor(60).margin == 5400 && TimingFor(120).margin == 10800
  {
    hide TimingFor, WholeTiming, FoSummary;
    WholeAt();
    Shown(10);
    Shown(15);
    Shown(30);
    Shown(60);
    Shown(120);
  }

  lemma WholeAt()
    ensures WholeTiming(10) == Timing(1000, 4500, 1000, 3300, 500, 6500, 9700, 1500)
    ensures WholeTiming(15) == Timing(1000, 6800, 1400, 5000, 500, 8800, 12000, 3400)
    ensures WholeTiming(30) == Timing(2000, 13500, 2700, 10000, 1000, 17000, 21200, 6800)
    ensures WholeTiming(60) == Timing(4000, 27000, 5400, 20000, 2000, 33500, 39700, 13600)
    ensures WholeTiming(120) == Timing(5000, 54000, 10800, 40000, 2500, 62000, 69200, 33200)
  {
    hide WholeTiming;
    WholeIs(10, 1000, 4500, 1000, 3300);
    WholeIs(15, 1000, 6800, 1400, 5000);
    WholeIs(30, 2000, 13500, 2700, 10000);
    WholeIs(60, 4000, 27000, 5400, 20000);
    WholeIs(120, 5000, 54000, 10800, 40000);
  }

  lemma WholeIs(sec: int, h: int, l: int, m: int, d: int)
    requires h == Clamp((4 * sec + 3) / 6 * 100, 1000, 5000) && l == Clamp((9 * sec + 1) / 2 * 100, 3000, 180000)
    requires m == Max(1000, (l + 250) / 500 * 100) && d == Max(3000, (20 * sec + 3) / 6 * 100)
    ensures WholeTiming(sec) ==
              Timing(h, l, m, d, Max(500, (h + 1) / 2), Takeover(h, l), Failover(h, l, d), Max(0, Min(l - m - 2 * h, d)))
  {
  }

  /** The summary in whole tenths of a second. */
  lemma Shown(sec: int)
    ensures var t := WholeTiming(sec);
            && TimingFor(sec) == t
            && FoSummary(sec) == Summary(sec, Tenths(t.takeover), Tenths(t.failover), Tenths(t.heartbeat), Tenths(t.blip),
                                         Tenths(t.lease), Tenths(t.detect))
  {
    hide TimingFor, WholeTiming, Seconds;
    TimingIsWhole(sec);
    var t := WholeTiming(sec);
    SecondsAreTenths(t.takeover);
    SecondsAreTenths(t.failover);
    SecondsAreTenths(t.heartbeat);
    SecondsAreTenths(t.blip);
    SecondsAreTenths(t.lease);
    SecondsAreTenths(t.detect);
  }

  function Tenths(ms: int): real {
    ((ms + 50) / 100) as real / 10.0
  }

  lemma SecondsAreTenths(ms: int)
    ensures Seconds(ms) == Tenths(ms)
  {
    RoundIs(ms as real / 100.0, (ms + 50) / 100);
  }

  /** `ms` is the hundred nearest to n / d. */
  ghost predicate NearestHundred(ms: int, n: int, d: int) {
    ms % 100 == 0 && -50 * d <= d * ms - n <= 50 * d
  }

  /** Which share of the chosen time each interval is, to a tenth of a second, and within which limits. */
  lemma TimesAreShares(sec: int)
    requires sec >= MIN_SECONDS
    ensures var t := TimingFor(sec);
            && (if sec <= 15 then t.heartbeat == 1000 else if sec >= 75 then t.heartbeat == 5000
                else NearestHundred(t.heartbeat, 1000 * sec, 15))
            && (if sec >= 400 then t.lease == 180000 else NearestHundred(t.lease, 9000 * sec, 20))
            && (if t.lease <= 5000 then t.margin == 1000 else NearestHundred(t.margin, t.lease, 5))
            && NearestHundred(t.detect, 1000 * sec, 3)
  {
    hide TimingFor, Takeover, Failover, NearestHundred;
    TimingIsWhole(sec);
    HeartbeatShare(sec);
    LeaseShare(sec);
    MarginShare(TimingFor(sec).lease);
    DetectShare(sec);
  }

  lemma HeartbeatShare(sec: int)
    requires sec >= MIN_SECONDS
    ensures var h := Clamp((4 * sec + 3) / 6 * 100, 1000, 5000);
            if sec <= 15 then h == 1000 else if sec >= 75 then h == 5000 else NearestHundred(h, 1000 * sec, 15)
  {
  }

  lemma LeaseShare(sec: int)
    requires sec >= MIN_SECONDS
    ensures var l := Clamp((9 * sec + 1) / 2 * 100, 3000, 180000);
            if sec >= 400 then l == 180000 else NearestHundred(l, 9000 * sec, 20)
  {
  }

  lemma MarginShare(l: int)
    requires l % 100 == 0 && l >= 3000
    ensures var m := Max(1000, (l + 250) / 500 * 100);
            if l <= 5000 then m == 1000 else NearestHundred(m, l, 5)
  {
  }

  lemma DetectShare(sec: int)
    requires sec >= MIN_SECONDS
    ensures NearestHundred(Max(3000, (20 * sec + 3) / 6 * 100), 1000 * sec, 3)
  {
  }

  /** How the estimates are made up: the panel's of lease, one and a half heartbeats and half a second, the database's on top. */
  lemma EstimatesAddUp(sec: int)
    requires sec >= MIN_SECONDS
    ensures var t := TimingFor(sec);
            && 2 * t.probe == t.heartbeat && 2 * t.takeover == 2 * t.lease + 3 * t.heartbeat + 1000
            && t.failover == (if t.takeover >= t.detect then t.takeover else t.detect) + t.heartbeat + 2200
  {
    hide TimingFor;
    TimingIsWhole(sec);
  }

  /** A lease outlasts its margin and two heartbeats by half a second, and the primary is missed three heartbeats at least. */
  lemma LeaseOutlastsHeartbeats(sec: int)
    requires sec >= MIN_SECONDS
    ensures var t := TimingFor(sec);
            t.lease - t.margin >= 2 * t.heartbeat + 500 && t.detect >= 3 * t.heartbeat
  {
    hide TimingFor;
    TimingIsWhole(sec);
  }
}
