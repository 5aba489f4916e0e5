/**
 * The statistics endpoint of the payments service: the trailing window of
 * local calendar days, the counters over it and the per-UTC-day revenue map.
 *
 * The sequence functions here peel off the LAST row, so that they follow the
 * front-to-back loop of `GroupByDay` one row at a time.
 */
module PaymentsStats {
  import opened PaymentEntity
  import opened Calendar

  /** The snapshot returned by the statistics endpoint; the map is keyed by UTC day number. */
  datatype Stats = Stats(
    totalPaymentsToday: nat,
    totalRevenue: int,
    failedTransactions: nat,
    revenueLast7Days: map<int, int>)

  /** First instant of the window: local midnight of the day seven days before today. */
  function RangeStart(now: int, offset: int): int {
    LocalMidnight(LocalDay(now, offset) - 7, offset)
  }

  /** Last instant of the window: 23:59:59.999 local time today. */
  function RangeEnd(now: int, offset: int): int {
    LocalMidnight(LocalDay(now, offset) + 1, offset) - 1
  }

  /** The window holds exactly the instants whose local day is today or one of the seven days before. */
  lemma InRangeIffLastEightDays(now: int, offset: int, t: int)
    ensures RangeStart(now, offset) <= t <= RangeEnd(now, offset)
        <==> LocalDay(now, offset) - 7 <= LocalDay(t, offset) <= LocalDay(now, offset)
  {
    var today := LocalDay(now, offset);
    AtOrAfterMidnight(today - 7, t, offset);
    AtOrAfterMidnight(today + 1, t, offset);
  }

  /** A payment made seven local days ago is in the window; one made eight days ago is not. */
  lemma WindowEdges(now: int, offset: int, t: int)
    ensures LocalDay(t, offset) == LocalDay(now, offset) - 7 ==> RangeStart(now, offset) <= t <= RangeEnd(now, offset)
    ensures LocalDay(t, offset) == LocalDay(now, offset) - 8 ==> !(RangeStart(now, offset) <= t <= RangeEnd(now, offset))
  {
    InRangeIffLastEightDays(now, offset, t);
  }

  /** `createdAt BETWEEN lo AND hi`, in ledger order. */
  function Between(s: seq<Payment>, lo: int, hi: int): seq<Payment> {
    if s == [] then []
    else
      var init, last := s[..|s| - 1], s[|s| - 1];
      Between(init, lo, hi) + (if lo <= last.createdAt <= hi then [last] else [])
  }

  /** `Between` keeps each row whose timestamp lies in `[lo, hi]`, both ends included, as often as the ledger holds it, and no other row. */
  lemma {:induction false} BetweenSelects(s: seq<Payment>, lo: int, hi: int)
    ensures forall p :: multiset(Between(s, lo, hi))[p] == if lo <= p.createdAt <= hi then multiset(s)[p] else 0
  {
    if s != [] {
      var init, last := s[..|s| - 1], s[|s| - 1];
      assert s == init + [last];
      BetweenSelects(init, lo, hi);
    }
  }

  /** Sum of the amounts, whatever the status. */
  function Total(s: seq<Payment>): int {
    if s == [] then 0 else Total(s[..|s| - 1]) + s[|s| - 1].amount
  }

  /** Number of rows whose local day is `day`. */
  function CountOnLocalDay(s: seq<Payment>, day: int, offset: int): (n: nat)
    ensures n <= |s|
  {
    if s == [] then 0
    else CountOnLocalDay(s[..|s| - 1], day, offset) + (if LocalDay(s[|s| - 1].createdAt, offset) == day then 1 else 0)
  }

  /** Number of rows with status `failed`. */
  function CountFailed(s: seq<Payment>): (n: nat)
    ensures n <= |s|
  {
    if s == [] then 0
    else CountFailed(s[..|s| - 1]) + (if s[|s| - 1].status == Failed then 1 else 0)
  }

  /** Sum of the amounts of the rows on UTC day `day`. */
  function DayTotal(s: seq<Payment>, day: int): int {
    if s == [] then 0
    else DayTotal(s[..|s| - 1], day) + (if UtcDay(s[|s| - 1].createdAt) == day then s[|s| - 1].amount else 0)
  }

  /** The UTC days on which at least one row lies. */
  function Days(s: seq<Payment>): set<int> {
    set i | 0 <= i < |s| :: UtcDay(s[i].createdAt)
  }

  /** The per-day revenue map: a key for each day with a row, holding that day's total. */
  function ByDay(s: seq<Payment>): map<int, int> {
    map d | d in Days(s) :: DayTotal(s, d)
  }

  /** Appending one row adds its amount to its day's entry, creating the entry if needed. */
  lemma ByDayAppend(s: seq<Payment>, p: Payment)
    ensures var d, m := UtcDay(p.createdAt), ByDay(s);
            ByDay(s + [p]) == m[d := (if d in m then m[d] else 0) + p.amount]
  {
    var t := s + [p];
    assert t[..|t| - 1] == s;
    assert Days(t) == Days(s) + {UtcDay(p.createdAt)} by {
      forall i | 0 <= i < |s| ensures UtcDay(t[i].createdAt) in Days(s) {
        assert t[i] == s[i];
      }
      forall d | d in Days(s) ensures d in Days(t) {
        var i :| 0 <= i < |s| && UtcDay(s[i].createdAt) == d;
        assert t[i] == s[i];
      }
      assert UtcDay(t[|s|].createdAt) in Days(t);
    }
    var d, m := UtcDay(p.createdAt), ByDay(s);
    var expected := m[d := (if d in m then m[d] else 0) + p.amount];
    forall e | e in Days(t) ensures ByDay(t)[e] == expected[e] {
      assert DayTotal(t, e) == DayTotal(s, e) + (if d == e then p.amount else 0);
      if e !in Days(s) {
        assert e == d;
        assert DayTotal(s, e) == 0 by { DayTotalOffDays(s, e); }
      }
    }
  }

  /** A day without rows has a zero total. */
  lemma {:induction false} DayTotalOffDays(s: seq<Payment>, day: int)
    requires day !in Days(s)
    ensures DayTotal(s, day) == 0
  {
    if s != [] {
      var init := s[..|s| - 1];
      assert Days(init) <= Days(s) by {
        forall d | d in Days(init) ensures d in Days(s) {
          var i :| 0 <= i < |init| && UtcDay(init[i].createdAt) == d;
          assert s[i] == init[i];
        }
      }
      assert UtcDay(s[|s| - 1].createdAt) in Days(s);
      DayTotalOffDays(init, day);
    }
  }

  /**
   * `groupByDay`: a single pass over the rows that adds each amount to the
   * entry of its UTC day. The keys are exactly the days that hold a row and each
   * value is the sum of that day's amounts.
   */
  method GroupByDay(s: seq<Payment>) returns (m: map<int, int>)
    ensures forall d :: d in m <==> exists i :: 0 <= i < |s| && UtcDay(s[i].createdAt) == d
    ensures forall d :: d in m ==> m[d] == DayTotal(s, d)
  {
    m := map[];
    var i := 0;
    while i < |s|
      invariant 0 <= i <= |s|
      invariant m == ByDay(s[..i])
    {
      var p := s[i];
      var day := UtcDay(p.createdAt);
      ByDayAppend(s[..i], p);
      assert s[..i + 1] == s[..i] + [p];
      m := m[day := (if day in m then m[day] else 0) + p.amount];
      i := i + 1;
    }
    assert s[..i] == s;
  }

  /** No day number occurs twice. */
  predicate Distinct(days: seq<int>) {
    forall i, j :: 0 <= i < j < |days| ==> days[i] != days[j]
  }

  /**
   * The UTC days of the rows in order of first appearance: the order in which
   * `groupByDay` creates the keys of its object, which is the order the client
   * reads them back in. Each day with a row appears exactly once.
   */
  function DayOrder(s: seq<Payment>): (r: seq<int>)
    ensures Distinct(r)
    ensures forall d :: d in r <==> d in Days(s)
  {
    if s == [] then []
    else
      var init, last := s[..|s| - 1], s[|s| - 1];
      var r := DayOrder(init);
      assert s == init + [last];
      assert forall i :: 0 <= i < |init| ==> s[i] == init[i];
      assert Days(s) == Days(init) + {UtcDay(last.createdAt)} by {
        forall d | d in Days(init) ensures d in Days(s) {
          var i :| 0 <= i < |init| && UtcDay(init[i].createdAt) == d;
          assert s[i] == init[i];
        }
        assert UtcDay(s[|s| - 1].createdAt) in Days(s);
      }
      if UtcDay(last.createdAt) in r then r else r + [UtcDay(last.createdAt)]
  }

  /** Sum of the values of `m` at `keys`, taken in that order (a key `m` lacks adds nothing). */
  function SumAt(m: map<int, int>, keys: seq<int>): int {
    if keys == [] then 0
    else
      var k := keys[|keys| - 1];
      SumAt(m, keys[..|keys| - 1]) + (if k in m then m[k] else 0)
  }

  /** Setting an entry of `m` at one of the distinct `keys` changes their sum by the change at that entry. */
  lemma {:induction false} SumAtUpdateListed(m: map<int, int>, keys: seq<int>, k: int, v: int)
    requires Distinct(keys) && k in keys && k in m
    ensures SumAt(m[k := v], keys) == SumAt(m, keys) + v - m[k]
  {
    var init, last := keys[..|keys| - 1], keys[|keys| - 1];
    if k == last {
      assert k !in init;
      SumAtUpdateUnlisted(m, init, k, v);
    } else {
      assert k in init;
      SumAtUpdateListed(m, init, k, v);
    }
  }

  /** Setting an entry of `m` outside `keys` leaves their sum unchanged. */
  lemma {:induction false} SumAtUpdateUnlisted(m: map<int, int>, keys: seq<int>, k: int, v: int)
    requires k !in keys
    ensures SumAt(m[k := v], keys) == SumAt(m, keys)
  {
    if keys != [] {
      var init := keys[..|keys| - 1];
      assert k !in init;
      SumAtUpdateUnlisted(m, init, k, v);
    }
  }

  /** Appending one row adds its day at the end of the day order, unless the day is already there. */
  lemma DayOrderAppend(s: seq<Payment>, p: Payment)
    ensures var d, keys := UtcDay(p.createdAt), DayOrder(s);
            DayOrder(s + [p]) == if d in keys then keys else keys + [d]
  {
    assert (s + [p])[..|s|] == s;
  }

  /** Appending one row adds its amount to the sum of the per-day values. */
  lemma ByDaySumAppend(s: seq<Payment>, p: Payment)
    ensures SumAt(ByDay(s + [p]), DayOrder(s + [p])) == SumAt(ByDay(s), DayOrder(s)) + p.amount
  {
    var d, m, keys := UtcDay(p.createdAt), ByDay(s), DayOrder(s);
    ByDayAppend(s, p);
    DayOrderAppend(s, p);
    SumAfterAdd(m, keys, d, p.amount, ByDay(s + [p]), DayOrder(s + [p]));
  }

  /**
   * Adding `amount` at key `d` of a map whose keys are exactly the distinct
   * `keys`, and listing `d` if it is new, adds `amount` to the sum.
   */
  lemma SumAfterAdd(m: map<int, int>, keys: seq<int>, d: int, amount: int, m': map<int, int>, keys': seq<int>)
    requires Distinct(keys)
    requires forall k :: k in keys <==> k in m
    requires m' == m[d := (if d in m then m[d] else 0) + amount]
    requires keys' == if d in keys then keys else keys + [d]
    ensures SumAt(m', keys') == SumAt(m, keys) + amount
  {
    var v := (if d in m then m[d] else 0) + amount;
    if d in keys {
      SumAtUpdateListed(m, keys, d, v);
      assert m' == m[d := v];
      assert keys' == keys;
      assert SumAt(m[d := v], keys) == SumAt(m, keys) + amount;
    } else {
      SumAtUpdateUnlisted(m, keys, d, v);
      SumAtAppend(m', keys, d);
    }
  }

  /** A sum over one more key. */
  lemma SumAtAppend(m: map<int, int>, keys: seq<int>, k: int)
    requires k in m
    ensures SumAt(m, keys + [k]) == SumAt(m, keys) + m[k]
  {
    assert (keys + [k])[..|keys|] == keys;
  }

  /** The per-day values, each day counted once, add up to the total over the same rows. */
  lemma {:induction false} ByDaySumsToTotal(s: seq<Payment>)
    ensures SumAt(ByDay(s), DayOrder(s)) == Total(s)
  {
    if s != [] {
      var init, p := s[..|s| - 1], s[|s| - 1];
      assert s == init + [p];
      ByDaySumsToTotal(init);
      ByDaySumAppend(init, p);
    }
  }

  /** The statistics over the ledger `s` at instant `now`, in a zone `offset` ms ahead of UTC. */
  function StatsOf(s: seq<Payment>, now: int, offset: int): Stats {
    var w := Between(s, RangeStart(now, offset), RangeEnd(now, offset));
    Stats(CountOnLocalDay(w, LocalDay(now, offset), offset), Total(w), CountFailed(w), ByDay(w))
  }

  /** Both counters are bounded by the number of rows in the window. */
  lemma StatsCountsBounded(s: seq<Payment>, now: int, offset: int)
    ensures var st, w := StatsOf(s, now, offset), Between(s, RangeStart(now, offset), RangeEnd(now, offset));
            st.totalPaymentsToday <= |w| && st.failedTransactions <= |w|
  {
  }

  /** Counting over a sequence with one more row. */
  lemma CountAppend(b: seq<Payment>, p: Payment, day: int, offset: int)
    ensures CountOnLocalDay(b + [p], day, offset)
            == CountOnLocalDay(b, day, offset) + (if LocalDay(p.createdAt, offset) == day then 1 else 0)
  {
    assert (b + [p])[..|b|] == b;
  }

  /** Restricting to the window loses none of today's rows. */
  lemma {:induction false} WindowKeepsToday(s: seq<Payment>, now: int, offset: int)
    ensures var today := LocalDay(now, offset);
            CountOnLocalDay(Between(s, RangeStart(now, offset), RangeEnd(now, offset)), today, offset)
              == CountOnLocalDay(s, today, offset)
  {
    if s != [] {
      var lo, hi, today := RangeStart(now, offset), RangeEnd(now, offset), LocalDay(now, offset);
      var init, p := s[..|s| - 1], s[|s| - 1];
      WindowKeepsToday(init, now, offset);
      InRangeIffLastEightDays(now, offset, p.createdAt);
      CountAppend(init, p, today, offset);
      assert s == init + [p];
      var b := Between(init, lo, hi);
      if lo <= p.createdAt <= hi {
        assert Between(s, lo, hi) == b + [p];
        CountAppend(b, p, today, offset);
      } else {
        assert Between(s, lo, hi) == b + [];
        assert b + [] == b;
      }
    }
  }

  /** `totalPaymentsToday` counts every row of the ledger made on today's local date, of any status. */
  lemma StatsTodayCount(s: seq<Payment>, now: int, offset: int)
    ensures StatsOf(s, now, offset).totalPaymentsToday == CountOnLocalDay(s, LocalDay(now, offset), offset)
  {
    WindowKeepsToday(s, now, offset);
  }

  /**
   * The revenue map of the snapshot has a key exactly for each UTC day holding a
   * row of the window, each value is that day's total, and the values, each day
   * counted once, add up to `totalRevenue`.
   */
  lemma StatsRevenueByDay(s: seq<Payment>, now: int, offset: int)
    ensures var st, w := StatsOf(s, now, offset), Between(s, RangeStart(now, offset), RangeEnd(now, offset));
            && (forall d :: d in st.revenueLast7Days <==> exists i :: 0 <= i < |w| && UtcDay(w[i].createdAt) == d)
            && (forall d :: d in st.revenueLast7Days ==> st.revenueLast7Days[d] == DayTotal(w, d))
            && SumAt(st.revenueLast7Days, DayOrder(w)) == st.totalRevenue
  {
    var w := Between(s, RangeStart(now, offset), RangeEnd(now, offset));
    ByDayKeys(w);
    ByDaySumsToTotal(w);
  }

  /** The keys of the per-day map are the days holding a row; each value is that day's total. */
  lemma ByDayKeys(w: seq<Payment>)
    ensures forall d :: d in ByDay(w) <==> exists i :: 0 <= i < |w| && UtcDay(w[i].createdAt) == d
    ensures forall d :: d in ByDay(w) ==> ByDay(w)[d] == DayTotal(w, d)
  {
  }

  /** Every key of the revenue map is a UTC day that the window touches. */
  lemma StatsDaysInWindow(s: seq<Payment>, now: int, offset: int)
    ensures var st := StatsOf(s, now, offset);
            forall d :: d in st.revenueLast7Days ==>
              UtcDay(RangeStart(now, offset)) <= d <= UtcDay(RangeEnd(now, offset))
  {
    var lo, hi := RangeStart(now, offset), RangeEnd(now, offset);
    var w := Between(s, lo, hi);
    BetweenSelects(s, lo, hi);
    forall d | d in Days(w) ensures UtcDay(lo) <= d <= UtcDay(hi) {
      var i :| 0 <= i < |w| && UtcDay(w[i].createdAt) == d;
      assert w[i] in multiset(w);
      UtcDayMonotonic(lo, w[i].createdAt);
      UtcDayMonotonic(w[i].createdAt, hi);
    }
  }

  /** With no row in the window every counter is zero and the revenue map is empty. */
  lemma StatsEmptyWindow(s: seq<Payment>, now: int, offset: int)
    requires forall i :: 0 <= i < |s| ==> !(RangeStart(now, offset) <= s[i].createdAt <= RangeEnd(now, offset))
    ensures StatsOf(s, now, offset) == Stats(0, 0, 0, map[])
  {
    var w := Between(s, RangeStart(now, offset), RangeEnd(now, offset));
    BetweenSelects(s, RangeStart(now, offset), RangeEnd(now, offset));
    assert Days(w) == {};
  }

  /** Filtering a sequence with one more row. */
  lemma BetweenAppend(b: seq<Payment>, p: Payment, lo: int, hi: int)
    ensures Between(b + [p], lo, hi) == Between(b, lo, hi) + (if lo <= p.createdAt <= hi then [p] else [])
  {
    assert (b + [p])[..|b|] == b;
  }

  /** Rows that all lie in `[lo, hi]` are all kept, in order. */
  lemma {:induction false} BetweenKeepsAll(s: seq<Payment>, lo: int, hi: int)
    requires forall i :: 0 <= i < |s| ==> lo <= s[i].createdAt <= hi
    ensures Between(s, lo, hi) == s
  {
    if s != [] {
      var init := s[..|s| - 1];
      BetweenKeepsAll(init, lo, hi);
      assert init + [s[|s| - 1]] == s;
    }
  }

  /** Summing, and counting failures, over a sequence with one more row. */
  lemma TotalsAppend(b: seq<Payment>, p: Payment)
    ensures Total(b + [p]) == Total(b) + p.amount
    ensures CountFailed(b + [p]) == CountFailed(b) + (if p.status == Failed then 1 else 0)
  {
    assert (b + [p])[..|b|] == b;
  }

  /** The ledger of the worked example below: three payments made today, then one dated ten days before `now`. */
  function ExampleLedger(now: int): seq<Payment> {
    ExampleToday(now) + [Payment(4, 100000, "dave", Success, Bank, now - 10 * DayMs)]
  }

  /** The three payments of the worked example made on `now`'s day: 100.00, 200.00 and a failed 50.00. */
  function ExampleToday(now: int): seq<Payment> {
    [Payment(1, 10000, "alice", Success, Upi, now - 3600000),
     Payment(2, 20000, "bob", Success, Card, now - 7200000),
     Payment(3, 5000, "carol", Failed, Cash, now - 60000)]
  }

  /**
   * A worked snapshot at 2023-11-14T22:13:20Z (UTC day 19675) on a UTC server:
   * the payment made ten days ago falls outside the window, the three of today
   * give three payments today, a revenue of 350.00 over all statuses, one
   * failure, and a revenue map with today's key only.
   */
  lemma StatsExample(now: int)
    requires now == 1700000000000
    ensures StatsOf(ExampleLedger(now), now, 0) == Stats(3, 35000, 1, map[19675 := 35000])
  {
    assert LocalDay(now, 0) == 19675;
    var lo, hi := RangeStart(now, 0), RangeEnd(now, 0);
    assert lo == 19668 * DayMs && hi == 19676 * DayMs - 1;
    var w := ExampleToday(now);
    var stale := ExampleLedger(now)[3];
    assert Between(ExampleLedger(now), lo, hi) == w by {
      BetweenKeepsAll(w, lo, hi);
      BetweenAppend(w, stale, lo, hi);
    }
    ExampleSums(w, now);
    ExampleByDay(w, now);
  }

  /** The counters of the three payments of the worked example. */
  lemma ExampleSums(w: seq<Payment>, now: int)
    requires now == 1700000000000
    requires w == ExampleToday(now)
    ensures Total(w) == 35000 && CountFailed(w) == 1 && CountOnLocalDay(w, 19675, 0) == 3
  {
    var b, c, d := w[0], w[1], w[2];
    assert w == [b, c] + [d] && [b, c] == [b] + [c] && [b] == [] + [b];
    assert Total([b]) == 10000 && CountFailed([b]) == 0 by { TotalsAppend([], b); }
    assert Total([b, c]) == 30000 && CountFailed([b, c]) == 0 by { TotalsAppend([b], c); }
    TotalsAppend([b, c], d);
    assert CountOnLocalDay([b], 19675, 0) == 1 by { CountAppend([], b, 19675, 0); }
    assert CountOnLocalDay([b, c], 19675, 0) == 2 by { CountAppend([b], c, 19675, 0); }
    CountAppend([b, c], d, 19675, 0);
  }

  /** The revenue map of the three payments of the worked example. */
  lemma ExampleByDay(w: seq<Payment>, now: int)
    requires now == 1700000000000
    requires w == ExampleToday(now)
    ensures ByDay(w) == map[19675 := 35000]
  {
    var b, c, d := w[0], w[1], w[2];
    assert w == [b, c] + [d] && [b, c] == [b] + [c] && [b] == [] + [b];
    assert ByDay([b]) == map[19675 := 10000] by {
      assert ByDay([]) == map[];
      ByDayAppend([], b);
    }
    assert ByDay([b, c]) == map[19675 := 30000] by { ByDayAppend([b], c); }
    ByDayAppend([b, c], d);
  }
}
