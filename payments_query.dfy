/**
 * The read queries of the payments service: the filtered, newest-first listing
 * and the lookup by id, as pure functions of the ledger's rows.
 */
module PaymentsQuery {
  import opened Wrappers
  import opened PaymentEntity

  /**
   * The query parameters of the listing. `None` stands for a parameter that is
   * absent or empty (both are falsy, so neither adds a condition). The date
   * bounds are timestamps.
   */
  datatype Filters = Filters(
    status: Option<PaymentStatus>,
    paymentMethod: Option<PaymentMethod>,
    startDate: Option<int>,
    endDate: Option<int>)

  /** No query parameters at all. */
  const NoFilters: Filters := Filters(None, None, None, None)

  /** The conjunction of the conditions the supplied parameters add; both date bounds are inclusive. */
  predicate Matches(p: Payment, f: Filters) {
    && (f.status.Some? ==> p.status == f.status.value)
    && (f.paymentMethod.Some? ==> p.paymentMethod == f.paymentMethod.value)
    && (f.startDate.Some? ==> p.createdAt >= f.startDate.value)
    && (f.endDate.Some? ==> p.createdAt <= f.endDate.value)
  }

  /** The rows of `s` that match `f`: each matching row as often as in `s`, no other row. */
  function Select(s: seq<Payment>, f: Filters): (r: seq<Payment>)
    ensures forall p :: multiset(r)[p] == if Matches(p, f) then multiset(s)[p] else 0
    ensures |r| <= |s|
  {
    if s == [] then []
    else
      assert s == [s[0]] + s[1..];
      (if Matches(s[0], f) then [s[0]] else []) + Select(s[1..], f)
  }

  /** Newest first: `createdAt` never increases along the sequence. */
  predicate NewestFirst(s: seq<Payment>) {
    forall i, j :: 0 <= i < j < |s| ==> s[i].createdAt >= s[j].createdAt
  }

  /** A row no older than every row of a newest-first sequence can go in front of it. */
  lemma PrependNewestFirst(p: Payment, s: seq<Payment>)
    requires NewestFirst(s)
    requires forall i :: 0 <= i < |s| ==> s[i].createdAt <= p.createdAt
    ensures NewestFirst([p] + s)
  {
    var r := [p] + s;
    forall i, j | 0 <= i < j < |r| ensures r[i].createdAt >= r[j].createdAt {
      if i > 0 {
        assert r[i] == s[i - 1] && r[j] == s[j - 1];
      } else {
        assert r[j] == s[j - 1];
      }
    }
  }

  /** A rearrangement of `pool` plus `p` holds no row newer than a bound that all of them respect. */
  lemma NoNewerThan(rest: seq<Payment>, pool: seq<Payment>, p: Payment, bound: int)
    requires multiset(rest) == multiset(pool) + multiset{p}
    requires forall q :: q in pool ==> q.createdAt <= bound
    requires p.createdAt <= bound
    ensures forall i :: 0 <= i < |rest| ==> rest[i].createdAt <= bound
  {
    forall i | 0 <= i < |rest| ensures rest[i].createdAt <= bound {
      assert rest[i] in multiset(rest);
    }
  }

  /** Places `p` into a newest-first sequence, before the rows no newer than it. */
  function InsertNewestFirst(p: Payment, s: seq<Payment>): (r: seq<Payment>)
    requires NewestFirst(s)
    ensures NewestFirst(r)
    ensures multiset(r) == multiset(s) + multiset{p}
  {
    if s == [] || p.createdAt >= s[0].createdAt then
      PrependNewestFirst(p, s);
      [p] + s
    else
      var rest := InsertNewestFirst(p, s[1..]);
      assert s == [s[0]] + s[1..];
      forall q | q in s[1..] ensures q.createdAt <= s[0].createdAt {
        var j :| 0 <= j < |s[1..]| && s[1..][j] == q;
        assert q == s[j + 1];
      }
      NoNewerThan(rest, s[1..], p, s[0].createdAt);
      PrependNewestFirst(s[0], rest);
      [s[0]] + rest
  }

  /** `ORDER BY createdAt DESC`: a newest-first rearrangement of `s`. */
  function SortNewestFirst(s: seq<Payment>): (r: seq<Payment>)
    ensures NewestFirst(r)
    ensures multiset(r) == multiset(s)
  {
    if s == [] then []
    else
      assert s == [s[0]] + s[1..];
      InsertNewestFirst(s[0], SortNewestFirst(s[1..]))
  }

  /** The first row of `s` with the given id, if any. */
  function FindById(s: seq<Payment>, id: int): (r: Option<Payment>)
    ensures r.Some? ==> r.value in s && r.value.id == id
    ensures r.None? <==> forall p :: p in s ==> p.id != id
  {
    if s == [] then None
    else if s[0].id == id then Some(s[0])
    else
      assert s == [s[0]] + s[1..];
      FindById(s[1..], id)
  }
}
