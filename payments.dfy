/**
 * `PaymentsService`: the payment ledger. The table's rows are a sequence that
 * `CreatePayment` appends to; the queries are functions of that sequence.
 */
module Payments {
  import opened Wrappers
  import opened Calendar
  import opened PaymentEntity
  import opened PaymentsQuery
  import opened PaymentsStats

  /** The store's refusal of an insert: the amount does not fit `decimal(10,2)`. */
  datatype StoreError = NumericFieldOverflow

  /** Ids grow along the ledger, so no two rows share one. */
  predicate PaymentIdsIncreasing(s: seq<Payment>) {
    forall i, j :: 0 <= i < j < |s| ==> s[i].id < s[j].id
  }

  /** With unique ids, the row found for an id is the only row with that id; when none is found, no row has it. */
  lemma LookupFindsTheOnlyRow(s: seq<Payment>, id: int)
    ensures FindById(s, id).None? ==> forall i :: 0 <= i < |s| ==> s[i].id != id
    ensures PaymentIdsIncreasing(s) ==> forall i :: 0 <= i < |s| && s[i].id == id ==> FindById(s, id) == Some(s[i])
  {
    var r := FindById(s, id);
    forall i | 0 <= i < |s| && s[i].id == id ensures r.Some? {
      assert s[i] in s;
    }
    if PaymentIdsIncreasing(s) && r.Some? {
      var k :| 0 <= k < |s| && s[k] == r.value;
      assert forall i :: 0 <= i < |s| && s[i].id == id ==> i == k;
    }
  }

  class PaymentsService {
    /** The rows of the payment table, in insertion order. */
    var payments: seq<Payment>
    /** The next value of the table's id sequence. */
    var nextId: nat

    /** Ids are increasing and below the sequence's next value; every amount fits its column. */
    ghost predicate Valid()
      reads this
    {
      && PaymentIdsIncreasing(payments)
      && (forall i :: 0 <= i < |payments| ==> payments[i].id < nextId && FitsAmountColumn(payments[i].amount))
    }

    /** A service over a table that already holds `rows`. */
    constructor (rows: seq<Payment>)
      requires PaymentIdsIncreasing(rows)
      requires forall i :: 0 <= i < |rows| ==> FitsAmountColumn(rows[i].amount)
      ensures Valid()
      ensures payments == rows
    {
      payments := rows;
      nextId := if rows == [] then 1 else rows[|rows| - 1].id + 1;
    }

    /**
     * `createPayment`: builds a row from the given fields and saves it. The
     * store assigns the next id and stamps `createdAt` with the clock's `now`;
     * an amount that does not fit `decimal(10,2)` is refused and nothing changes.
     */
    method CreatePayment(amount: int, receiver: string, paymentMethod: PaymentMethod, status: PaymentStatus, now: int)
      returns (r: Result<Payment, StoreError>)
      requires Valid()
      modifies this
      ensures Valid()
      ensures !FitsAmountColumn(amount) ==>
                r == Err(NumericFieldOverflow) && payments == old(payments) && nextId == old(nextId)
      ensures FitsAmountColumn(amount) ==>
                && r == Ok(Payment(old(nextId), amount, receiver, status, paymentMethod, now))
                && payments == old(payments) + [r.value]
                && nextId == old(nextId) + 1
      ensures r.Ok? ==> forall i :: 0 <= i < |old(payments)| ==> old(payments)[i].id != r.value.id
    {
      if !FitsAmountColumn(amount) {
        return Err(NumericFieldOverflow);
      }
      var p := Payment(nextId, amount, receiver, status, paymentMethod, now);
      payments := payments + [p];
      nextId := nextId + 1;
      r := Ok(p);
    }

    /**
     * `getAll`: the rows that meet every supplied filter, newest first. Each
     * matching row appears as often as in the ledger and no other row appears.
     */
    function GetAll(filters: Filters): (r: seq<Payment>)
      reads this
      ensures NewestFirst(r)
      ensures forall p :: multiset(r)[p] == if Matches(p, filters) then multiset(payments)[p] else 0
    {
      SortNewestFirst(Select(payments, filters))
    }

    /** `getOne`: the row with the given id, or none. */
    function GetOne(id: int): (r: Option<Payment>)
      reads this
      ensures r.Some? ==> r.value in payments && r.value.id == id
      ensures r.None? <==> forall i :: 0 <= i < |payments| ==> payments[i].id != id
      ensures Valid() ==> forall i :: 0 <= i < |payments| && payments[i].id == id ==> r == Some(payments[i])
    {
      LookupFindsTheOnlyRow(payments, id);
      FindById(payments, id)
    }

    /**
     * `getStats` at instant `now`, for a server whose zone is `offset` ms ahead
     * of UTC: the rows of the window go through the counters and `GroupByDay`.
     */
    method GetStats(now: int, offset: int) returns (s: Stats)
      ensures s == StatsOf(payments, now, offset)
    {
      var window := Between(payments, RangeStart(now, offset), RangeEnd(now, offset));
      var total := Total(window);
      var today := CountOnLocalDay(window, LocalDay(now, offset), offset);
      var failed := CountFailed(window);
      var byDay := GroupByDay(window);
      ByDayKeys(window);
      forall d ensures d in byDay <==> d in ByDay(window) {
        assert d in byDay <==> exists i :: 0 <= i < |window| && UtcDay(window[i].createdAt) == d;
      }
      assert byDay == ByDay(window);
      s := Stats(today, total, failed, byDay);
    }
  }

  /**
   * The row `CreatePayment` has just appended (the last one) comes back
   * unchanged from `GetOne` by its id and from the unfiltered `GetAll`.
   */
  lemma CreatedPaymentIsRetrievable(svc: PaymentsService)
    requires svc.Valid() && svc.payments != []
    ensures var p := svc.payments[|svc.payments| - 1];
            svc.GetOne(p.id) == Some(p) && p in svc.GetAll(NoFilters)
  {
    var p := svc.payments[|svc.payments| - 1];
    assert multiset(svc.payments)[p] > 0;
    assert multiset(svc.GetAll(NoFilters))[p] > 0;
  }
}
