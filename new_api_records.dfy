/**
 * The record transforms of src/lib/newApi.js outside patient look-up and
 * template matching: the pending and completed bill lists of
 * `pendingBillsAPI`, its statistics, and the update record
 * `labResultsAPI.updateStatus` sends through `updateResult`. The rows the
 * database returns are parameters; the search and payment-status filters
 * are applied by the database and are not part of this model.
 */
module NewApiRecords {
  import opened Wrappers
  import opened JsValue
  import Lists

  // ---------------------------------------------------------------------
  // pendingBillsAPI.getPendingBills / getCompletedBills
  // ---------------------------------------------------------------------

  /** `!bill.results_entered`. */
  predicate ResultsMissing(bill: Row) {
    !Truthy(Get(bill, "results_entered"))
  }

  /** `a || b` on column values. */
  function Or(a: Value, b: Value): (r: Value)
    ensures Truthy(a) ==> r == a
    ensures !Truthy(a) ==> r == b
  {
    if Truthy(a) then a else b
  }

  /** The pending-bill record: the bill with id, service type name, bill date and total amount set. */
  function PendingRecord(bill: Row, now: string): (r: Row)
    ensures r.Keys == bill.Keys + {"id", "service_type_name", "bill_date", "total_amount"}
    ensures r["id"] == Get(bill, "opbill_id") && r["service_type_name"] == Get(bill, "service_name")
    ensures r["bill_date"] == Str(now)
    ensures Truthy(Get(bill, "unit_price")) ==> r["total_amount"] == bill["unit_price"]
    ensures !Truthy(Get(bill, "unit_price")) ==> r["total_amount"] == Num(0.0)
    ensures forall k :: k in bill && k !in {"id", "service_type_name", "bill_date", "total_amount"} ==> r[k] == bill[k]
  {
    bill + map["id" := Get(bill, "opbill_id"), "service_type_name" := Get(bill, "service_name"),
               "bill_date" := Str(now), "total_amount" := Or(Get(bill, "unit_price"), Num(0.0))]
  }

  /** `rec` is the pending record of some bill of `data` without results. */
  ghost predicate PendingRecordOf(data: seq<Row>, rec: Row, now: string) {
    exists j :: 0 <= j < |data| && ResultsMissing(data[j]) && rec == PendingRecord(data[j], now)
  }

  /** The pending record of each bill, in order. */
  function MapPending(bills: seq<Row>, now: string): (r: seq<Row>)
    ensures |r| == |bills| && forall i :: 0 <= i < |bills| ==> r[i] == PendingRecord(bills[i], now)
  {
    seq(|bills|, i requires 0 <= i < |bills| => PendingRecord(bills[i], now))
  }

  /** The pending bills: every bill without entered results, mapped, in the query's order. */
  function PendingBills(data: seq<Row>, now: string): (r: seq<Row>)
    ensures |r| == Lists.Count(data, ResultsMissing)
    ensures forall i :: 0 <= i < |r| ==> PendingRecordOf(data, r[i], now)
    ensures forall j :: 0 <= j < |data| && ResultsMissing(data[j]) ==> PendingRecord(data[j], now) in r
  {
    var kept := Lists.Filter(data, ResultsMissing);
    var r := MapPending(kept, now);
    assert |kept| == Lists.Count(data, ResultsMissing);
    MappedFromData(data, kept, r, now);
    MappedCoversData(data, kept, r, now);
    r
  }

  /** The list keeps the query's order: the bills of a first part of the answer come before those of the rest. */
  lemma PendingBillsOrder(a: seq<Row>, b: seq<Row>, now: string)
    ensures PendingBills(a + b, now) == PendingBills(a, now) + PendingBills(b, now)
  {
    Lists.FilterAppend(a, b, ResultsMissing);
    MapPendingAppend(Lists.Filter(a, ResultsMissing), Lists.Filter(b, ResultsMissing), now);
  }

  lemma MapPendingAppend(a: seq<Row>, b: seq<Row>, now: string)
    ensures MapPending(a + b, now) == MapPending(a, now) + MapPending(b, now)
  {
  }

  /** A single bill is listed, mapped, exactly when its results are missing. */
  lemma PendingBillsOne(bill: Row, now: string)
    ensures PendingBills([bill], now) == if ResultsMissing(bill) then [PendingRecord(bill, now)] else []
  {
    Lists.FilterOne(bill, ResultsMissing);
  }

  /** Each mapped record comes from a bill without results. */
  lemma MappedFromData(data: seq<Row>, kept: seq<Row>, r: seq<Row>, now: string)
    requires forall i :: 0 <= i < |kept| ==> kept[i] in data && ResultsMissing(kept[i])
    requires |r| == |kept| && forall i :: 0 <= i < |kept| ==> r[i] == PendingRecord(kept[i], now)
    ensures forall i :: 0 <= i < |r| ==> PendingRecordOf(data, r[i], now)
  {
    forall i | 0 <= i < |r| ensures PendingRecordOf(data, r[i], now) {
      assert kept[i] in data;
      var j :| 0 <= j < |data| && data[j] == kept[i];
      assert ResultsMissing(data[j]) && r[i] == PendingRecord(data[j], now);
    }
  }

  /** Every bill without results has its record in the list. */
  lemma MappedCoversData(data: seq<Row>, kept: seq<Row>, r: seq<Row>, now: string)
    requires forall j :: 0 <= j < |data| && ResultsMissing(data[j]) ==> data[j] in kept
    requires |r| == |kept| && forall i :: 0 <= i < |kept| ==> r[i] == PendingRecord(kept[i], now)
    ensures forall j :: 0 <= j < |data| && ResultsMissing(data[j]) ==> PendingRecord(data[j], now) in r
  {
    forall j | 0 <= j < |data| && ResultsMissing(data[j]) ensures PendingRecord(data[j], now) in r {
      assert data[j] in kept;
      var i :| 0 <= i < |kept| && kept[i] == data[j];
      assert r[i] == PendingRecord(data[j], now);
    }
  }

  /** A completed bill: the mapped row and the status of its nested `lab_results` record. */
  datatype CompletedBill = CompletedBill(row: Row, labResultsStatus: string)

  /**
   * The completed-bill record: total amount from `total_amount || unit_price || 0`,
   * and the `lab_results` column replaced by a record whose status is completed.
   */
  function CompletedRecord(bill: Row): (r: CompletedBill)
    ensures r.row.Keys == bill.Keys - {"lab_results"} + {"id", "service_type_name", "total_amount"}
    ensures r.row["id"] == Get(bill, "opbill_id") && r.row["service_type_name"] == Get(bill, "service_name")
    ensures r.row["total_amount"] == FirstTruthy(bill, ["total_amount", "unit_price"], Num(0.0))
    ensures r.labResultsStatus == "completed"
    ensures forall k :: k in bill && k !in {"id", "service_type_name", "total_amount", "lab_results"} ==> r.row[k] == bill[k]
  {
    var row := (bill - {"lab_results"}) + map["id" := Get(bill, "opbill_id"), "service_type_name" := Get(bill, "service_name"),
                          "total_amount" := Or(Get(bill, "total_amount"), Or(Get(bill, "unit_price"), Num(0.0)))];
    CompletedBill(row, "completed")
  }

  /** A stored total amount wins over the unit price in the completed list, while the pending list always takes the unit price. */
  lemma TotalAmountPrecedence(bill: Row, now: string)
    requires Truthy(Get(bill, "total_amount"))
    ensures CompletedRecord(bill).row["total_amount"] == bill["total_amount"]
    ensures PendingRecord(bill, now)["total_amount"] == Or(Get(bill, "unit_price"), Num(0.0))
  {
    assert FirstTruthyAt(bill, ["total_amount", "unit_price"], 0);
  }

  function CompletedBills(data: seq<Row>): (r: seq<CompletedBill>)
    ensures |r| == |data| && forall i :: 0 <= i < |data| ==> r[i] == CompletedRecord(data[i])
  {
    seq(|data|, i requires 0 <= i < |data| => CompletedRecord(data[i]))
  }

  // ---------------------------------------------------------------------
  // pendingBillsAPI.getStats
  // ---------------------------------------------------------------------

  /** `b.results_entered === true`. */
  predicate ResultsEntered(bill: Row) {
    Get(bill, "results_entered") == Bool(true)
  }

  /** `b.payment_status === 'paid'`. */
  predicate PaidExactly(bill: Row) {
    Get(bill, "payment_status") == Str("paid")
  }

  datatype BillCounts = BillCounts(total: nat, pending: nat, completed: nat, paid: nat, unpaid: nat)

  /** The counts over the bill table; a failed query gives zeros. */
  function GetStats(data: Option<seq<Row>>): (c: BillCounts)
    ensures data.None? ==> c == BillCounts(0, 0, 0, 0, 0)
    ensures data.Some? ==> c.total == |data.value|
    ensures data.Some? ==> c.completed == Lists.Count(data.value, ResultsEntered) && c.pending + c.completed == c.total
    ensures data.Some? ==> c.paid == Lists.Count(data.value, PaidExactly) && c.paid + c.unpaid == c.total
  {
    if data.None? then BillCounts(0, 0, 0, 0, 0)
    else
      var bills := data.value;
      var completed := Lists.Count(bills, ResultsEntered);
      var paid := Lists.Count(bills, PaidExactly);
      BillCounts(|bills|, |bills| - completed, completed, paid, |bills| - paid)
  }

  /**
   * The pending list never holds more bills than the pending count: the
   * list drops only falsy `results_entered`, while the count drops only
   * `true`, so a bill with any other truthy value counts as pending without
   * being listed.
   */
  lemma PendingListWithinPendingCount(data: seq<Row>, now: string)
    ensures |PendingBills(data, now)| <= GetStats(Some(data)).pending
  {
    Lists.CountDisjoint(data, ResultsMissing, ResultsEntered);
  }

  /** A bill whose `results_entered` is the string "yes" is counted pending but not listed. */
  lemma TruthyNonBooleanNeitherListedNorCompleted()
    ensures var bill := map["results_entered" := Str("yes")];
            PendingBills([bill], "") == [] && GetStats(Some([bill])).pending == 1
  {
    var bill := map["results_entered" := Str("yes")];
    assert !ResultsMissing(bill) && !ResultsEntered(bill);
    assert Lists.Count([bill], ResultsMissing) == 0;
  }

  // ---------------------------------------------------------------------
  // labResultsAPI.updateStatus / updateResult
  // ---------------------------------------------------------------------

  /**
   * The record `updateStatus(id, status, additionalData)` writes:
   * `{status, ...additionalData}`, then verified_date for 'verified' or
   * approved_date for 'approved' set to now whatever additionalData held,
   * and finally updated_at set to now by `updateResult`.
   */
  method ResultStatusUpdate(status: string, additionalData: Row, now: string) returns (updates: Row)
    ensures updates.Keys == additionalData.Keys + {"status", "updated_at"} +
                            (if status == "verified" then {"verified_date"} else {}) +
                            (if status == "approved" then {"approved_date"} else {})
    ensures updates["updated_at"] == Str(now)
    ensures status == "verified" ==> updates["verified_date"] == Str(now)
    ensures status == "approved" ==> updates["approved_date"] == Str(now)
    ensures "status" in additionalData ==> updates["status"] == additionalData["status"]
    ensures "status" !in additionalData ==> updates["status"] == Str(status)
    ensures forall k :: (k in additionalData && k != "updated_at" &&
                         !(status == "verified" && k == "verified_date") &&
                         !(status == "approved" && k == "approved_date")) ==> updates[k] == additionalData[k]
  {
    updates := map["status" := Str(status)] + additionalData;
    if status == "verified" {
      updates := updates["verified_date" := Str(now)];
    } else if status == "approved" {
      updates := updates["approved_date" := Str(now)];
    }
    updates := updates["updated_at" := Str(now)];
  }
}
