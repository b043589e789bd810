/**
 * The bill transforms of `billingAPI` (src/lib/api.js): the lab-bill list
 * built from the outpatient and inpatient tables (`getAllLabBills`), the
 * billing statistics (`getStats`), and the update `markAsPaid` sends
 * through `updateBill`. Query answers are parameters: `None` is a failed
 * query. Date parsing is a parameter too (`dateOf`, the time a column's
 * value denotes).
 */
module LabBills {
  import opened Wrappers
  import opened JsText
  import opened JsValue
  import JsNumber
  import Lists

  // ---------------------------------------------------------------------
  // The lab filter on inpatient bills
  // ---------------------------------------------------------------------

  /** The inpatient columns searched for "lab", in the order they are joined. */
  const LabColumns: seq<string> := ["service_type", "department", "category", "service", "service_name", "description"]

  /**
   * `String(x)` for a number, written with the digits of its integer part.
   * No such text contains a letter of "lab", so the lab filter is unaffected.
   */
  function NumberText(n: real): string {
    var k := n.Floor;
    if k < 0 then "-" + JsNumber.NatToString(-k) else JsNumber.NatToString(k)
  }

  /** The text `join` writes for a truthy column. */
  function ValueText(v: Value): string {
    match v
    case Str(s) => s
    case Num(n) => NumberText(n)
    case Bool(b) => if b then "true" else "false"
    case Null => "null"
  }

  /** The column `key` of `bill` is truthy. */
  function TruthyColumn(bill: Row): string -> bool {
    (key: string) => Truthy(Get(bill, key))
  }

  /** The text of each listed column, in order. */
  function ColumnTexts(bill: Row, keys: seq<string>): (r: seq<string>)
    ensures |r| == |keys| && forall i :: 0 <= i < |keys| ==> r[i] == ValueText(Get(bill, keys[i]))
  {
    seq(|keys|, i requires 0 <= i < |keys| => ValueText(Get(bill, keys[i])))
  }

  /** `[...].filter(Boolean)` on the listed columns, each written as its text. */
  function TruthyTexts(bill: Row, keys: seq<string>): (r: seq<string>)
    ensures |r| <= |keys|
  {
    if keys == [] then []
    else
      var v := Get(bill, keys[0]);
      (if Truthy(v) then [ValueText(v)] else []) + TruthyTexts(bill, keys[1..])
  }

  /** The texts joined are exactly those of the truthy columns, in column order. */
  lemma {:induction false} TruthyTextsOfTruthyColumns(bill: Row, keys: seq<string>)
    ensures TruthyTexts(bill, keys) == ColumnTexts(bill, Lists.Filter(keys, TruthyColumn(bill)))
  {
    if keys != [] {
      var f := TruthyColumn(bill);
      TruthyTextsOfTruthyColumns(bill, keys[1..]);
      var v := Get(bill, keys[0]);
      var head: seq<string> := if Truthy(v) then [keys[0]] else [];
      var tail := Lists.Filter(keys[1..], f);
      assert Lists.Filter(keys, f) == head + tail;
      ColumnTextsAppend(bill, head, tail);
      assert ColumnTexts(bill, head) == if Truthy(v) then [ValueText(v)] else [];
    }
  }

  lemma ColumnTextsAppend(bill: Row, a: seq<string>, b: seq<string>)
    ensures ColumnTexts(bill, a + b) == ColumnTexts(bill, a) + ColumnTexts(bill, b)
  {
  }

  /** The lower-cased, blank-joined text the inpatient lab filter searches. */
  function SearchText(bill: Row): string {
    Lower(Join(TruthyTexts(bill, LabColumns), " "))
  }

  /**
   * `searchFields.includes('lab') || searchFields.includes('laboratory')`:
   * the inpatient lab filter is the single test for "lab".
   */
  predicate IsLabBill(bill: Row)
    ensures IsLabBill(bill) <==> Contains(SearchText(bill), "lab")
  {
    var text := SearchText(bill);
    LaboratoryImpliesLab(text);
    Contains(text, "lab") || Contains(text, "laboratory")
  }

  /** The second test is redundant: text containing "laboratory" contains "lab". */
  lemma LaboratoryImpliesLab(s: string)
    ensures Contains(s, "laboratory") ==> Contains(s, "lab")
  {
    if Contains(s, "laboratory") {
      ContainsIff(s, "laboratory");
      var i :| OccursAt(s, "laboratory", i);
      assert s[i..i + 3] == "laboratory"[..3];
      assert OccursAt(s, "lab", i);
      ContainsIff(s, "lab");
    }
  }

  // ---------------------------------------------------------------------
  // getAllLabBills
  // ---------------------------------------------------------------------

  /** `{...bill, source}`. */
  function Tag(bill: Row, source: string): (r: Row)
    ensures r.Keys == bill.Keys + {"source"} && r["source"] == Str(source)
    ensures forall k :: k in bill && k != "source" ==> r[k] == bill[k]
  {
    bill["source" := Str(source)]
  }

  function TagAll(bills: seq<Row>, source: string): (r: seq<Row>)
    ensures |r| == |bills| && forall i :: 0 <= i < |bills| ==> r[i] == Tag(bills[i], source)
  {
    seq(|bills|, i requires 0 <= i < |bills| => Tag(bills[i], source))
  }

  /** The outpatient bills tagged 'outpatient', then the inpatient lab bills tagged 'inpatient'. */
  function Combine(outpatient: seq<Row>, inpatient: seq<Row>): (r: seq<Row>)
    ensures |r| == |outpatient| + Lists.Count(inpatient, IsLabBill)
    ensures r[..|outpatient|] == TagAll(outpatient, "outpatient")
    ensures r[|outpatient|..] == TagAll(Lists.Filter(inpatient, IsLabBill), "inpatient")
  {
    var front := TagAll(outpatient, "outpatient");
    var back := TagAll(Lists.Filter(inpatient, IsLabBill), "inpatient");
    assert (front + back)[..|front|] == front && (front + back)[|front|..] == back;
    front + back
  }

  /**
   * `(bill.status || bill.payment_status || '').toLowerCase()`: '' when
   * neither column is set, so such a bill passes no status filter.
   */
  function EffectiveStatus(bill: Row): (r: string)
    ensures !Truthy(Get(bill, "status")) && !Truthy(Get(bill, "payment_status")) ==> r == []
  {
    var keys := ["status", "payment_status"];
    assert forall i :: 0 <= i < |keys| ==> keys[i] == "status" || keys[i] == "payment_status";
    Lower(Text(FirstTruthy(bill, keys, Str(""))))
  }

  /** A truthy `status` decides alone; `payment_status` is read only when `status` is falsy. */
  lemma StatusShadowsPaymentStatus(bill: Row)
    ensures Truthy(Get(bill, "status")) ==> EffectiveStatus(bill) == Lower(Text(Get(bill, "status")))
    ensures !Truthy(Get(bill, "status")) && Truthy(Get(bill, "payment_status")) ==>
              EffectiveStatus(bill) == Lower(Text(Get(bill, "payment_status")))
  {
    var keys := ["status", "payment_status"];
    if Truthy(Get(bill, "status")) {
      assert FirstTruthyAt(bill, keys, 0);
    } else if Truthy(Get(bill, "payment_status")) {
      assert FirstTruthyAt(bill, keys, 1);
    }
  }

  /** The bill's effective status equals `status` up to case. */
  function StatusMatches(status: string): Row -> bool {
    (b: Row) => EffectiveStatus(b) == Lower(status)
  }

  /** The status filter: no filter for "" or "all", otherwise a case-insensitive comparison. */
  function StatusFilter(bills: seq<Row>, status: string): (r: seq<Row>)
    ensures status == [] || status == "all" ==> r == bills
    ensures multiset(r) <= multiset(bills)
    ensures forall i :: 0 <= i < |r| ==> status == [] || status == "all" || EffectiveStatus(r[i]) == Lower(status)
    ensures forall i :: 0 <= i < |bills| && EffectiveStatus(bills[i]) == Lower(status) ==> bills[i] in r
  {
    if status == [] || status == "all" then bills
    else Lists.Filter(bills, StatusMatches(status))
  }

  /** `bill.x && bill.x.toLowerCase().includes(q)` for a text column. */
  predicate ColumnHas(bill: Row, key: string, q: string) {
    var v := Get(bill, key);
    v.Str? && v.s != [] && Contains(Lower(v.s), q)
  }

  /** The columns the search reads. */
  const SearchColumns: set<string> := {"patient_name", "name", "bill_id", "patient_id", "uhid", "id"}

  /**
   * The search test: patient name, name, bill id, patient id, UHID, then
   * the id written out. A bill with none of these columns set is never found.
   */
  predicate SearchHit(bill: Row, q: string)
    ensures SearchHit(bill, q) ==> exists k :: k in SearchColumns && Truthy(Get(bill, k))
  {
    ColumnHas(bill, "patient_name", q) || ColumnHas(bill, "name", q) || ColumnHas(bill, "bill_id", q) ||
    ColumnHas(bill, "patient_id", q) || ColumnHas(bill, "uhid", q) ||
    (Truthy(Get(bill, "id")) && Contains(Lower(ValueText(Get(bill, "id"))), q))
  }

  /** The bill has a search hit on the lower-cased query. */
  function SearchIs(search: string): Row -> bool {
    (b: Row) => SearchHit(b, Lower(search))
  }

  /** The search filter: no filter for "", otherwise the bills with a hit. */
  function SearchFilter(bills: seq<Row>, search: string): (r: seq<Row>)
    ensures search == [] ==> r == bills
    ensures multiset(r) <= multiset(bills)
    ensures forall i :: 0 <= i < |r| ==> search == [] || SearchHit(r[i], Lower(search))
    ensures forall i :: 0 <= i < |bills| && SearchHit(bills[i], Lower(search)) ==> bills[i] in r
  {
    if search == [] then bills
    else Lists.Filter(bills, SearchIs(search))
  }

  /** The sort key: the date of `created_at || bill_date || date || 0`, negated for newest first. */
  function NewestFirst(dateOf: Value -> real): Row -> real {
    (b: Row) => -dateOf(FirstTruthy(b, ["created_at", "bill_date", "date"], Num(0.0)))
  }

  /**
   * `getAllLabBills({status, search})`: null (the call throws) when the
   * outpatient query fails; a failed inpatient query counts as no inpatient
   * bills. Otherwise the combined list, filtered by status and search, and
   * sorted newest first.
   */
  method GetAllLabBills(outpatient: Option<seq<Row>>, inpatient: Option<seq<Row>>,
                        status: string, search: string, dateOf: Value -> real)
    returns (r: Option<seq<Row>>)
    ensures r.None? <==> outpatient.None?
    ensures r.Some? ==> Lists.SortedBy(r.value, NewestFirst(dateOf))
    ensures r.Some? ==>
              multiset(r.value) ==
              multiset(SearchFilter(StatusFilter(Combine(outpatient.value, inpatient.GetOr([])), status), search))
    ensures r.Some? ==> multiset(r.value) <= multiset(Combine(outpatient.value, inpatient.GetOr([])))
  {
    if outpatient.None? {
      return None;
    }
    var inpatientLab: seq<Row> := [];
    if inpatient.Some? && |inpatient.value| > 0 {
      inpatientLab := Lists.Filter(inpatient.value, IsLabBill);
    }
    assert inpatientLab == Lists.Filter(inpatient.GetOr([]), IsLabBill);
    var allBills := TagAll(outpatient.value, "outpatient") + TagAll(inpatientLab, "inpatient");
    ghost var combined := allBills;
    if status != [] && status != "all" {
      allBills := Lists.Filter(allBills, StatusMatches(status));
    }
    assert allBills == StatusFilter(combined, status);
    if search != [] {
      allBills := Lists.Filter(allBills, SearchIs(search));
    }
    assert allBills == SearchFilter(StatusFilter(combined, status), search);
    allBills := Lists.SortBy(allBills, NewestFirst(dateOf));
    return Some(allBills);
  }

  // ---------------------------------------------------------------------
  // getStats
  // ---------------------------------------------------------------------

  /** The eight columns a bill's total may be stored under, in the order they are tried. */
  const TotalColumns: seq<string> :=
    ["total", "total_amount", "amount", "bill_amount", "totalAmount", "total_bill", "net_amount", "grand_total"]

  /** `parseFloat(first truthy total column || 0)`; `None` is NaN. */
  function BillTotal(bill: Row): (r: Option<real>)
    ensures forall i :: FirstTruthyAt(bill, TotalColumns, i) ==> r == ParseValue(Get(bill, TotalColumns[i]))
    ensures (forall i :: 0 <= i < |TotalColumns| ==> !Truthy(Get(bill, TotalColumns[i]))) ==> r == Some(0.0)
  {
    ParseValue(FirstTruthy(bill, TotalColumns, Num(0.0)))
  }

  /** status or payment_status lower-cases to `word`. */
  predicate StatusIs(bill: Row, word: string) {
    LowerIs(Get(bill, "status"), word) || LowerIs(Get(bill, "payment_status"), word)
  }

  predicate IsPaid(bill: Row) {
    StatusIs(bill, "paid")
  }

  /** Pending and not paid: the only bills whose totals go to pending payments. */
  predicate IsUnpaidPending(bill: Row) {
    !IsPaid(bill) && StatusIs(bill, "pending")
  }

  /** `a + b` with NaN absorbing. */
  function AddNum(a: Option<real>, b: Option<real>): (r: Option<real>)
    ensures r.Some? <==> a.Some? && b.Some?
    ensures r.Some? ==> r.value == a.value + b.value
  {
    if a.Some? && b.Some? then Some(a.value + b.value) else None
  }

  /**
   * The sum of the totals (as `total` reads them) of the bills `counted`
   * accepts, added from the left as `forEach` does.
   */
  function SumTotals(bills: seq<Row>, counted: Row -> bool, total: Row -> Option<real>): (r: Option<real>)
    ensures (forall i :: 0 <= i < |bills| ==> !counted(bills[i])) ==> r == Some(0.0)
  {
    if bills == [] then Some(0.0)
    else
      var init := bills[..|bills| - 1];
      assert forall i :: 0 <= i < |init| ==> init[i] == bills[i];
      var before := SumTotals(init, counted, total);
      var last := bills[|bills| - 1];
      if counted(last) then AddNum(before, total(last)) else before
  }

  /** Bills whose totals are all numbers sum to a number; one NaN total among them makes the sum NaN. */
  lemma {:induction false} SumTotalsNaN(bills: seq<Row>, counted: Row -> bool, total: Row -> Option<real>)
    ensures SumTotals(bills, counted, total).Some? <==>
              forall i :: 0 <= i < |bills| && counted(bills[i]) ==> total(bills[i]).Some?
  {
    if bills != [] {
      var init := bills[..|bills| - 1];
      SumTotalsNaN(init, counted, total);
      assert forall i :: 0 <= i < |init| ==> init[i] == bills[i];
    }
  }

  datatype BillingStats = BillingStats(
    totalRevenue: Option<real>, pendingPayments: Option<real>, totalInvoices: nat, paidInvoices: nat)

  /**
   * A truthy column that is not text has no `toLowerCase`: reading it as a
   * status throws.
   */
  predicate NotText(v: Value) {
    Truthy(v) && !v.Str?
  }

  /**
   * The paid and pending tests of one bill throw. Whatever `status` says,
   * one of the two tests reads `payment_status` as well (a status cannot
   * be both "paid" and "pending"), so either column can make it throw.
   */
  predicate StatusThrows(bill: Row) {
    NotText(Get(bill, "status")) || NotText(Get(bill, "payment_status"))
  }

  /** No bill of the list makes the status tests throw. */
  predicate NoneThrows(bills: seq<Row>) {
    forall i :: 0 <= i < |bills| ==> !StatusThrows(bills[i])
  }

  /**
   * `billingAPI.getStats()` over the lab bills: every bill counts as an
   * invoice; a paid bill adds its total to the revenue; a pending bill that
   * is not paid adds its total to the pending payments. A failed bill query,
   * or a bill whose status tests throw, gives all zeros.
   */
  method GetStats(allBills: Option<seq<Row>>) returns (stats: BillingStats)
    ensures allBills.None? ==> stats == BillingStats(Some(0.0), Some(0.0), 0, 0)
    ensures allBills.Some? && !NoneThrows(allBills.value) ==> stats == BillingStats(Some(0.0), Some(0.0), 0, 0)
    ensures allBills.Some? && NoneThrows(allBills.value) ==>
              stats.totalInvoices == |allBills.value| &&
              stats.paidInvoices == Lists.Count(allBills.value, IsPaid) &&
              stats.totalRevenue == SumTotals(allBills.value, IsPaid, BillTotal) &&
              stats.pendingPayments == SumTotals(allBills.value, IsUnpaidPending, BillTotal)
  {
    if allBills.None? {
      return BillingStats(Some(0.0), Some(0.0), 0, 0);
    }
    var bills := allBills.value;
    stats := BillingStats(Some(0.0), Some(0.0), |bills|, 0);
    var k := 0;
    while k < |bills|
      invariant 0 <= k <= |bills|
      invariant NoneThrows(bills[..k])
      invariant Tallied(bills, k, stats)
    {
      var bill := bills[k];
      if StatusThrows(bill) {
        assert !NoneThrows(bills) by {
          assert StatusThrows(bills[k]);
        }
        return BillingStats(Some(0.0), Some(0.0), 0, 0);
      }
      var total := BillTotal(bill);
      var before := stats;
      if IsPaid(bill) {
        stats := stats.(totalRevenue := AddNum(stats.totalRevenue, total), paidInvoices := stats.paidInvoices + 1);
      } else if StatusIs(bill, "pending") {
        stats := stats.(pendingPayments := AddNum(stats.pendingPayments, total));
      }
      TallyStep(bills, k, before, stats);
      NoneThrowsSnoc(bills, k);
      k := k + 1;
    }
    assert bills[..k] == bills;
  }

  /** The statistics hold the tallies of the first k bills. */
  predicate Tallied(bills: seq<Row>, k: nat, stats: BillingStats)
    requires k <= |bills|
  {
    stats.totalInvoices == |bills| &&
    stats.paidInvoices == Lists.Count(bills[..k], IsPaid) &&
    stats.totalRevenue == SumTotals(bills[..k], IsPaid, BillTotal) &&
    stats.pendingPayments == SumTotals(bills[..k], IsUnpaidPending, BillTotal)
  }

  /** One forEach step: a paid bill adds to the revenue and the paid count, an unpaid pending bill to the pending sum. */
  lemma TallyStep(bills: seq<Row>, k: nat, before: BillingStats, after: BillingStats)
    requires k < |bills| && Tallied(bills, k, before)
    requires IsPaid(bills[k]) ==>
               after == before.(totalRevenue := AddNum(before.totalRevenue, BillTotal(bills[k])),
                                paidInvoices := before.paidInvoices + 1)
    requires IsUnpaidPending(bills[k]) ==>
               after == before.(pendingPayments := AddNum(before.pendingPayments, BillTotal(bills[k])))
    requires !IsPaid(bills[k]) && !IsUnpaidPending(bills[k]) ==> after == before
    ensures Tallied(bills, k + 1, after)
  {
    StatsStep(bills, k);
  }

  lemma NoneThrowsSnoc(bills: seq<Row>, k: nat)
    requires k < |bills| && NoneThrows(bills[..k]) && !StatusThrows(bills[k])
    ensures NoneThrows(bills[..k + 1])
  {
    assert bills[..k + 1] == bills[..k] + [bills[k]];
  }

  /** How one more bill changes the paid count and the two sums. */
  lemma StatsStep(bills: seq<Row>, k: nat)
    requires k < |bills|
    ensures Lists.Count(bills[..k + 1], IsPaid) == Lists.Count(bills[..k], IsPaid) + (if IsPaid(bills[k]) then 1 else 0)
    ensures SumTotals(bills[..k + 1], IsPaid, BillTotal) ==
              if IsPaid(bills[k]) then AddNum(SumTotals(bills[..k], IsPaid, BillTotal), BillTotal(bills[k]))
              else SumTotals(bills[..k], IsPaid, BillTotal)
    ensures SumTotals(bills[..k + 1], IsUnpaidPending, BillTotal) ==
              if IsUnpaidPending(bills[k]) then AddNum(SumTotals(bills[..k], IsUnpaidPending, BillTotal), BillTotal(bills[k]))
              else SumTotals(bills[..k], IsUnpaidPending, BillTotal)
  {
    var s, x := bills[..k], bills[k];
    assert bills[..k + 1] == s + [x];
    CountSnoc(s, x, IsPaid);
    assert (s + [x])[..|s + [x]| - 1] == s;
  }

  lemma {:induction false} CountSnoc<T>(s: seq<T>, x: T, p: T -> bool)
    ensures Lists.Count(s + [x], p) == Lists.Count(s, p) + (if p(x) then 1 else 0)
  {
    if s != [] {
      assert (s + [x])[1..] == s[1..] + [x];
      CountSnoc(s[1..], x, p);
    }
  }

  /** No bill counts as both paid and pending, so paid and pending-unpaid invoices together never exceed the total. */
  lemma PaidAndPendingDisjoint(bills: seq<Row>)
    ensures Lists.Count(bills, IsPaid) + Lists.Count(bills, IsUnpaidPending) <= |bills|
  {
    Lists.CountDisjoint(bills, IsPaid, IsUnpaidPending);
  }

  // ---------------------------------------------------------------------
  // markAsPaid and updateBill
  // ---------------------------------------------------------------------

  /** `updateBill`'s table: 'inpatient' goes to inpatient_bills, every other source to opbilling. */
  function TableFor(source: string): (table: string)
    ensures table == "inpatient_bills" <==> source == "inpatient"
    ensures table == "opbilling" <==> source != "inpatient"
  {
    if source == "inpatient" then "inpatient_bills" else "opbilling"
  }

  /** The update `markAsPaid` sends; `today` is the date part of the clock. */
  function MarkAsPaidUpdate(paymentMethod: Value, today: string): (u: Row)
    ensures u.Keys == {"status", "payment_status", "payment_method", "paid_date"}
    ensures u["status"] == Str("paid") && u["payment_status"] == Str("paid")
    ensures u["payment_method"] == paymentMethod && u["paid_date"] == Str(today)
  {
    map["status" := Str("paid"), "payment_status" := Str("paid"),
        "payment_method" := paymentMethod, "paid_date" := Str(today)]
  }

  /** Once marked paid, a bill counts as paid and no longer as pending in the statistics. */
  lemma MarkedBillCountsAsPaid(bill: Row, paymentMethod: Value, today: string)
    ensures IsPaid(bill + MarkAsPaidUpdate(paymentMethod, today))
    ensures !IsUnpaidPending(bill + MarkAsPaidUpdate(paymentMethod, today))
    ensures EffectiveStatus(bill + MarkAsPaidUpdate(paymentMethod, today)) == "paid"
  {
    var b := bill + MarkAsPaidUpdate(paymentMethod, today);
    assert Get(b, "status") == Str("paid");
    assert Lower("paid") == "paid";
    assert FirstTruthyAt(b, ["status", "payment_status"], 0);
  }
}
