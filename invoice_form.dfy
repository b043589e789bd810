/**
 * The new-invoice form of src/components/Billing.jsx and the helpers its
 * bill table uses to read a bill row whatever its column names. The form
 * keeps a list of line items that the user adds, removes and edits; the
 * price of a test chosen from the built-in price list is filled in. The
 * subtotal, 18% tax and total are computed from the line prices.
 */
module Invoice {
  import opened Wrappers
  import opened JsValue
  import LabBills
  import JsText
  import JsNumber

  // ---------------------------------------------------------------------
  // Line items and the price list
  // ---------------------------------------------------------------------

  /** One row of the form: `{testName, price}`; the price is '' until typed or filled in. */
  datatype LineItem = LineItem(testName: Value, price: Value)

  /** The row `handleAddTest` appends and the form starts with. */
  const Blank: LineItem := LineItem(Str(""), Str(""))

  datatype PricedTest = PricedTest(name: string, price: real)

  /** The built-in price list the test selector offers. */
  const TestPriceList: seq<PricedTest> := [
    PricedTest("Complete Blood Count", 450.0),
    PricedTest("Lipid Profile", 850.0),
    PricedTest("Liver Function Test", 650.0),
    PricedTest("Kidney Function Test", 700.0),
    PricedTest("Thyroid Function Test", 750.0),
    PricedTest("HbA1c", 550.0),
    PricedTest("Blood Sugar", 150.0),
    PricedTest("Urine Analysis", 300.0)
  ]

  /** `list.find(t => t.name === value)`, as the price it carries. */
  function PriceOf(list: seq<PricedTest>, value: Value): (r: Option<real>)
    ensures r.Some? ==> exists i :: 0 <= i < |list| && Str(list[i].name) == value && list[i].price == r.value &&
                                    forall j :: 0 <= j < i ==> Str(list[j].name) != value
    ensures r.None? <==> forall i :: 0 <= i < |list| ==> Str(list[i].name) != value
  {
    if list == [] then None
    else if Str(list[0].name) == value then Some(list[0].price)
    else
      var r := PriceOf(list[1..], value);
      assert forall i :: 1 <= i < |list| ==> list[i] == list[1..][i - 1];
      r
  }

  /** The column `handleTestChange` writes. */
  datatype Field = TestName | Price

  // ---------------------------------------------------------------------
  // The form
  // ---------------------------------------------------------------------

  class InvoiceForm {
    var tests: seq<LineItem>

    /** The form opens with one blank row. */
    constructor()
      ensures tests == [Blank]
    {
      tests := [Blank];
    }

    /** `handleAddTest`: one blank row at the end, the others unchanged. */
    method AddTest()
      modifies this
      ensures tests == old(tests) + [Blank]
    {
      tests := tests + [Blank];
    }

    /**
     * `handleRemoveTest`: `tests.filter((_, i) => i !== index)`. A valid
     * index drops exactly that row and keeps the others in order; any
     * other index keeps every row.
     */
    method RemoveTest(index: int)
      modifies this
      ensures 0 <= index < |old(tests)| ==> tests == old(tests)[..index] + old(tests)[index + 1..]
      ensures 0 <= index < |old(tests)| ==> |tests| == |old(tests)| - 1
      ensures !(0 <= index < |old(tests)|) ==> tests == old(tests)
    {
      var rows, kept: seq<LineItem> := tests, [];
      var i := 0;
      while i < |rows|
        invariant 0 <= i <= |rows|
        invariant kept == KeptBefore(rows, index, i)
      {
        KeptStep(rows, index, i);
        if i != index {
          kept := kept + [rows[i]];
        }
        i := i + 1;
      }
      assert rows[..|rows|] == rows;
      if 0 <= index < |rows| {
        assert rows[index + 1..|rows|] == rows[index + 1..];
      }
      tests := kept;
    }

    /**
     * `handleTestChange`: row `index` gets `value` in `field`; choosing a
     * test name that is on the price list also sets the row's price to the
     * listed price. Every other row is unchanged.
     */
    method ChangeTest(index: nat, field: Field, value: Value)
      requires index < |tests|
      modifies this
      ensures |tests| == |old(tests)|
      ensures forall i :: 0 <= i < |tests| && i != index ==> tests[i] == old(tests)[i]
      ensures field == Price ==> tests[index] == old(tests)[index].(price := value)
      ensures field == TestName ==> tests[index].testName == value
      ensures field == TestName && PriceOf(TestPriceList, value).Some? ==>
                tests[index].price == Num(PriceOf(TestPriceList, value).value)
      ensures field == TestName && PriceOf(TestPriceList, value).None? ==>
                tests[index].price == old(tests)[index].price
    {
      var row := tests[index];
      if field == TestName {
        row := row.(testName := value);
        var selected := PriceOf(TestPriceList, value);
        if selected.Some? {
          row := row.(price := Num(selected.value));
        }
      } else {
        row := row.(price := value);
      }
      tests := tests[index := row];
    }

    /** After a bill is created the form is reset to one blank row. */
    method Reset()
      modifies this
      ensures tests == [Blank]
    {
      tests := [Blank];
    }
  }

  /** The rows among the first i that the removal filter keeps. */
  ghost function KeptBefore(tests: seq<LineItem>, index: int, i: nat): seq<LineItem>
    requires i <= |tests|
  {
    if 0 <= index < i then tests[..index] + tests[index + 1..i] else tests[..i]
  }

  /** The filter keeps row i unless it is the removed one. */
  lemma KeptStep(tests: seq<LineItem>, index: int, i: nat)
    requires i < |tests|
    ensures KeptBefore(tests, index, i + 1) == KeptBefore(tests, index, i) + (if i != index then [tests[i]] else [])
  {
    if 0 <= index < i {
      assert tests[index + 1..i + 1] == tests[index + 1..i] + [tests[i]];
    } else if i == index {
      assert tests[index + 1..i + 1] == [];
    } else {
      assert tests[..i + 1] == tests[..i] + [tests[i]];
    }
  }

  // ---------------------------------------------------------------------
  // Subtotal, tax and total
  // ---------------------------------------------------------------------

  /** `parseFloat(test.price || 0)`; `None` is NaN. */
  function LinePrice(item: LineItem): (r: Option<real>)
    ensures !Truthy(item.price) ==> r == Some(0.0)
    ensures item.price.Num? && item.price.n != 0.0 ==> r == Some(item.price.n)
    ensures item.price.Str? && item.price.s != [] ==> r == JsNumber.ParseFloat(item.price.s)
    ensures item.price == Bool(true) ==> r.None?
  {
    ParseValue(if Truthy(item.price) then item.price else Num(0.0))
  }

  /** The line prices, row by row. */
  function Prices(tests: seq<LineItem>): (ps: seq<Option<real>>)
    ensures |ps| == |tests| && forall i :: 0 <= i < |tests| ==> ps[i] == LinePrice(tests[i])
  {
    seq(|tests|, i requires 0 <= i < |tests| => LinePrice(tests[i]))
  }

  /** Left-to-right addition from 0, with NaN absorbing. */
  function Sum(ps: seq<Option<real>>): Option<real>
  {
    if ps == [] then Some(0.0) else LabBills.AddNum(Sum(ps[..|ps| - 1]), ps[|ps| - 1])
  }

  /**
   * `tests.reduce((sum, test) => sum + parseFloat(test.price || 0), 0)`:
   * a number exactly when every line price is.
   */
  function Subtotal(tests: seq<LineItem>): (r: Option<real>)
    ensures r.Some? <==> forall i :: 0 <= i < |tests| ==> LinePrice(tests[i]).Some?
  {
    SumNaN(Prices(tests));
    Sum(Prices(tests))
  }

  /** A sum is a number exactly when every term is. */
  lemma {:induction false} SumNaN(ps: seq<Option<real>>)
    ensures Sum(ps).Some? <==> forall i :: 0 <= i < |ps| ==> ps[i].Some?
  {
    if ps != [] {
      var init := ps[..|ps| - 1];
      SumNaN(init);
      assert forall i :: 0 <= i < |init| ==> init[i] == ps[i];
    }
  }

  /** Summing two runs one after the other adds their sums. */
  lemma {:induction false} SumAppend(xs: seq<Option<real>>, ys: seq<Option<real>>)
    ensures Sum(xs + ys) == LabBills.AddNum(Sum(xs), Sum(ys))
    decreases |ys|
  {
    if ys == [] {
      assert xs + ys == xs;
    } else {
      var init := ys[..|ys| - 1];
      assert (xs + ys)[..|xs + ys| - 1] == xs + init;
      assert (xs + ys)[|xs + ys| - 1] == ys[|ys| - 1];
      SumAppend(xs, init);
    }
  }

  /** The subtotal of two runs of rows is the sum of their subtotals. */
  lemma SubtotalAppend(a: seq<LineItem>, b: seq<LineItem>)
    ensures Subtotal(a + b) == LabBills.AddNum(Subtotal(a), Subtotal(b))
  {
    assert Prices(a + b) == Prices(a) + Prices(b);
    SumAppend(Prices(a), Prices(b));
  }

  /** A single row's subtotal is its line price. */
  lemma SubtotalOne(row: LineItem)
    ensures Subtotal([row]) == LabBills.AddNum(Some(0.0), LinePrice(row))
  {
    var ps := Prices([row]);
    assert ps[..0] == [] && Sum(ps[..0]) == Some(0.0);
    assert Sum(ps) == LabBills.AddNum(Sum(ps[..0]), ps[0]);
  }

  /** A blank row adds nothing: adding a row leaves the subtotal as it was. */
  lemma BlankRowAddsNothing(tests: seq<LineItem>)
    ensures Subtotal(tests + [Blank]) == Subtotal(tests)
  {
    SubtotalAppend(tests, [Blank]);
    SubtotalOne(Blank);
  }

  /** Removing a row whose price is a number takes exactly that price off a numeric subtotal. */
  lemma RemovedRowLeavesSubtotal(tests: seq<LineItem>, index: nat)
    requires index < |tests|
    ensures var rest := tests[..index] + tests[index + 1..];
            Subtotal(tests).Some? ==>
              LinePrice(tests[index]).Some? && Subtotal(rest).Some? &&
              Subtotal(rest).value == Subtotal(tests).value - LinePrice(tests[index]).value
  {
    var pre, row, post := tests[..index], [tests[index]], tests[index + 1..];
    assert tests == pre + row + post;
    SubtotalAppend(pre + row, post);
    SubtotalAppend(pre, row);
    SubtotalAppend(pre, post);
    SubtotalOne(tests[index]);
  }

  /** The bill summary: subtotal, 18% tax, and their sum. */
  datatype Summary = Summary(subtotal: Option<real>, tax: Option<real>, total: Option<real>)

  /** `tax = subtotal * 0.18; total = subtotal + tax`. */
  function Totals(tests: seq<LineItem>): (s: Summary)
    ensures s.subtotal == Subtotal(tests)
    ensures s.tax.Some? <==> s.subtotal.Some?
    ensures s.total.Some? <==> s.subtotal.Some?
    ensures s.subtotal.Some? ==> s.tax.value == 0.18 * s.subtotal.value && s.total.value == 1.18 * s.subtotal.value
  {
    var subtotal := Subtotal(tests);
    var tax := if subtotal.Some? then Some(subtotal.value * 0.18) else None;
    Summary(subtotal, tax, LabBills.AddNum(subtotal, tax))
  }

  // ---------------------------------------------------------------------
  // Reading a bill row
  // ---------------------------------------------------------------------

  /** The `tests` column as it may arrive: JSON text, an already-parsed list, or nothing. */
  datatype TestsData = TestsText(text: string) | TestsList(items: seq<Row>) | TestsMissing

  /**
   * `parseTests`: text is parsed, and unparseable text gives no tests; a
   * list is used as it is; a missing column gives no tests. `parseJson`
   * stands for `JSON.parse` and answers `None` where it throws.
   */
  function ParseTests(data: TestsData, parseJson: string -> Option<seq<Row>>): (r: seq<Row>)
    ensures data.TestsText? && parseJson(data.text).Some? ==> r == parseJson(data.text).value
    ensures data.TestsText? && parseJson(data.text).None? ==> r == []
    ensures data.TestsList? ==> r == data.items
    ensures data.TestsMissing? ==> r == []
  {
    match data
    case TestsText(text) => (match parseJson(text) case Some(items) => items case None => [])
    case TestsList(items) => items
    case TestsMissing => []
  }

  /** The columns a patient identifier may be stored under, in the order they are tried. */
  const PatientIdColumns: seq<string> := ["patient_mrno", "patient_id", "uhid", "mrn", "patient_number"]

  /** A value `getPatientId` accepts: truthy and not the text 'null'. */
  predicate UsableId(v: Value) {
    Truthy(v) && v != Str("null")
  }

  /** The first usable value of `keys` in `bill`, if any. */
  function FirstUsable(bill: Row, keys: seq<string>): (r: Option<Value>)
    ensures r.Some? ==> exists i :: 0 <= i < |keys| && r.value == Get(bill, keys[i]) && UsableId(r.value) &&
                                    forall j :: 0 <= j < i ==> !UsableId(Get(bill, keys[j]))
    ensures r.None? <==> forall i :: 0 <= i < |keys| ==> !UsableId(Get(bill, keys[i]))
  {
    if keys == [] then None
    else if UsableId(Get(bill, keys[0])) then Some(Get(bill, keys[0]))
    else
      var r := FirstUsable(bill, keys[1..]);
      assert forall i :: 1 <= i < |keys| ==> keys[i] == keys[1..][i - 1];
      r
  }

  /** `getPatientId`: the first usable identifier column, or 'N/A'. */
  function PatientId(bill: Row): (r: Value)
    ensures UsableId(r)
    ensures r == Str("N/A") || exists i :: 0 <= i < |PatientIdColumns| && r == Get(bill, PatientIdColumns[i])
    ensures (forall i :: 0 <= i < |PatientIdColumns| ==> !UsableId(Get(bill, PatientIdColumns[i]))) ==> r == Str("N/A")
    ensures forall i :: 0 <= i < |PatientIdColumns| && UsableId(Get(bill, PatientIdColumns[i])) &&
                        (forall j :: 0 <= j < i ==> !UsableId(Get(bill, PatientIdColumns[j]))) ==>
                          r == Get(bill, PatientIdColumns[i])
  {
    match FirstUsable(bill, PatientIdColumns)
    case Some(v) => v
    case None => Str("N/A")
  }

  /** A 'null' text in an earlier column is skipped in favour of a later usable one. */
  lemma NullTextFallsThrough(bill: Row)
    requires Get(bill, "patient_mrno") == Str("null") && UsableId(Get(bill, "patient_id"))
    ensures PatientId(bill) == bill["patient_id"]
  {
    var keys := PatientIdColumns;
    assert !UsableId(Get(bill, keys[0])) && UsableId(Get(bill, keys[1]));
    assert FirstUsable(bill, keys[1..]) == Some(bill["patient_id"]);
  }

  /** The columns a bill number may be stored under, in the order they are tried. */
  const BillIdColumns: seq<string> := ["bill_number", "opbill_id", "bill_id", "id"]

  /** `getBillId`: `bill_number || opbill_id || bill_id || id || 'N/A'`. */
  function BillId(bill: Row): (r: Value)
    ensures Truthy(r)
    ensures forall i :: FirstTruthyAt(bill, BillIdColumns, i) ==> r == Get(bill, BillIdColumns[i])
    ensures (forall i :: 0 <= i < |BillIdColumns| ==> !Truthy(Get(bill, BillIdColumns[i]))) ==> r == Str("N/A")
  {
    FirstTruthy(bill, BillIdColumns, Str("N/A"))
  }

  /** The six columns `getTotalAmount` tries: the statistics' list without net_amount and grand_total. */
  const AmountColumns: seq<string> := ["total", "total_amount", "amount", "bill_amount", "totalAmount", "total_bill"]

  /** `getTotalAmount`: `parseFloat(first truthy amount column || 0)`; `None` is NaN. */
  function TotalAmount(bill: Row): (r: Option<real>)
    ensures (forall i :: 0 <= i < |AmountColumns| ==> !Truthy(Get(bill, AmountColumns[i]))) ==> r == Some(0.0)
    ensures forall i :: FirstTruthyAt(bill, AmountColumns, i) ==> r == ParseValue(Get(bill, AmountColumns[i]))
  {
    ParseValue(FirstTruthy(bill, AmountColumns, Num(0.0)))
  }

  /** A truthy column among the first `n` keys has a first truthy column there. */
  lemma {:induction false} SomeFirstTruthy(row: Row, keys: seq<string>, k: nat)
    requires k < |keys| && Truthy(Get(row, keys[k]))
    ensures exists i :: 0 <= i <= k && FirstTruthyAt(row, keys, i)
  {
    if !FirstTruthyAt(row, keys, k) {
      var j :| 0 <= j < k && Truthy(Get(row, keys[j]));
      SomeFirstTruthy(row, keys, j);
    }
  }

  /**
   * The invoice table and the statistics read the same total for a bill
   * that stores it under one of the six shared columns; a bill that stores
   * it only under net_amount or grand_total shows 0 in the table.
   */
  lemma TotalAmountAgreesWithStats(bill: Row)
    ensures (exists k :: 0 <= k < |AmountColumns| && Truthy(Get(bill, AmountColumns[k]))) ==>
              TotalAmount(bill) == LabBills.BillTotal(bill)
    ensures (forall k :: 0 <= k < |AmountColumns| ==> !Truthy(Get(bill, AmountColumns[k]))) ==>
              TotalAmount(bill) == Some(0.0)
  {
    var all := LabBills.TotalColumns;
    assert forall i :: 0 <= i < |AmountColumns| ==> AmountColumns[i] == all[i];
    if k :| 0 <= k < |AmountColumns| && Truthy(Get(bill, AmountColumns[k])) {
      SomeFirstTruthy(bill, AmountColumns, k);
      var i :| 0 <= i <= k && FirstTruthyAt(bill, AmountColumns, i);
      assert FirstTruthyAt(bill, all, i);
    }
  }

  /** A bill whose amount is only under net_amount: the table shows 0 while the statistics add net_amount. */
  lemma NetAmountOnlyInStats(bill: Row)
    requires forall k :: 0 <= k < |AmountColumns| ==> !Truthy(Get(bill, AmountColumns[k]))
    requires Truthy(Get(bill, "net_amount"))
    ensures TotalAmount(bill) == Some(0.0)
    ensures LabBills.BillTotal(bill) == ParseValue(bill["net_amount"])
  {
    var all := LabBills.TotalColumns;
    assert forall i :: 0 <= i < |AmountColumns| ==> AmountColumns[i] == all[i];
    assert FirstTruthyAt(bill, all, 6);
  }

  // ---------------------------------------------------------------------
  // Marking a bill paid from the table
  // ---------------------------------------------------------------------

  /** The table offers "Mark as paid" only for `bill.status === 'pending'`. */
  predicate CanMarkPaid(bill: Row) {
    Get(bill, "status") == Str("pending")
  }

  /**
   * A bill offered for payment is pending in the statistics unless its
   * payment status already says paid; once marked, it is no longer offered.
   */
  lemma MarkPaidOffer(bill: Row, paymentMethod: Value, today: string)
    ensures CanMarkPaid(bill) && !LowerIs(Get(bill, "payment_status"), "paid") ==> LabBills.IsUnpaidPending(bill)
    ensures !CanMarkPaid(bill + LabBills.MarkAsPaidUpdate(paymentMethod, today))
  {
    if CanMarkPaid(bill) {
      var pending := "pending";
      LowerCaseKept(pending);
      assert |JsText.Lower(pending)| != |"paid"|;
    }
  }

  /** Text without capital letters is its own lower case. */
  lemma LowerCaseKept(s: string)
    requires forall i :: 0 <= i < |s| ==> !('A' <= s[i] <= 'Z')
    ensures JsText.Lower(s) == s
  {
  }
}
