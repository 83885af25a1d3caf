/** One day of `write_history`, as the source runs it: the `sales_data` dictionary is an
    object updated in place by `sum_sales` and `convert_cents_to_usd`, and the cursor loop
    reassigns the latest response until its body has no cursor. Each method is proved against
    the functions of `SalesAggregation`. */
module SalesDay {
  import opened Wrappers
  import opened Errors
  import opened SalesAggregation
  import AggregationFacts

  /** The `sales_data` dictionary of one day. */
  class SalesData {
    var values: Amounts

    /** `sales_data = {header: 0.0 for header in headers}` */
    constructor (headers: seq<string>)
      ensures values == Zeros(headers)
    {
      values := Zeros(headers);
    }

    /** One round of the loop of `sum_sales`: nothing for an uncounted payment, else the five
        `+=` in order, each raising KeyError before its right-hand side when its key is absent. */
    method AddInPlace(v: FeeConvention, p: Payment) returns (err: Option<Error>)
      modifies this
      ensures AddPayment(v, old(values), p).Err? <==> err.Some?
      ensures err.Some? ==> err.value == AddPayment(v, old(values), p).error
      ensures err.None? ==> values == AddPayment(v, old(values), p).value
      ensures err.Some? ==> values.Keys == old(values).Keys
      ensures err.Some? ==> forall k :: k in values && k !in AccumulatedKeys ==> values[k] == old(values)[k]
    {
      if !Counted(p) {
        return None;
      }
      ghost var a0 := values;
      if GrossSalesKey !in values { return Some(MissingKey(GrossSalesKey)); }
      values := values[GrossSalesKey := values[GrossSalesKey] + AmountOrZero(p.amountMoney) as real];
      ghost var a1 := values;
      assert AddAmount(a0, GrossSalesKey, AmountOrZero(p.amountMoney)) == Ok(a1);
      if TipKey !in values { return Some(MissingKey(TipKey)); }
      values := values[TipKey := values[TipKey] + AmountOrZero(p.tipMoney) as real];
      ghost var a2 := values;
      assert AddAmount(a1, TipKey, AmountOrZero(p.tipMoney)) == Ok(a2);
      if RefundsKey !in values { return Some(MissingKey(RefundsKey)); }
      values := values[RefundsKey := values[RefundsKey] + AmountOrZero(p.refundedMoney) as real];
      ghost var a3 := values;
      assert AddAmount(a2, RefundsKey, AmountOrZero(p.refundedMoney)) == Ok(a3);
      if TotalKey !in values { return Some(MissingKey(TotalKey)); }
      values := values[TotalKey := values[TotalKey] + AmountOrZero(p.totalMoney) as real];
      if FeesKey !in values { return Some(MissingKey(FeesKey)); }
      var fee := 0;
      if p.processingFee.Some? {
        if p.processingFee.value == [] { return Some(EmptyFeeList); }
        fee := p.processingFee.value[0];
      }
      values := values[FeesKey := values[FeesKey] + Signed(v, fee) as real];
      return None;
    }

    /** The four assignments after the loop of `sum_sales`, each reading its keys in order. */
    method DeriveInPlace(v: FeeConvention) returns (err: Option<Error>)
      modifies this
      ensures Derive(v, old(values)).Err? <==> err.Some?
      ensures err.Some? ==> err.value == Derive(v, old(values)).error
      ensures err.None? ==> values == Derive(v, old(values)).value
      ensures err.Some? ==> old(values).Keys <= values.Keys <= old(values).Keys + DerivedKeys
      ensures err.Some? ==> forall k :: k in old(values) && k !in DerivedKeys ==> values[k] == old(values)[k]
    {
      if TotalKey !in values { return Some(MissingKey(TotalKey)); }
      if FeesKey !in values { return Some(MissingKey(FeesKey)); }
      values := values[NetTotalKey := if v == Additive then values[TotalKey] - values[FeesKey] else values[TotalKey] + values[FeesKey]];
      if GrossSalesKey !in values { return Some(MissingKey(GrossSalesKey)); }
      if RefundsKey !in values { return Some(MissingKey(RefundsKey)); }
      values := values[NetSalesKey := values[GrossSalesKey] - values[RefundsKey]];
      values := values[TotalCollectedKey := values[TotalKey]];
      values := values[CardKey := values[TotalKey]];
      return None;
    }

    /** `sum_sales(payments)`: the `+=` of every counted payment, then the four derived
        fields. On an error the caller abandons the dictionary, so only the error is stated. */
    method SumSales(v: FeeConvention, payments: seq<Payment>) returns (err: Option<Error>)
      modifies this
      ensures SumSalesOf(v, old(values), payments).Err? <==> err.Some?
      ensures err.Some? ==> err.value == SumSalesOf(v, old(values), payments).error
      ensures err.None? ==> values == SumSalesOf(v, old(values), payments).value
    {
      ghost var start := values;
      var i := 0;
      while i < |payments|
        invariant 0 <= i <= |payments|
        invariant Tally(v, start, payments[..i]) == Ok(values)
      {
        var p := payments[i];
        assert payments[..i + 1][..i] == payments[..i];
        var failed := AddInPlace(v, p);
        if failed.Some? {
          assert Tally(v, start, payments[..i + 1]) == Err(failed.value);
          AggregationFacts.TallyStopsAtError(v, start, payments, i + 1);
          return failed;
        }
        i := i + 1;
      }
      assert payments[..i] == payments;
      err := DeriveInPlace(v);
    }

    /** `convert_cents_to_usd()`: `sales_data[header] /= 100.0` for every key, one at a time. */
    method ConvertCentsToUsd()
      modifies this
      ensures values == InUsd(old(values))
    {
      ghost var start := values;
      var todo := values.Keys;
      while todo != {}
        invariant todo <= values.Keys && values.Keys == start.Keys
        invariant forall k :: k in values && k !in todo ==> values[k] == start[k] / 100.0
        invariant forall k :: k in todo ==> values[k] == start[k]
        decreases todo
      {
        var header :| header in todo;
        values := values[header := values[header] / 100.0];
        todo := todo - {header};
      }
      assert values == InUsd(start);
    }
  }

  /** The body of the `for date in ...` loop up to the row: that day's `sales_data` from the
      responses `list_payments` returns for its window, in order. */
  method CollectDay(v: FeeConvention, headers: seq<string>, responses: seq<Response>) returns (r: Result<Amounts, Error>)
    ensures r == DayAmounts(v, headers, responses)
  {
    if responses == [] {
      return Err(PagesExhausted);
    }
    var data := new SalesData(headers);
    var result := responses[0];
    if Usable(result) {
      var err := data.SumSales(v, result.payments.value);
      if err.Some? {
        return Err(err.value);
      }
      ghost var target := FollowCursor(v, data.values, result, responses[1..]);
      var i := 1;
      while result.cursor.Some?
        invariant 1 <= i <= |responses|
        invariant FollowCursor(v, data.values, result, responses[i..]) == target
        decreases |responses| - i
      {
        if i == |responses| {
          return Err(PagesExhausted);
        }
        assert responses[i..][1..] == responses[i + 1..];
        result := responses[i];
        i := i + 1;
        if Usable(result) {
          err := data.SumSales(v, result.payments.value);
          if err.Some? {
            return Err(err.value);
          }
        }
      }
      data.ConvertCentsToUsd();
    }
    return Ok(data.values);
  }
}
