/** What `write_history` computes for one day, stated as functions: the `sales_data` dictionary
    keyed by header names, the fold of `sum_sales` over a page of payments, the cursor loop over
    the pages, and the final `convert_cents_to_usd`. The two source files differ only in the
    sign under which `Fees` is kept, given by `FeeConvention`. */
module SalesAggregation {
  import opened Wrappers
  import opened Errors

  /** `squareup/sales_util.py` adds each fee (`Fees += fee`, `Net Total = Total - Fees`);
      `squareup/sales_data_util.py` subtracts it (`Fees -= fee`, `Net Total = Total + Fees`). */
  datatype FeeConvention = Additive | Subtractive

  /** One payment record; amounts are integer cents, `None` is a key the record lacks.
      `processingFee` holds the `amount_money.amount` of each `processing_fee` entry. */
  datatype Payment = Payment(
    status: string,
    amountMoney: Option<int>,
    tipMoney: Option<int>,
    refundedMoney: Option<int>,
    totalMoney: Option<int>,
    processingFee: Option<seq<int>>)

  /** One `list_payments` response: `is_success()`, and the `payments` and `cursor` keys of
      its body when present. */
  datatype Response = Response(success: bool, payments: Option<seq<Payment>>, cursor: Option<string>)

  /** The `sales_data` dictionary: header name to value (Python floats, here exact reals). */
  type Amounts = map<string, real>

  const SalesKey := "Sales"
  const GrossSalesKey := "Gross Sales"
  const ReturnsKey := "Returns"
  const DiscountsKey := "Discounts & Comps"
  const NetSalesKey := "Net Sales"
  const GiftCardSalesKey := "Gift Card Sales"
  const TaxKey := "Tax"
  const TipKey := "Tip"
  const RefundsKey := "Refunds by Amount"
  const TotalKey := "Total"
  const TotalCollectedKey := "Total Collected"
  const CashKey := "Cash"
  const CardKey := "Card"
  const OtherKey := "Other"
  const GiftCardKey := "Gift Card"
  const FeesKey := "Fees"
  const NetTotalKey := "Net Total"

  /** The 17 columns used when the caller passes no header list. */
  const DefaultHeaders: seq<string> := [
    SalesKey, GrossSalesKey, ReturnsKey, DiscountsKey, NetSalesKey, GiftCardSalesKey, TaxKey,
    TipKey, RefundsKey, TotalKey, TotalCollectedKey, CashKey, CardKey, OtherKey, GiftCardKey,
    FeesKey, NetTotalKey]

  /** The keys `sum_sales` adds to in place; a header list without one of them raises KeyError
      as soon as a payment is counted. */
  const AccumulatedKeys: set<string> := {GrossSalesKey, TipKey, RefundsKey, TotalKey, FeesKey}

  /** The keys the assignments after the loop of `sum_sales` read. */
  const ReadKeys: set<string> := {TotalKey, FeesKey, GrossSalesKey, RefundsKey}

  /** The keys `sum_sales` assigns after its loop. */
  const DerivedKeys: set<string> := {NetTotalKey, NetSalesKey, TotalCollectedKey, CardKey}

  /** `if not headers: headers = [...]`: a missing or empty header list means the default one. */
  function ResolveHeaders(headers: Option<seq<string>>): (h: seq<string>)
    ensures h != []
    ensures headers.Some? && headers.value != [] ==> h == headers.value
    ensures headers.None? || headers.value == [] ==> h == DefaultHeaders
  {
    if headers.None? || headers.value == [] then DefaultHeaders else headers.value
  }

  /** `{header: 0.0 for header in headers}` */
  function Zeros(headers: seq<string>): Amounts {
    map h | h in headers :: 0.0
  }

  /** Only COMPLETED and APPROVED payments are aggregated. */
  predicate Counted(p: Payment) {
    p.status == "COMPLETED" || p.status == "APPROVED"
  }

  function AmountOrZero(o: Option<int>): int {
    if o.Some? then o.value else 0
  }

  /** The signed amount one fee adds to `Fees`. */
  function Signed(v: FeeConvention, fee: int): int {
    if v == Additive then fee else -fee
  }

  /** `sales_data[key] += x`: KeyError when the dictionary lacks `key`. */
  function AddAmount(a: Amounts, key: string, x: int): Result<Amounts, Error> {
    if key in a then Ok(a[key := a[key] + x as real]) else Err(MissingKey(key))
  }

  /** `payment['processing_fee'][0]['amount_money']['amount'] if 'processing_fee' in payment else 0` */
  function FirstFee(p: Payment): Result<int, Error> {
    match p.processingFee
    case None => Ok(0)
    case Some(fees) => if fees == [] then Err(EmptyFeeList) else Ok(fees[0])
  }

  /** One round of the `for payment in payments` loop of `sum_sales`. The key of each `+=` is
      looked up before its right-hand side is evaluated. */
  function AddPayment(v: FeeConvention, a: Amounts, p: Payment): Result<Amounts, Error> {
    if !Counted(p) then Ok(a)
    else
      var a1 :- AddAmount(a, GrossSalesKey, AmountOrZero(p.amountMoney));
      var a2 :- AddAmount(a1, TipKey, AmountOrZero(p.tipMoney));
      var a3 :- AddAmount(a2, RefundsKey, AmountOrZero(p.refundedMoney));
      var a4 :- AddAmount(a3, TotalKey, AmountOrZero(p.totalMoney));
      if FeesKey !in a4 then Err(MissingKey(FeesKey))
      else
        var fee :- FirstFee(p);
        Ok(a4[FeesKey := a4[FeesKey] + Signed(v, fee) as real])
  }

  /** The loop of `sum_sales` over a page, payment by payment. */
  function Tally(v: FeeConvention, a: Amounts, ps: seq<Payment>): Result<Amounts, Error> {
    if ps == [] then Ok(a)
    else
      var b :- Tally(v, a, ps[..|ps| - 1]);
      AddPayment(v, b, ps[|ps| - 1])
  }

  /** `sales_data[key]`: KeyError when absent. */
  function Lookup(a: Amounts, key: string): Result<real, Error> {
    if key in a then Ok(a[key]) else Err(MissingKey(key))
  }

  /** Whether `a` satisfies the identities `sum_sales` establishes after its loop, under the
      given fee convention. */
  predicate Balanced(v: FeeConvention, a: Amounts) {
    ReadKeys + DerivedKeys <= a.Keys
    && a[NetTotalKey] == (if v == Additive then a[TotalKey] - a[FeesKey] else a[TotalKey] + a[FeesKey])
    && a[NetSalesKey] == a[GrossSalesKey] - a[RefundsKey]
    && a[TotalCollectedKey] == a[TotalKey]
    && a[CardKey] == a[TotalKey]
  }

  /** The four assignments that end `sum_sales`. */
  function Derive(v: FeeConvention, a: Amounts): (r: Result<Amounts, Error>)
    ensures r.Ok? <==> ReadKeys <= a.Keys
    ensures r.Ok? ==> Balanced(v, r.value) && r.value.Keys == a.Keys + DerivedKeys
    ensures r.Ok? ==> forall k :: k in a && k !in DerivedKeys ==> r.value[k] == a[k]
  {
    var total :- Lookup(a, TotalKey);
    var fees :- Lookup(a, FeesKey);
    var a1 := a[NetTotalKey := if v == Additive then total - fees else total + fees];
    var gross :- Lookup(a1, GrossSalesKey);
    var refunds :- Lookup(a1, RefundsKey);
    var a2 := a1[NetSalesKey := gross - refunds];
    // `Total` was read successfully above, so the two later reads of it cannot fail
    var a3 := a2[TotalCollectedKey := a2[TotalKey]];
    Ok(a3[CardKey := a3[TotalKey]])
  }

  /** `sum_sales(payments)` */
  function SumSalesOf(v: FeeConvention, a: Amounts, ps: seq<Payment>): Result<Amounts, Error> {
    var b :- Tally(v, a, ps);
    Derive(v, b)
  }

  /** `convert_cents_to_usd()`: every value of the dictionary divided by 100. */
  function InUsd(a: Amounts): Amounts {
    map k | k in a :: a[k] / 100.0
  }

  /** The `while "cursor" in result.body` loop, after `last` was handled: request the next
      page while the latest body has a cursor (whether or not that response succeeded), and
      sum a page only when it succeeded and has payments. */
  function FollowCursor(v: FeeConvention, a: Amounts, last: Response, rest: seq<Response>): Result<Amounts, Error>
    decreases |rest|
  {
    if last.cursor.None? then Ok(a)
    else if rest == [] then Err(PagesExhausted)
    else
      var r := rest[0];
      if r.success && r.payments.Some? then
        var b :- SumSalesOf(v, a, r.payments.value);
        FollowCursor(v, b, r, rest[1..])
      else
        FollowCursor(v, a, r, rest[1..])
  }

  /** Whether a response's payments are summed. */
  predicate Usable(r: Response) {
    r.success && r.payments.Some?
  }

  /** The `sales_data` of one day, before its `Sales` field is set: zeros unless the first
      response succeeded with payments; otherwise the cursor loop, then one division by 100. */
  function DayAmounts(v: FeeConvention, headers: seq<string>, responses: seq<Response>): Result<Amounts, Error> {
    var zero := Zeros(headers);
    if responses == [] then Err(PagesExhausted)
    else
      var first := responses[0];
      if !Usable(first) then Ok(zero)
      else
        var a :- SumSalesOf(v, zero, first.payments.value);
        var b :- FollowCursor(v, a, first, responses[1..]);
        Ok(InUsd(b))
  }
}
