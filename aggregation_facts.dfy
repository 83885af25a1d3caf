/** What the day's aggregation amounts to, stated independently of the loops that compute it:
    each accumulator is the sum, over the counted payments of every summed page, of its
    amount; the identities between fields hold; and the two fee conventions agree on
    `Net Total`. */
module AggregationFacts {
  import opened Wrappers
  import opened Errors
  import opened SalesAggregation

  function GrossOf(p: Payment): int { AmountOrZero(p.amountMoney) }
  function TipOf(p: Payment): int { AmountOrZero(p.tipMoney) }
  function RefundOf(p: Payment): int { AmountOrZero(p.refundedMoney) }
  function TotalOf(p: Payment): int { AmountOrZero(p.totalMoney) }

  /** The first fee entry's amount, or 0 without a fee list. */
  function FeeOf(p: Payment): int {
    match p.processingFee
    case None => 0
    case Some(fees) => if fees == [] then 0 else fees[0]
  }

  /** The sum of `f` over the counted payments of `ps`. */
  function CountedSum(ps: seq<Payment>, f: Payment -> int): int {
    if ps == [] then 0
    else CountedSum(ps[..|ps| - 1], f) + (if Counted(ps[|ps| - 1]) then f(ps[|ps| - 1]) else 0)
  }

  /** Some counted payment carries a present but empty `processing_fee` list. */
  predicate HasEmptyFeeList(ps: seq<Payment>) {
    exists i :: 0 <= i < |ps| && Counted(ps[i]) && ps[i].processingFee == Some([])
  }

  /** The dictionary `a` after the counted payments of `ps` have been added in: each of the
      five accumulated keys grows by its sum, `Fees` under the file's sign convention. */
  function Accumulated(v: FeeConvention, a: Amounts, ps: seq<Payment>): Amounts
    requires AccumulatedKeys <= a.Keys
  {
    a[GrossSalesKey := a[GrossSalesKey] + CountedSum(ps, GrossOf) as real]
     [TipKey := a[TipKey] + CountedSum(ps, TipOf) as real]
     [RefundsKey := a[RefundsKey] + CountedSum(ps, RefundOf) as real]
     [TotalKey := a[TotalKey] + CountedSum(ps, TotalOf) as real]
     [FeesKey := a[FeesKey] + Signed(v, CountedSum(ps, FeeOf)) as real]
  }

  /** The nine keys `sum_sales` touches are different strings. */
  lemma KeysDistinct()
    ensures GrossSalesKey != TipKey && GrossSalesKey != RefundsKey && GrossSalesKey != TotalKey && GrossSalesKey != FeesKey && GrossSalesKey != NetTotalKey && GrossSalesKey != NetSalesKey && GrossSalesKey != TotalCollectedKey && GrossSalesKey != CardKey
    ensures TipKey != RefundsKey && TipKey != TotalKey && TipKey != FeesKey && TipKey != NetTotalKey && TipKey != NetSalesKey && TipKey != TotalCollectedKey && TipKey != CardKey
    ensures RefundsKey != TotalKey && RefundsKey != FeesKey && RefundsKey != NetTotalKey && RefundsKey != NetSalesKey && RefundsKey != TotalCollectedKey && RefundsKey != CardKey
    ensures TotalKey != FeesKey && TotalKey != NetTotalKey && TotalKey != NetSalesKey && TotalKey != TotalCollectedKey && TotalKey != CardKey
    ensures FeesKey != NetTotalKey && FeesKey != NetSalesKey && FeesKey != TotalCollectedKey && FeesKey != CardKey
    ensures NetTotalKey != NetSalesKey && NetTotalKey != TotalCollectedKey && NetTotalKey != CardKey
    ensures NetSalesKey != TotalCollectedKey && NetSalesKey != CardKey
    ensures TotalCollectedKey != CardKey
    ensures AccumulatedKeys !! DerivedKeys
  {
  }

  /** Adding one counted payment with a usable fee list extends the sums by its amounts. */
  lemma AddPaymentStep(v: FeeConvention, a: Amounts, init: seq<Payment>, p: Payment)
    requires AccumulatedKeys <= a.Keys && Counted(p) && p.processingFee != Some([])
    ensures AddPayment(v, Accumulated(v, a, init), p) == Ok(Accumulated(v, a, init + [p]))
  {
    var ps := init + [p];
    assert ps[..|ps| - 1] == init;
    var b := Accumulated(v, a, init);
    var c := Accumulated(v, a, ps);
    AccumulatedValues(v, a, init);
    AccumulatedValues(v, a, ps);
    AddPaymentValues(v, b, p);
    var b5 := AddPayment(v, b, p).value;
    forall k | k in c ensures k in b5 && b5[k] == c[k] {
      if k !in AccumulatedKeys {
        assert b5[k] == b[k] == a[k];
      }
    }
    assert b5 == c;
  }

  /** A counted payment with a usable fee list adds its five amounts and changes nothing else. */
  lemma AddPaymentValues(v: FeeConvention, b: Amounts, p: Payment)
    requires AccumulatedKeys <= b.Keys && Counted(p) && p.processingFee != Some([])
    ensures AddPayment(v, b, p).Ok?
    ensures var r := AddPayment(v, b, p).value;
      && r.Keys == b.Keys
      && r[GrossSalesKey] == b[GrossSalesKey] + GrossOf(p) as real
      && r[TipKey] == b[TipKey] + TipOf(p) as real
      && r[RefundsKey] == b[RefundsKey] + RefundOf(p) as real
      && r[TotalKey] == b[TotalKey] + TotalOf(p) as real
      && r[FeesKey] == b[FeesKey] + Signed(v, FeeOf(p)) as real
      && forall k :: k in b && k !in AccumulatedKeys ==> r[k] == b[k]
  {
    KeysDistinct();
    assert FirstFee(p) == Ok(FeeOf(p));
  }

  lemma {:induction false} CountedSumAppend(xs: seq<Payment>, ys: seq<Payment>, f: Payment -> int)
    ensures CountedSum(xs + ys, f) == CountedSum(xs, f) + CountedSum(ys, f)
    decreases |ys|
  {
    if ys == [] {
      assert xs + ys == xs;
    } else {
      assert (xs + ys)[..|xs + ys| - 1] == xs + ys[..|ys| - 1];
      CountedSumAppend(xs, ys[..|ys| - 1], f);
    }
  }

  lemma HasEmptyFeeListAppend(xs: seq<Payment>, ys: seq<Payment>)
    ensures HasEmptyFeeList(xs + ys) <==> HasEmptyFeeList(xs) || HasEmptyFeeList(ys)
  {
    if HasEmptyFeeList(xs + ys) {
      var i :| 0 <= i < |xs + ys| && Counted((xs + ys)[i]) && (xs + ys)[i].processingFee == Some([]);
      if i >= |xs| {
        assert (xs + ys)[i] == ys[i - |xs|];
      }
    }
    if HasEmptyFeeList(ys) {
      var i :| 0 <= i < |ys| && Counted(ys[i]) && ys[i].processingFee == Some([]);
      assert (xs + ys)[|xs| + i] == ys[i];
    }
    if HasEmptyFeeList(xs) {
      var i :| 0 <= i < |xs| && Counted(xs[i]) && xs[i].processingFee == Some([]);
      assert (xs + ys)[i] == xs[i];
    }
  }

  /** The loop of `sum_sales`: provided the header list has the five accumulated keys, it fails
      exactly when a counted payment has an empty fee list, and otherwise adds up each amount
      over the counted payments, leaving every other key as it was. */
  lemma {:induction false} TallyClosedForm(v: FeeConvention, a: Amounts, ps: seq<Payment>)
    requires AccumulatedKeys <= a.Keys
    ensures Tally(v, a, ps) == if HasEmptyFeeList(ps) then Err(EmptyFeeList) else Ok(Accumulated(v, a, ps))
    decreases |ps|
  {
    if ps == [] {
      assert Accumulated(v, a, ps) == a;
    } else {
      var init, p := ps[..|ps| - 1], ps[|ps| - 1];
      assert ps == init + [p];
      TallyClosedForm(v, a, init);
      TallyClosedFormStep(v, a, init, p);
    }
  }

  /** One more payment keeps the closed form of the loop of `sum_sales`. */
  lemma TallyClosedFormStep(v: FeeConvention, a: Amounts, init: seq<Payment>, p: Payment)
    requires AccumulatedKeys <= a.Keys
    requires Tally(v, a, init) == if HasEmptyFeeList(init) then Err(EmptyFeeList) else Ok(Accumulated(v, a, init))
    ensures Tally(v, a, init + [p]) == if HasEmptyFeeList(init + [p]) then Err(EmptyFeeList) else Ok(Accumulated(v, a, init + [p]))
  {
    var ps := init + [p];
    assert ps[..|ps| - 1] == init && ps[|ps| - 1] == p;
    HasEmptyFeeListAppend(init, [p]);
    if !HasEmptyFeeList(init) {
      var b := Accumulated(v, a, init);
      if !Counted(p) {
        assert Accumulated(v, a, ps) == b;
      } else if p.processingFee != Some([]) {
        assert !HasEmptyFeeList([p]) by {
          assert forall i :: 0 <= i < |[p]| ==> [p][i] == p;
        }
        AddPaymentStep(v, a, init, p);
      } else {
        assert HasEmptyFeeList([p]) by {
          assert [p][0] == p;
        }
      }
    }
  }

  /** A payment whose status is neither COMPLETED nor APPROVED changes nothing, wherever it
      stands in the page. */
  lemma {:induction false} UncountedPaymentIgnored(v: FeeConvention, a: Amounts, xs: seq<Payment>, p: Payment, ys: seq<Payment>)
    requires !Counted(p)
    ensures Tally(v, a, xs + [p] + ys) == Tally(v, a, xs + ys)
    decreases |ys|
  {
    if ys == [] {
      assert xs + [p] + ys == xs + [p];
      assert (xs + [p])[..|xs + [p]| - 1] == xs;
      assert xs + ys == xs;
    } else {
      var ys' := ys[..|ys| - 1];
      assert (xs + [p] + ys)[..|xs + [p] + ys| - 1] == xs + [p] + ys';
      assert (xs + ys)[..|xs + ys| - 1] == xs + ys';
      assert (xs + [p] + ys)[|xs + [p] + ys| - 1] == ys[|ys| - 1] == (xs + ys)[|xs + ys| - 1];
      UncountedPaymentIgnored(v, a, xs, p, ys');
    }
  }

  /** `sum_sales` as a whole: the accumulated totals, then the four derived fields. */
  lemma SumSalesClosedForm(v: FeeConvention, a: Amounts, ps: seq<Payment>)
    requires AccumulatedKeys <= a.Keys
    ensures SumSalesOf(v, a, ps) == if HasEmptyFeeList(ps) then Err(EmptyFeeList) else Ok(Derive(v, Accumulated(v, a, ps)).value)
  {
    TallyClosedForm(v, a, ps);
  }

  /** The values of `Accumulated`, key by key. */
  lemma AccumulatedValues(v: FeeConvention, a: Amounts, ps: seq<Payment>)
    requires AccumulatedKeys <= a.Keys
    ensures Accumulated(v, a, ps).Keys == a.Keys
    ensures Accumulated(v, a, ps)[GrossSalesKey] == a[GrossSalesKey] + CountedSum(ps, GrossOf) as real
    ensures Accumulated(v, a, ps)[TipKey] == a[TipKey] + CountedSum(ps, TipOf) as real
    ensures Accumulated(v, a, ps)[RefundsKey] == a[RefundsKey] + CountedSum(ps, RefundOf) as real
    ensures Accumulated(v, a, ps)[TotalKey] == a[TotalKey] + CountedSum(ps, TotalOf) as real
    ensures Accumulated(v, a, ps)[FeesKey] == a[FeesKey] + Signed(v, CountedSum(ps, FeeOf)) as real
    ensures forall k :: k in a && k !in AccumulatedKeys ==> Accumulated(v, a, ps)[k] == a[k]
  {
    KeysDistinct();
  }

  /** `Derive` looks only at the keys it does not assign: two dictionaries that agree
      everywhere else give the same result. */
  lemma DeriveIgnoresDerivedKeys(v: FeeConvention, a: Amounts, b: Amounts)
    requires ReadKeys <= a.Keys && a.Keys + DerivedKeys == b.Keys + DerivedKeys
    requires forall k :: k in a && k !in DerivedKeys ==> a[k] == b[k]
    ensures Derive(v, a) == Derive(v, b)
  {
    KeysDistinct();
    var ra, rb := Derive(v, a).value, Derive(v, b).value;
    forall k | k in ReadKeys ensures ra[k] == rb[k] {
      assert ra[k] == a[k] && rb[k] == b[k];
    }
    forall k | k in ra ensures ra[k] == rb[k] {
      if k !in DerivedKeys {
        assert ra[k] == a[k] && rb[k] == b[k];
      }
    }
    assert ra == rb;
  }

  /** Summing `ys` into a dictionary whose derived fields were already assigned differs from
      summing into the original only in those fields. */
  lemma AccumulateAfterDerive(v: FeeConvention, b: Amounts, ys: seq<Payment>)
    requires AccumulatedKeys <= b.Keys
    ensures AccumulatedKeys <= Derive(v, b).value.Keys
    ensures Derive(v, Accumulated(v, Derive(v, b).value, ys)) == Derive(v, Accumulated(v, b, ys))
  {
    KeysDistinct();
    var m := Derive(v, b).value;
    var am, ab := Accumulated(v, m, ys), Accumulated(v, b, ys);
    AccumulatedValues(v, m, ys);
    AccumulatedValues(v, b, ys);
    forall k | k in am && k !in DerivedKeys ensures am[k] == ab[k] {
      if k !in AccumulatedKeys {
        assert am[k] == m[k] == b[k] == ab[k];
      }
    }
    DeriveIgnoresDerivedKeys(v, am, ab);
  }

  /** Summing two runs of payments one after the other is summing their concatenation. */
  lemma AccumulatedAppend(v: FeeConvention, base: Amounts, xs: seq<Payment>, ys: seq<Payment>)
    requires AccumulatedKeys <= base.Keys
    ensures AccumulatedKeys <= Accumulated(v, base, xs).Keys
    ensures Accumulated(v, Accumulated(v, base, xs), ys) == Accumulated(v, base, xs + ys)
  {
    KeysDistinct();
    CountedSumAppend(xs, ys, GrossOf);
    CountedSumAppend(xs, ys, TipOf);
    CountedSumAppend(xs, ys, RefundOf);
    CountedSumAppend(xs, ys, TotalOf);
    CountedSumAppend(xs, ys, FeeOf);
    var ax := Accumulated(v, base, xs);
    AccumulatedValues(v, base, xs);
    var l, r := Accumulated(v, ax, ys), Accumulated(v, base, xs + ys);
    AccumulatedValues(v, ax, ys);
    AccumulatedValues(v, base, xs + ys);
    forall k | k in l ensures l[k] == r[k] {
      if k !in AccumulatedKeys {
        assert l[k] == ax[k] == base[k] == r[k];
      }
    }
    assert l == r;
  }

  /** Summing two pages one after the other equals summing their concatenation: the derived
      fields that the first call assigned are overwritten by the second. */
  lemma AccumulateTwice(v: FeeConvention, base: Amounts, xs: seq<Payment>, ys: seq<Payment>)
    requires AccumulatedKeys <= base.Keys
    ensures AccumulatedKeys <= Derive(v, Accumulated(v, base, xs)).value.Keys
    ensures Derive(v, Accumulated(v, Derive(v, Accumulated(v, base, xs)).value, ys)).value
         == Derive(v, Accumulated(v, base, xs + ys)).value
  {
    AccumulatedAppend(v, base, xs, ys);
    AccumulateAfterDerive(v, Accumulated(v, base, xs), ys);
  }

  lemma ConcatAssoc(xs: seq<Payment>, ys: seq<Payment>, zs: seq<Payment>)
    ensures xs + (ys + zs) == xs + ys + zs
  {
  }

  /** How many further responses the cursor loop reads after `last`; `None` when it would need
      more than `rest` holds. */
  function Consumed(last: Response, rest: seq<Response>): (k: Option<nat>)
    ensures k.Some? ==> k.value <= |rest|
    decreases |rest|
  {
    if last.cursor.None? then Some(0)
    else if rest == [] then None
    else
      match Consumed(rest[0], rest[1..])
      case None => None
      case Some(k) => Some(k + 1)
  }

  /** The payments of a response that is summed; a failed response or one without payments
      contributes none. */
  function PagePayments(r: Response): seq<Payment> {
    if Usable(r) then r.payments.value else []
  }

  /** All payments summed from a run of responses, in order. */
  function SummedPages(rs: seq<Response>): seq<Payment> {
    if rs == [] then [] else PagePayments(rs[0]) + SummedPages(rs[1..])
  }

  /** The payments of the pages the cursor loop reads after `last`: up to the first response
      without a cursor, or all of `rest` when every one of them has a cursor. */
  function ReadPayments(last: Response, rest: seq<Response>): seq<Payment> {
    match Consumed(last, rest)
    case None => SummedPages(rest)
    case Some(k) => SummedPages(rest[..k])
  }

  /** What the cursor loop computes from the dictionary that sums the `done` payments: an
      empty fee list on any page it reads fails; otherwise running out of responses fails;
      otherwise the result sums every page it read. */
  predicate CursorOutcome(v: FeeConvention, base: Amounts, done: seq<Payment>, last: Response, rest: seq<Response>)
    requires AccumulatedKeys <= base.Keys
  {
    var a := Derive(v, Accumulated(v, base, done)).value;
    var all := done + ReadPayments(last, rest);
    FollowCursor(v, a, last, rest)
      == if HasEmptyFeeList(all) then Err(EmptyFeeList)
         else if Consumed(last, rest).None? then Err(PagesExhausted)
         else Ok(Derive(v, Accumulated(v, base, all)).value)
  }

  /** The cursor loop sums exactly the usable pages among the responses it reads, and fails
      when the responses run out while a cursor is still present. */
  lemma {:induction false} FollowCursorClosedForm(v: FeeConvention, base: Amounts, done: seq<Payment>, last: Response, rest: seq<Response>)
    requires AccumulatedKeys <= base.Keys && !HasEmptyFeeList(done)
    ensures CursorOutcome(v, base, done, last, rest)
    decreases |rest|, 1
  {
    if last.cursor.None? {
      assert rest[..0] == [];
      assert done + [] == done;
    } else if rest == [] {
      assert done + [] == done;
    } else {
      CursorStep(v, base, done, last, rest);
    }
  }

  /** Reading one more response either fails on an empty fee list or continues from the
      dictionary that sums its page into `done`. */
  lemma FirstPageSummed(v: FeeConvention, base: Amounts, done: seq<Payment>, last: Response, rest: seq<Response>)
    requires AccumulatedKeys <= base.Keys && last.cursor.Some? && rest != []
    ensures var a := Derive(v, Accumulated(v, base, done)).value;
      var ps := PagePayments(rest[0]);
      FollowCursor(v, a, last, rest)
        == if HasEmptyFeeList(ps) then Err(EmptyFeeList)
           else FollowCursor(v, Derive(v, Accumulated(v, base, done + ps)).value, rest[0], rest[1..])
  {
    var a := Derive(v, Accumulated(v, base, done)).value;
    var ps := PagePayments(rest[0]);
    AccumulateTwice(v, base, done, ps);
    if Usable(rest[0]) {
      SumSalesClosedForm(v, a, ps);
    } else {
      assert done + ps == done;
    }
  }

  /** The pages read after `last` are the first response's page, then those read after it. */
  lemma ReadPaymentsStep(last: Response, rest: seq<Response>)
    requires last.cursor.Some? && rest != []
    ensures ReadPayments(last, rest) == PagePayments(rest[0]) + ReadPayments(rest[0], rest[1..])
    ensures Consumed(last, rest).None? <==> Consumed(rest[0], rest[1..]).None?
  {
    match Consumed(rest[0], rest[1..])
    case None =>
    case Some(k) =>
      assert rest[..k + 1][1..] == rest[1..][..k];
  }

  /** One round of the cursor loop: the next response is summed into `done`, and the rest of
      the loop follows from the shorter response list. */
  lemma {:induction false} CursorStep(v: FeeConvention, base: Amounts, done: seq<Payment>, last: Response, rest: seq<Response>)
    requires AccumulatedKeys <= base.Keys && !HasEmptyFeeList(done)
    requires last.cursor.Some? && rest != []
    ensures CursorOutcome(v, base, done, last, rest)
    decreases |rest|, 0
  {
    var r := rest[0];
    var ps := PagePayments(r);
    var done' := done + ps;
    FirstPageSummed(v, base, done, last, rest);
    assert HasEmptyFeeList(done') <==> HasEmptyFeeList(ps) by {
      HasEmptyFeeListAppend(done, ps);
    }
    if !HasEmptyFeeList(ps) {
      FollowCursorClosedForm(v, base, done', r, rest[1..]);
    }
    var tail := ReadPayments(r, rest[1..]);
    ReadPaymentsStep(last, rest);
    ConcatAssoc(done, ps, tail);
    HasEmptyFeeListAppend(done', tail);
  }

  /** The payments of every page one day reads: the first page, then the pages the cursor
      loop reads after it. */
  function DayPayments(responses: seq<Response>): seq<Payment>
    requires responses != [] && Usable(responses[0])
  {
    responses[0].payments.value + ReadPayments(responses[0], responses[1..])
  }

  /** Whether the cursor loop of a day would read past the responses it is given. */
  predicate DayExhausted(responses: seq<Response>)
    requires responses != []
  {
    Consumed(responses[0], responses[1..]).None?
  }

  /** The day's dictionary, given the header list has the five accumulated keys: no
      responses at all is an error; an unusable first response leaves every header at zero;
      otherwise an empty fee list on any page read fails, running out of responses fails,
      and else the result is the sum over all pages read, in dollars. */
  lemma DayAmountsClosedForm(v: FeeConvention, headers: seq<string>, responses: seq<Response>)
    requires forall k :: k in AccumulatedKeys ==> k in headers
    ensures responses == [] ==> DayAmounts(v, headers, responses) == Err(PagesExhausted)
    ensures responses != [] && !Usable(responses[0]) ==> DayAmounts(v, headers, responses) == Ok(Zeros(headers))
    ensures responses != [] && Usable(responses[0]) ==>
      var all := DayPayments(responses);
      DayAmounts(v, headers, responses)
        == if HasEmptyFeeList(all) then Err(EmptyFeeList)
           else if DayExhausted(responses) then Err(PagesExhausted)
           else Ok(InUsd(Derive(v, Accumulated(v, Zeros(headers), all)).value))
  {
    if responses != [] && Usable(responses[0]) {
      var zero := Zeros(headers);
      var first := responses[0].payments.value;
      SumSalesClosedForm(v, zero, first);
      HasEmptyFeeListAppend(first, ReadPayments(responses[0], responses[1..]));
      if !HasEmptyFeeList(first) {
        FollowCursorClosedForm(v, zero, first, responses[0], responses[1..]);
      }
    }
  }

  /** The summed dictionary of a day, key by key: each accumulated column is its sum over the
      counted payments in dollars, `Net Total` is the total less the fees under either
      convention, the derived columns follow the identities, and every other header stays
      at zero. */
  lemma DayRecordValues(v: FeeConvention, headers: seq<string>, all: seq<Payment>)
    requires forall k :: k in AccumulatedKeys ==> k in headers
    ensures AccumulatedKeys <= Zeros(headers).Keys
    ensures var d := InUsd(Derive(v, Accumulated(v, Zeros(headers), all)).value);
      && d.Keys == (set h | h in headers) + DerivedKeys
      && d[GrossSalesKey] == CountedSum(all, GrossOf) as real / 100.0
      && d[TipKey] == CountedSum(all, TipOf) as real / 100.0
      && d[RefundsKey] == CountedSum(all, RefundOf) as real / 100.0
      && d[TotalKey] == CountedSum(all, TotalOf) as real / 100.0
      && d[FeesKey] == Signed(v, CountedSum(all, FeeOf)) as real / 100.0
      && d[NetTotalKey] == (CountedSum(all, TotalOf) - CountedSum(all, FeeOf)) as real / 100.0
      && d[NetSalesKey] == (CountedSum(all, GrossOf) - CountedSum(all, RefundOf)) as real / 100.0
      && d[TotalCollectedKey] == d[TotalKey] && d[CardKey] == d[TotalKey]
      && forall k :: k in headers && k !in AccumulatedKeys && k !in DerivedKeys ==> d[k] == 0.0
  {
    KeysDistinct();
    var zero := Zeros(headers);
    var acc := Accumulated(v, zero, all);
    AccumulatedValues(v, zero, all);
    var m := Derive(v, acc).value;
    assert Balanced(v, m);
    assert m[TotalKey] == acc[TotalKey] && m[FeesKey] == acc[FeesKey];
    assert m[GrossSalesKey] == acc[GrossSalesKey] && m[RefundsKey] == acc[RefundsKey];
    assert m[TipKey] == acc[TipKey];
  }

  /** Two dictionaries with the same keys that differ only in the sign of `Fees`. */
  predicate AgreeUpToFees(p: Amounts, q: Amounts) {
    && p.Keys == q.Keys && FeesKey in p
    && p[FeesKey] == -q[FeesKey]
    && forall k :: k in p && k != FeesKey ==> p[k] == q[k]
  }

  /** Dividing by 100 keeps two dictionaries that differ only in the sign of `Fees` so. */
  lemma InUsdAgree(p: Amounts, q: Amounts)
    requires AgreeUpToFees(p, q)
    ensures AgreeUpToFees(InUsd(p), InUsd(q))
  {
    var p', q' := InUsd(p), InUsd(q);
    assert p'[FeesKey] == p[FeesKey] / 100.0;
    forall k | k in p' && k != FeesKey ensures p'[k] == q'[k] {
      assert p'[k] == p[k] / 100.0 && q'[k] == q[k] / 100.0;
    }
  }

  /** The summed day under the two fee conventions, before the division, starting from no
      fees. */
  lemma SumConventionsAgree(base: Amounts, all: seq<Payment>)
    requires AccumulatedKeys <= base.Keys && base[FeesKey] == 0.0
    ensures AgreeUpToFees(Derive(Additive, Accumulated(Additive, base, all)).value,
                          Derive(Subtractive, Accumulated(Subtractive, base, all)).value)
  {
    KeysDistinct();
    var x, y := Accumulated(Additive, base, all), Accumulated(Subtractive, base, all);
    AccumulatedValues(Additive, base, all);
    AccumulatedValues(Subtractive, base, all);
    forall k | k in x && k != FeesKey ensures x[k] == y[k] {
      if k !in AccumulatedKeys {
        assert x[k] == base[k] == y[k];
      }
    }
    var p, q := Derive(Additive, x).value, Derive(Subtractive, y).value;
    assert Balanced(Additive, p) && Balanced(Subtractive, q);
    assert p[TotalKey] == x[TotalKey] && q[TotalKey] == y[TotalKey];
    assert p[FeesKey] == x[FeesKey] && q[FeesKey] == y[FeesKey];
    assert p[GrossSalesKey] == x[GrossSalesKey] && q[GrossSalesKey] == y[GrossSalesKey];
    assert p[RefundsKey] == x[RefundsKey] && q[RefundsKey] == y[RefundsKey];
    forall k | k in p && k != FeesKey ensures p[k] == q[k] {
      if k !in DerivedKeys {
        assert p[k] == x[k] && q[k] == y[k];
      }
    }
  }

  /** Keeping fees positive (`sales_util.py`) or negative (`sales_data_util.py`) makes no
      difference to whether a day succeeds, to its error, or to any column but `Fees`, which
      the two conventions hold with opposite signs. */
  lemma FeeConventionsAgree(headers: seq<string>, responses: seq<Response>)
    requires forall k :: k in AccumulatedKeys ==> k in headers
    ensures var p, q := DayAmounts(Additive, headers, responses), DayAmounts(Subtractive, headers, responses);
      && (p.Ok? <==> q.Ok?)
      && (p.Err? ==> p.error == q.error)
      && (p.Ok? ==> AgreeUpToFees(p.value, q.value))
  {
    DayAmountsClosedForm(Additive, headers, responses);
    DayAmountsClosedForm(Subtractive, headers, responses);
    if responses != [] && Usable(responses[0]) {
      var all := DayPayments(responses);
      if !HasEmptyFeeList(all) && !DayExhausted(responses) {
        SumConventionsAgree(Zeros(headers), all);
        InUsdAgree(Derive(Additive, Accumulated(Additive, Zeros(headers), all)).value,
                   Derive(Subtractive, Accumulated(Subtractive, Zeros(headers), all)).value);
      }
    } else if responses != [] {
      assert AgreeUpToFees(Zeros(headers), Zeros(headers));
    }
  }

  /** `convert_cents_to_usd` divides every field by the same amount, so the identities
      `sum_sales` establishes still hold afterwards, and only the keys already present are
      divided. */
  lemma BalancedInUsd(v: FeeConvention, a: Amounts)
    requires Balanced(v, a)
    ensures InUsd(a).Keys == a.Keys
    ensures Balanced(v, InUsd(a))
  {
    var d := InUsd(a);
    assert d[NetTotalKey] == a[NetTotalKey] / 100.0 && d[TotalKey] == a[TotalKey] / 100.0;
    assert d[FeesKey] == a[FeesKey] / 100.0;
    assert d[NetSalesKey] == a[NetSalesKey] / 100.0;
    assert d[GrossSalesKey] == a[GrossSalesKey] / 100.0 && d[RefundsKey] == a[RefundsKey] / 100.0;
    assert d[TotalCollectedKey] == a[TotalCollectedKey] / 100.0 && d[CardKey] == a[CardKey] / 100.0;
  }

  /** Once a payment of the page raises, the rest of the page is never summed: the fold of the
      whole page fails with the same error as the fold of the prefix that raised. */
  lemma {:induction false} TallyStopsAtError(v: FeeConvention, a: Amounts, ps: seq<Payment>, j: nat)
    requires j <= |ps| && Tally(v, a, ps[..j]).Err?
    ensures Tally(v, a, ps) == Tally(v, a, ps[..j])
    decreases |ps| - j
  {
    if j < |ps| {
      var init := ps[..|ps| - 1];
      assert init[..j] == ps[..j];
      TallyStopsAtError(v, a, init, j);
    } else {
      assert ps[..j] == ps;
    }
  }
}
