/**
 * The voucher service's decisions as pure functions over the repository's
 * contents: what `createVoucher` and `applyVoucher` answer and which store
 * they leave behind. The classes in VoucherRepository and VoucherService are
 * proved to behave exactly as these functions say.
 */
module VoucherRules {
  import opened VoucherTypes

  /** Orders must be strictly above this amount to receive a discount. */
  const MinimumAmount: real := 100.0

  /** `amount - amount * (discount / 100)`: the amount once `discount` percent is taken off. */
  function DiscountedAmount(amount: real, discount: real): (r: real)
    ensures r == amount * (100.0 - discount) / 100.0
    ensures discount == 0.0 ==> r == amount
    ensures discount == 100.0 ==> r == 0.0
  {
    amount - amount * (discount / 100.0)
  }

  /** The order `applyVoucher` returns for a stored voucher `v`. */
  function Quote(v: Voucher, amount: real): (o: Order)
    ensures o.amount == amount && o.discount == v.discount
    ensures o.applied <==> amount > MinimumAmount && !v.used
    ensures o.applied ==> o.finalAmount == amount * (100.0 - v.discount) / 100.0
    ensures !o.applied ==> o.finalAmount == amount
  {
    if amount > MinimumAmount && !v.used then Order(amount, v.discount, DiscountedAmount(amount, v.discount), true)
    else Order(amount, v.discount, amount, false)
  }

  /**
   * `createVoucher(code, discount)` of the service: look the code up; reject
   * with the "already exist" conflict if it is stored, otherwise store a new
   * unused voucher.
   */
  function Create(store: Store, code: string, discount: real): (s: Step<()>)
    ensures s.response.Err? <==> code in store
    ensures s.response.Err? ==> s.response.error == VoucherAlreadyExist && s.store == store
    ensures s.response.Ok? ==>
              && s.store.Keys == store.Keys + {code}
              && s.store[code] == Voucher(discount, false)
              && forall k :: k in store ==> s.store[k] == store[k]
  {
    if code in store then Step(Err(VoucherAlreadyExist), store)
    else Step(Ok(()), store[code := Voucher(discount, false)])
  }

  /**
   * `applyVoucher(code, amount)` of the service: look the code up; reject with
   * the "does not exist" conflict if it is absent, otherwise quote the order
   * and, when the discount was applied, mark the voucher used.
   */
  function Apply(store: Store, code: string, amount: real): (s: Step<Order>)
    ensures s.response.Err? <==> code !in store
    ensures s.response.Err? ==> s.response.error == VoucherDoesNotExist && s.store == store
    ensures s.response.Ok? ==>
              var v, o := store[code], s.response.value;
              && o.amount == amount
              && o.discount == v.discount
              && (o.applied <==> amount > MinimumAmount && !v.used)
              && (o.applied ==> o.finalAmount == amount * (100.0 - v.discount) / 100.0
                                && s.store == store[code := Voucher(v.discount, true)])
              && (!o.applied ==> o.finalAmount == amount && s.store == store)
  {
    if code !in store then Step(Err(VoucherDoesNotExist), store)
    else
      var order := Quote(store[code], amount);
      Step(Ok(order), if order.applied then store[code := store[code].(used := true)] else store)
  }

  /** With a percentage between 0 and 100, a discount never raises the price nor makes it negative. */
  lemma DiscountWithinAmount(amount: real, discount: real)
    requires amount >= 0.0 && 0.0 <= discount <= 100.0
    ensures 0.0 <= DiscountedAmount(amount, discount) <= amount
  {
  }

  /** An amount of 100 or less is never discounted and never consumes the voucher. */
  lemma NoDiscountUpToMinimum(store: Store, code: string, amount: real)
    requires code in store && amount <= MinimumAmount
    ensures Apply(store, code, amount).response == Ok(Order(amount, store[code].discount, amount, false))
    ensures Apply(store, code, amount).store == store
  {
  }

  /** Once a voucher has given its discount, applying it again gives none (single use). */
  lemma SingleUse(store: Store, code: string, first: real, second: real)
    requires Apply(store, code, first).response.Ok?
    requires Apply(store, code, first).response.value.applied
    ensures var after := Apply(store, code, first).store;
            && code in after && after[code].used
            && Apply(after, code, second).response.Ok?
            && !Apply(after, code, second).response.value.applied
            && Apply(after, code, second).response.value.finalAmount == second
            && Apply(after, code, second).store == after
  {
  }

  /** Creating a voucher whose code is stored fails and, by contrast, applying it succeeds. */
  lemma CreateRejectsExactlyWhatApplyAccepts(store: Store, code: string, discount: real, amount: real)
    ensures Create(store, code, discount).response.Err? <==> Apply(store, code, amount).response.Ok?
  {
  }

  /** A created voucher can be applied at once, and the first eligible application discounts it. */
  lemma CreateThenApply(store: Store, code: string, discount: real, amount: real)
    requires code !in store
    ensures var created := Create(store, code, discount).store;
            var applied := Apply(created, code, amount);
            && applied.response.Ok?
            && applied.response.value.discount == discount
            && (applied.response.value.applied <==> amount > MinimumAmount)
  {
  }
}
