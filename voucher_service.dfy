/**
 * The voucher service: `createVoucher` and `applyVoucher`, each a lookup in
 * the repository followed by a decision and, when the decision calls for it,
 * one write to the repository. The repository is given at construction.
 */
module VoucherService {
  import opened VoucherTypes
  import opened VoucherRules
  import opened VoucherRepository

  class Service {
    /** The store every call reads and writes. */
    const repository: Repository

    constructor (repository: Repository)
      ensures this.repository == repository
    {
      this.repository := repository;
    }

    /**
     * `createVoucher(code, discount)`: rejects with the "already exist"
     * conflict when the code is stored, leaving the store as it was;
     * otherwise stores a new unused voucher and resolves.
     */
    method CreateVoucher(code: string, discount: real) returns (r: Result<()>)
      modifies repository
      ensures Step(r, repository.vouchers) == Create(old(repository.vouchers), code, discount)
      ensures r == (if code in old(repository.vouchers) then Err(VoucherAlreadyExist) else Ok(()))
      ensures r.Ok? ==> repository.vouchers == old(repository.vouchers)[code := Voucher(discount, false)]
      ensures r.Err? ==> repository.vouchers == old(repository.vouchers)
    {
      var existing := repository.GetVoucherByCode(code);
      if existing.Some? {
        return Err(VoucherAlreadyExist);
      }
      repository.CreateVoucher(code, discount);
      r := Ok(());
    }

    /**
     * `applyVoucher(code, amount)`: rejects with the "does not exist"
     * conflict when the code is absent. Otherwise returns the order, which
     * always echoes `amount` and the voucher's discount; the discount is
     * taken off, and the voucher marked used, exactly when the amount is
     * above the minimum and the voucher is unused.
     */
    method ApplyVoucher(code: string, amount: real) returns (r: Result<Order>)
      modifies repository
      ensures Step(r, repository.vouchers) == Apply(old(repository.vouchers), code, amount)
      ensures r.Err? <==> code !in old(repository.vouchers)
      ensures r.Err? ==> r.error == VoucherDoesNotExist && repository.vouchers == old(repository.vouchers)
      ensures r.Ok? ==>
                var v := old(repository.vouchers)[code];
                && r.value.amount == amount
                && r.value.discount == v.discount
                && (r.value.applied <==> amount > MinimumAmount && !v.used)
                && (r.value.applied ==> repository.vouchers == old(repository.vouchers)[code := Voucher(v.discount, true)])
                && (!r.value.applied ==> r.value.finalAmount == amount && repository.vouchers == old(repository.vouchers))
    {
      var found := repository.GetVoucherByCode(code);
      if found.None? {
        return Err(VoucherDoesNotExist);
      }
      var voucher := found.value;
      var order := Quote(voucher, amount);
      if order.applied {
        repository.UseVoucher(code);
      }
      r := Ok(order);
    }
  }
}
