/**
 * The voucher repository the service depends on: a store of vouchers keyed
 * by code, offering a lookup, an insertion and the "mark used" update.
 */
module VoucherRepository {
  import opened VoucherTypes

  class Repository {
    /** Every stored voucher, by code. */
    var vouchers: Store

    /** An empty repository. */
    constructor ()
      ensures vouchers == map[]
    {
      vouchers := map[];
    }

    /** `getVoucherByCode`: the voucher stored under `code`, or the absent marker. */
    method GetVoucherByCode(code: string) returns (found: Option<Voucher>)
      ensures found.Some? <==> code in vouchers
      ensures found.Some? ==> found.value == vouchers[code]
    {
      if code in vouchers {
        found := Some(vouchers[code]);
      } else {
        found := None;
      }
    }

    /** `createVoucher`: stores an unused voucher under `code`. */
    method CreateVoucher(code: string, discount: real)
      modifies this
      ensures vouchers.Keys == old(vouchers).Keys + {code}
      ensures vouchers[code] == Voucher(discount, false)
      ensures forall k :: k in old(vouchers) && k != code ==> vouchers[k] == old(vouchers)[k]
    {
      vouchers := vouchers[code := Voucher(discount, false)];
    }

    /** `useVoucher`: the voucher stored under `code` becomes used; its discount is kept. */
    method UseVoucher(code: string)
      modifies this
      ensures vouchers.Keys == old(vouchers).Keys
      ensures code in vouchers ==> vouchers[code] == Voucher(old(vouchers)[code].discount, true)
      ensures forall k :: k in old(vouchers) && k != code ==> vouchers[k] == old(vouchers)[k]
    {
      if code in vouchers {
        vouchers := vouchers[code := vouchers[code].(used := true)];
      }
    }
  }
}
