/**
 * Values exchanged between the voucher service, its callers and the voucher
 * repository: stored vouchers, the order a discount application returns, and
 * the structured error payload both operations reject with.
 */
module VoucherTypes {

  /** What a lookup in the repository yields: the record, or the absent marker. */
  datatype Option<+T> = None | Some(value: T)

  /** A call that either resolves with a value or rejects with an error payload. */
  datatype Result<+T> = Ok(value: T) | Err(error: AppError)

  /** A stored voucher: its percentage discount and whether it has been redeemed. */
  datatype Voucher = Voucher(discount: real, used: bool)

  /** The repository's contents, keyed by voucher code. */
  type Store = map<string, Voucher>

  /** The outcome of applying a voucher to a purchase amount. */
  datatype Order = Order(amount: real, discount: real, finalAmount: real, applied: bool)

  /** The error object the service rejects with: `{ message, type }`. */
  datatype AppError = AppError(message: string, errorType: string)

  /** The only error type label the service uses. */
  const ConflictType: string := "conflict"

  /** Rejection of `createVoucher` for a code that is already stored. */
  const VoucherAlreadyExist: AppError := AppError("Voucher already exist.", ConflictType)

  /** Rejection of `applyVoucher` for a code that is not stored (labelled a conflict too). */
  const VoucherDoesNotExist: AppError := AppError("Voucher does not exist.", ConflictType)

  /** A service call together with the repository contents it leaves behind. */
  datatype Step<+T> = Step(response: Result<T>, store: Store)
}
