# Voucher service — a verified Dafny model

This project models a small promotional-voucher service. `createVoucher(code, discount)`
stores a new percentage-discount voucher unless the code is already taken.
`applyVoucher(code, amount)` looks a voucher up and quotes an order. The discount is
taken off, and the voucher consumed, only when the amount is above 100 and the voucher
has not been used yet. Both operations sit on a voucher repository offering
`getVoucherByCode`, `createVoucher` and `useVoucher`.

The service's own source (`src/services/voucherService`) and the repository's
(`src/repositories/voucherRepository`) are not part of this model. Their behaviour is
taken from the assertions of `tests/unit/index.test.ts`, which exercises the service
over a mocked repository. The two rejection cases there (lines 34 and 113) call
`expect(...).rejects.toEqual(...)` without awaiting or returning it, so the suite finishes
those tests before the assertions settle and does not in fact enforce the two exact error
payloads. The model follows what those assertions evidently intend: `Create`, `Apply`,
`RejectsDuplicateVoucher` and `RejectsUnknownVoucher` promise exactly those payloads.

Modules:

- `VoucherTypes` (voucher_types.dfy): vouchers, the store (`map<string, Voucher>`), the
  returned order, and the error payload `{message, type}` with its two exact values.
- `VoucherRules` (voucher_rules.dfy): the decisions as pure functions. `Quote` gives the eligibility
  test and the order, and `DiscountedAmount` gives the price formula. `Create` and
  `Apply` give each call's response together with the store it leaves. Lemmas relate
  the calls.
- `VoucherRepository` (voucher_repository.dfy): the repository as a class whose `vouchers`
  map its methods update in place.
- `VoucherService` (voucher_service.dfy): the service as a class holding its repository
  (constructor injection). Its two methods are proved to behave exactly as `Create` and
  `Apply` say.
- `VoucherHistory` (voucher_history.dfy): any sequence of calls on one store. It proves
  that a voucher only goes from unused to used, and that each code is redeemed at most once.
- `VoucherScenarios` (voucher_scenarios.dfy): each unit-test case as client code whose
  postcondition is the expected outcome, plus a second application of the same voucher.

Amounts and discounts are exact `real` numbers. Eligibility is `amount > 100`, strictly
greater. The tests pin 99 as not discounted and 1000 as discounted, but they do not pin the
boundary itself. The model chooses the strict comparison.

## Model

| member | source | states |
|---|---|---|
| `VoucherRules.DiscountedAmount` | tests/unit/index.test.ts:59 | `amount - amount * (discount / 100)` equals `amount * (100 - discount) / 100`; a 0% discount keeps the amount and a 100% discount makes it 0 |
| `VoucherRules.DiscountWithinAmount` | tests/unit/index.test.ts:59 | for a non-negative amount and a percentage in [0, 100], the discounted amount lies between 0 and the amount |
| `VoucherRules.Quote` | tests/unit/index.test.ts:55-101 | the order echoes the amount and the voucher's discount; it is applied iff amount > 100 and the voucher is unused; applied means the percentage is taken off, otherwise the final amount is the amount |
| `VoucherRules.Create` | tests/unit/index.test.ts:9-38 | rejects iff the code is stored, then with exactly `{"Voucher already exist.", "conflict"}` and no change; otherwise adds exactly that code as an unused voucher and leaves every stored voucher as it was |
| `VoucherRules.Apply` | tests/unit/index.test.ts:40-117 | rejects iff the code is absent, then with exactly `{"Voucher does not exist.", "conflict"}` and no change; otherwise echoes amount and discount, applies iff amount > 100 and unused, and then (only then) marks the voucher used |
| `VoucherRules.NoDiscountUpToMinimum` | tests/unit/index.test.ts:62-82 | every amount up to 100 gets `finalAmount == amount`, `applied == false` and leaves the store unchanged |
| `VoucherRules.SingleUse` | tests/unit/index.test.ts:84-102 | after an applied call the voucher is used, and a second application of the same code, whatever the amount, is not discounted and changes nothing |
| `VoucherRules.CreateRejectsExactlyWhatApplyAccepts` | tests/unit/index.test.ts:23-38 | creating a code conflicts exactly when applying that code finds a voucher |
| `VoucherRules.CreateThenApply` | tests/unit/index.test.ts:9-21 | a newly created voucher is found by the next application, carries its discount, and is discounted iff the amount is above 100 |
| `VoucherRepository.Repository.constructor` | tests/unit/index.test.ts:6 | the repository starts empty |
| `VoucherRepository.Repository.GetVoucherByCode` | tests/unit/index.test.ts:10-12 | returns the stored voucher iff the code is stored, and the absent marker otherwise |
| `VoucherRepository.Repository.CreateVoucher` | tests/unit/index.test.ts:13-15 | stores the code with its discount and `used == false`; every other code keeps its voucher |
| `VoucherRepository.Repository.UseVoucher` | tests/unit/index.test.ts:51-53 | the voucher under the code becomes used with its discount kept; no key is added or removed and every other voucher is unchanged |
| `VoucherService.Service.constructor` | tests/unit/index.test.ts:3-4 | the service works on the repository it is given |
| `VoucherService.Service.CreateVoucher` | tests/unit/index.test.ts:9-38 | response and new store are exactly those of `Create`: conflict and no change for a stored code, otherwise success and the new unused voucher |
| `VoucherService.Service.ApplyVoucher` | tests/unit/index.test.ts:40-117 | response and new store are exactly those of `Apply`: conflict for an absent code; otherwise the echoed order, discounted and consuming the voucher iff amount > 100 and unused |
| `VoucherHistory.Serve` | tests/unit/index.test.ts:9-117 | one call never removes a code, never changes a discount, never turns a used voucher unused, and a rejected call changes nothing and carries the "conflict" type |
| `VoucherHistory.Run` | tests/unit/index.test.ts:9-117 | over any sequence of calls: one reply per call, no code removed, discounts unchanged, used vouchers stay used |
| `VoucherHistory.AtMostOneRedemption` | tests/unit/index.test.ts:84-102 | over any sequence of calls a code is redeemed at most once, and never if it was already used at the start |
| `VoucherHistory.ReplyAt` | tests/unit/index.test.ts:9-117 | in a sequence of calls, the reply to each call is what that call answers on the store left by the calls before it |
| `VoucherHistory.RunAppendStore` | tests/unit/index.test.ts:9-117 | serving two sequences one after the other leaves the same store as serving their concatenation |
| `VoucherHistory.RedemptionsAreDiscounted` | tests/unit/index.test.ts:40-60 | every redemption in a sequence of calls is for an amount above 100 and a voucher that was stored and unused just before the call. Its order carries that voucher's discount, which is also the discount stored at the start if the code was stored then. It takes exactly that percentage off and leaves the voucher used with its discount kept |
| `VoucherScenarios.SeededRepository` | tests/unit/index.test.ts:41-50 | builds a repository holding exactly the 70% voucher `MOCKARTUDINHO`, used or unused as asked |
| `VoucherScenarios.CreatesNewVoucher` | tests/unit/index.test.ts:9-21 | creating an unknown code resolves, and the code is then stored unused with its discount |
| `VoucherScenarios.RejectsDuplicateVoucher` | tests/unit/index.test.ts:23-38 | creating a stored code rejects with `{"Voucher already exist.", "conflict"}` |
| `VoucherScenarios.AppliesDiscount` | tests/unit/index.test.ts:40-60 | 70% off 1000 with an unused voucher gives `{1000, 70, 300, applied}` and the voucher becomes used |
| `VoucherScenarios.NoDiscountBelowMinimum` | tests/unit/index.test.ts:62-82 | 99 gives `{99, 70, 99, not applied}` and the voucher stays unused |
| `VoucherScenarios.NoDiscountForUsedVoucher` | tests/unit/index.test.ts:84-102 | a used voucher on 1000 gives `{1000, 70, 1000, not applied}` |
| `VoucherScenarios.RejectsUnknownVoucher` | tests/unit/index.test.ts:104-117 | applying an unknown code rejects with `{"Voucher does not exist.", "conflict"}` |
| `VoucherScenarios.SecondApplicationNotDiscounted` | tests/unit/index.test.ts:40-102 | applying the same unused voucher twice to 1000 discounts the first call (300) and not the second (1000) |

## Left out

- Asynchrony: every repository call and service call is one sequential step; promises, `await` and rejection plumbing become a `Result` value.
- Test-double machinery (module mocking, spies, one-shot mock implementations) and the call-count assertions: the repository is a map held in a class. The order of calls (lookup first, then at most one write) is visible in the method bodies but not stated in any contract.
- Floating point: `amount * (discount / 100)` is computed exactly over the reals, so IEEE rounding is not modelled.
- Persistence and routing: the database behind the repository and any HTTP layer. Store-level failures, which the service passes on unchanged, are not modelled; repository calls always succeed.
- Concurrency: races between simultaneous calls for one code are not modelled. The lookup-then-write sequences are correct only for sequential callers, and that is all the model claims.
- Extra record fields such as `id`, and the voucher's own `code` field: the code is the store's key.
- Input validation: neither operation checks that the discount lies in [0, 100] or that the amount is positive. The model does not check either, and `DiscountWithinAmount` assumes both.
- `VoucherRepository.Repository.UseVoucher` on a code that is not stored leaves the store unchanged. The service never makes that call, and the real repository's behaviour there is not known.
- `VoucherRepository.Repository.CreateVoucher` on a code that is already stored replaces its voucher. The service never makes that call, since it looks the code up first.
- `VoucherRules.Quote`: `applied` follows eligibility alone (amount above 100 and voucher unused). So a 0% voucher on an eligible amount is reported as applied and is consumed, with nothing taken off. The unit tests pin neither this reading nor the alternative, where `applied` means an amount was actually subtracted.
- The boundary amount of exactly 100 is not pinned by the unit tests. The model treats it as not eligible (strictly greater than 100).
