/**
 * The service's unit-test cases as client code: each builds a repository in
 * the state the case sets up, calls the service once, and its postcondition
 * states the outcome the case expects.
 */
module VoucherScenarios {
  import opened VoucherTypes
  import opened VoucherRules
  import opened VoucherRepository
  import opened VoucherService

  const Code: string := "MOCKARTUDINHO"

  /** A repository holding voucher `Code` with a 70% discount, used or not. */
  method SeededRepository(used: bool) returns (repo: Repository)
    ensures fresh(repo)
    ensures repo.vouchers == map[Code := Voucher(70.0, used)]
  {
    repo := new Repository();
    repo.CreateVoucher(Code, 70.0);
    if used {
      repo.UseVoucher(Code);
    }
  }

  /** Creating an unknown code resolves, and the code is then stored unused. */
  method CreatesNewVoucher() returns (r: Result<()>, stored: Option<Voucher>)
    ensures r == Ok(())
    ensures stored == Some(Voucher(70.0, false))
  {
    var repo := new Repository();
    var service := new Service(repo);
    r := service.CreateVoucher(Code, 70.0);
    stored := repo.GetVoucherByCode(Code);
  }

  /** Creating a stored code rejects with the "already exist" conflict. */
  method RejectsDuplicateVoucher() returns (r: Result<()>)
    ensures r == Err(AppError("Voucher already exist.", "conflict"))
  {
    var repo := SeededRepository(false);
    var service := new Service(repo);
    r := service.CreateVoucher(Code, 70.0);
  }

  /** 70% off 1000 with an unused voucher is 300, and the voucher is then used. */
  method AppliesDiscount() returns (r: Result<Order>, stored: Option<Voucher>)
    ensures r == Ok(Order(1000.0, 70.0, 300.0, true))
    ensures stored == Some(Voucher(70.0, true))
  {
    var repo := SeededRepository(false);
    var service := new Service(repo);
    r := service.ApplyVoucher(Code, 1000.0);
    stored := repo.GetVoucherByCode(Code);
  }

  /** 99 is not discounted, and the voucher stays unused. */
  method NoDiscountBelowMinimum() returns (r: Result<Order>, stored: Option<Voucher>)
    ensures r == Ok(Order(99.0, 70.0, 99.0, false))
    ensures stored == Some(Voucher(70.0, false))
  {
    var repo := SeededRepository(false);
    var service := new Service(repo);
    r := service.ApplyVoucher(Code, 99.0);
    stored := repo.GetVoucherByCode(Code);
  }

  /** A used voucher gives no discount, even on 1000. */
  method NoDiscountForUsedVoucher() returns (r: Result<Order>)
    ensures r == Ok(Order(1000.0, 70.0, 1000.0, false))
  {
    var repo := SeededRepository(true);
    var service := new Service(repo);
    r := service.ApplyVoucher(Code, 1000.0);
  }

  /** Applying an unknown code rejects with the "does not exist" conflict. */
  method RejectsUnknownVoucher() returns (r: Result<Order>)
    ensures r == Err(AppError("Voucher does not exist.", "conflict"))
  {
    var repo := new Repository();
    var service := new Service(repo);
    r := service.ApplyVoucher(Code, 1000.0);
  }

  /** The same voucher applied twice to 1000: only the first application is discounted. */
  method SecondApplicationNotDiscounted() returns (first: Result<Order>, second: Result<Order>)
    ensures first == Ok(Order(1000.0, 70.0, 300.0, true))
    ensures second == Ok(Order(1000.0, 70.0, 1000.0, false))
  {
    var repo := SeededRepository(false);
    var service := new Service(repo);
    first := service.ApplyVoucher(Code, 1000.0);
    second := service.ApplyVoucher(Code, 1000.0);
  }
}
