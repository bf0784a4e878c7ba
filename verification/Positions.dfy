/** Accounts and their debt positions, as far as settling needs to know them. */
module Positions {

  type AccountId = nat

  /** An account owes debt in a market-issued asset against collateral in its backing asset. */
  datatype Position = Position(borrower: AccountId, collateral: nat, debt: nat)
}
