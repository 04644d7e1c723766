/** The NEAR runtime types the three contracts use. */
module Near {

  /** An account name, as `env::predecessor_account_id()` returns it (its syntax is not checked here). */
  type AccountId = string

  const U64Max: int := 0xFFFF_FFFF_FFFF_FFFF
  const U128Max: int := 0xFFFF_FFFF_FFFF_FFFF_FFFF_FFFF_FFFF_FFFF

  type U64 = n: int | 0 <= n <= U64Max
  type U128 = n: int | 0 <= n <= U128Max

  /** The panic message of a checked integer addition that overflows. */
  const AddOverflow: string := "attempt to add with overflow"
}
