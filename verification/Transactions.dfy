/** Transactions as the pool sees them. */
module Transactions {

  type Address = nat
  type Hash = nat

  datatype Option<+T> = None | Some(value: T) {
    predicate IsFailure() { None? }

    function PropagateFailure<U>(): Option<U>
      requires None?
    {
      None
    }

    function Extract(): T
      requires Some?
    {
      value
    }
  }

  const TX_GAS: nat := 21000  // of a plain transfer
  const TX_SLOT_SIZE: nat := 32 * 1024
  const TX_MAX_SIZE: nat := 4 * TX_SLOT_SIZE

  /**
   A transaction with the values that go-ethereum derives from it: `hash`, the
   recovered `sender` (meaningful only when `signed`), the encoded `size`, the total
   `cost` (value plus gas price times gas) and the intrinsic gas of its payload (`None`
   when that computation overflows).
   */
  datatype Tx = Tx(
    hash: Hash, sender: Address, signed: bool, typed: bool,
    nonce: nat, gasPrice: nat, gas: nat, value: int, cost: int, size: nat, intrinsic: Option<nat>)
  {
    /** Slots taken in the pool, one per started 32 KB. */
    function Slots(): nat {
      (size + TX_SLOT_SIZE - 1) / TX_SLOT_SIZE
    }
  }
}
