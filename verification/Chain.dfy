/** The vocabulary of the simulated chain, and the remote chain it forks from. */
module Chain {
  import opened Base

  type Addr = string
  type Denom = string

  datatype Coin = Coin(denom: Denom, amount: nat)

  datatype Event = Event(ty: string, attributes: seq<(string, string)>)

  datatype ContractState = ContractState(code: Bytes, storage: map<Bytes, Bytes>)

  /**
   * What the remote chain answers, fixed for a whole simulation: the balances of every account, the
   * contracts it holds, the code it stores, and the address derived from an instantiation seed. `loads`
   * tells which code the virtual machine accepts.
   */
  datatype Chain = Chain(
    balances: Addr -> map<Denom, nat>,
    contract: Addr -> Option<ContractState>,
    code: nat -> Option<Bytes>,
    addressOf: string -> Addr,
    loads: Bytes -> bool)
}
