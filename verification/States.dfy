/** The mutable state of the simulated chain: contracts with their storage, balances, and the block. */
module States {
  import opened Base
  import opened Chain
  import opened Ledgers
  import opened Machine
  import opened Storage

  /** The code of a contract and the storage object everybody who runs it writes to. */
  datatype ContractHandle = ContractHandle(code: Bytes, storage: StorageCell)

  class AllStates {
    const client: Chain
    var contractStates: map<Addr, ContractHandle>
    var bankStates: BankStates
    var blockNumber: nat
    var blockTimestamp: nat

    ghost function Cells(): set<StorageCell>
      reads this
    {
      set a | a in contractStates :: contractStates[a].storage
    }

    /** No two contracts share a storage object. */
    ghost predicate Valid()
      reads this
    {
      forall a, b :: a in contractStates && b in contractStates && a != b ==>
        contractStates[a].storage != contractStates[b].storage
    }

    /** The contracts as values. */
    ghost function Contracts(): map<Addr, ContractState>
      reads this, Cells()
    {
      map a | a in contractStates :: ContractState(contractStates[a].code, contractStates[a].storage.entries)
    }

    constructor (client: Chain, blockNumber: nat, blockTimestamp: nat)
      ensures Valid() && this.client == client && contractStates == map[] && bankStates == map[]
      ensures this.blockNumber == blockNumber && this.blockTimestamp == blockTimestamp
    {
      this.client := client;
      contractStates, bankStates := map[], map[];
      this.blockNumber, this.blockTimestamp := blockNumber, blockTimestamp;
    }

    /** The contracts, each with a new storage object that holds the same entries. */
    method CopyContracts() returns (copies: map<Addr, ContractHandle>)
      ensures copies.Keys == contractStates.Keys
      ensures forall a :: a in copies ==>
                && fresh(copies[a].storage)
                && copies[a].code == contractStates[a].code
                && copies[a].storage.entries == contractStates[a].storage.entries
      ensures forall a, b :: a in copies && b in copies && a != b ==> copies[a].storage != copies[b].storage
    {
      copies := map[];
      var left := contractStates.Keys;
      while left != {}
        invariant left <= contractStates.Keys && copies.Keys == contractStates.Keys - left
        invariant forall a :: a in copies ==>
                    && fresh(copies[a].storage)
                    && copies[a].code == contractStates[a].code
                    && copies[a].storage.entries == contractStates[a].storage.entries
        invariant forall a, b :: a in copies && b in copies && a != b ==> copies[a].storage != copies[b].storage
        decreases left
      {
        var a :| a in left;
        var cell := new StorageCell(contractStates[a].storage.entries);
        copies := copies[a := ContractHandle(contractStates[a].code, cell)];
        left := left - {a};
      }
    }

    /** A copy with storage objects of its own. */
    method Clone() returns (c: AllStates)
      requires Valid()
      ensures fresh(c) && fresh(c.Cells()) && c.Valid() && c.client == client
      ensures c.Contracts() == Contracts() && c.bankStates == bankStates
      ensures c.blockNumber == blockNumber && c.blockTimestamp == blockTimestamp
    {
      var copies := CopyContracts();
      c := new AllStates(client, blockNumber, blockTimestamp);
      c.contractStates, c.bankStates := copies, bankStates;
    }

    /** Gives a contract a storage object of its own. */
    method ContractStateInsert(addr: Addr, code: Bytes, storage: StorageCell)
      requires Valid() && storage !in Cells()
      modifies this`contractStates
      ensures Valid() && Cells() <= old(Cells()) + {storage}
      ensures contractStates == old(contractStates)[addr := ContractHandle(code, storage)]
      ensures Contracts() == old(Contracts())[addr := ContractState(code, storage.entries)]
    {
      contractStates := contractStates[addr := ContractHandle(code, storage)];
    }

    method ContractStateRemove(addr: Addr)
      requires Valid()
      modifies this`contractStates
      ensures Valid() && Cells() <= old(Cells())
      ensures Contracts() == old(Contracts()) - {addr}
    {
      contractStates := contractStates - {addr};
    }

    method GetBalance(owner: Addr, denom: Denom) returns (balance: nat)
      modifies this`bankStates
      ensures bankStates == Load(client, old(bankStates), owner)
      ensures balance == Answer(client, old(bankStates), owner, denom)
    {
      if owner !in bankStates {
        var balances := client.balances(owner);
        bankStates := bankStates[owner := balances];
      }
      var balances := bankStates[owner];
      balance := if denom in balances then balances[denom] else 0;
    }

    method SetBalance(owner: Addr, denom: Denom, balance: nat)
      modifies this`bankStates
      ensures bankStates == WithBalance(old(bankStates), owner, denom, balance)
    {
      var entry := if owner in bankStates then bankStates[owner] else map[];
      bankStates := bankStates[owner := entry[denom := balance]];
    }

    /** The body of the transfer loop. */
    method SendOne(src: Addr, dst: Addr, coin: Coin) returns (error: Option<string>)
      modifies this`bankStates
      ensures Banked(bankStates, error) == SendCoin(client, old(bankStates), src, dst, coin)
    {
      SendCoinByAnswers(client, bankStates, src, dst, coin);
      hide SendCoin;
      var srcAmount := GetBalance(src, coin.denom);
      var dstAmount := GetBalance(dst, coin.denom);
      if srcAmount >= coin.amount {
        SetBalance(src, coin.denom, srcAmount - coin.amount);
        SetBalance(dst, coin.denom, dstAmount + coin.amount);
        error := None;
      } else {
        error := Some(Insufficient(src, srcAmount, coin.amount));
      }
    }

    method BankSend(src: Addr, dst: Addr, amount: seq<Coin>) returns (result: ContractResult)
      modifies this`bankStates
      ensures var r := SendCoins(client, old(bankStates), src, dst, amount);
              && bankStates == r.bank
              && result == match r.error
                           case None => Ok(Response(SendEvents(src, dst, amount), []))
                           case Some(e) => Err(e)
    {
      hide SendCoin;
      hide SpentAndReceived;
      var events := [];
      var i := 0;
      while i < |amount|
        invariant 0 <= i <= |amount|
        invariant SendCoins(client, old(bankStates), src, dst, amount)
                  == SendCoins(client, bankStates, src, dst, amount[i..])
        invariant SendEvents(src, dst, amount) == events + SendEvents(src, dst, amount[i..])
      {
        var coin := amount[i];
        SendCoinsFrom(client, bankStates, src, dst, amount, i);
        SendEventsFrom(src, dst, amount, i);
        var error := SendOne(src, dst, coin);
        if error.Some? {
          return Err(error.value);
        }
        events := events + SpentAndReceived(src, dst, coin);
        i := i + 1;
      }
      assert amount[i..] == [];
      assert events == SendEvents(src, dst, amount);
      result := Ok(Response(events, []));
    }

    method BankBurn(src: Addr, amount: seq<Coin>) returns (result: ContractResult)
      modifies this`bankStates
      ensures var r := BurnCoins(client, old(bankStates), src, amount);
              && bankStates == r.bank
              && result == match r.error case None => Ok(Response([], [])) case Some(e) => Err(e)
    {
      var i := 0;
      while i < |amount|
        invariant 0 <= i <= |amount|
        invariant BurnCoins(client, old(bankStates), src, amount) == BurnCoins(client, bankStates, src, amount[i..])
      {
        var coin := amount[i];
        ghost var before := bankStates;
        assert amount[i..][0] == coin && amount[i..][1..] == amount[i + 1..];
        var srcAmount := GetBalance(src, coin.denom);
        if srcAmount >= coin.amount {
          SetBalance(src, coin.denom, srcAmount - coin.amount);
          assert BurnCoin(client, before, src, coin) == Banked(bankStates, None);
        } else {
          assert BurnCoin(client, before, src, coin)
              == Banked(bankStates, Some(Insufficient(src, srcAmount, coin.amount)));
          return Err(Insufficient(src, srcAmount, coin.amount));
        }
        i := i + 1;
      }
      result := Ok(Response([], []));
    }

    method BankExecute(sender: Addr, msg: BankMsg) returns (result: ContractResult)
      modifies this`bankStates
      ensures var r := CarryOut(client, old(bankStates), sender, msg);
              && bankStates == r.bank
              && result == match r.error case None => Ok(Response(BankEvents(sender, msg), [])) case Some(e) => Err(e)
    {
      match msg
      case Send(to, amount) => result := BankSend(sender, to, amount);
      case Burn(amount) => result := BankBurn(sender, amount);
    }

    /** The next block. The advanced timestamp is computed but not stored. */
    method UpdateBlock()
      modifies this`blockNumber
      ensures blockNumber == old(blockNumber) + 1
    {
      blockNumber := blockNumber + 1;
      var _ := blockTimestamp + 1_000_000_000;
    }
  }
}
