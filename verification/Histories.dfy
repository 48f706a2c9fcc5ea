/** What every history of transactions keeps, including the ones that were reverted or ended in a host failure. */
module Histories {
  import opened Chain
  import opened Ledgers
  import opened CallTraces
  import opened Machine
  import opened Invariants

  /** What every history keeps. */
  ghost predicate Sound(w: Chain, s: State) {
    Tree(s.log.trace) && Unborn(w, s)
  }

  lemma TransactKeepsSound(w: Chain, s: State, tx: Tx)
    requires Collisionless(w) && Sound(w, s)
    ensures Sound(w, Transact(w, s, tx).state)
  {
    hide Inner;
    hide Tree;
    RunKeepsTree(w, s, tx);
    RunKeepsUnborn(w, s, tx);
    NewIsTree();
    var s' := Transact(w, s, tx).state;
    var r := Inner(w, s, tx).state;
    assert (s'.contracts == s.contracts && s'.counters == s.counters) ||
           (s'.contracts == r.contracts && s'.counters == r.counters);
  }

  function History(w: Chain, s: State, txs: seq<Tx>): State
    decreases |txs|
  {
    if txs == [] then s else History(w, Transact(w, s, txs[0]).state, txs[1..])
  }

  /** The payments of a transaction that outlive it: none if it is taken back. */
  ghost function Lasting(w: Chain, s: State, tx: Tx): (calls: seq<EntryCall>)
    ensures BankOnly(calls)
  {
    var r := Inner(w, s, tx);
    if r.out.Done? && r.out.result.Err? then [] else Paid(w, s, tx)
  }

  ghost function LastingAll(w: Chain, s: State, txs: seq<Tx>): (calls: seq<EntryCall>)
    ensures BankOnly(calls)
    decreases |txs|
  {
    if txs == [] then [] else Lasting(w, s, txs[0]) + LastingAll(w, Transact(w, s, txs[0]).state, txs[1..])
  }

  lemma TransactLedger(w: Chain, s: State, tx: Tx)
    requires Tree(s.log.trace)
    ensures View(w, Transact(w, s, tx).state.bank) == Settle(View(w, s.bank), Lasting(w, s, tx))
  {
    hide Inner;
    hide View;
    hide Tree;
    RunLedger(w, s, tx);
  }

  /**
   * After any history of transactions, including reverted ones and host failures, the call trace is a tree
   * and the ledger is the one obtained by carrying out the payments that lasted.
   */
  lemma {:induction false} HistoryLedger(w: Chain, s: State, txs: seq<Tx>)
    requires Tree(s.log.trace)
    ensures Tree(History(w, s, txs).log.trace)
    ensures View(w, History(w, s, txs).bank) == Settle(View(w, s.bank), LastingAll(w, s, txs))
    decreases |txs|
  {
    if txs != [] {
      var s1 := Transact(w, s, txs[0]).state;
      RunKeepsTree(w, s, txs[0]);
      NewIsTree();
      TransactLedger(w, s, txs[0]);
      HistoryLedger(w, s1, txs[1..]);
      SettleConcat(View(w, s.bank), Lasting(w, s, txs[0]), LastingAll(w, s1, txs[1..]));
    }
  }

  /** No contract ever sits at an address still to be generated. */
  lemma {:induction false} HistoryIsSound(w: Chain, s: State, txs: seq<Tx>)
    requires Collisionless(w) && Sound(w, s)
    ensures Sound(w, History(w, s, txs))
    decreases |txs|
  {
    if txs != [] {
      TransactKeepsSound(w, s, txs[0]);
      HistoryIsSound(w, Transact(w, s, txs[0]).state, txs[1..]);
    }
  }

  /** The books balance over whole histories; without transfers to oneself only burning changes a total. */
  lemma {:induction false} HistoryAccounts(w: Chain, s: State, txs: seq<Tx>, accounts: set<Addr>, d: Denom)
    requires Tree(s.log.trace) && Within(LastingAll(w, s, txs), accounts)
    ensures var l, l', paid := View(w, s.bank), View(w, History(w, s, txs).bank), LastingAll(w, s, txs);
            && Total(l', accounts, d) == Total(l, accounts, d) + MintedIn(l, paid, d) - BurnedIn(l, paid, d)
            && (NoSelfSend(paid) ==> Total(l', accounts, d) == Total(l, accounts, d) - BurnedIn(l, paid, d))
  {
    HistoryLedger(w, s, txs);
    var l, paid := View(w, s.bank), LastingAll(w, s, txs);
    SettleAccounts(l, paid, accounts, d);
    if NoSelfSend(paid) {
      NoSelfSendMintsNothing(l, paid, d);
    }
  }

  /** In every history, the contracts a transaction instantiates, however nested, get addresses not in use. */
  lemma HistoryNeverOverwrites(w: Chain, s: State, txs: seq<Tx>, tx: Tx)
    requires Collisionless(w) && Sound(w, s)
    ensures var now := History(w, s, txs);
            var born := Births(Inner(w, now, tx).calls);
            Distinct(born) && forall i :: 0 <= i < |born| ==> born[i] !in now.contracts && w.contract(born[i]).None?
  {
    HistoryIsSound(w, s, txs);
    RunNeverOverwrites(w, History(w, s, txs), tx);
  }
}
