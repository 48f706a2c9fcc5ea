/**
 * What every run keeps, whatever the contracts do: the shape of the call trace, the ledger, the accounting
 * of each denomination, the freshness of generated addresses, and the data of the chain.
 */
module Invariants {
  import opened Chain
  import opened Decimal
  import opened Ledgers
  import opened CallTraces
  import opened Machine
  import opened Runs

  // ---------------------------------------------------------------- the call trace is a tree

  lemma StepKeepsTree(w: Chain, s: State, p: Prim)
    requires Tree(s.log.trace) && Enabled(s, p)
    ensures Tree(Step(w, s, p).log.trace)
  {
    hide Allocate;
    hide Fund;
    hide Tree;
    match p
    case Opening(name, _) => BeginKeepsTree(s.log.trace, name);
    case Closed(parent) => EndKeepsTree(s.log.trace, parent);
    case Noting(e) => AddChildKeepsTree(s.log.trace, e);
    case Creating(codeId, payer, _, funds) => AllocateFrame(w, s, codeId, payer, funds);
    case Financing(payer, to, funds) => FundFrame(w, s, payer, to, funds);
    case _ =>
  }

  lemma {:induction false} StepsKeepTree(w: Chain, s: State, ps: seq<Prim>)
    requires Tree(s.log.trace) && AllEnabled(w, s, ps)
    ensures Tree(StepAll(w, s, ps).log.trace)
    decreases |ps|
  {
    if ps != [] {
      StepKeepsTree(w, s, ps[0]);
      StepsKeepTree(w, Step(w, s, ps[0]), ps[1..]);
    }
  }

  /** The recorded graph is a tree after every run, also one that leaves call contexts open. */
  lemma RunKeepsTree(w: Chain, s: State, tx: Tx)
    requires Tree(s.log.trace)
    ensures Tree(Inner(w, s, tx).state.log.trace)
  {
    var ps := RunIsSteps(w, s, tx);
    StepsKeepTree(w, s, ps);
  }

  // ---------------------------------------------------------------- the ledger

  /** The bank calls among the calls of a run. */
  function Payments(calls: seq<EntryCall>): seq<EntryCall> {
    if calls == [] then []
    else (if calls[0].CallBank? then [calls[0]] else []) + Payments(calls[1..])
  }

  lemma {:induction false} PaymentsConcat(a: seq<EntryCall>, b: seq<EntryCall>)
    ensures Payments(a + b) == Payments(a) + Payments(b)
  {
    if a == [] {
      assert a + b == b;
    } else {
      assert (a + b)[0] == a[0] && (a + b)[1..] == a[1..] + b;
      PaymentsConcat(a[1..], b);
      var head, x, y := if a[0].CallBank? then [a[0]] else [], Payments(a[1..]), Payments(b);
      assert head + x + y == head + (x + y);
    }
  }

  ghost predicate BankOnly(calls: seq<EntryCall>) {
    forall i :: 0 <= i < |calls| ==> calls[i].CallBank?
  }

  /** Bank calls carried out one after the other on the ledger loaded at the start. */
  ghost function Settle(l: Ledger, calls: seq<EntryCall>): Ledger
    requires BankOnly(calls)
    decreases |calls|
  {
    if calls == [] then l else Settle(Ledgering(l, calls[0].payer, calls[0].msg).ledger, calls[1..])
  }

  lemma {:induction false} SettleConcat(l: Ledger, a: seq<EntryCall>, b: seq<EntryCall>)
    requires BankOnly(a) && BankOnly(b)
    ensures Settle(l, a + b) == Settle(Settle(l, a), b)
    decreases |a|
  {
    if a == [] {
      assert a + b == b;
    } else {
      assert (a + b)[0] == a[0] && (a + b)[1..] == a[1..] + b;
      SettleConcat(Ledgering(l, a[0].payer, a[0].msg).ledger, a[1..], b);
    }
  }

  lemma FundLedger(w: Chain, s: State, payer: Addr, to: Addr, funds: seq<Coin>)
    ensures View(w, Fund(w, s, payer, to, funds).state.bank) == Settle(View(w, s.bank), Funding(payer, to, funds))
  {
    if funds != [] {
      var msg := BankMsg.Send(to, funds);
      BankRefines(w, s.bank, payer, msg);
      assert Funding(payer, to, funds)[1..] == [];
      assert Settle(View(w, s.bank), Funding(payer, to, funds)) == Ledgering(View(w, s.bank), payer, msg).ledger;
    }
  }

  lemma {:induction false} AllocateLedger(w: Chain, s: State, codeId: nat, payer: Addr, funds: seq<Coin>)
    ensures View(w, Allocate(w, s, codeId, payer, funds).state.bank)
            == Settle(View(w, s.bank), Funding(payer, NextAddress(w, s, codeId), funds))
  {
    hide Allocate;
    hide Fund;
    AllocateFrame(w, s, codeId, payer, funds);
    FundLedger(w, Numbered(s, codeId), payer, NextAddress(w, s, codeId), funds);
  }

  lemma BankLedger(w: Chain, s: State, payer: Addr, msg: BankMsg)
    ensures View(w, CarryOut(w, s.bank, payer, msg).bank) == Settle(View(w, s.bank), [CallBank(payer, msg)])
  {
    BankRefines(w, s.bank, payer, msg);
    assert [CallBank(payer, msg)][1..] == [];
    var l := Ledgering(View(w, s.bank), payer, msg).ledger;
    assert Settle(l, []) == l;
  }

  /** All other steps leave the bank alone, except that a query may load an account. */
  lemma QuietStep(w: Chain, s: State, p: Prim)
    requires !p.Creating? && !p.Financing? && !p.Banking?
    ensures View(w, Step(w, s, p).bank) == View(w, s.bank)
  {
    if p.Performing? && p.effect.QueryBalance? {
      LoadKeepsView(w, s.bank, p.effect.owner);
    } else {
      assert Step(w, s, p).bank == s.bank;
    }
  }

  lemma {:induction false} PaymentsAreBank(calls: seq<EntryCall>)
    ensures BankOnly(Payments(calls))
  {
    if calls != [] {
      PaymentsAreBank(calls[1..]);
    }
  }

  lemma PaymentsOfStep(w: Chain, s: State, p: Prim)
    requires Enabled(s, p)
    ensures Payments(CallsBy(w, s, p))
            == match p
               case Creating(codeId, payer, _, funds) => Funding(payer, NextAddress(w, s, codeId), funds)
               case Financing(payer, to, funds) => Funding(payer, to, funds)
               case Banking(payer, msg) => [CallBank(payer, msg)]
               case _ => []
  {
    hide Allocate;
    if p.Creating? {
      AllocateFrame(w, s, p.codeId, p.payer, p.funds);
      var a := Allocate(w, s, p.codeId, p.payer, p.funds);
      var call := CallInstantiate(a.addr, p.payer, p.body, p.funds);
      PaymentsConcat(Funding(p.payer, a.addr, p.funds), if a.result.Allocated? then [call] else []);
    }
  }

  lemma {:induction false} StepLedger(w: Chain, s: State, p: Prim)
    requires Enabled(s, p)
    ensures BankOnly(Payments(CallsBy(w, s, p)))
    ensures View(w, Step(w, s, p).bank) == Settle(View(w, s.bank), Payments(CallsBy(w, s, p)))
  {
    hide View;
    hide Allocate;
    hide Fund;
    PaymentsOfStep(w, s, p);
    match p
    case Creating(codeId, payer, _, funds) => AllocateLedger(w, s, codeId, payer, funds);
    case Financing(payer, to, funds) => FundLedger(w, s, payer, to, funds);
    case Banking(payer, msg) => BankLedger(w, s, payer, msg);
    case _ => QuietStep(w, s, p);
  }

  lemma {:induction false} StepsLedger(w: Chain, s: State, ps: seq<Prim>)
    requires AllEnabled(w, s, ps)
    ensures BankOnly(Payments(CallsByAll(w, s, ps)))
    ensures View(w, StepAll(w, s, ps).bank) == Settle(View(w, s.bank), Payments(CallsByAll(w, s, ps)))
    decreases |ps|
  {
    hide View;
    hide Step;
    hide CallsBy;
    PaymentsAreBank(CallsByAll(w, s, ps));
    if ps != [] {
      var s1 := Step(w, s, ps[0]);
      StepLedger(w, s, ps[0]);
      StepsLedger(w, s1, ps[1..]);
      PaymentsConcat(CallsBy(w, s, ps[0]), CallsByAll(w, s1, ps[1..]));
      SettleConcat(View(w, s.bank), Payments(CallsBy(w, s, ps[0])), Payments(CallsByAll(w, s1, ps[1..])));
    }
  }

  ghost function Paid(w: Chain, s: State, tx: Tx): (calls: seq<EntryCall>)
    ensures BankOnly(calls)
  {
    PaymentsAreBank(Inner(w, s, tx).calls);
    Payments(Inner(w, s, tx).calls)
  }

  /**
   * The bank filled on demand stands, after any run, for the ledger that results from carrying out the
   * payments of that run on a ledger that was complete from the start.
   */
  lemma RunLedger(w: Chain, s: State, tx: Tx)
    requires Tree(s.log.trace)
    ensures View(w, Inner(w, s, tx).state.bank) == Settle(View(w, s.bank), Paid(w, s, tx))
  {
    var ps := RunIsSteps(w, s, tx);
    StepsLedger(w, s, ps);
  }

  // ---------------------------------------------------------------- accounting

  ghost function MintedIn(l: Ledger, calls: seq<EntryCall>, d: Denom): nat
    requires BankOnly(calls)
    decreases |calls|
  {
    if calls == [] then 0
    else MintedBy(l, calls[0].payer, calls[0].msg, d)
         + MintedIn(Ledgering(l, calls[0].payer, calls[0].msg).ledger, calls[1..], d)
  }

  ghost function BurnedIn(l: Ledger, calls: seq<EntryCall>, d: Denom): nat
    requires BankOnly(calls)
    decreases |calls|
  {
    if calls == [] then 0
    else BurnedBy(l, calls[0].payer, calls[0].msg, d)
         + BurnedIn(Ledgering(l, calls[0].payer, calls[0].msg).ledger, calls[1..], d)
  }

  ghost predicate Within(calls: seq<EntryCall>, accounts: set<Addr>)
    requires BankOnly(calls)
  {
    forall i :: 0 <= i < |calls| ==> Touched(calls[i].payer, calls[i].msg) <= accounts
  }

  ghost predicate NoSelfSend(calls: seq<EntryCall>)
    requires BankOnly(calls)
  {
    forall i :: 0 <= i < |calls| ==> calls[i].msg.Send? ==> calls[i].msg.to != calls[i].payer
  }

  lemma {:induction false} SettleAccounts(l: Ledger, calls: seq<EntryCall>, accounts: set<Addr>, d: Denom)
    requires BankOnly(calls) && Within(calls, accounts)
    ensures Total(Settle(l, calls), accounts, d)
            == Total(l, accounts, d) + MintedIn(l, calls, d) - BurnedIn(l, calls, d)
    decreases |calls|
  {
    if calls != [] {
      BankAccounts(l, calls[0].payer, calls[0].msg, accounts, d);
      SettleAccounts(Ledgering(l, calls[0].payer, calls[0].msg).ledger, calls[1..], accounts, d);
    }
  }

  lemma {:induction false} NoSelfSendMintsNothing(l: Ledger, calls: seq<EntryCall>, d: Denom)
    requires BankOnly(calls) && NoSelfSend(calls)
    ensures MintedIn(l, calls, d) == 0
    decreases |calls|
  {
    if calls != [] {
      NoSelfSendMintsNothing(Ledgering(l, calls[0].payer, calls[0].msg).ledger, calls[1..], d);
    }
  }

  /**
   * Over any run, the total of a denomination held by the accounts involved grows by what transfers to
   * oneself created and shrinks by what was burned; without transfers to oneself only burning changes it.
   */
  lemma RunAccounts(w: Chain, s: State, tx: Tx, accounts: set<Addr>, d: Denom)
    requires Tree(s.log.trace) && Within(Paid(w, s, tx), accounts)
    ensures var l, l' := View(w, s.bank), View(w, Inner(w, s, tx).state.bank);
            && Total(l', accounts, d)
               == Total(l, accounts, d) + MintedIn(l, Paid(w, s, tx), d) - BurnedIn(l, Paid(w, s, tx), d)
            && (NoSelfSend(Paid(w, s, tx)) ==>
                  Total(l', accounts, d) == Total(l, accounts, d) - BurnedIn(l, Paid(w, s, tx), d))
  {
    RunLedger(w, s, tx);
    SettleAccounts(View(w, s.bank), Paid(w, s, tx), accounts, d);
    if NoSelfSend(Paid(w, s, tx)) {
      NoSelfSendMintsNothing(View(w, s.bank), Paid(w, s, tx), d);
    }
  }

  /** No transfer of a sequence of bank calls overflows a 128-bit balance. */
  ghost predicate AllFit(l: Ledger, calls: seq<EntryCall>)
    requires BankOnly(calls)
    decreases |calls|
  {
    calls == [] ||
    (&& (calls[0].msg.Send? ==> Fits(l, calls[0].payer, calls[0].msg.to, calls[0].msg.amount))
     && AllFit(Ledgering(l, calls[0].payer, calls[0].msg).ledger, calls[1..]))
  }

  lemma {:induction false} SettleFits(l: Ledger, calls: seq<EntryCall>, accounts: set<Addr>)
    requires BankOnly(calls) && Within(calls, accounts) && NoSelfSend(calls)
    requires forall d :: Total(l, accounts, d) <= MAX_U128
    ensures AllFit(l, calls)
    decreases |calls|
  {
    if calls != [] {
      var payer, msg := calls[0].payer, calls[0].msg;
      if msg.Send? {
        SendFits(l, payer, msg.to, msg.amount, accounts);
      }
      var l' := Ledgering(l, payer, msg).ledger;
      forall d
        ensures Total(l', accounts, d) <= MAX_U128
      {
        BankAccounts(l, payer, msg, accounts, d);
      }
      SettleFits(l', calls[1..], accounts);
    }
  }

  /** If the totals fit in 128 bits when a run without transfers to oneself starts, no balance overflows in it. */
  lemma {:induction false} RunFits(w: Chain, s: State, tx: Tx, accounts: set<Addr>)
    requires Within(Paid(w, s, tx), accounts) && NoSelfSend(Paid(w, s, tx))
    requires forall d :: Total(View(w, s.bank), accounts, d) <= MAX_U128
    ensures AllFit(View(w, s.bank), Paid(w, s, tx))
  {
    SettleFits(View(w, s.bank), Paid(w, s, tx), accounts);
  }

  // ---------------------------------------------------------------- fresh addresses

  /** Distinct instances have distinct addresses, and no generated address is taken on the remote chain. */
  ghost predicate Collisionless(w: Chain) {
    && (forall code: nat, c: nat, code': nat, c': nat ::
          w.addressOf(Seed(code, c)) == w.addressOf(Seed(code', c')) ==> Seed(code, c) == Seed(code', c'))
    && (forall codeId: nat, c: nat :: w.contract(w.addressOf(Seed(codeId, c))).None?)
  }

  /** An instance of codeId that has not been generated yet does not exist. */
  ghost predicate Unborn(w: Chain, s: State) {
    forall codeId: nat, c: nat :: c >= CounterOf(s, codeId) ==> w.addressOf(Seed(codeId, c)) !in s.contracts
  }

  /** The address handed out was not in use, and the next ones still are not. */
  lemma AllocateIsFresh(w: Chain, s: State, codeId: nat, payer: Addr, funds: seq<Coin>)
    requires Collisionless(w) && Unborn(w, s)
    ensures Allocate(w, s, codeId, payer, funds).addr !in s.contracts
    ensures Unborn(w, Allocate(w, s, codeId, payer, funds).state)
  {
    hide Allocate;
    hide Fund;
    var a := Allocate(w, s, codeId, payer, funds);
    AllocateFrame(w, s, codeId, payer, funds);
    forall code: nat, c: nat | c >= CounterOf(a.state, code)
      ensures w.addressOf(Seed(code, c)) !in a.state.contracts
    {
      assert w.addressOf(Seed(code, c)) !in s.contracts;
      if w.addressOf(Seed(code, c)) == a.addr {
        SeedInjective(code, c, codeId, CounterOf(s, codeId));
      }
    }
  }

  lemma StepKeepsUnborn(w: Chain, s: State, p: Prim)
    requires Collisionless(w) && Unborn(w, s)
    ensures Unborn(w, Step(w, s, p))
  {
    hide Allocate;
    hide Fund;
    var s' := Step(w, s, p);
    if p.Creating? {
      AllocateIsFresh(w, s, p.codeId, p.payer, p.funds);
    } else {
      if p.Financing? {
        FundFrame(w, s, p.payer, p.to, p.funds);
      }
      assert s'.counters == s.counters;
      assert forall a :: a in s'.contracts && a !in s.contracts ==> w.contract(a).Some?;
    }
  }

  lemma {:induction false} StepsKeepUnborn(w: Chain, s: State, ps: seq<Prim>)
    requires Collisionless(w) && Unborn(w, s)
    ensures Unborn(w, StepAll(w, s, ps))
    decreases |ps|
  {
    if ps != [] {
      StepKeepsUnborn(w, s, ps[0]);
      StepsKeepUnborn(w, Step(w, s, ps[0]), ps[1..]);
    }
  }

  /** The addresses of the contracts instantiated by a run. */
  function Births(calls: seq<EntryCall>): seq<Addr> {
    if calls == [] then []
    else (if calls[0].CallInstantiate? then [calls[0].addr] else []) + Births(calls[1..])
  }

  lemma {:induction false} BirthsConcat(a: seq<EntryCall>, b: seq<EntryCall>)
    ensures Births(a + b) == Births(a) + Births(b)
  {
    if a == [] {
      assert a + b == b;
    } else {
      assert (a + b)[0] == a[0] && (a + b)[1..] == a[1..] + b;
      BirthsConcat(a[1..], b);
      var head, x, y := if a[0].CallInstantiate? then [a[0].addr] else [], Births(a[1..]), Births(b);
      assert head + x + y == head + (x + y);
    }
  }

  lemma BirthsOfStep(w: Chain, s: State, p: Prim)
    requires Enabled(s, p)
    ensures Births(CallsBy(w, s, p)) == []
            || (p.Creating? && Births(CallsBy(w, s, p)) == [NextAddress(w, s, p.codeId)])
  {
    hide Allocate;
    if p.Creating? {
      AllocateFrame(w, s, p.codeId, p.payer, p.funds);
      var a := Allocate(w, s, p.codeId, p.payer, p.funds);
      var call := CallInstantiate(a.addr, p.payer, p.body, p.funds);
      BirthsConcat(Funding(p.payer, a.addr, p.funds), if a.result.Allocated? then [call] else []);
    }
  }

  /** An address that is still to be generated. */
  ghost predicate Future(w: Chain, counters: map<nat, nat>, a: Addr) {
    exists codeId: nat, c: nat :: c >= Count(counters, codeId) && a == w.addressOf(Seed(codeId, c))
  }

  lemma CountersGrow(w: Chain, s: State, p: Prim)
    ensures Step(w, s, p).counters == if p.Creating? then Numbered(s, p.codeId).counters else s.counters
  {
    hide Allocate;
    hide Fund;
    if p.Creating? {
      AllocateFrame(w, s, p.codeId, p.payer, p.funds);
    } else if p.Financing? {
      FundFrame(w, s, p.payer, p.to, p.funds);
    }
  }

  ghost predicate Distinct<T>(xs: seq<T>) {
    forall i, j :: 0 <= i < j < |xs| ==> xs[i] != xs[j]
  }

  ghost predicate AllFuture(w: Chain, counters: map<nat, nat>, xs: seq<Addr>) {
    forall i :: 0 <= i < |xs| ==> Future(w, counters, xs[i])
  }

  /** The address handed out was still to be generated, and is so no longer. */
  lemma HandedOut(w: Chain, s: State, codeId: nat, later: Addr)
    requires Collisionless(w) && Future(w, Numbered(s, codeId).counters, later)
    ensures Future(w, s.counters, NextAddress(w, s, codeId)) && Future(w, s.counters, later)
    ensures later != NextAddress(w, s, codeId)
  {
    var counters := Numbered(s, codeId).counters;
    var code: nat, c: nat :| c >= Count(counters, code) && later == w.addressOf(Seed(code, c));
    assert c >= Count(s.counters, code);
    assert CounterOf(s, codeId) >= Count(s.counters, codeId);
    if later == NextAddress(w, s, codeId) {
      SeedInjective(code, c, codeId, CounterOf(s, codeId));
    }
  }

  lemma {:induction false} StepsBirths(w: Chain, s: State, ps: seq<Prim>)
    requires Collisionless(w) && AllEnabled(w, s, ps)
    ensures AllFuture(w, s.counters, Births(CallsByAll(w, s, ps))) && Distinct(Births(CallsByAll(w, s, ps)))
    decreases |ps|
  {
    hide Collisionless;
    hide NextAddress;
    if ps != [] {
      var p, s1 := ps[0], Step(w, s, ps[0]);
      StepsBirths(w, s1, ps[1..]);
      CountersGrow(w, s, p);
      BirthsOfStep(w, s, p);
      BirthsConcat(CallsBy(w, s, p), CallsByAll(w, s1, ps[1..]));
      hide Step;
      hide CallsBy;
      hide Future;
      var rest := Births(CallsByAll(w, s1, ps[1..]));
      if p.Creating? {
        forall i | 0 <= i < |rest|
          ensures Future(w, s.counters, rest[i]) && rest[i] != NextAddress(w, s, p.codeId)
        {
          HandedOut(w, s, p.codeId, rest[i]);
        }
        NextIsFuture(w, s, p.codeId);
      }
    }
  }

  lemma NextIsFuture(w: Chain, s: State, codeId: nat)
    ensures Future(w, s.counters, NextAddress(w, s, codeId))
  {
    assert CounterOf(s, codeId) >= Count(s.counters, codeId);
  }

  /** The contracts a run instantiates have addresses all different, and none of them was in use. */
  lemma RunNeverOverwrites(w: Chain, s: State, tx: Tx)
    requires Collisionless(w) && Unborn(w, s) && Tree(s.log.trace)
    ensures var born := Births(Inner(w, s, tx).calls);
            Distinct(born) && forall i :: 0 <= i < |born| ==> born[i] !in s.contracts && w.contract(born[i]).None?
  {
    var ps := RunIsSteps(w, s, tx);
    StepsBirths(w, s, ps);
    var born := Births(Inner(w, s, tx).calls);
    hide Inner;
    forall i | 0 <= i < |born|
      ensures born[i] !in s.contracts && w.contract(born[i]).None?
    {
      assert Future(w, s.counters, born[i]);
      var code: nat, c: nat :| c >= Count(s.counters, code) && born[i] == w.addressOf(Seed(code, c));
      assert c >= CounterOf(s, code);
    }
  }

  lemma RunKeepsUnborn(w: Chain, s: State, tx: Tx)
    requires Collisionless(w) && Unborn(w, s) && Tree(s.log.trace)
    ensures Unborn(w, Inner(w, s, tx).state)
  {
    var ps := RunIsSteps(w, s, tx);
    StepsKeepUnborn(w, s, ps);
  }

  // ---------------------------------------------------------------- what no run changes

  ghost predicate SameChainData(s: State, s': State) {
    && s'.blockNumber == s.blockNumber && s'.blockTime == s.blockTime
    && s'.sender == s.sender && s'.customCodes == s.customCodes && s'.coverage.enabled == s.coverage.enabled
  }

  lemma {:induction false} StepKeepsChainData(w: Chain, s: State, p: Prim)
    ensures SameChainData(s, Step(w, s, p))
  {
    hide Allocate;
    hide Fund;
    match p
    case Creating(codeId, payer, _, funds) => AllocateFrame(w, s, codeId, payer, funds);
    case Financing(payer, to, funds) => FundFrame(w, s, payer, to, funds);
    case _ =>
  }

  lemma {:induction false} StepsKeepChainData(w: Chain, s: State, ps: seq<Prim>)
    ensures SameChainData(s, StepAll(w, s, ps))
    decreases |ps|
  {
    if ps != [] {
      StepKeepsChainData(w, s, ps[0]);
      StepsKeepChainData(w, Step(w, s, ps[0]), ps[1..]);
    }
  }

  lemma RunKeepsChainData(w: Chain, s: State, tx: Tx)
    requires Tree(s.log.trace)
    ensures SameChainData(s, Inner(w, s, tx).state)
  {
    var ps := RunIsSteps(w, s, tx);
    StepsKeepChainData(w, s, ps);
  }
}
