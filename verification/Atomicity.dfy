/**
 * What is undone and what is not. A transaction that ends in a contract error is taken back as a whole; a
 * host failure is not, and neither is a call that fails inside a transaction.
 */
module Atomicity {
  import opened Base
  import opened Chain
  import opened Ledgers
  import opened CallTraces
  import opened Machine
  import opened Runs
  import opened Invariants

  // ---------------------------------------------------------------- transactions

  /**
   * A transaction whose contracts end in an error leaves everything but the collected coverage as it
   * was; one that succeeds moves to the next block; the clock stands still either way. Only a host
   * failure keeps the partial state, and then the block number has not moved.
   */
  lemma TransactionIsAtomic(w: Chain, s: State, tx: Tx)
    requires Tree(s.log.trace)
    ensures var r, t := Inner(w, s, tx), Transact(w, s, tx);
            && (r.out.Done? && r.out.result.Err? ==> t.state == s.(coverage := t.state.coverage))
            && (r.out.Done? && r.out.result.Ok? ==>
                  t.state.blockNumber == s.blockNumber + 1 && t.state.log == EmptyLog())
            && (!(r.out.Done? && r.out.result.Ok?) ==> t.state.blockNumber == s.blockNumber)
            && t.state.blockTime == s.blockTime
            && (r.out.Done? <==> t.result == Logged(r.state.log))
  {
    RunKeepsChainData(w, s, tx);
  }

  /** The contract is there already, but the virtual machine does not accept its code. */
  predicate Unloadable(w: Chain, s: State, a: Addr) {
    a in s.contracts && !w.loads(s.contracts[a].code)
  }

  /**
   * A host failure is not taken back. The state nevertheless is as before if and only if the failure is
   * that the contract to execute does not exist, or that one already fetched cannot be loaded: in every
   * other case the run has left traces.
   */
  lemma HostFailureIsAtomicIff(w: Chain, s: State, tx: Tx)
    requires Tree(s.log.trace) && Inner(w, s, tx).out.Host?
    ensures Transact(w, s, tx).state.(coverage := s.coverage) == s
            <==> tx.ExecuteTx? && (Fetch(w, s, tx.addr).None? || Unloadable(w, s, tx.addr))
  {
    match tx
    case ExecuteTx(addr, body, funds, run) =>
      if Create(w, s, addr).failure.None? {
        ExecuteHostLeavesTrace(w, s, addr, s.sender, body, funds, run);
      }
    case InstantiateTx(codeId, body, funds, run) =>
      InstantiateHostLeavesTrace(w, s, codeId, s.sender, body, funds, run);
  }

  lemma ExecuteHostLeavesTrace(
    w: Chain, s: State, addr: Addr, sender: Addr, body: string, funds: seq<Coin>, run: Behavior)
    requires Anchored(s) && Create(w, s, addr).failure.None?
    requires ExecuteInner(w, s, addr, sender, body, funds, run).out.Host?
    ensures ExecuteInner(w, s, addr, sender, body, funds, run).state.log.trace.counter > s.log.trace.counter
  {
    hide Invoke;
    hide HandleResponse;
    hide Fund;
    var s1 := Create(w, s, addr).state;
    FundFrame(w, s1, sender, addr, funds);
    CallLeavesTrace(w, Fund(w, s1, sender, addr, funds).state, Name(addr, "execute", body), addr, run);
  }

  lemma InstantiateHostLeavesTrace(
    w: Chain, s: State, codeId: nat, sender: Addr, body: string, funds: seq<Coin>, run: Behavior)
    requires Anchored(s)
    requires InstantiateInner(w, s, codeId, sender, body, funds, run).ran.out.Host?
    ensures var s' := InstantiateInner(w, s, codeId, sender, body, funds, run).ran.state;
            s'.log.trace.counter > s.log.trace.counter || s'.counters != s.counters
  {
    hide Invoke;
    hide HandleResponse;
    hide Allocate;
    var a := Allocate(w, s, codeId, sender, funds);
    AllocateFrame(w, s, codeId, sender, funds);
    if a.result.Allocated? {
      CallLeavesTrace(w, a.state, Name(a.addr, "instantiate", body), a.addr, run);
      if run.verdict.Accept? {
        var s2 := Invoke(w, OpenCall(a.state, Name(a.addr, "instantiate", body)), a.addr, run);
        ResponseGrowsTrace(w, s2, a.addr, Announced(run.verdict.response, codeId, a.addr));
      }
    } else {
      assert a.state.counters[codeId] != CounterOf(s, codeId);
    }
  }

  /** Once a call context has been opened the trace has grown for good. */
  lemma CallLeavesTrace(w: Chain, s: State, name: string, a: Addr, b: Behavior)
    requires Anchored(s)
    ensures var s2 := Invoke(w, OpenCall(s, name), a, b);
            && Anchored(s2) && s2.log.trace.counter > s.log.trace.counter
            && (b.verdict.Accept? ==>
                  var r := b.verdict.response;
                  HandleResponse(w, Append(s2, r.events), a, r).state.log.trace.counter > s.log.trace.counter)
  {
    hide HandleResponse;
    EffectsKeepLog(w, OpenCall(s, name), a, b.effects);
    if b.verdict.Accept? {
      ResponseGrowsTrace(w, Invoke(w, OpenCall(s, name), a, b), a, b.verdict.response);
    }
  }

  lemma ResponseGrowsTrace(w: Chain, s: State, a: Addr, r: Response)
    requires Anchored(s)
    ensures HandleResponse(w, Append(s, r.events), a, r).state.log.trace.counter >= s.log.trace.counter
  {
    var s1 := Append(s, r.events);
    var ps := StepsOfResponse(w, s1, a, r);
    var h := HandleResponse(w, s1, a, r);
    LeadsAnchored(w, s1, ps, h.state, h.calls);
  }

  lemma {:induction false} EffectsKeepLog(w: Chain, s: State, a: Addr, es: seq<Effect>)
    ensures PerformAll(w, s, a, es).log == s.log
    decreases |es|
  {
    if es != [] {
      EffectsKeepLog(w, Perform(w, s, a, es[0]), a, es[1..]);
    }
  }

  /** A contract that writes and then traps: the transaction is aborted, and what it wrote is there to stay. */
  lemma HostFailureExample(w: Chain, s: State, addr: Addr, key: Bytes, value: Bytes, body: string, e: string)
    requires addr in s.contracts && w.loads(s.contracts[addr].code)
    ensures var t := Transact(w, s, ExecuteTx(addr, body, [], Behavior([Put(key, value)], Trap(e))));
            && t.result == Aborted(VmError(e)) && addr in t.state.contracts
            && t.state.contracts[addr].storage == s.contracts[addr].storage[key := value]
  {
    var run := Behavior([Put(key, value)], Trap(e));
    var calling := OpenCall(s, Name(addr, "execute", body));
    OneEffect(w, calling, addr, Put(key, value));
    assert ExecuteInner(w, s, addr, s.sender, body, [], run) == RunExecute(w, s, [], addr, s.sender, body, [], run);
  }

  lemma OneEffect(w: Chain, s: State, a: Addr, e: Effect)
    ensures PerformAll(w, s, a, [e]) == Perform(w, s, a, e)
  {
    assert [e][1..] == [];
    assert PerformAll(w, Perform(w, s, a, e), a, []) == Perform(w, s, a, e);
  }

  // ---------------------------------------------------------------- what a failed call leaves behind

  /** Contracts and balances are as they were. */
  ghost predicate LeavesNothing(w: Chain, s: State, s': State) {
    s'.contracts == s.contracts && View(w, s'.bank) == View(w, s.bank)
  }

  function Lookup(m: map<Bytes, Bytes>, k: Bytes): Option<Bytes> {
    if k in m then Some(m[k]) else None
  }

  /** What an effect writes at key k: a value, nothing any more, or it does not write there. */
  function WriteAt(e: Effect, k: Bytes): Option<Option<Bytes>> {
    match e
    case Put(key, value) => if key == k then Some(Some(value)) else None
    case Delete(key) => if key == k then Some(None) else None
    case QueryBalance(_, _) => None
  }

  /** The last write at key k. */
  function LastWrite(es: seq<Effect>, k: Bytes): Option<Option<Bytes>> {
    if es == [] then None
    else
      var later := LastWrite(es[1..], k);
      if later.Some? then later else WriteAt(es[0], k)
  }

  /** The last write at each key puts there what was there before. */
  ghost predicate Idle(es: seq<Effect>, storage: map<Bytes, Bytes>) {
    forall k :: LastWrite(es, k).Some? ==> LastWrite(es, k).value == Lookup(storage, k)
  }

  lemma PerformFrame(w: Chain, s: State, a: Addr, e: Effect)
    requires a in s.contracts
    ensures var s' := Perform(w, s, a, e);
            && a in s'.contracts
            && s'.contracts == s.contracts[a := s.contracts[a].(storage := s'.contracts[a].storage)]
            && View(w, s'.bank) == View(w, s.bank)
  {
    if e.QueryBalance? {
      LoadKeepsView(w, s.bank, e.owner);
      assert s.contracts == s.contracts[a := s.contracts[a]];
    }
  }

  /** Effects touch the storage of the contract that runs, and no balance. */
  lemma {:induction false} EffectsFrame(w: Chain, s: State, a: Addr, es: seq<Effect>)
    requires a in s.contracts
    ensures var s' := PerformAll(w, s, a, es);
            && a in s'.contracts
            && s'.contracts == s.contracts[a := s.contracts[a].(storage := s'.contracts[a].storage)]
            && View(w, s'.bank) == View(w, s.bank)
    decreases |es|
  {
    hide View;
    hide Perform;
    if es != [] {
      PerformFrame(w, s, a, es[0]);
      EffectsFrame(w, Perform(w, s, a, es[0]), a, es[1..]);
    }
  }

  lemma {:induction false} StorageAfter(w: Chain, s: State, a: Addr, es: seq<Effect>, k: Bytes)
    requires a in s.contracts
    ensures a in PerformAll(w, s, a, es).contracts
    ensures Lookup(PerformAll(w, s, a, es).contracts[a].storage, k)
            == if LastWrite(es, k).Some? then LastWrite(es, k).value else Lookup(s.contracts[a].storage, k)
    decreases |es|
  {
    if es != [] {
      StorageAfter(w, Perform(w, s, a, es[0]), a, es[1..], k);
    }
  }

  /** Running a contract changes nothing if and only if its last writes are idle. */
  lemma EffectsIdleIff(w: Chain, s: State, a: Addr, es: seq<Effect>)
    requires a in s.contracts
    ensures LeavesNothing(w, s, PerformAll(w, s, a, es)) <==> Idle(es, s.contracts[a].storage)
  {
    hide View;
    hide PerformAll;
    hide LastWrite;
    var s' := PerformAll(w, s, a, es);
    EffectsFrame(w, s, a, es);
    var st, st' := s.contracts[a].storage, s'.contracts[a].storage;
    forall k
      ensures Lookup(st', k) == if LastWrite(es, k).Some? then LastWrite(es, k).value else Lookup(st, k)
    {
      StorageAfter(w, s, a, es, k);
    }
    if Idle(es, st) {
      forall k
        ensures Lookup(st', k) == Lookup(st, k)
      {
      }
      SameLookups(st, st');
      assert s.contracts[a].(storage := st') == s.contracts[a];
    }
  }

  lemma SameLookups(m: map<Bytes, Bytes>, m': map<Bytes, Bytes>)
    requires forall k :: Lookup(m', k) == Lookup(m, k)
    ensures m == m'
  {
    forall k
      ensures k in m <==> k in m'
      ensures k in m ==> m[k] == m'[k]
    {
      assert Lookup(m', k) == Lookup(m, k);
    }
  }

  /** Funding a call: what it does to the balances, and whether it goes through. */
  lemma FundChangesIff(w: Chain, s: State, payer: Addr, to: Addr, funds: seq<Coin>)
    ensures var f, l := Fund(w, s, payer, to, funds), View(w, s.bank);
            && (View(w, f.state.bank) == l <==> !FirstPositiveAffordable(l, payer, funds))
            && (!FirstPositiveAffordable(l, payer, funds) ==> (f.error.None? <==> AllZero(funds)))
            && (AllZero(funds) ==> !FirstPositiveAffordable(l, payer, funds))
  {
    hide View;
    hide SendCoins;
    hide SendAll;
    var l := View(w, s.bank);
    SendRefines(w, s.bank, payer, to, funds);
    TransferChangesIff(l, payer, to, funds);
    PaidIffAllZero(l, payer, to, funds);
  }

  /** A rejected call leaves the contracts and the bank of its funded and performed state. */
  lemma RejectedState(w: Chain, s: State, target: Addr, sender: Addr, body: string, funds: seq<Coin>, run: Behavior)
    requires run.verdict.Reject? && Create(w, s, target).failure.None?
    requires Fund(w, Create(w, s, target).state, sender, target, funds).error.None?
    ensures var f := Fund(w, Create(w, s, target).state, sender, target, funds).state;
            var ran := PerformAll(w, OpenCall(f, Name(target, "execute", body)), target, run.effects);
            var r := ExecuteInner(w, s, target, sender, body, funds, run).state;
            r.contracts == ran.contracts && r.bank == ran.bank
  {
    hide PerformAll;
    hide Fund;
  }

  /**
   * A call that its contract rejects leaves contracts and balances as they were if and only if the contract
   * does not exist, or it has been fetched before and one of three things holds: its code cannot be
   * loaded; its funds move nothing because the first positive coin is not affordable; or there is nothing
   * to move and the last write at each key puts there what was there before.
   */
  lemma RejectedCallLeavesNothingIff(
    w: Chain, s: State, target: Addr, sender: Addr, body: string, funds: seq<Coin>, run: Behavior)
    requires run.verdict.Reject?
    ensures LeavesNothing(w, s, ExecuteInner(w, s, target, sender, body, funds, run).state)
            <==> || Fetch(w, s, target).None?
                 || (&& target in s.contracts
                     && (|| Unloadable(w, s, target)
                         || if AllZero(funds) then Idle(run.effects, s.contracts[target].storage)
                            else !FirstPositiveAffordable(View(w, s.bank), sender, funds)))
  {
    hide View;
    hide Fund;
    hide PerformAll;
    hide FirstPositiveAffordable;
    hide Idle;
    var c := Create(w, s, target);
    if c.failure.None? {
      var f := Fund(w, c.state, sender, target, funds);
      FundFrame(w, c.state, sender, target, funds);
      FundChangesIff(w, c.state, sender, target, funds);
      if f.error.None? {
        var calling := OpenCall(f.state, Name(target, "execute", body));
        RejectedState(w, s, target, sender, body, funds, run);
        EffectsFrame(w, calling, target, run.effects);
        EffectsIdleIff(w, calling, target, run.effects);
      }
    }
  }

  lemma RejectedInstance(w: Chain, s: State, codeId: nat, sender: Addr, body: string, funds: seq<Coin>, run: Behavior)
    requires run.verdict.Reject?
    ensures var a := Allocate(w, s, codeId, sender, funds);
            var s' := InstantiateInner(w, s, codeId, sender, body, funds, run).ran.state;
            if a.result.Allocated? then
              var ran := PerformAll(w, OpenCall(a.state, Name(a.addr, "instantiate", body)), a.addr, run.effects);
              s'.contracts == ran.contracts - {a.addr} && s'.bank == ran.bank
            else s' == a.state
  {
    hide PerformAll;
    hide Allocate;
  }

  /** There is code to instantiate, and the virtual machine accepts it. */
  predicate Instantiable(w: Chain, s: State, codeId: nat) {
    CodeOf(w, s, codeId).Some? && w.loads(CodeOf(w, s, codeId).value)
  }

  /** A contract is created if and only if its funds are paid and its code can be used. */
  lemma AllocatedIff(w: Chain, s: State, codeId: nat, payer: Addr, funds: seq<Coin>)
    ensures Allocate(w, s, codeId, payer, funds).result.Allocated?
            <==> && Fund(w, Numbered(s, codeId), payer, NextAddress(w, s, codeId), funds).error.None?
                 && Instantiable(w, s, codeId)
  {
    FundFrame(w, Numbered(s, codeId), payer, NextAddress(w, s, codeId), funds);
    hide Fund;
  }

  /**
   * A rejected instantiation leaves the balances as they were if and only if the first positive coin is not
   * affordable, and the contracts unless one was created at an address in use: that one is gone. Both are as
   * they were if and only if nothing is moved, and the address is not in use or nothing was created there.
   */
  lemma RejectedInstantiationLeavesNothingIff(
    w: Chain, s: State, codeId: nat, sender: Addr, body: string, funds: seq<Coin>, run: Behavior)
    requires run.verdict.Reject?
    ensures var s' := InstantiateInner(w, s, codeId, sender, body, funds, run).ran.state;
            var addr := NextAddress(w, s, codeId);
            && (addr !in s.contracts ==> s'.contracts == s.contracts)
            && (LeavesNothing(w, s, s')
                <==> && !FirstPositiveAffordable(View(w, s.bank), sender, funds)
                     && !(addr in s.contracts && AllZero(funds) && Instantiable(w, s, codeId)))
  {
    hide View;
    hide Fund;
    hide Allocate;
    hide PerformAll;
    hide FirstPositiveAffordable;
    hide InstantiateInner;
    hide Instantiable;
    var a := Allocate(w, s, codeId, sender, funds);
    AllocateFrame(w, s, codeId, sender, funds);
    AllocatedIff(w, s, codeId, sender, funds);
    FundChangesIff(w, Numbered(s, codeId), sender, a.addr, funds);
    RejectedInstance(w, s, codeId, sender, body, funds, run);
    if a.result.Allocated? {
      EffectsFrame(w, OpenCall(a.state, Name(a.addr, "instantiate", body)), a.addr, run.effects);
    }
  }

  /** The call made for a submessage, before any reply. */
  function FirstRun(w: Chain, s: State, origin: Addr, m: SubMsg): Ran {
    match m.msg
    case Bank(_) => HandleSub(w, s, origin, m)
    case Execute(target, body, funds, run) => ExecuteInner(w, s, target, origin, body, funds, run)
    case Instantiate(admin, codeId, body, funds, run) =>
      if admin.Some? && admin.value != origin then Ran(s, [], Done(Err("cannot instantiate contract")))
      else InstantiateInner(w, s, codeId, origin, body, funds, run).ran
  }

  /** A submessage is its first call and what follows it. */
  lemma SubIsFirstThenResume(w: Chain, s: State, origin: Addr, m: SubMsg)
    ensures Settled(FirstRun(w, s, origin, m).out)
    ensures m.msg.Bank? || exists newAddr ::
              HandleSub(w, s, origin, m) == Resume(w, origin, m, m.msg.body, FirstRun(w, s, origin, m), newAddr)
  {
    hide ExecuteInner;
    hide InstantiateInner;
    hide Resume;
    var r := FirstRun(w, s, origin, m);
    match m.msg
    case Bank(_) =>
    case Execute(_, body, _, _) => assert HandleSub(w, s, origin, m) == Resume(w, origin, m, body, r, None);
    case Instantiate(admin, codeId, body, funds, run) =>
      var newAddr := if admin.Some? && admin.value != origin then None
                     else InstantiateInner(w, s, codeId, origin, body, funds, run).addr;
      assert HandleSub(w, s, origin, m) == Resume(w, origin, m, body, r, newAddr);
  }

  /**
   * A failed execution or instantiation is not rolled back before the reply that handles its failure: the
   * reply starts from exactly the state the call left.
   */
  lemma ReplyStartsFromWhatWasLeft(w: Chain, s: State, origin: Addr, m: SubMsg)
    requires !m.msg.Bank? && (m.replyOn.Always? || m.replyOn.OnError?)
    ensures var r := FirstRun(w, s, origin, m);
            r.out.Done? && r.out.result.Err? ==>
              HandleSub(w, s, origin, m)
              == After(r.calls, ReplyTo(w, r.state, origin, m.id, SubErr(r.out.result.error), m.msg.body, m.onErr))
  {
    SubIsFirstThenResume(w, s, origin, m);
    hide HandleSub;
    hide FirstRun;
    hide ReplyTo;
    var r := FirstRun(w, s, origin, m);
    var newAddr :| HandleSub(w, s, origin, m) == Resume(w, origin, m, m.msg.body, r, newAddr);
  }

  /** A call writes, is rejected, and a reply that does nothing turns the failure into a success. */
  lemma CaughtFailureKeepsWrites(w: Chain, s: State, origin: Addr, m: SubMsg, key: Bytes, value: Bytes, e: string)
    requires m.msg.Execute? && m.msg.funds == [] && m.msg.run == Behavior([Put(key, value)], Reject(e))
    requires m.replyOn.Always? || m.replyOn.OnError?
    requires m.onErr == Behavior([], Accept(Response([], [])))
    requires Create(w, s, m.msg.target).failure.None? && origin in s.contracts && w.loads(s.contracts[origin].code)
    ensures var r := HandleSub(w, s, origin, m);
            && r.out == Done(Ok(Response([], [])))
            && m.msg.target in r.state.contracts
            && r.state.contracts[m.msg.target].storage
               == Create(w, s, m.msg.target).state.contracts[m.msg.target].storage[key := value]
  {
    hide ExecuteInner;
    hide ReplyTo;
    var target, body := m.msg.target, m.msg.body;
    var r := ExecuteInner(w, s, target, origin, body, [], m.msg.run);
    RejectedPut(w, s, origin, target, body, key, value, e);
    IdleReply(w, r.state, origin, m.id, SubErr(e), body, m.onErr);
    ReplyStartsFromWhatWasLeft(w, s, origin, m);
  }

  lemma RejectedPut(w: Chain, s: State, origin: Addr, target: Addr, body: string, key: Bytes, value: Bytes, e: string)
    requires Create(w, s, target).failure.None? && origin in s.contracts
    ensures var r := ExecuteInner(w, s, target, origin, body, [], Behavior([Put(key, value)], Reject(e)));
            var s1 := Create(w, s, target).state;
            && r.out == Done(Err(e)) && target in r.state.contracts && origin in r.state.contracts
            && r.state.contracts[target].storage == s1.contracts[target].storage[key := value]
            && r.state.contracts[origin].code == s.contracts[origin].code
  {
    hide HandleResponse;
    hide PerformAll;
    var s1, run := Create(w, s, target).state, Behavior([Put(key, value)], Reject(e));
    OneEffect(w, OpenCall(s1, Name(target, "execute", body)), target, Put(key, value));
    RejectedState(w, s, target, origin, body, [], run);
  }

  lemma IdleReply(w: Chain, s: State, origin: Addr, id: nat, result: SubResult, body: string, b: Behavior)
    requires origin in s.contracts && w.loads(s.contracts[origin].code)
    requires b == Behavior([], Accept(Response([], [])))
    ensures var r := ReplyTo(w, s, origin, id, result, body, b);
            r.out == Done(Ok(Response([], []))) && r.state.contracts == s.contracts
  {
    var replied := OpenCall(s, Name(origin, "reply", body));
    assert PerformAll(w, replied, origin, []) == replied;
  }

  // ---------------------------------------------------------------- calls that fail further down

  /**
   * A behaviour that writes nothing: it only queries, moves no coins, instantiates nothing and executes only
   * contracts that are already known, and so do all the submessages and replies below it.
   */
  ghost predicate QuietBehavior(b: Behavior, self: Addr, known: set<Addr>)
    decreases SizeOf(b), 0
  {
    && (forall i :: 0 <= i < |b.effects| ==> b.effects[i].QueryBalance?)
    && (b.verdict.Accept? ==> QuietAll(b.verdict.response.messages, self, known))
  }

  ghost predicate QuietAll(ms: seq<SubMsg>, origin: Addr, known: set<Addr>)
    decreases SizeOfAll(ms), 0
  {
    ms == [] || (QuietSub(ms[0], origin, known) && QuietAll(ms[1..], origin, known))
  }

  ghost predicate QuietSub(m: SubMsg, origin: Addr, known: set<Addr>)
    decreases SizeOfSub(m), 0
  {
    && QuietBehavior(m.onOk, origin, known) && QuietBehavior(m.onErr, origin, known)
    && match m.msg
       case Bank(msg) => AllZero(msg.amount)
       case Execute(target, _, funds, run) => target in known && AllZero(funds) && QuietBehavior(run, target, known)
       case Instantiate(admin, _, _, _, _) => admin.Some? && admin.value != origin
  }

  lemma {:induction false} QuietEffects(w: Chain, s: State, a: Addr, es: seq<Effect>)
    requires forall i :: 0 <= i < |es| ==> es[i].QueryBalance?
    ensures LeavesNothing(w, s, PerformAll(w, s, a, es))
    decreases |es|
  {
    if es != [] {
      LoadKeepsView(w, s.bank, es[0].owner);
      hide View;
      QuietEffects(w, Perform(w, s, a, es[0]), a, es[1..]);
    }
  }

  lemma {:induction false} ZeroBurn(l: Ledger, src: Addr, coins: seq<Coin>)
    requires AllZero(coins)
    ensures BurnAll(l, src, coins).ledger == l
    decreases |coins|
  {
    if coins != [] {
      assert Destroy(l, src, coins[0]) == l;
      ZeroBurn(l, src, coins[1..]);
    }
  }

  lemma QuietBank(w: Chain, bank: BankStates, sender: Addr, msg: BankMsg)
    requires AllZero(msg.amount)
    ensures View(w, CarryOut(w, bank, sender, msg).bank) == View(w, bank)
  {
    hide View;
    BankRefines(w, bank, sender, msg);
    match msg
    case Send(to, amount) =>
      PaidIffAllZero(View(w, bank), sender, to, amount);
      TransferChangesIff(View(w, bank), sender, to, amount);
    case Burn(amount) => ZeroBurn(View(w, bank), sender, amount);
  }

  lemma QuietFund(w: Chain, s: State, payer: Addr, to: Addr, funds: seq<Coin>)
    requires AllZero(funds)
    ensures LeavesNothing(w, s, Fund(w, s, payer, to, funds).state) && Fund(w, s, payer, to, funds).error.None?
  {
    hide View;
    hide Fund;
    FundFrame(w, s, payer, to, funds);
    FundChangesIff(w, s, payer, to, funds);
  }

  ghost predicate Knows(s: State, known: set<Addr>) {
    known <= s.contracts.Keys
  }

  lemma {:induction false} QuietResponse(w: Chain, s: State, origin: Addr, r: Response, known: set<Addr>)
    requires QuietAll(r.messages, origin, known) && Knows(s, known) && origin in known
    ensures LeavesNothing(w, s, HandleResponse(w, s, origin, r).state)
    decreases SizeOfAll(r.messages), 3
  {
    if r.messages != [] {
      QuietMessages(w, s, origin, r.messages, known);
    }
  }

  lemma {:induction false} QuietMessages(w: Chain, s: State, origin: Addr, ms: seq<SubMsg>, known: set<Addr>)
    requires ms != [] && QuietAll(ms, origin, known) && Knows(s, known) && origin in known
    ensures LeavesNothing(w, s, HandleMessages(w, s, origin, ms).state)
    decreases SizeOfAll(ms), 2
  {
    hide View;
    hide HandleSub;
    QuietSubmessage(w, s, origin, ms[0], known);
    var r := HandleSub(w, s, origin, ms[0]);
    if !(r.out.Host? || r.out.result.Err? || |ms| == 1) {
      QuietMessages(w, r.state, origin, ms[1..], known);
    }
  }

  lemma {:induction false} QuietSubmessage(w: Chain, s: State, origin: Addr, m: SubMsg, known: set<Addr>)
    requires QuietSub(m, origin, known) && Knows(s, known) && origin in known
    ensures LeavesNothing(w, s, HandleSub(w, s, origin, m).state)
    decreases SizeOfSub(m), 2
  {
    hide View;
    hide ExecuteInner;
    hide Resume;
    match m.msg
    case Bank(msg) => QuietBank(w, s.bank, origin, msg);
    case Execute(target, body, funds, run) =>
      QuietExecute(w, s, target, origin, body, funds, run, known);
      QuietResume(w, s, origin, m, body, ExecuteInner(w, s, target, origin, body, funds, run), known);
    case Instantiate(_, _, body, _, _) =>
      QuietResume(w, s, origin, m, body, Ran(s, [], Done(Err("cannot instantiate contract"))), known);
  }

  lemma {:induction false} QuietResume(
    w: Chain, s: State, origin: Addr, m: SubMsg, body: string, r: Ran, known: set<Addr>)
    requires QuietSub(m, origin, known) && Knows(s, known) && origin in known
    requires Settled(r.out) && LeavesNothing(w, s, r.state)
    ensures LeavesNothing(w, s, Resume(w, origin, m, body, r, None).state)
    decreases SizeOfSub(m), 1
  {
    hide View;
    hide ReplyTo;
    if r.out.Done? && WantsReply(m.replyOn, r.out.result) {
      var result, b := ForReply(r.out.result, None), if r.out.result.Ok? then m.onOk else m.onErr;
      QuietReply(w, r.state, origin, m.id, result, body, b, known);
    }
  }

  lemma {:induction false} QuietReply(
    w: Chain, s: State, origin: Addr, id: nat, result: SubResult, body: string, b: Behavior, known: set<Addr>)
    requires QuietBehavior(b, origin, known) && Knows(s, known) && origin in known
    ensures LeavesNothing(w, s, ReplyTo(w, s, origin, id, result, body, b).state)
    decreases SizeOf(b), 1
  {
    hide View;
    hide HandleResponse;
    hide PerformAll;
    var calling := OpenCall(s, Name(origin, "reply", body));
    QuietEffects(w, calling, origin, b.effects);
    if b.verdict.Accept? {
      var r := b.verdict.response;
      QuietResponse(w, Append(Invoke(w, calling, origin, b), r.events), origin, r, known);
    }
  }

  /** A call that writes nothing, with everything below it, leaves nothing behind, however it ends. */
  lemma {:induction false} QuietExecute(
    w: Chain, s: State, target: Addr, sender: Addr, body: string, funds: seq<Coin>, run: Behavior, known: set<Addr>)
    requires QuietBehavior(run, target, known) && Knows(s, known) && target in known && AllZero(funds)
    ensures LeavesNothing(w, s, ExecuteInner(w, s, target, sender, body, funds, run).state)
    decreases SizeOf(run), 1
  {
    hide View;
    hide HandleResponse;
    hide PerformAll;
    hide Fund;
    var f := Fund(w, s, sender, target, funds).state;
    QuietFund(w, s, sender, target, funds);
    var calling := OpenCall(f, Name(target, "execute", body));
    QuietEffects(w, calling, target, run.effects);
    if run.verdict.Accept? {
      var r := run.verdict.response;
      QuietResponse(w, Append(Invoke(w, calling, target, run), r.events), target, r, known);
    }
  }
}
