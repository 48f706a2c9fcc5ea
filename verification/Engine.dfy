/**
 * The transaction engine as the object it is: the state lives in objects that are updated in place,
 * contracts write straight into shared storage objects, and a transaction that fails is undone by
 * putting a deep copy taken beforehand in its place. Every method is proved against the machine.
 */
module Engine {
  import opened Base
  import opened Chain
  import opened Decimal
  import opened Ledgers
  import opened CallTraces
  import opened Machine
  import opened Storage
  import opened States

  class DebugLog {
    var logs: seq<seq<Event>>
    var errMsg: Option<string>
    const callTrace: CallTrace

    ghost function Value(): Log
      reads this, callTrace
    {
      Log(logs, errMsg, callTrace.Value())
    }

    constructor ()
      ensures Value() == EmptyLog() && fresh(callTrace)
    {
      logs, errMsg := [], None;
      callTrace := new CallTrace();
    }

    constructor Copy(other: DebugLog)
      ensures Value() == other.Value() && fresh(callTrace)
    {
      logs, errMsg := other.logs, other.errMsg;
      var trace := other.callTrace.Clone();
      callTrace := trace;
    }

    method SetErrMsg(e: string)
      modifies this
      ensures Value() == old(Value()).(errMsg := Some(e))
    {
      errMsg := Some(e);
    }

    method AppendLog(events: seq<Event>)
      modifies this
      ensures Value() == old(Value()).(entries := old(Value()).entries + [events])
    {
      logs := logs + [events];
    }
  }

  lemma SizeOfElement(ms: seq<SubMsg>, i: nat)
    requires i < |ms|
    ensures SizeOfSub(ms[i]) < SizeOfAll(ms)
    decreases i
  {
    if i > 0 {
      SizeOfElement(ms[1..], i - 1);
    }
  }

  class Model {
    var states: AllStates
    var sender: Addr
    var codeIdCounters: map<nat, nat>
    var debugLog: DebugLog
    var customCodes: map<nat, Bytes>
    var coverageInfo: Coverage

    ghost function Repr(): set<object>
      reads this, states, debugLog
    {
      {this, states, debugLog, debugLog.callTrace} + states.Cells()
    }

    ghost predicate Valid()
      reads this, states
    {
      states.Valid()
    }

    /** The state of the machine this object stands for. */
    ghost function Value(): State
      reads Repr()
    {
      State(states.Contracts(), states.bankStates, states.blockNumber, states.blockTimestamp, sender,
            codeIdCounters, debugLog.Value(), customCodes, coverageInfo)
    }

    /** The remote chain. */
    ghost function World(): Chain
      reads this
    {
      states.client
    }

    constructor (client: Chain, blockNumber: nat, blockTimestamp: nat, sender: Addr)
      ensures Valid() && fresh(Repr()) && World() == client
      ensures Value() == State(map[], map[], blockNumber, blockTimestamp, sender, map[], EmptyLog(), map[],
                               Coverage(false, []))
    {
      states := new AllStates(client, blockNumber, blockTimestamp);
      debugLog := new DebugLog();
      this.sender := sender;
      codeIdCounters, customCodes, coverageInfo := map[], map[], Coverage(false, []);
    }

    /** A deep copy: nothing reachable from it is shared with this object. */
    constructor Clone(other: Model)
      requires other.Valid()
      ensures Valid() && fresh(Repr()) && World() == other.World()
      ensures Value() == other.Value()
    {
      var copy := other.states.Clone();
      states := copy;
      debugLog := new DebugLog.Copy(other.debugLog);
      sender := other.sender;
      codeIdCounters, customCodes, coverageInfo := other.codeIdCounters, other.customCodes, other.coverageInfo;
      new;
      assert states.Contracts() == other.states.Contracts();
      assert debugLog.Value() == other.debugLog.Value();
    }

    /** Puts an earlier copy in the place of this object, keeping the coverage collected since. */
    method Revert(prev: Model)
      requires Valid() && prev.Valid() && prev.World() == World()
      modifies this
      ensures Valid() && World() == old(World())
      ensures states == prev.states && debugLog == prev.debugLog
      ensures Value() == Reverted(old(prev.Value()), old(Value()))
    {
      states, sender, codeIdCounters := prev.states, prev.sender, prev.codeIdCounters;
      debugLog, customCodes := prev.debugLog, prev.customCodes;
      assert states.Contracts() == old(prev.states.Contracts());
      assert debugLog.Value() == old(prev.debugLog.Value());
    }

    /** Does nothing if the contract is already known. */
    method FetchContractState(addr: Addr) returns (failure: Option<HostFailure>)
      requires Valid()
      modifies states`contractStates
      ensures Valid() && fresh(states.Cells() - old(states.Cells()))
      ensures match Fetch(World(), old(Value()), addr)
              case None => failure == Some(NoSuchContract(addr)) && Value() == old(Value())
              case Some(s) => failure.None? && Value() == s && addr in states.contractStates
    {
      if addr in states.contractStates {
        return None;
      }
      match states.client.contract(addr)
      case None =>
        failure := Some(NoSuchContract(addr));
      case Some(c) =>
        var cell := new StorageCell(c.storage);
        states.ContractStateInsert(addr, c.code, cell);
        failure := None;
    }

    /** An instance is ready only if the contract exists and its code can be loaded. */
    method CreateInstance(addr: Addr) returns (failure: Option<HostFailure>)
      requires Valid()
      modifies states`contractStates
      ensures Valid() && fresh(states.Cells() - old(states.Cells()))
      ensures Created(Value(), failure) == Create(World(), old(Value()), addr)
      ensures failure.None? ==> addr in states.contractStates
    {
      failure := FetchContractState(addr);
      if failure.None? && !states.client.loads(states.contractStates[addr].code) {
        failure := Some(CannotLoad(addr));
      }
    }

    method GenerateAddress(codeId: nat) returns (addr: Addr)
      requires Valid()
      modifies this`codeIdCounters
      ensures addr == NextAddress(World(), old(Value()), codeId)
      ensures Value() == Numbered(old(Value()), codeId)
    {
      var counter := if codeId in codeIdCounters then codeIdCounters[codeId] else 0;
      var seed := Seed(codeId, counter);
      codeIdCounters := codeIdCounters[codeId := counter + 1];
      addr := states.client.addressOf(seed);
    }

    method HandleCoverage(addr: Addr)
      modifies this`coverageInfo
      ensures Value() == Cover(old(Value()), addr)
    {
      if coverageInfo.enabled {
        coverageInfo := coverageInfo.(dumps := coverageInfo.dumps + [addr]);
      }
    }

    /** What the storage objects hold after one of them has changed. */
    twostate lemma StorageChanged(addr: Addr)
      requires old(Valid()) && addr in old(states.contractStates)
      requires states == old(states) && states.contractStates == old(states.contractStates)
      requires forall a :: a in states.contractStates && a != addr ==>
                 states.contractStates[a].storage.entries == old(states.contractStates[a].storage.entries)
      ensures states.Contracts() == old(states.Contracts())[
                addr := old(states.Contracts())[addr].(storage := states.contractStates[addr].storage.entries)]
    {
    }

    /** One effect of a running contract, on the storage it was handed. */
    method PerformEffect(storage: RpcMockStorage, addr: Addr, e: Effect)
      requires Valid() && addr in states.contractStates && storage.inner == states.contractStates[addr].storage
      modifies states`bankStates, storage.inner
      ensures Value() == Perform(World(), old(Value()), addr, e)
    {
      match e
      case Put(k, v) =>
        storage.Set(k, v);
        StorageChanged(addr);
      case Delete(k) =>
        storage.Remove(k);
        StorageChanged(addr);
      case QueryBalance(owner, denom) =>
        var _ := states.GetBalance(owner, denom);
        assert states.Contracts() == old(states.Contracts());
    }

    /** Runs an entry point of a contract: its effects happen in place. */
    method RunContract(addr: Addr, b: Behavior)
      requires Valid() && addr in states.contractStates
      modifies this`coverageInfo, states`bankStates, states.contractStates[addr].storage
      ensures Valid() && Value() == Invoke(World(), old(Value()), addr, b)
    {
      var storage := new RpcMockStorage(states.contractStates[addr].storage);
      var i := 0;
      assert b.effects[0..] == b.effects && Value() == old(Value());
      while i < |b.effects|
        invariant 0 <= i <= |b.effects|
        invariant PerformAll(World(), old(Value()), addr, b.effects)
                  == PerformAll(World(), Value(), addr, b.effects[i..])
        modifies states`bankStates, storage.inner
      {
        assert b.effects[i..][1..] == b.effects[i + 1..];
        PerformEffect(storage, addr, b.effects[i]);
        i := i + 1;
      }
      if !b.verdict.Trap? {
        HandleCoverage(addr);
      }
    }

    // -------------------------------------------------------------- the log and the funds of a call

    method BeginContext(name: string) returns (callId: nat)
      modifies debugLog.callTrace
      ensures callId == old(Value()).log.trace.current && Value() == OpenCall(old(Value()), name)
    {
      callId := debugLog.callTrace.BeginCall(name);
      assert states.Contracts() == old(states.Contracts());
    }

    method EndContext(callId: nat)
      modifies debugLog.callTrace
      ensures Value() == CloseCall(old(Value()), callId)
    {
      debugLog.callTrace.EndCall(callId);
      assert states.Contracts() == old(states.Contracts());
    }

    method BeginError(e: string)
      modifies debugLog.callTrace
      ensures Value() == NoteError(old(Value()), e)
    {
      debugLog.callTrace.Error(e);
      assert states.Contracts() == old(states.Contracts());
    }

    method AppendLog(events: seq<Event>)
      modifies debugLog
      ensures Value() == Append(old(Value()), events)
    {
      debugLog.AppendLog(events);
      assert states.Contracts() == old(states.Contracts());
    }

    method SetErrMsg(e: string)
      modifies debugLog
      ensures Value() == SetErr(old(Value()), e)
    {
      debugLog.SetErrMsg(e);
      assert states.Contracts() == old(states.Contracts());
    }

    /** Carries out a bank message on the balances. */
    method RunBank(sender: Addr, msg: BankMsg) returns (result: ContractResult)
      modifies states`bankStates
      ensures var r := CarryOut(World(), old(Value()).bank, sender, msg);
              && Value() == old(Value()).(bank := r.bank)
              && result == match r.error case None => Ok(Response(BankEvents(sender, msg), [])) case Some(e) => Err(e)
    {
      result := states.BankExecute(sender, msg);
      assert states.Contracts() == old(states.Contracts());
    }

    method TransferFunds(payer: Addr, to: Addr, funds: seq<Coin>) returns (error: Option<string>)
      modifies debugLog, states`bankStates
      ensures Funded(Value(), error) == Fund(World(), old(Value()), payer, to, funds)
    {
      if |funds| > 0 {
        var result := RunBank(payer, Send(to, funds));
        match result
        case Ok(r) =>
          AppendLog(r.events);
          error := None;
        case Err(e) =>
          SetErrMsg(e);
          error := Some(e);
      } else {
        error := None;
      }
    }

    // -------------------------------------------------------------- the recursive interpreter

    /** The same objects are in charge; storage objects not in use before are new. */
    twostate predicate Stable()
      reads this, states
    {
      states == old(states) && debugLog == old(debugLog) && fresh(states.Cells() - old(states.Cells()))
    }

    /** Opens a call context and runs a contract in it. */
    method EnterContract(addr: Addr, name: string, b: Behavior) returns (callId: nat)
      requires Valid() && addr in states.contractStates
      modifies this`coverageInfo, debugLog.callTrace, states`bankStates, states.contractStates[addr].storage
      ensures Valid()
      ensures callId == old(Value()).log.trace.current
      ensures Value() == Invoke(World(), OpenCall(old(Value()), name), addr, b)
    {
      callId := BeginContext(name);
      RunContract(addr, b);
    }

    /** Logs the response of a contract, works off its submessages and closes its call context. */
    method FinishCall(addr: Addr, r: Response, callId: nat) returns (out: Outcome, ghost calls: seq<EntryCall>)
      requires Valid()
      modifies this, states, debugLog, debugLog.callTrace, states.Cells()
      ensures Valid() && Stable()
      ensures Ran(Value(), calls, out)
              == Closing(callId, Machine.HandleResponse(World(), Append(old(Value()), r.events), addr, r))
      decreases SizeOfAll(r.messages), 1
    {
      AppendLog(r.events);
      out, calls := HandleResponse(addr, r);
      if out.Done? {
        EndContext(callId);
      }
    }

    /** A contract that rejects a call. */
    method RejectCall(e: string) returns (out: Outcome)
      requires Valid()
      modifies debugLog, debugLog.callTrace
      ensures Value() == NoteError(SetErr(old(Value()), e), e) && out == Done(Err(e))
    {
      SetErrMsg(e);
      BeginError(e);
      out := Done(Err(e));
    }

    method ExecuteInner(addr: Addr, payer: Addr, body: string, funds: seq<Coin>, run: Behavior)
      returns (out: Outcome, ghost calls: seq<EntryCall>)
      requires Valid()
      modifies this, states, debugLog, debugLog.callTrace, states.Cells()
      ensures Valid() && Stable()
      ensures Ran(Value(), calls, out) == Machine.ExecuteInner(World(), old(Value()), addr, payer, body, funds, run)
      decreases SizeOf(run), 1
    {
      hide Value;
      hide RunExecute;
      calls := [];
      var failure := CreateInstance(addr);
      if failure.Some? {
        return Host(failure.value), calls;
      }
      var error := TransferFunds(payer, addr, funds);
      calls := Funding(payer, addr, funds);
      if error.Some? {
        return Done(Err(error.value)), calls;
      }
      out, calls := CallExecutePoint(addr, payer, body, funds, run, calls);
    }

    method CallExecutePoint(
      addr: Addr, payer: Addr, body: string, funds: seq<Coin>, run: Behavior, ghost paid: seq<EntryCall>)
      returns (out: Outcome, ghost calls: seq<EntryCall>)
      requires Valid() && addr in states.contractStates
      modifies this, states, debugLog, debugLog.callTrace, states.Cells()
      ensures Valid() && Stable()
      ensures Ran(Value(), calls, out) == RunExecute(World(), old(Value()), paid, addr, payer, body, funds, run)
      decreases SizeOf(run), 0
    {
      hide Value;
      hide Machine.HandleResponse;
      var callId := EnterContract(addr, Name(addr, "execute", body), run);
      calls := paid + [CallExecute(addr, payer, body, funds)];
      match run.verdict
      case Trap(e) =>
        out := Host(VmError(e));
      case Reject(e) =>
        out := RejectCall(e);
      case Accept(r) =>
        ghost var more;
        out, more := FinishCall(addr, r, callId);
        calls := calls + more;
    }

    method InstantiateInner(codeId: nat, payer: Addr, body: string, funds: seq<Coin>, run: Behavior)
      returns (out: Outcome, newAddr: Option<Addr>, ghost calls: seq<EntryCall>)
      requires Valid()
      modifies this, states, debugLog, debugLog.callTrace, states.Cells()
      ensures Valid() && Stable()
      ensures Instantiated(Ran(Value(), calls, out), newAddr)
              == Machine.InstantiateInner(World(), old(Value()), codeId, payer, body, funds, run)
      decreases SizeOf(run), 1
    {
      hide Value;
      hide RunInstantiate;
      hide Fund;
      hide CodeOf;
      hide NextAddress;
      hide Numbered;
      var addr := GenerateAddress(codeId);
      var error := TransferFunds(payer, addr, funds);
      calls := Funding(payer, addr, funds);
      if error.Some? {
        return Done(Err(error.value)), None, calls;
      }
      var code := FindCode(codeId);
      if code.None? {
        return Host(NoSuchCode(codeId)), None, calls;
      }
      if !states.client.loads(code.value) {
        return Host(CannotLoad(addr)), None, calls;
      }
      InsertEmptyContract(addr, code.value);
      out, newAddr, calls := CallInstantiatePoint(codeId, addr, payer, body, funds, run, calls);
    }

    method FindCode(codeId: nat) returns (code: Option<Bytes>)
      ensures code == CodeOf(World(), Value(), codeId) && Value() == old(Value())
    {
      code := if codeId in customCodes then Some(customCodes[codeId]) else states.client.code(codeId);
    }

    /** A new contract starts with an empty storage object of its own. */
    method InsertEmptyContract(addr: Addr, code: Bytes)
      requires Valid()
      modifies states`contractStates
      ensures Valid() && fresh(states.Cells() - old(states.Cells())) && addr in states.contractStates
      ensures Value() == old(Value()).(contracts := old(Value()).contracts[addr := ContractState(code, map[])])
    {
      var emptyStorage := new StorageCell(map[]);
      states.ContractStateInsert(addr, code, emptyStorage);
    }

    /** A contract that rejects its instantiation is taken away again. */
    method DiscardContract(addr: Addr)
      requires Valid()
      modifies states`contractStates
      ensures Valid() && states.Cells() <= old(states.Cells()) && Value() == Discard(old(Value()), addr)
    {
      states.ContractStateRemove(addr);
    }

    method CallInstantiatePoint(
      codeId: nat, addr: Addr, payer: Addr, body: string, funds: seq<Coin>, run: Behavior, ghost paid: seq<EntryCall>)
      returns (out: Outcome, newAddr: Option<Addr>, ghost calls: seq<EntryCall>)
      requires Valid() && addr in states.contractStates
      modifies this, states, debugLog, debugLog.callTrace, states.Cells()
      ensures Valid() && Stable()
      ensures Instantiated(Ran(Value(), calls, out), newAddr)
              == RunInstantiate(World(), old(Value()), paid, codeId, addr, payer, body, funds, run)
      decreases SizeOf(run), 0
    {
      hide Value;
      hide Machine.HandleResponse;
      newAddr := None;
      var callId := EnterContract(addr, Name(addr, "instantiate", body), run);
      calls := paid + [CallInstantiate(addr, payer, body, funds)];
      match run.verdict
      case Trap(e) =>
        out := Host(VmError(e));
      case Reject(e) =>
        DiscardContract(addr);
        out := RejectCall(e);
      case Accept(r) =>
        ghost var more;
        out, more := FinishCall(addr, Announced(r, codeId, addr), callId);
        calls := calls + more;
        newAddr := Some(addr);
    }

    method HandleResponse(origin: Addr, response: Response) returns (out: Outcome, ghost calls: seq<EntryCall>)
      requires Valid()
      modifies this, states, debugLog, debugLog.callTrace, states.Cells()
      ensures Valid() && Stable()
      ensures Ran(Value(), calls, out) == Machine.HandleResponse(World(), old(Value()), origin, response)
      decreases SizeOfAll(response.messages), 0
    {
      hide Value;
      hide HandleSub;
      calls := [];
      if response.messages == [] {
        return Done(Ok(response)), calls;
      }
      var ms := response.messages;
      out := Done(Ok(Response([], [])));
      var i := 0;
      while i < |ms|
        invariant 0 <= i <= |ms|
        invariant Valid() && Stable()
        invariant i < |ms| ==>
                    HandleMessages(World(), old(Value()), origin, ms)
                    == After(calls, HandleMessages(World(), Value(), origin, ms[i..]))
        invariant i == |ms| ==> HandleMessages(World(), old(Value()), origin, ms) == Ran(Value(), calls, out)
      {
        SizeOfElement(ms, i);
        ghost var more;
        out, more := HandleSubmessage(origin, ms[i]);
        calls := calls + more;
        if out.Host? || out.result.Err? {
          return;
        }
        i := i + 1;
      }
    }

    method HandleSubmessage(origin: Addr, m: SubMsg) returns (out: Outcome, ghost calls: seq<EntryCall>)
      requires Valid()
      modifies this, states, debugLog, debugLog.callTrace, states.Cells()
      ensures Valid() && Stable()
      ensures Ran(Value(), calls, out) == HandleSub(World(), old(Value()), origin, m)
      decreases SizeOfSub(m), 1
    {
      hide Value;
      hide Resume;
      hide Machine.ExecuteInner;
      hide Machine.InstantiateInner;
      match m.msg
      case Bank(msg) =>
        var result := RunBank(origin, msg);
        out, calls := Done(result), [CallBank(origin, msg)];
      case Execute(target, body, funds, run) =>
        out, calls := ExecuteInner(target, origin, body, funds, run);
        out, calls := ResumeSubmessage(origin, m, body, out, None, calls);
      case Instantiate(admin, codeId, body, funds, run) =>
        var newAddr: Option<Addr>;
        if admin.Some? && admin.value != origin {
          out, newAddr, calls := Done(Err("cannot instantiate contract")), None, [];
        } else {
          out, newAddr, calls := InstantiateInner(codeId, origin, body, funds, run);
        }
        out, calls := ResumeSubmessage(origin, m, body, out, newAddr, calls);
    }

    /** The part the two kinds of contract submessages have in common: reply, pass on, or answer. */
    method ResumeSubmessage(
      origin: Addr, m: SubMsg, body: string, response: Outcome, newAddr: Option<Addr>, ghost before: seq<EntryCall>)
      returns (out: Outcome, ghost calls: seq<EntryCall>)
      requires Valid() && Settled(response)
      modifies this, states, debugLog, debugLog.callTrace, states.Cells()
      ensures Valid() && Stable()
      ensures Ran(Value(), calls, out)
              == Resume(World(), origin, m, body, Ran(old(Value()), before, response), newAddr)
      decreases SizeOfSub(m), 0
    {
      calls := before;
      if response.Host? {
        return response, calls;
      }
      ghost var more;
      if WantsReply(m.replyOn, response.result) {
        var b := if response.result.Ok? then m.onOk else m.onErr;
        out, more := Reply(origin, m.id, ForReply(response.result, newAddr), body, b);
        calls := before + more;
      } else if response.result.Err? {
        BeginError(response.result.error);
        out := response;
      } else {
        out, more := HandleResponse(origin, response.result.response);
        calls := before + more;
      }
    }

    method Reply(origin: Addr, id: nat, result: SubResult, body: string, b: Behavior)
      returns (out: Outcome, ghost calls: seq<EntryCall>)
      requires Valid()
      modifies this, states, debugLog, debugLog.callTrace, states.Cells()
      ensures Valid() && Stable()
      ensures Ran(Value(), calls, out) == ReplyTo(World(), old(Value()), origin, id, result, body, b)
      decreases SizeOf(b), 0
    {
      hide Value;
      hide Machine.HandleResponse;
      calls := [];
      var failure := CreateInstance(origin);
      if failure.Some? {
        return Host(failure.value), calls;
      }
      var callId := EnterContract(origin, Name(origin, "reply", body), b);
      calls := [CallReply(origin, id, result)];
      match b.verdict
      case Trap(e) =>
        out := Host(VmError(e));
      case Reject(e) =>
        BeginError(e);
        out := Done(Err(e));
      case Accept(r) =>
        ghost var more;
        out, more := FinishCall(origin, r, callId);
        calls := calls + more;
    }

    // -------------------------------------------------------------- transactions

    /** Every object in charge was so before or is new. */
    twostate predicate Renewed()
      reads this, states
    {
      && (states == old(states) || fresh(states))
      && (debugLog == old(debugLog) || fresh({debugLog, debugLog.callTrace}))
      && fresh(states.Cells() - old(states.Cells()))
    }

    method AdvanceBlock()
      requires Valid()
      modifies states`blockNumber
      ensures Value() == NextBlock(old(Value()))
    {
      states.UpdateBlock();
      assert states.Contracts() == old(states.Contracts());
    }

    method ClearLog()
      requires Valid()
      modifies this`debugLog
      ensures fresh({debugLog, debugLog.callTrace}) && Value() == old(Value()).(log := EmptyLog())
    {
      debugLog := new DebugLog();
      assert states.Contracts() == old(states.Contracts());
    }

    /** Ends a transaction: undo it, or move on to the next block. */
    method Finish(out: Outcome, stateCopy: Model, ghost s: State) returns (result: TxResult)
      requires Valid() && stateCopy.Valid() && stateCopy.World() == World() && stateCopy.Value() == s
      requires stateCopy != this && stateCopy.states != states
      modifies this, states`blockNumber
      ensures Valid() && World() == old(World())
      ensures (states == old(states) && states.Cells() == old(states.Cells())) || states == stateCopy.states
      ensures debugLog == old(debugLog) || debugLog == stateCopy.debugLog || fresh({debugLog, debugLog.callTrace})
      ensures Transacted(Value(), result) == Conclude(out, s, old(Value()))
    {
      match out
      case Host(f) =>
        result := Aborted(f);
      case Done(Err(_)) =>
        var log := TakeLog();
        Revert(stateCopy);
        result := Logged(log);
      case Done(Ok(_)) =>
        AdvanceBlock();
        var log := TakeLog();
        ClearLog();
        result := Logged(log);
    }

    /** A deep copy to return to. */
    method Snapshot() returns (copy: Model)
      requires Valid()
      ensures copy.Valid() && fresh(copy.Repr()) && copy.World() == World()
      ensures copy.Value() == Value() && Value() == old(Value())
    {
      copy := new Model.Clone(this);
      assert states.Contracts() == old(states.Contracts());
    }

    /** The log as a value. */
    method TakeLog() returns (log: Log)
      ensures log == Value().log && Value() == old(Value())
    {
      var t := debugLog.callTrace;
      log := Log(debugLog.logs, debugLog.errMsg,
                 Trace(t.callGraph, t.callGraphLabels, t.callIdCounter, t.currentCallId));
    }

    /** The object and everything it owns are different from those of another model. */
    ghost predicate Apart(other: Model)
      reads this, states, debugLog, other, other.states, other.debugLog
    {
      && this != other && states != other.states && debugLog != other.debugLog
      && debugLog.callTrace != other.debugLog.callTrace && states.Cells() !! other.states.Cells()
    }

    /** A model whose objects have not changed stands for the same state. */
    twostate lemma Untouched()
      requires old(Valid()) && unchanged(this) && states == old(states) && debugLog == old(debugLog)
      requires unchanged(old(states), old(debugLog), old(debugLog.callTrace), old(states.Cells()))
      ensures Valid() && Value() == old(Value()) && World() == old(World())
    {
      assert states.Contracts() == old(states.Contracts());
    }

    /** Runs the contracts of a transaction; a copy made before is not affected. */
    method RunInner(tx: Tx, copy: Model) returns (out: Outcome)
      requires Valid() && copy.Valid() && Apart(copy)
      modifies this, states, debugLog, debugLog.callTrace, states.Cells()
      ensures Valid() && Stable()
      ensures copy.Valid() && copy.Value() == old(copy.Value()) && copy.World() == old(copy.World())
      ensures var r := Inner(World(), old(Value()), tx); Value() == r.state && out == r.out
    {
      match tx {
        case ExecuteTx(addr, body, funds, run) =>
          ghost var calls;
          out, calls := ExecuteInner(addr, sender, body, funds, run);
        case InstantiateTx(codeId, body, funds, run) =>
          var newAddr;
          ghost var calls;
          out, newAddr, calls := InstantiateInner(codeId, sender, body, funds, run);
      }
      copy.Untouched();
    }

    /**
     * A whole transaction. When its contracts fail the objects that hold the state are replaced by the
     * copies made before it started, so that nothing the contracts wrote in place can be seen any more.
     */
    method RunTransaction(tx: Tx) returns (result: TxResult)
      requires Valid()
      modifies this, states, debugLog, debugLog.callTrace, states.Cells()
      ensures Valid() && World() == old(World()) && Renewed()
      ensures Transacted(Value(), result) == Transact(World(), old(Value()), tx)
    {
      hide Value;
      hide Conclude;
      hide Inner;
      var stateCopy := Snapshot();
      var out := RunInner(tx, stateCopy);
      result := Finish(out, stateCopy, old(Value()));
    }

    method Execute(addr: Addr, body: string, funds: seq<Coin>, run: Behavior) returns (result: TxResult)
      requires Valid()
      modifies this, states, debugLog, debugLog.callTrace, states.Cells()
      ensures Valid() && World() == old(World()) && Renewed()
      ensures Transacted(Value(), result) == Transact(World(), old(Value()), ExecuteTx(addr, body, funds, run))
    {
      result := RunTransaction(ExecuteTx(addr, body, funds, run));
    }

    method Instantiate(codeId: nat, body: string, funds: seq<Coin>, run: Behavior) returns (result: TxResult)
      requires Valid()
      modifies this, states, debugLog, debugLog.callTrace, states.Cells()
      ensures Valid() && World() == old(World()) && Renewed()
      ensures Transacted(Value(), result) == Transact(World(), old(Value()), InstantiateTx(codeId, body, funds, run))
    {
      result := RunTransaction(InstantiateTx(codeId, body, funds, run));
    }
  }
}
