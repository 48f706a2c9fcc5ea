/**
 * The transaction engine as a function on values. A contract is represented by what it does when it is
 * called: a tree whose nodes are entry-point calls, each with its effects, its verdict, the submessages
 * it answers with, and the behaviour of its reply entry point for either outcome of each of them.
 */
module Machine {
  import opened Base
  import opened Chain
  import opened Decimal
  import opened Ledgers
  import opened CallTraces

  datatype ReplyOn = Always | OnSuccess | OnError | Never

  /** What a contract does to its surroundings while it runs. Effects stay even if the call is rejected. */
  datatype Effect = Put(key: Bytes, value: Bytes) | Delete(key: Bytes) | QueryBalance(owner: Addr, denom: Denom)

  datatype Response = Response(events: seq<Event>, messages: seq<SubMsg>)

  /** `Trap` is a failure of the virtual machine rather than an answer of the contract. */
  datatype Verdict = Accept(response: Response) | Reject(error: string) | Trap(error: string)

  datatype Behavior = Behavior(effects: seq<Effect>, verdict: Verdict)

  datatype CosmosMsg =
    | Execute(target: Addr, body: string, funds: seq<Coin>, run: Behavior)
    | Instantiate(admin: Option<Addr>, codeId: nat, body: string, funds: seq<Coin>, run: Behavior)
    | Bank(msg: BankMsg)

  datatype SubMsg = SubMsg(id: nat, replyOn: ReplyOn, msg: CosmosMsg, onOk: Behavior, onErr: Behavior)

  // ---------------------------------------------------------------- the state

  datatype Log = Log(entries: seq<seq<Event>>, errMsg: Option<string>, trace: Trace)

  datatype Coverage = Coverage(enabled: bool, dumps: seq<Addr>)

  datatype State = State(
    contracts: map<Addr, ContractState>,
    bank: BankStates,
    blockNumber: nat,
    blockTime: nat,
    sender: Addr,
    counters: map<nat, nat>,
    log: Log,
    customCodes: map<nat, Bytes>,
    coverage: Coverage)

  function EmptyLog(): Log {
    Log([], None, NewTrace())
  }

  // ---------------------------------------------------------------- results

  datatype ContractResult = Ok(response: Response) | Err(error: string)

  datatype HostFailure =
    | NoSuchContract(addr: Addr)
    | NoSuchCode(codeId: nat)
    | CannotLoad(addr: Addr)
    | VmError(error: string)

  /** Either the contracts came to an answer, or the host gave up. */
  datatype Outcome = Done(result: ContractResult) | Host(failure: HostFailure)

  datatype SubResult = SubOk(events: seq<Event>, newAddr: Option<Addr>) | SubErr(error: string)

  /** A call of a contract entry point or of the bank, with the arguments the callee sees. */
  datatype EntryCall =
    | CallBank(payer: Addr, msg: BankMsg)
    | CallExecute(addr: Addr, sender: Addr, body: string, funds: seq<Coin>)
    | CallInstantiate(addr: Addr, sender: Addr, body: string, funds: seq<Coin>)
    | CallReply(addr: Addr, id: nat, result: SubResult)

  datatype Ran = Ran(state: State, calls: seq<EntryCall>, out: Outcome)

  /** The answer carries no submessages that still have to be dispatched. */
  predicate Settled(o: Outcome) {
    o.Done? && o.result.Ok? ==> o.result.response.messages == []
  }

  // ---------------------------------------------------------------- small steps

  function Append(s: State, events: seq<Event>): State {
    s.(log := s.log.(entries := s.log.entries + [events]))
  }

  function SetErr(s: State, e: string): State {
    s.(log := s.log.(errMsg := Some(e)))
  }

  function Traced(s: State, t: Trace): State {
    s.(log := s.log.(trace := t))
  }

  function OpenCall(s: State, name: string): State {
    Traced(s, Begin(s.log.trace, name))
  }

  function CloseCall(s: State, parent: nat): State {
    Traced(s, End(s.log.trace, parent))
  }

  function NoteError(s: State, e: string): State {
    Traced(s, Fail(s.log.trace, e))
  }

  /** Copies a contract from the remote chain the first time it is used. */
  function Fetch(w: Chain, s: State, a: Addr): (r: Option<State>)
    ensures r.Some? ==> a in r.value.contracts
  {
    if a in s.contracts then Some(s)
    else match w.contract(a)
      case Some(c) => Some(s.(contracts := s.contracts[a := c]))
      case None => None
  }

  datatype Created = Created(state: State, failure: Option<HostFailure>)

  /** Makes an instance of a contract ready to be called. What was fetched for it stays if that fails. */
  function Create(w: Chain, s: State, a: Addr): (c: Created)
    ensures c.failure.None? ==> a in c.state.contracts
  {
    match Fetch(w, s, a)
    case None => Created(s, Some(NoSuchContract(a)))
    case Some(s1) => Created(s1, if w.loads(s1.contracts[a].code) then None else Some(CannotLoad(a)))
  }

  function Perform(w: Chain, s: State, a: Addr, e: Effect): State {
    match e
    case Put(k, v) =>
      if a in s.contracts then
        s.(contracts := s.contracts[a := s.contracts[a].(storage := s.contracts[a].storage[k := v])])
      else s
    case Delete(k) =>
      if a in s.contracts then
        s.(contracts := s.contracts[a := s.contracts[a].(storage := s.contracts[a].storage - {k})])
      else s
    case QueryBalance(owner, _) => s.(bank := Load(w, s.bank, owner))
  }

  function PerformAll(w: Chain, s: State, a: Addr, es: seq<Effect>): State
    decreases |es|
  {
    if es == [] then s else PerformAll(w, Perform(w, s, a, es[0]), a, es[1..])
  }

  function Cover(s: State, a: Addr): State {
    if s.coverage.enabled then s.(coverage := s.coverage.(dumps := s.coverage.dumps + [a])) else s
  }

  /** Runs an entry point of a contract; a trapped call dumps no coverage. */
  function Invoke(w: Chain, s: State, a: Addr, b: Behavior): State {
    var s' := PerformAll(w, s, a, b.effects);
    if b.verdict.Trap? then s' else Cover(s', a)
  }

  datatype Funded = Funded(state: State, error: Option<string>)

  /** Moves the funds attached to a call before the call is made. */
  function Fund(w: Chain, s: State, sender: Addr, to: Addr, funds: seq<Coin>): Funded {
    if funds == [] then Funded(s, None)
    else
      var r := SendCoins(w, s.bank, sender, to, funds);
      var s' := s.(bank := r.bank);
      match r.error
      case None => Funded(Append(s', SendEvents(sender, to, funds)), None)
      case Some(e) => Funded(SetErr(s', e), Some(e))
  }

  /** The bank is asked only if there is something to move. */
  function Funding(sender: Addr, to: Addr, funds: seq<Coin>): seq<EntryCall> {
    if funds == [] then [] else [CallBank(sender, Send(to, funds))]
  }

  function Count(counters: map<nat, nat>, codeId: nat): nat {
    if codeId in counters then counters[codeId] else 0
  }

  function CounterOf(s: State, codeId: nat): nat {
    Count(s.counters, codeId)
  }

  function NextAddress(w: Chain, s: State, codeId: nat): Addr {
    w.addressOf(Seed(codeId, CounterOf(s, codeId)))
  }

  /** The number of the next instance of codeId is taken, whatever becomes of the instance. */
  function Numbered(s: State, codeId: nat): State {
    s.(counters := s.counters[codeId := CounterOf(s, codeId) + 1])
  }

  function CodeOf(w: Chain, s: State, codeId: nat): Option<Bytes> {
    if codeId in s.customCodes then Some(s.customCodes[codeId]) else w.code(codeId)
  }

  datatype Allocation = Allocated | Unfunded(error: string) | Unavailable(failure: HostFailure)

  datatype Allocating = Allocating(state: State, addr: Addr, result: Allocation)

  /** Everything that precedes the call of a new contract: address, funds, code, empty storage. */
  function Allocate(w: Chain, s: State, codeId: nat, sender: Addr, funds: seq<Coin>): Allocating {
    var addr := NextAddress(w, s, codeId);
    var f := Fund(w, Numbered(s, codeId), sender, addr, funds);
    if f.error.Some? then Allocating(f.state, addr, Unfunded(f.error.value))
    else match CodeOf(w, f.state, codeId)
      case None => Allocating(f.state, addr, Unavailable(NoSuchCode(codeId)))
      case Some(code) =>
        if !w.loads(code) then Allocating(f.state, addr, Unavailable(CannotLoad(addr)))
        else Allocating(f.state.(contracts := f.state.contracts[addr := ContractState(code, map[])]), addr, Allocated)
  }

  function Discard(s: State, a: Addr): State {
    s.(contracts := s.contracts - {a})
  }

  function WantsReply(on: ReplyOn, r: ContractResult): bool {
    match on
    case Always => true
    case OnSuccess => r.Ok?
    case OnError => r.Err?
    case Never => false
  }

  function ForReply(r: ContractResult, newAddr: Option<Addr>): SubResult {
    match r
    case Ok(resp) => SubOk(resp.events, newAddr)
    case Err(e) => SubErr(e)
  }

  function Name(a: Addr, entry: string, body: string): string {
    a + ":" + entry + "(" + body + ")"
  }

  // ---------------------------------------------------------------- the interpreter

  function SizeOf(b: Behavior): nat {
    1 + if b.verdict.Accept? then SizeOfAll(b.verdict.response.messages) else 0
  }

  function SizeOfAll(ms: seq<SubMsg>): nat {
    if ms == [] then 0 else 1 + SizeOfSub(ms[0]) + SizeOfAll(ms[1..])
  }

  function SizeOfSub(m: SubMsg): nat {
    1 + SizeOf(m.onOk) + SizeOf(m.onErr)
    + match m.msg
      case Execute(_, _, _, run) => SizeOf(run)
      case Instantiate(_, _, _, _, run) => SizeOf(run)
      case Bank(_) => 0
  }

  /** Continues a run with the result of a later one. */
  function After(calls: seq<EntryCall>, r: Ran): Ran {
    Ran(r.state, calls + r.calls, r.out)
  }

  /** Dispatches the submessages of a response; without any, the response is itself the answer. */
  function HandleResponse(w: Chain, s: State, origin: Addr, r: Response): (ran: Ran)
    ensures Settled(ran.out)
    decreases SizeOfAll(r.messages), 1
  {
    if r.messages == [] then Ran(s, [], Done(Ok(r))) else HandleMessages(w, s, origin, r.messages)
  }

  /** The dispatch loop: the first error or host failure stops it, the last answer is the answer. */
  function HandleMessages(w: Chain, s: State, origin: Addr, ms: seq<SubMsg>): (ran: Ran)
    requires ms != []
    ensures Settled(ran.out)
    decreases SizeOfAll(ms), 0
  {
    var r := HandleSub(w, s, origin, ms[0]);
    if r.out.Host? || r.out.result.Err? || |ms| == 1 then r
    else After(r.calls, HandleMessages(w, r.state, origin, ms[1..]))
  }

  function HandleSub(w: Chain, s: State, origin: Addr, m: SubMsg): (ran: Ran)
    ensures Settled(ran.out)
    decreases SizeOfSub(m), 1
  {
    match m.msg
    case Bank(msg) =>
      var r := CarryOut(w, s.bank, origin, msg);
      Ran(s.(bank := r.bank), [CallBank(origin, msg)],
          Done(match r.error
               case None => Ok(Response(BankEvents(origin, msg), []))
               case Some(e) => Err(e)))
    case Execute(target, body, funds, run) =>
      Resume(w, origin, m, body, ExecuteInner(w, s, target, origin, body, funds, run), None)
    case Instantiate(admin, codeId, body, funds, run) =>
      if admin.Some? && admin.value != origin then
        Resume(w, origin, m, body, Ran(s, [], Done(Err("cannot instantiate contract"))), None)
      else
        var i := InstantiateInner(w, s, codeId, origin, body, funds, run);
        Resume(w, origin, m, body, i.ran, i.addr)
  }

  /** What follows the call made for a submessage: a reply, an error passed on, or the answer itself. */
  function Resume(w: Chain, origin: Addr, m: SubMsg, body: string, r: Ran, newAddr: Option<Addr>): (ran: Ran)
    requires Settled(r.out)
    ensures Settled(ran.out)
    ensures r.out.Host? || (r.out.result.Ok? && !WantsReply(m.replyOn, r.out.result)) ==> ran == r
    decreases SizeOfSub(m), 0
  {
    if r.out.Host? then r
    else if WantsReply(m.replyOn, r.out.result) then
      var result := ForReply(r.out.result, newAddr);
      After(r.calls, ReplyTo(w, r.state, origin, m.id, result, body, if r.out.result.Ok? then m.onOk else m.onErr))
    else if r.out.result.Err? then
      Ran(NoteError(r.state, r.out.result.error), r.calls, r.out)
    else
      assert r.calls + [] == r.calls;
      After(r.calls, HandleResponse(w, r.state, origin, r.out.result.response))
  }

  function ReplyTo(w: Chain, s: State, origin: Addr, id: nat, result: SubResult, body: string, b: Behavior): (ran: Ran)
    ensures Settled(ran.out)
    decreases SizeOf(b), 0
  {
    var c := Create(w, s, origin);
    if c.failure.Some? then Ran(c.state, [], Host(c.failure.value))
    else
      var s1 := c.state;
      var parent := s1.log.trace.current;
      var s2 := Invoke(w, OpenCall(s1, Name(origin, "reply", body)), origin, b);
      var calls := [CallReply(origin, id, result)];
      match b.verdict
      case Trap(e) => Ran(s2, calls, Host(VmError(e)))
      case Reject(e) => Ran(NoteError(s2, e), calls, Done(Err(e)))
      case Accept(r) => After(calls, Closing(parent, HandleResponse(w, Append(s2, r.events), origin, r)))
  }

  /** Leaves the call context, unless the host failed inside it. */
  function Closing(parent: nat, r: Ran): Ran {
    if r.out.Host? then r else r.(state := CloseCall(r.state, parent))
  }

  function ExecuteInner(
    w: Chain, s: State, addr: Addr, sender: Addr, body: string, funds: seq<Coin>, run: Behavior)
    : (ran: Ran)
    ensures Settled(ran.out)
    decreases SizeOf(run), 1
  {
    var c := Create(w, s, addr);
    if c.failure.Some? then Ran(c.state, [], Host(c.failure.value))
    else
      var f := Fund(w, c.state, sender, addr, funds);
      var paid := Funding(sender, addr, funds);
      if f.error.Some? then Ran(f.state, paid, Done(Err(f.error.value)))
      else RunExecute(w, f.state, paid, addr, sender, body, funds, run)
  }

  /** The call proper, once its funds have been paid. */
  function RunExecute(
    w: Chain, s: State, paid: seq<EntryCall>, addr: Addr, sender: Addr, body: string, funds: seq<Coin>, run: Behavior)
    : (ran: Ran)
    ensures Settled(ran.out)
    decreases SizeOf(run), 0
  {
    var parent := s.log.trace.current;
    var s2 := Invoke(w, OpenCall(s, Name(addr, "execute", body)), addr, run);
    var calls := paid + [CallExecute(addr, sender, body, funds)];
    match run.verdict
    case Trap(e) => Ran(s2, calls, Host(VmError(e)))
    case Reject(e) => Ran(NoteError(SetErr(s2, e), e), calls, Done(Err(e)))
    case Accept(r) => After(calls, Closing(parent, HandleResponse(w, Append(s2, r.events), addr, r)))
  }

  datatype Instantiated = Instantiated(ran: Ran, addr: Option<Addr>)

  /** The response of a new contract, with the event that announces its address. */
  function Announced(r: Response, codeId: nat, addr: Addr): Response {
    r.(events := r.events + [Event("instantiate", [("code_id", Dec(codeId)), ("_contract_address", addr)])])
  }

  function InstantiateInner(
    w: Chain, s: State, codeId: nat, sender: Addr, body: string, funds: seq<Coin>, run: Behavior)
    : (i: Instantiated)
    ensures Settled(i.ran.out)
    decreases SizeOf(run), 1
  {
    var a := Allocate(w, s, codeId, sender, funds);
    var paid := Funding(sender, a.addr, funds);
    match a.result
    case Unfunded(e) => Instantiated(Ran(a.state, paid, Done(Err(e))), None)
    case Unavailable(failure) => Instantiated(Ran(a.state, paid, Host(failure)), None)
    case Allocated => RunInstantiate(w, a.state, paid, codeId, a.addr, sender, body, funds, run)
  }

  function RunInstantiate(
    w: Chain, s: State, paid: seq<EntryCall>, codeId: nat, addr: Addr, sender: Addr, body: string, funds: seq<Coin>,
    run: Behavior)
    : (i: Instantiated)
    ensures Settled(i.ran.out)
    decreases SizeOf(run), 0
  {
    var parent := s.log.trace.current;
    var s2 := Invoke(w, OpenCall(s, Name(addr, "instantiate", body)), addr, run);
    var calls := paid + [CallInstantiate(addr, sender, body, funds)];
    match run.verdict
    case Trap(e) => Instantiated(Ran(s2, calls, Host(VmError(e))), None)
    case Reject(e) => Instantiated(Ran(NoteError(SetErr(Discard(s2, addr), e), e), calls, Done(Err(e))), None)
    case Accept(r) =>
      var r' := Announced(r, codeId, addr);
      Instantiated(After(calls, Closing(parent, HandleResponse(w, Append(s2, r'.events), addr, r'))), Some(addr))
  }

  // ---------------------------------------------------------------- transactions

  datatype Tx =
    | ExecuteTx(addr: Addr, body: string, funds: seq<Coin>, run: Behavior)
    | InstantiateTx(codeId: nat, body: string, funds: seq<Coin>, run: Behavior)

  /** The run a transaction starts, on behalf of the sender of the simulation. */
  function Inner(w: Chain, s: State, tx: Tx): (ran: Ran)
    ensures Settled(ran.out)
  {
    match tx
    case ExecuteTx(addr, body, funds, run) => ExecuteInner(w, s, addr, s.sender, body, funds, run)
    case InstantiateTx(codeId, body, funds, run) => InstantiateInner(w, s, codeId, s.sender, body, funds, run).ran
  }

  datatype TxResult = Logged(log: Log) | Aborted(failure: HostFailure)

  datatype Transacted = Transacted(state: State, result: TxResult)

  /** The pre-state comes back, except that coverage collected meanwhile is kept. */
  function Reverted(s: State, now: State): State {
    s.(coverage := now.coverage)
  }

  /** The next block; the timestamp is computed and dropped. */
  function NextBlock(s: State): State {
    s.(blockNumber := s.blockNumber + 1)
  }

  /** How a transaction that started in s ends, given the outcome and the state of its run. */
  function Conclude(out: Outcome, s: State, now: State): Transacted {
    match out
    case Host(f) => Transacted(now, Aborted(f))
    case Done(Err(_)) => Transacted(Reverted(s, now), Logged(now.log))
    case Done(Ok(_)) => Transacted(NextBlock(now).(log := EmptyLog()), Logged(now.log))
  }

  function Transact(w: Chain, s: State, tx: Tx): Transacted {
    var r := Inner(w, s, tx);
    Conclude(r.out, s, r.state)
  }
}
