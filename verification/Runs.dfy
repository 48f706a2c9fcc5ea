/**
 * Every run of the engine, however its submessages and replies nest, is a sequence of primitive steps.
 * What each primitive step keeps, every run keeps; the invariants of whole runs are proved that way.
 */
module Runs {
  import opened Base
  import opened Chain
  import opened Ledgers
  import opened Machine

  datatype Prim =
    | Fetching(addr: Addr)
    | Creating(codeId: nat, payer: Addr, body: string, funds: seq<Coin>)
    | Discarding(addr: Addr)
    | Financing(payer: Addr, to: Addr, funds: seq<Coin>)
    | Banking(payer: Addr, msg: BankMsg)
    | Opening(name: string, entry: Option<EntryCall>)
    | Closed(parent: nat)
    | Noting(error: string)
    | Appending(events: seq<Event>)
    | Erring(error: string)
    | Performing(addr: Addr, effect: Effect)
    | Covering(addr: Addr)

  function Step(w: Chain, s: State, p: Prim): State {
    match p
    case Fetching(a) => (match Fetch(w, s, a) case Some(s') => s' case None => s)
    case Creating(codeId, payer, _, funds) => Allocate(w, s, codeId, payer, funds).state
    case Discarding(a) => Discard(s, a)
    case Financing(payer, to, funds) => Fund(w, s, payer, to, funds).state
    case Banking(payer, msg) => s.(bank := CarryOut(w, s.bank, payer, msg).bank)
    case Opening(name, _) => OpenCall(s, name)
    case Closed(parent) => CloseCall(s, parent)
    case Noting(e) => NoteError(s, e)
    case Appending(events) => Append(s, events)
    case Erring(e) => SetErr(s, e)
    case Performing(a, e) => Perform(w, s, a, e)
    case Covering(a) => Cover(s, a)
  }

  /** A call context is only ever closed back to a node that exists; it is opened to execute or to reply. */
  predicate Enabled(s: State, p: Prim) {
    && (p.Closed? ==> p.parent <= s.log.trace.counter)
    && (p.Opening? && p.entry.Some? ==> p.entry.value.CallExecute? || p.entry.value.CallReply?)
  }

  /** The calls made by a primitive step. A new contract is called as soon as it has been created. */
  function CallsBy(w: Chain, s: State, p: Prim): seq<EntryCall> {
    match p
    case Creating(codeId, payer, body, funds) =>
      var a := Allocate(w, s, codeId, payer, funds);
      Funding(payer, a.addr, funds)
      + if a.result.Allocated? then [CallInstantiate(a.addr, payer, body, funds)] else []
    case Financing(payer, to, funds) => Funding(payer, to, funds)
    case Banking(payer, msg) => [CallBank(payer, msg)]
    case Opening(_, entry) => if entry.Some? then [entry.value] else []
    case _ => []
  }

  function StepAll(w: Chain, s: State, ps: seq<Prim>): State
    decreases |ps|
  {
    if ps == [] then s else StepAll(w, Step(w, s, ps[0]), ps[1..])
  }

  predicate AllEnabled(w: Chain, s: State, ps: seq<Prim>)
    decreases |ps|
  {
    ps == [] || (Enabled(s, ps[0]) && AllEnabled(w, Step(w, s, ps[0]), ps[1..]))
  }

  function CallsByAll(w: Chain, s: State, ps: seq<Prim>): seq<EntryCall>
    decreases |ps|
  {
    if ps == [] then [] else CallsBy(w, s, ps[0]) + CallsByAll(w, Step(w, s, ps[0]), ps[1..])
  }

  /** The steps ps lead from s to the state of r and make exactly its calls, in order. */
  ghost predicate Explains(w: Chain, s: State, ps: seq<Prim>, r: Ran) {
    Leads(w, s, ps, r.state, r.calls)
  }

  ghost predicate Leads(w: Chain, s: State, ps: seq<Prim>, s': State, calls: seq<EntryCall>) {
    AllEnabled(w, s, ps) && StepAll(w, s, ps) == s' && CallsByAll(w, s, ps) == calls
  }

  ghost predicate Anchored(s: State) {
    s.log.trace.current <= s.log.trace.counter
  }

  // ---------------------------------------------------------------- composing steps

  lemma {:induction false} StepConcat(w: Chain, s: State, ps: seq<Prim>, qs: seq<Prim>)
    ensures StepAll(w, s, ps + qs) == StepAll(w, StepAll(w, s, ps), qs)
    ensures AllEnabled(w, s, ps + qs) <==> AllEnabled(w, s, ps) && AllEnabled(w, StepAll(w, s, ps), qs)
    decreases |ps|
  {
    if ps == [] {
      assert ps + qs == qs;
    } else {
      var s' := Step(w, s, ps[0]);
      assert (ps + qs)[0] == ps[0] && (ps + qs)[1..] == ps[1..] + qs;
      StepConcat(w, s', ps[1..], qs);
    }
  }

  lemma {:induction false} CallsConcat(w: Chain, s: State, ps: seq<Prim>, qs: seq<Prim>)
    ensures CallsByAll(w, s, ps + qs) == CallsByAll(w, s, ps) + CallsByAll(w, StepAll(w, s, ps), qs)
    decreases |ps|
  {
    if ps == [] {
      assert ps + qs == qs;
    } else {
      var s' := Step(w, s, ps[0]);
      assert (ps + qs)[0] == ps[0] && (ps + qs)[1..] == ps[1..] + qs;
      CallsConcat(w, s', ps[1..], qs);
    }
  }

  lemma Then(
    w: Chain, s: State, ps: seq<Prim>, s1: State, paid1: seq<EntryCall>, qs: seq<Prim>, s2: State,
    paid2: seq<EntryCall>)
    requires Leads(w, s, ps, s1, paid1) && Leads(w, s1, qs, s2, paid2)
    ensures Leads(w, s, ps + qs, s2, paid1 + paid2)
  {
    StepConcat(w, s, ps, qs);
    CallsConcat(w, s, ps, qs);
  }

  lemma One(w: Chain, s: State, p: Prim)
    requires Enabled(s, p)
    ensures Leads(w, s, [p], Step(w, s, p), CallsBy(w, s, p))
  {
    assert [p][1..] == [];
    assert StepAll(w, Step(w, s, p), []) == Step(w, s, p);
    assert CallsByAll(w, Step(w, s, p), []) == [];
  }

  /** One more step at the end. */
  lemma More(w: Chain, s: State, ps: seq<Prim>, s1: State, paid: seq<EntryCall>, p: Prim)
    requires Leads(w, s, ps, s1, paid) && Enabled(s1, p)
    ensures Leads(w, s, ps + [p], Step(w, s1, p), paid + CallsBy(w, s1, p))
  {
    One(w, s1, p);
    Then(w, s, ps, s1, paid, [p], Step(w, s1, p), CallsBy(w, s1, p));
  }

  /** Funding a call touches nothing but the bank and the messages of the log. */
  lemma FundFrame(w: Chain, s: State, payer: Addr, to: Addr, funds: seq<Coin>)
    ensures var f := Fund(w, s, payer, to, funds).state;
            f == s.(bank := f.bank, log := f.log) && f.log.trace == s.log.trace
  {
  }

  /** Allocating takes a number, funds the new address and, if all goes well, puts an empty contract there. */
  lemma AllocateFrame(w: Chain, s: State, codeId: nat, payer: Addr, funds: seq<Coin>)
    ensures var a := Allocate(w, s, codeId, payer, funds);
            var f := Fund(w, Numbered(s, codeId), payer, a.addr, funds).state;
            && a.addr == NextAddress(w, s, codeId)
            && a.state == s.(counters := Numbered(s, codeId).counters, bank := f.bank, log := f.log,
                             contracts := a.state.contracts)
            && f.log.trace == s.log.trace
            && (!a.result.Allocated? ==> a.state.contracts == s.contracts)
            && (a.result.Allocated? ==>
                  && CodeOf(w, s, codeId).Some?
                  && a.state.contracts == s.contracts[a.addr := ContractState(CodeOf(w, s, codeId).value, map[])])
  {
    FundFrame(w, Numbered(s, codeId), payer, NextAddress(w, s, codeId), funds);
    hide Fund;
  }

  lemma StepAnchored(w: Chain, s: State, p: Prim)
    requires Anchored(s) && Enabled(s, p)
    ensures Anchored(Step(w, s, p)) && Step(w, s, p).log.trace.counter >= s.log.trace.counter
  {
    hide Allocate;
    hide Fund;
    if p.Creating? {
      AllocateFrame(w, s, p.codeId, p.payer, p.funds);
    } else if p.Financing? {
      FundFrame(w, s, p.payer, p.to, p.funds);
    }
  }

  lemma {:induction false} LeadsAnchored(w: Chain, s: State, ps: seq<Prim>, s': State, paid: seq<EntryCall>)
    requires Leads(w, s, ps, s', paid) && Anchored(s)
    ensures Anchored(s') && s'.log.trace.counter >= s.log.trace.counter
    decreases |ps|
  {
    if ps != [] {
      StepAnchored(w, s, ps[0]);
      var s1 := Step(w, s, ps[0]);
      LeadsAnchored(w, s1, ps[1..], s', CallsByAll(w, s1, ps[1..]));
    }
  }

  // ---------------------------------------------------------------- the engine takes primitive steps

  lemma {:induction false} StepsOfEffects(w: Chain, s: State, a: Addr, es: seq<Effect>) returns (ps: seq<Prim>)
    ensures Leads(w, s, ps, PerformAll(w, s, a, es), [])
    decreases |es|
  {
    if es == [] {
      ps := [];
    } else {
      var p := Performing(a, es[0]);
      var rest := StepsOfEffects(w, Step(w, s, p), a, es[1..]);
      One(w, s, p);
      Then(w, s, [p], Step(w, s, p), [], rest, PerformAll(w, s, a, es), []);
      ps := [p] + rest;
    }
  }

  /** Opening a call context and running the contract in it. */
  lemma StepsOfInvoke(w: Chain, s: State, name: string, entry: Option<EntryCall>, a: Addr, b: Behavior)
    returns (ps: seq<Prim>)
    requires Enabled(s, Opening(name, entry))
    ensures Leads(w, s, ps, Invoke(w, OpenCall(s, name), a, b), if entry.Some? then [entry.value] else [])
  {
    var s1, p := OpenCall(s, name), Opening(name, entry);
    var call := CallsBy(w, s, p);
    One(w, s, p);
    var es := StepsOfEffects(w, s1, a, b.effects);
    var s2 := PerformAll(w, s1, a, b.effects);
    Then(w, s, [p], s1, call, es, s2, []);
    assert call + [] == call;
    ps := [p] + es;
    if !b.verdict.Trap? {
      More(w, s, ps, s2, call, Covering(a));
      ps := ps + [Covering(a)];
    }
  }

  lemma {:induction false} StepsOfResponse(w: Chain, s: State, origin: Addr, r: Response) returns (ps: seq<Prim>)
    requires Anchored(s)
    ensures Explains(w, s, ps, HandleResponse(w, s, origin, r))
    decreases SizeOfAll(r.messages), 1
  {
    if r.messages == [] {
      ps := [];
    } else {
      ps := StepsOfMessages(w, s, origin, r.messages);
    }
  }

  lemma {:induction false} StepsOfMessages(w: Chain, s: State, origin: Addr, ms: seq<SubMsg>) returns (ps: seq<Prim>)
    requires Anchored(s) && ms != []
    ensures Explains(w, s, ps, HandleMessages(w, s, origin, ms))
    decreases SizeOfAll(ms), 0
  {
    hide Leads;
    hide HandleSub;
    ps := StepsOfSub(w, s, origin, ms[0]);
    var r := HandleSub(w, s, origin, ms[0]);
    if !(r.out.Host? || r.out.result.Err? || |ms| == 1) {
      LeadsAnchored(w, s, ps, r.state, r.calls);
      var qs := StepsOfMessages(w, r.state, origin, ms[1..]);
      ps := Sequel(w, s, ps, r.state, r.calls, qs, HandleMessages(w, r.state, origin, ms[1..]));
    }
  }

  /** Steps for a first part and steps for what comes after it explain the whole. */
  lemma Sequel(w: Chain, s: State, ps: seq<Prim>, s1: State, calls: seq<EntryCall>, qs: seq<Prim>, r: Ran)
    returns (all: seq<Prim>)
    requires Leads(w, s, ps, s1, calls) && Explains(w, s1, qs, r)
    ensures Explains(w, s, all, After(calls, r))
  {
    hide Leads;
    Then(w, s, ps, s1, calls, qs, r.state, r.calls);
    all := ps + qs;
  }

  lemma {:induction false} StepsOfSub(w: Chain, s: State, origin: Addr, m: SubMsg) returns (ps: seq<Prim>)
    requires Anchored(s)
    ensures Explains(w, s, ps, HandleSub(w, s, origin, m))
    decreases SizeOfSub(m), 1
  {
    match m.msg
    case Bank(msg) =>
      One(w, s, Banking(origin, msg));
      ps := [Banking(origin, msg)];
    case Execute(target, body, funds, run) =>
      var qs := StepsOfExecute(w, s, target, origin, body, funds, run);
      ps := StepsOfResume(w, s, origin, m, body, ExecuteInner(w, s, target, origin, body, funds, run), None, qs);
    case Instantiate(admin, codeId, body, funds, run) =>
      if admin.Some? && admin.value != origin {
        ps := StepsOfResume(w, s, origin, m, body, Ran(s, [], Done(Err("cannot instantiate contract"))), None, []);
      } else {
        var i := InstantiateInner(w, s, codeId, origin, body, funds, run);
        var qs := StepsOfInstantiate(w, s, codeId, origin, body, funds, run);
        ps := StepsOfResume(w, s, origin, m, body, i.ran, i.addr, qs);
      }
  }

  lemma {:induction false} StepsOfResume(
    w: Chain, s: State, origin: Addr, m: SubMsg, body: string, r: Ran, newAddr: Option<Addr>, qs: seq<Prim>)
    returns (ps: seq<Prim>)
    requires Anchored(s) && Settled(r.out) && Explains(w, s, qs, r)
    ensures Explains(w, s, ps, Resume(w, origin, m, body, r, newAddr))
    decreases SizeOfSub(m), 0
  {
    hide Leads;
    LeadsAnchored(w, s, qs, r.state, r.calls);
    if r.out.Host? {
      ps := qs;
    } else if WantsReply(m.replyOn, r.out.result) {
      var b := if r.out.result.Ok? then m.onOk else m.onErr;
      var result := ForReply(r.out.result, newAddr);
      var rs := StepsOfReply(w, r.state, origin, m.id, result, body, b);
      ps := Sequel(w, s, qs, r.state, r.calls, rs, ReplyTo(w, r.state, origin, m.id, result, body, b));
    } else if r.out.result.Err? {
      More(w, s, qs, r.state, r.calls, Noting(r.out.result.error));
      assert r.calls + [] == r.calls;
      ps := qs + [Noting(r.out.result.error)];
    } else {
      ps := qs;
      assert r.calls + [] == r.calls;
    }
  }

  /** From an opened and run contract to the end of its call. */
  lemma {:induction false} StepsOfAnswer(
    w: Chain, s: State, ps: seq<Prim>, s2: State, calls: seq<EntryCall>, parent: nat, a: Addr, r: Response)
    returns (all: seq<Prim>)
    requires Anchored(s) && Leads(w, s, ps, s2, calls) && parent <= s.log.trace.counter
    ensures Explains(w, s, all, After(calls, Closing(parent, HandleResponse(w, Append(s2, r.events), a, r))))
    decreases SizeOfAll(r.messages), 2
  {
    hide Leads;
    hide HandleResponse;
    hide Anchored;
    More(w, s, ps, s2, calls, Appending(r.events));
    assert calls + [] == calls;
    var s3 := Append(s2, r.events);
    LeadsAnchored(w, s, ps + [Appending(r.events)], s3, calls);
    var qs := StepsOfResponse(w, s3, a, r);
    var h := HandleResponse(w, s3, a, r);
    all := Sequel(w, s, ps + [Appending(r.events)], s3, calls, qs, h);
    if h.out.Done? {
      LeadsAnchored(w, s, all, h.state, calls + h.calls);
      More(w, s, all, h.state, calls + h.calls, Closed(parent));
      assert (calls + h.calls) + [] == calls + h.calls;
      all := all + [Closed(parent)];
    }
  }

  lemma {:induction false} StepsOfReply(
    w: Chain, s: State, origin: Addr, id: nat, result: SubResult, body: string, b: Behavior) returns (ps: seq<Prim>)
    requires Anchored(s)
    ensures Explains(w, s, ps, ReplyTo(w, s, origin, id, result, body, b))
    decreases SizeOf(b), 0
  {
    hide Leads;
    hide Invoke;
    hide HandleResponse;
    var c := Create(w, s, origin);
    One(w, s, Fetching(origin));
    ps := [Fetching(origin)];
    if c.failure.None? {
      var name, call := Name(origin, "reply", body), CallReply(origin, id, result);
      ps := StepsOfCall(w, s, ps, c.state, [], name, Some(call), origin, b);
      var s2 := Invoke(w, OpenCall(c.state, name), origin, b);
      assert [] + [call] == [call];
      match b.verdict
      case Trap(_) =>
      case Reject(e) =>
        More(w, s, ps, s2, [call], Noting(e));
        assert [call] + [] == [call];
        ps := ps + [Noting(e)];
      case Accept(r) =>
        ps := StepsOfAnswer(w, s, ps, s2, [call], s.log.trace.current, origin, r);
    }
  }

  lemma {:induction false} StepsOfExecute(
    w: Chain, s: State, addr: Addr, sender: Addr, body: string, funds: seq<Coin>, run: Behavior) returns (ps: seq<Prim>)
    requires Anchored(s)
    ensures Explains(w, s, ps, ExecuteInner(w, s, addr, sender, body, funds, run))
    decreases SizeOf(run), 0
  {
    hide Leads;
    hide Invoke;
    hide HandleResponse;
    hide Fund;
    var c := Create(w, s, addr);
    One(w, s, Fetching(addr));
    ps := [Fetching(addr)];
    if c.failure.None? {
      More(w, s, ps, c.state, [], Financing(sender, addr, funds));
      ps := ps + [Financing(sender, addr, funds)];
      var f := Fund(w, c.state, sender, addr, funds);
      var paid := Funding(sender, addr, funds);
      assert [] + paid == paid;
      if f.error.None? {
        FundFrame(w, c.state, sender, addr, funds);
        var name, call := Name(addr, "execute", body), CallExecute(addr, sender, body, funds);
        ps := StepsOfCall(w, s, ps, f.state, paid, name, Some(call), addr, run);
        var s2 := Invoke(w, OpenCall(f.state, name), addr, run);
        match run.verdict
        case Trap(_) =>
        case Reject(e) =>
          ps := StepsOfError(w, s, ps, s2, paid + [call], e);
        case Accept(r) =>
          ps := StepsOfAnswer(w, s, ps, s2, paid + [call], s.log.trace.current, addr, r);
      }
    }
  }

  lemma StepsOfCall(
    w: Chain, s: State, ps: seq<Prim>, s1: State, paid: seq<EntryCall>, name: string, entry: Option<EntryCall>, a: Addr,
    b: Behavior)
    returns (all: seq<Prim>)
    requires Leads(w, s, ps, s1, paid) && Enabled(s1, Opening(name, entry))
    ensures Leads(w, s, all, Invoke(w, OpenCall(s1, name), a, b), paid + if entry.Some? then [entry.value] else [])
  {
    hide Leads;
    var qs := StepsOfInvoke(w, s1, name, entry, a, b);
    var call := if entry.Some? then [entry.value] else [];
    Then(w, s, ps, s1, paid, qs, Invoke(w, OpenCall(s1, name), a, b), call);
    all := ps + qs;
  }

  lemma StepsOfError(w: Chain, s: State, ps: seq<Prim>, s1: State, paid: seq<EntryCall>, e: string)
    returns (all: seq<Prim>)
    requires Leads(w, s, ps, s1, paid)
    ensures Leads(w, s, all, NoteError(SetErr(s1, e), e), paid)
  {
    hide Leads;
    assert paid + [] == paid;
    More(w, s, ps, s1, paid, Erring(e));
    More(w, s, ps + [Erring(e)], SetErr(s1, e), paid, Noting(e));
    all := ps + [Erring(e)] + [Noting(e)];
  }

  lemma {:induction false} StepsOfInstantiate(
    w: Chain, s: State, codeId: nat, sender: Addr, body: string, funds: seq<Coin>, run: Behavior)
    returns (ps: seq<Prim>)
    requires Anchored(s)
    ensures Explains(w, s, ps, InstantiateInner(w, s, codeId, sender, body, funds, run).ran)
    decreases SizeOf(run), 0
  {
    hide Leads;
    hide Invoke;
    hide HandleResponse;
    hide Fund;
    var a := Allocate(w, s, codeId, sender, funds);
    var p := Creating(codeId, sender, body, funds);
    One(w, s, p);
    ps := [p];
    if a.result.Allocated? {
      AllocateFrame(w, s, codeId, sender, funds);
      var name := Name(a.addr, "instantiate", body);
      var calls := Funding(sender, a.addr, funds) + [CallInstantiate(a.addr, sender, body, funds)];
      ps := StepsOfCall(w, s, ps, a.state, calls, name, None, a.addr, run);
      assert calls + [] == calls;
      var s2 := Invoke(w, OpenCall(a.state, name), a.addr, run);
      match run.verdict
      case Trap(_) =>
      case Reject(e) =>
        More(w, s, ps, s2, calls, Discarding(a.addr));
        ps := StepsOfError(w, s, ps + [Discarding(a.addr)], Discard(s2, a.addr), calls, e);
      case Accept(r) =>
        ps := StepsOfAnswer(w, s, ps, s2, calls, s.log.trace.current, a.addr, Announced(r, codeId, a.addr));
    } else {
      assert Funding(sender, a.addr, funds) + [] == Funding(sender, a.addr, funds);
    }
  }

  /** Every run of the engine is a sequence of primitive steps that makes exactly the calls of the run. */
  lemma RunIsSteps(w: Chain, s: State, tx: Tx) returns (ps: seq<Prim>)
    requires Anchored(s)
    ensures Explains(w, s, ps, Inner(w, s, tx))
  {
    match tx
    case ExecuteTx(addr, body, funds, run) =>
      ps := StepsOfExecute(w, s, addr, s.sender, body, funds, run);
    case InstantiateTx(codeId, body, funds, run) =>
      ps := StepsOfInstantiate(w, s, codeId, s.sender, body, funds, run);
  }
}
