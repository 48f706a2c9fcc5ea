/**
 * When the call context is restored. Every entry point is called in a context of its own; the code that
 * handles a rejection never closes it, so that what follows is recorded below the call that failed.
 */
module Contexts {
  import opened Base
  import opened Chain
  import opened Machine
  import opened Runs
  import opened Atomicity

  function Current(s: State): nat {
    s.log.trace.current
  }

  /** The node a call gets if one is opened now. */
  function Next(s: State): nat {
    s.log.trace.counter + 1
  }

  // ---------------------------------------------------------------- calls

  /** The call context of a contract that ran and rejected is still open. */
  lemma RejectedContext(w: Chain, s: State, name: string, a: Addr, b: Behavior)
    ensures Current(Invoke(w, OpenCall(s, name), a, b)) == Next(s)
  {
    EffectsKeepLog(w, OpenCall(s, name), a, b.effects);
  }

  /**
   * An execution that comes to an answer restores the context it started from, unless it is rejected after
   * its funds were paid: then the context of the rejected call stays open.
   */
  lemma ExecuteRestoresContextIff(
    w: Chain, s: State, addr: Addr, sender: Addr, body: string, funds: seq<Coin>, run: Behavior)
    requires Anchored(s) && ExecuteInner(w, s, addr, sender, body, funds, run).out.Done?
    ensures var open := run.verdict.Reject? && Fund(w, Create(w, s, addr).state, sender, addr, funds).error.None?;
            && (Current(ExecuteInner(w, s, addr, sender, body, funds, run).state) == Current(s) <==> !open)
            && (open ==> Current(ExecuteInner(w, s, addr, sender, body, funds, run).state) == Next(s))
  {
    hide Fund;
    hide Invoke;
    hide HandleResponse;
    var s1 := Create(w, s, addr).state;
    FundFrame(w, s1, sender, addr, funds);
    RejectedContext(w, Fund(w, s1, sender, addr, funds).state, Name(addr, "execute", body), addr, run);
  }

  /** Likewise for an instantiation that is rejected after its contract was created. */
  lemma InstantiateRestoresContextIff(
    w: Chain, s: State, codeId: nat, sender: Addr, body: string, funds: seq<Coin>, run: Behavior)
    requires Anchored(s) && InstantiateInner(w, s, codeId, sender, body, funds, run).ran.out.Done?
    ensures var open := run.verdict.Reject? && Allocate(w, s, codeId, sender, funds).result.Allocated?;
            var s' := InstantiateInner(w, s, codeId, sender, body, funds, run).ran.state;
            (Current(s') == Current(s) <==> !open) && (open ==> Current(s') == Next(s))
  {
    hide Allocate;
    hide Invoke;
    hide HandleResponse;
    var a := Allocate(w, s, codeId, sender, funds);
    AllocateFrame(w, s, codeId, sender, funds);
    RejectedContext(w, a.state, Name(a.addr, "instantiate", body), a.addr, run);
  }

  /** Likewise for a reply that is rejected. */
  lemma ReplyRestoresContextIff(
    w: Chain, s: State, origin: Addr, id: nat, result: SubResult, body: string, b: Behavior)
    requires Anchored(s) && ReplyTo(w, s, origin, id, result, body, b).out.Done?
    ensures var s' := ReplyTo(w, s, origin, id, result, body, b).state;
            (Current(s') == Current(s) <==> !b.verdict.Reject?) && (b.verdict.Reject? ==> Current(s') == Next(s))
  {
    hide Invoke;
    hide HandleResponse;
    RejectedContext(w, Create(w, s, origin).state, Name(origin, "reply", body), origin, b);
  }

  // ---------------------------------------------------------------- submessages

  /** The contract called for a submessage is reached and rejects. */
  predicate FirstRejected(w: Chain, s: State, origin: Addr, m: SubMsg) {
    match m.msg
    case Bank(_) => false
    case Execute(target, _, funds, run) =>
      run.verdict.Reject? && Fund(w, Create(w, s, target).state, origin, target, funds).error.None?
    case Instantiate(admin, codeId, _, funds, run) =>
      && run.verdict.Reject? && !(admin.Some? && admin.value != origin)
      && Allocate(w, s, codeId, origin, funds).result.Allocated?
  }

  /** The origin is called back with the result of the submessage and rejects. */
  predicate ReplyRejected(m: SubMsg, out: Outcome) {
    && !m.msg.Bank? && out.Done? && WantsReply(m.replyOn, out.result)
    && (if out.result.Ok? then m.onOk else m.onErr).verdict.Reject?
  }

  lemma FirstContextIff(w: Chain, s: State, origin: Addr, m: SubMsg)
    requires Anchored(s) && FirstRun(w, s, origin, m).out.Done?
    ensures var s1, open := FirstRun(w, s, origin, m).state, FirstRejected(w, s, origin, m);
            && Anchored(s1) && s1.log.trace.counter >= s.log.trace.counter
            && (Current(s1) == Current(s) <==> !open) && (open ==> Current(s1) == Next(s))
  {
    hide ExecuteInner;
    hide InstantiateInner;
    hide Fund;
    hide Allocate;
    var r := FirstRun(w, s, origin, m);
    match m.msg
    case Bank(_) =>
    case Execute(target, body, funds, run) =>
      ExecuteRestoresContextIff(w, s, target, origin, body, funds, run);
      var ps := StepsOfExecute(w, s, target, origin, body, funds, run);
      LeadsAnchored(w, s, ps, r.state, r.calls);
    case Instantiate(admin, codeId, body, funds, run) =>
      if !(admin.Some? && admin.value != origin) {
        InstantiateRestoresContextIff(w, s, codeId, origin, body, funds, run);
        var ps := StepsOfInstantiate(w, s, codeId, origin, body, funds, run);
        LeadsAnchored(w, s, ps, r.state, r.calls);
      }
  }

  /**
   * A submessage that comes to an answer restores the context if and only if neither the contract it calls
   * nor the reply to its origin rejects. If the call was rejected and the reply was not, everything dispatched
   * afterwards is recorded below the call that failed.
   */
  lemma SubmessageRestoresContextIff(w: Chain, s: State, origin: Addr, m: SubMsg)
    requires Anchored(s) && HandleSub(w, s, origin, m).out.Done?
    ensures var s', first := HandleSub(w, s, origin, m).state, FirstRun(w, s, origin, m).out;
            && (Current(s') == Current(s) <==> !FirstRejected(w, s, origin, m) && !ReplyRejected(m, first))
            && (FirstRejected(w, s, origin, m) && !ReplyRejected(m, first) ==> Current(s') == Next(s))
  {
    hide FirstRun;
    hide FirstRejected;
    var r := FirstRun(w, s, origin, m);
    SubIsFirstThenResume(w, s, origin, m);
    if m.msg.Bank? {
      BankRestoresContext(w, s, origin, m);
    } else {
      hide HandleSub;
      hide ReplyTo;
      FirstContextIff(w, s, origin, m);
      var newAddr :| HandleSub(w, s, origin, m) == Resume(w, origin, m, m.msg.body, r, newAddr);
      ResumeContext(w, origin, m, m.msg.body, r, newAddr);
    }
  }

  lemma BankRestoresContext(w: Chain, s: State, origin: Addr, m: SubMsg)
    requires m.msg.Bank?
    ensures Current(HandleSub(w, s, origin, m).state) == Current(s) && !FirstRejected(w, s, origin, m)
  {
  }

  /** What follows the first call restores the context that call left, unless the reply rejects. */
  lemma ResumeContext(w: Chain, origin: Addr, m: SubMsg, body: string, r: Ran, newAddr: Option<Addr>)
    requires Settled(r.out) && Anchored(r.state) && !m.msg.Bank? && Resume(w, origin, m, body, r, newAddr).out.Done?
    ensures r.out.Done?
    ensures Current(Resume(w, origin, m, body, r, newAddr).state)
            == if ReplyRejected(m, r.out) then Next(r.state) else Current(r.state)
  {
    hide ReplyTo;
    if r.out.Done? && WantsReply(m.replyOn, r.out.result) {
      var result, b := ForReply(r.out.result, newAddr), if r.out.result.Ok? then m.onOk else m.onErr;
      ReplyRestoresContextIff(w, r.state, origin, m.id, result, body, b);
    }
  }
}
