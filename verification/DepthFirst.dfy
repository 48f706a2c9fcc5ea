/**
 * In which order the engine calls contracts. A `Visit` is a tree of the entry-point calls that took
 * place; `Follows` says, without running anything, which tree belongs to a behaviour: every submessage is
 * worked off with its whole subtree before the next one starts, it is answered by one reply to its
 * origin if and only if its reply condition matches the outcome, and the first error no reply turned
 * into a success is the last thing that happens. Whether a call can be made at all depends on the books:
 * the ledger loaded at the start, the instance counters and the code of the contracts there are.
 */
module DepthFirst {
  import opened Base
  import opened Chain
  import opened Decimal
  import opened Ledgers
  import opened Machine

  // ---------------------------------------------------------------- what decides whether a call can be made

  datatype Books = Books(ledger: Ledger, counters: map<nat, nat>, code: imap<Addr, Bytes>, custom: map<nat, Bytes>)

  ghost function BooksOf(w: Chain, s: State): Books {
    Books(View(w, s.bank), s.counters, CodeOfAll(w, s.contracts), s.customCodes)
  }

  /** The code of every contract, whether it has been fetched or not. */
  ghost function CodeOfAll(w: Chain, contracts: map<Addr, ContractState>): imap<Addr, Bytes> {
    imap a | a in contracts || w.contract(a).Some? ::
      if a in contracts then contracts[a].code else w.contract(a).value.code
  }

  datatype Charged = Charged(books: Books, error: Option<string>)

  ghost function Charge(x: Books, payer: Addr, to: Addr, funds: seq<Coin>): Charged {
    if funds == [] then Charged(x, None)
    else
      var r := SendAll(x.ledger, payer, to, funds);
      Charged(x.(ledger := r.ledger), r.error)
  }

  /** Why a contract cannot be called. */
  ghost function Obstacle(w: Chain, x: Books, a: Addr): Option<HostFailure> {
    if a !in x.code then Some(NoSuchContract(a))
    else if !w.loads(x.code[a]) then Some(CannotLoad(a))
    else None
  }

  ghost function NewAddr(w: Chain, x: Books, codeId: nat): Addr {
    w.addressOf(Seed(codeId, Count(x.counters, codeId)))
  }

  ghost function TakeNumber(x: Books, codeId: nat): Books {
    x.(counters := x.counters[codeId := Count(x.counters, codeId) + 1])
  }

  ghost function CodeFor(w: Chain, x: Books, codeId: nat): Option<Bytes> {
    if codeId in x.custom then Some(x.custom[codeId]) else w.code(codeId)
  }

  /** Without the contract created at a, the one of the remote chain shows again. */
  ghost function Forget(w: Chain, x: Books, a: Addr): Books {
    x.(code := imap b | (b in x.code && b != a) || (b == a && w.contract(a).Some?) ::
                 if b == a then w.contract(a).value.code else x.code[b])
  }

  // ---------------------------------------------------------------- visits

  /**
   * A call that took place or was never made, and what came out of it. Either may have been preceded by
   * a payment; a bank message is nothing but its payment.
   */
  datatype Visit =
    | Skipped(paid: seq<EntryCall>, out: Outcome)
    | Called(paid: seq<EntryCall>, entry: EntryCall, kids: seq<Kid>, out: Outcome)

  /** What was done for one submessage, and the books before it, before its reply and after it. */
  datatype Kid = Kid(before: Books, first: Visit, between: Books, reply: Option<Visit>, after: Books)

  ghost function KidOut(k: Kid): Outcome {
    if k.reply.Some? then k.reply.value.out else k.first.out
  }

  predicate Good(o: Outcome) {
    o.Done? && o.result.Ok?
  }

  /** The calls of a visit, in order. */
  ghost function Preorder(v: Visit): seq<EntryCall> {
    if v.Skipped? then v.paid else v.paid + [v.entry] + PreorderAll(v.kids)
  }

  ghost function PreorderAll(kids: seq<Kid>): seq<EntryCall> {
    if kids == [] then [] else PreorderKid(kids[0]) + PreorderAll(kids[1..])
  }

  ghost function PreorderKid(k: Kid): seq<EntryCall> {
    Preorder(k.first) + if k.reply.Some? then Preorder(k.reply.value) else []
  }

  // ---------------------------------------------------------------- the visit of a behaviour

  /** The answer to a response is the last answer to its submessages, or the response itself. */
  ghost function Answer(kids: seq<Kid>, r: Response): Outcome {
    if kids == [] then Done(Ok(r)) else KidOut(kids[|kids| - 1])
  }

  /** v is the visit of the contract at addr that behaves as b; it takes the books from x to y. */
  ghost predicate Follows(w: Chain, v: Visit, b: Behavior, addr: Addr, x: Books, y: Books)
    requires v.Called?
    decreases v, 0
  {
    match b.verdict
    case Reject(e) => v.kids == [] && v.out == Done(Err(e)) && y == x
    case Trap(e) => v.kids == [] && v.out == Host(VmError(e)) && y == x
    case Accept(r) => v.out == Answer(v.kids, r) && FollowsAll(w, v.kids, r.messages, addr, x, y)
  }

  /** The submessages are tried one after the other, up to the first that ends in a failure. */
  ghost predicate FollowsAll(w: Chain, kids: seq<Kid>, ms: seq<SubMsg>, origin: Addr, x: Books, y: Books)
    decreases kids, 0
  {
    if ms == [] then kids == [] && y == x
    else
      && kids != [] && kids[0].before == x && FollowsSub(w, kids[0], ms[0], origin)
      && if Good(KidOut(kids[0])) && |ms| > 1 then
           kids[1..] != [] && FollowsAll(w, kids[1..], ms[1..], origin, kids[0].after, y)
         else kids[1..] == [] && y == kids[0].after
  }

  ghost predicate FollowsSub(w: Chain, k: Kid, m: SubMsg, origin: Addr)
    decreases k, 1
  {
    match m.msg
    case Bank(msg) =>
      var r := Ledgering(k.before.ledger, origin, msg);
      && k.first == Skipped([CallBank(origin, msg)],
                            Done(match r.error
                                 case None => Ok(Response(BankEvents(origin, msg), []))
                                 case Some(e) => Err(e)))
      && k.reply.None? && k.between == k.before.(ledger := r.ledger) == k.after
    case Execute(target, body, funds, run) =>
      && FollowsExecute(w, k.first, target, origin, body, funds, run, k.before, k.between)
      && FollowsReply(w, k, m, origin, None)
    case Instantiate(admin, codeId, body, funds, run) =>
      if admin.Some? && admin.value != origin then
        && k.first == Skipped([], Done(Err("cannot instantiate contract"))) && k.between == k.before
        && FollowsReply(w, k, m, origin, None)
      else
        && FollowsInstantiate(w, k.first, codeId, origin, body, funds, run, k.before, k.between)
        && FollowsReply(w, k, m, origin, NewAddress(k.first, run))
  }

  /** A contract is executed unless it does not exist, cannot be loaded, or its funds cannot be moved. */
  ghost predicate FollowsExecute(
    w: Chain, v: Visit, addr: Addr, sender: Addr, body: string, funds: seq<Coin>, run: Behavior, x: Books, y: Books)
    decreases v, 1
  {
    var obstacle, paid := Obstacle(w, x, addr), Charge(x, sender, addr, funds);
    if obstacle.Some? then v == Skipped([], Host(obstacle.value)) && y == x
    else if paid.error.Some? then
      v == Skipped(Funding(sender, addr, funds), Done(Err(paid.error.value))) && y == paid.books
    else
      && v.Called? && v.paid == Funding(sender, addr, funds) && v.entry == CallExecute(addr, sender, body, funds)
      && Follows(w, v, run, addr, paid.books, y)
  }

  /** A contract is instantiated unless its funds cannot be moved, or its code does not exist or cannot be loaded. */
  ghost predicate FollowsInstantiate(
    w: Chain, v: Visit, codeId: nat, sender: Addr, body: string, funds: seq<Coin>, run: Behavior, x: Books, y: Books)
    decreases v, 1
  {
    var addr := NewAddr(w, x, codeId);
    var paid, code := Charge(TakeNumber(x, codeId), sender, addr, funds), CodeFor(w, x, codeId);
    var before := Funding(sender, addr, funds);
    if paid.error.Some? then v == Skipped(before, Done(Err(paid.error.value))) && y == paid.books
    else if code.None? then v == Skipped(before, Host(NoSuchCode(codeId))) && y == paid.books
    else if !w.loads(code.value) then v == Skipped(before, Host(CannotLoad(addr))) && y == paid.books
    else
      var x' := paid.books.(code := paid.books.code[addr := code.value]);
      && v.Called? && v.paid == before && v.entry == CallInstantiate(addr, sender, body, funds)
      && if run.verdict.Reject? then Follows(w, v, run, addr, x', x') && y == Forget(w, x', addr)
         else Follows(w, v, Announcing(run, codeId, addr), addr, x', y)
  }

  ghost function NewAddress(v: Visit, run: Behavior): Option<Addr> {
    if v.Called? && v.entry.CallInstantiate? && run.verdict.Accept? then Some(v.entry.addr) else None
  }

  /** A new contract answers with one more event than its code produced. */
  function Announcing(b: Behavior, codeId: nat, addr: Addr): Behavior {
    if b.verdict.Accept? then b.(verdict := Accept(Announced(b.verdict.response, codeId, addr))) else b
  }

  /** One reply to the origin if and only if the host is well and the condition matches the outcome. */
  ghost predicate FollowsReply(w: Chain, k: Kid, m: SubMsg, origin: Addr, newAddr: Option<Addr>)
    decreases k, 0
  {
    if k.first.out.Done? && WantsReply(m.replyOn, k.first.out.result) then
      var result, b := ForReply(k.first.out.result, newAddr), if k.first.out.result.Ok? then m.onOk else m.onErr;
      k.reply.Some? && FollowsEntry(w, k.reply.value, origin, m.id, result, b, k.between, k.after)
    else k.reply.None? && k.after == k.between
  }

  /** The origin of a submessage is called back unless it does not exist or cannot be loaded. */
  ghost predicate FollowsEntry(
    w: Chain, v: Visit, origin: Addr, id: nat, result: SubResult, b: Behavior, x: Books, y: Books)
    decreases v, 1
  {
    var obstacle := Obstacle(w, x, origin);
    if obstacle.Some? then v == Skipped([], Host(obstacle.value)) && y == x
    else v.Called? && v.paid == [] && v.entry == CallReply(origin, id, result) && Follows(w, v, b, origin, x, y)
  }

  /** v is the visit made for a transaction sent by sender. */
  ghost predicate FollowsTx(w: Chain, v: Visit, tx: Tx, sender: Addr, x: Books, y: Books) {
    match tx
    case ExecuteTx(addr, body, funds, run) => FollowsExecute(w, v, addr, sender, body, funds, run, x, y)
    case InstantiateTx(codeId, body, funds, run) => FollowsInstantiate(w, v, codeId, sender, body, funds, run, x, y)
  }

  // ---------------------------------------------------------------- there is at most one

  lemma {:induction false} UniqueVisit(
    w: Chain, v: Visit, v': Visit, b: Behavior, addr: Addr, x: Books, y: Books, y': Books)
    requires v.Called? && v'.Called? && v.paid == v'.paid && v.entry == v'.entry
    requires Follows(w, v, b, addr, x, y) && Follows(w, v', b, addr, x, y')
    ensures v == v' && y == y'
    decreases v, 0
  {
    if b.verdict.Accept? {
      UniqueKids(w, v.kids, v'.kids, b.verdict.response.messages, addr, x, y, y');
    }
  }

  lemma {:induction false} UniqueKids(
    w: Chain, ks: seq<Kid>, ks': seq<Kid>, ms: seq<SubMsg>, origin: Addr, x: Books, y: Books, y': Books)
    requires FollowsAll(w, ks, ms, origin, x, y) && FollowsAll(w, ks', ms, origin, x, y')
    ensures ks == ks' && y == y'
    decreases ks, 0
  {
    hide FollowsSub;
    if ms != [] {
      UniqueKid(w, ks[0], ks'[0], ms[0], origin);
      if Good(KidOut(ks[0])) && |ms| > 1 {
        UniqueKids(w, ks[1..], ks'[1..], ms[1..], origin, ks[0].after, y, y');
      }
      assert ks == [ks[0]] + ks[1..] && ks' == [ks'[0]] + ks'[1..];
    }
  }

  lemma {:induction false} UniqueKid(w: Chain, k: Kid, k': Kid, m: SubMsg, origin: Addr)
    requires FollowsSub(w, k, m, origin) && FollowsSub(w, k', m, origin) && k.before == k'.before
    ensures k == k'
    decreases k, 1
  {
    hide FollowsExecute;
    hide FollowsInstantiate;
    hide FollowsReply;
    match m.msg
    case Bank(_) =>
    case Execute(target, body, funds, run) =>
      UniqueExecute(w, k.first, k'.first, target, origin, body, funds, run, k.before, k.between, k'.between);
      UniqueAnswer(w, k, k', m, origin, None);
    case Instantiate(admin, codeId, body, funds, run) =>
      if admin.Some? && admin.value != origin {
        UniqueAnswer(w, k, k', m, origin, None);
      } else {
        UniqueInstantiate(w, k.first, k'.first, codeId, origin, body, funds, run, k.before, k.between, k'.between);
        UniqueAnswer(w, k, k', m, origin, NewAddress(k.first, run));
      }
  }

  lemma {:induction false} UniqueExecute(
    w: Chain, v: Visit, v': Visit, addr: Addr, sender: Addr, body: string, funds: seq<Coin>, run: Behavior,
    x: Books, y: Books, y': Books)
    requires FollowsExecute(w, v, addr, sender, body, funds, run, x, y)
    requires FollowsExecute(w, v', addr, sender, body, funds, run, x, y')
    ensures v == v' && y == y'
    decreases v, 1
  {
    hide Follows;
    hide Charge;
    if Obstacle(w, x, addr).None? && Charge(x, sender, addr, funds).error.None? {
      UniqueVisit(w, v, v', run, addr, Charge(x, sender, addr, funds).books, y, y');
    }
  }

  lemma {:induction false} UniqueInstantiate(
    w: Chain, v: Visit, v': Visit, codeId: nat, sender: Addr, body: string, funds: seq<Coin>, run: Behavior,
    x: Books, y: Books, y': Books)
    requires FollowsInstantiate(w, v, codeId, sender, body, funds, run, x, y)
    requires FollowsInstantiate(w, v', codeId, sender, body, funds, run, x, y')
    ensures v == v' && y == y'
    decreases v, 1
  {
    hide Follows;
    hide Charge;
    var addr, code := NewAddr(w, x, codeId), CodeFor(w, x, codeId);
    var paid := Charge(TakeNumber(x, codeId), sender, addr, funds);
    if paid.error.None? && code.Some? && w.loads(code.value) {
      var x' := paid.books.(code := paid.books.code[addr := code.value]);
      if run.verdict.Reject? {
        UniqueVisit(w, v, v', run, addr, x', x', x');
      } else {
        UniqueVisit(w, v, v', Announcing(run, codeId, addr), addr, x', y, y');
      }
    }
  }

  lemma {:induction false} UniqueAnswer(w: Chain, k: Kid, k': Kid, m: SubMsg, origin: Addr, newAddr: Option<Addr>)
    requires FollowsReply(w, k, m, origin, newAddr) && FollowsReply(w, k', m, origin, newAddr)
    requires k.first == k'.first && k.between == k'.between
    ensures k.reply == k'.reply && k.after == k'.after
    decreases k, 0
  {
    if k.first.out.Done? && WantsReply(m.replyOn, k.first.out.result) {
      var b := if k.first.out.result.Ok? then m.onOk else m.onErr;
      if Obstacle(w, k.between, origin).None? {
        UniqueVisit(w, k.reply.value, k'.reply.value, b, origin, k.between, k.after, k'.after);
      }
    }
  }

  // ---------------------------------------------------------------- the books of the engine

  lemma BooksCreate(w: Chain, s: State, a: Addr)
    ensures BooksOf(w, Create(w, s, a).state) == BooksOf(w, s)
    ensures Create(w, s, a).failure == Obstacle(w, BooksOf(w, s), a)
  {
    hide View;
    assert CodeOfAll(w, Create(w, s, a).state.contracts) == CodeOfAll(w, s.contracts);
  }

  lemma BooksFund(w: Chain, s: State, payer: Addr, to: Addr, funds: seq<Coin>)
    ensures var f := Fund(w, s, payer, to, funds);
            Charged(BooksOf(w, f.state), f.error) == Charge(BooksOf(w, s), payer, to, funds)
  {
    hide View;
    hide CodeOfAll;
    SendRefines(w, s.bank, payer, to, funds);
  }

  lemma {:induction false} BooksEffects(w: Chain, s: State, a: Addr, es: seq<Effect>)
    ensures BooksOf(w, PerformAll(w, s, a, es)) == BooksOf(w, s)
    decreases |es|
  {
    if es != [] {
      BooksEffect(w, s, a, es[0]);
      hide BooksOf;
      BooksEffects(w, Perform(w, s, a, es[0]), a, es[1..]);
    }
  }

  lemma SameCode(w: Chain, contracts: map<Addr, ContractState>, a: Addr, c: ContractState)
    requires a in contracts && c.code == contracts[a].code
    ensures CodeOfAll(w, contracts[a := c]) == CodeOfAll(w, contracts)
  {
  }

  lemma BooksEffect(w: Chain, s: State, a: Addr, e: Effect)
    ensures BooksOf(w, Perform(w, s, a, e)) == BooksOf(w, s)
  {
    if e.QueryBalance? {
      LoadKeepsView(w, s.bank, e.owner);
    } else if a in s.contracts {
      hide View;
      hide CodeOfAll;
      SameCode(w, s.contracts, a, Perform(w, s, a, e).contracts[a]);
    }
  }

  lemma BooksInvoke(w: Chain, s: State, name: string, a: Addr, b: Behavior, events: seq<Event>)
    ensures BooksOf(w, Invoke(w, OpenCall(s, name), a, b)) == BooksOf(w, s)
    ensures BooksOf(w, Append(Invoke(w, OpenCall(s, name), a, b), events)) == BooksOf(w, s)
  {
    hide View;
    hide CodeOfAll;
    hide PerformAll;
    BooksEffects(w, OpenCall(s, name), a, b.effects);
  }

  lemma BooksDiscard(w: Chain, s: State, a: Addr)
    ensures BooksOf(w, Discard(s, a)) == Forget(w, BooksOf(w, s), a)
  {
    hide View;
    assert CodeOfAll(w, s.contracts - {a}) == Forget(w, BooksOf(w, s), a).code;
  }

  lemma BooksBank(w: Chain, s: State, sender: Addr, msg: BankMsg)
    ensures var r := CarryOut(w, s.bank, sender, msg);
            var l := Ledgering(View(w, s.bank), sender, msg);
            BooksOf(w, s.(bank := r.bank)) == BooksOf(w, s).(ledger := l.ledger) && r.error == l.error
  {
    hide View;
    hide CodeOfAll;
    BankRefines(w, s.bank, sender, msg);
  }

  /** The books after taking a number, paying, and putting the new contract there. */
  lemma BooksAllocate(w: Chain, s: State, codeId: nat, sender: Addr, funds: seq<Coin>)
    ensures var a, x := Allocate(w, s, codeId, sender, funds), BooksOf(w, s);
            var paid, code := Charge(TakeNumber(x, codeId), sender, a.addr, funds), CodeFor(w, x, codeId);
            && a.addr == NewAddr(w, x, codeId)
            && (a.result.Unfunded? <==> paid.error.Some?)
            && (a.result.Unfunded? ==> a.result.error == paid.error.value)
            && (a.result.Unavailable? <==> paid.error.None? && (code.None? || !w.loads(code.value)))
            && (a.result.Unavailable? ==>
                  a.result.failure == if code.None? then NoSuchCode(codeId) else CannotLoad(a.addr))
            && BooksOf(w, a.state)
               == if a.result.Allocated? then paid.books.(code := paid.books.code[a.addr := code.value]) else paid.books
  {
    hide View;
    hide CodeOfAll;
    hide Fund;
    hide Charge;
    var n, addr := Numbered(s, codeId), NextAddress(w, s, codeId);
    var x1 := TakeNumber(BooksOf(w, s), codeId);
    assert BooksOf(w, n) == x1;
    BooksFund(w, n, sender, addr, funds);
    ChargeFrame(x1, sender, addr, funds);
    var f := Fund(w, n, sender, addr, funds).state;
    assert f.customCodes == s.customCodes;
    if CodeOf(w, f, codeId).Some? {
      InsertCode(w, f.contracts, addr, ContractState(CodeOf(w, f, codeId).value, map[]));
    }
  }

  lemma ChargeFrame(x: Books, payer: Addr, to: Addr, funds: seq<Coin>)
    ensures Charge(x, payer, to, funds).books == x.(ledger := Charge(x, payer, to, funds).books.ledger)
  {
  }

  lemma InsertCode(w: Chain, contracts: map<Addr, ContractState>, a: Addr, c: ContractState)
    ensures CodeOfAll(w, contracts[a := c]) == CodeOfAll(w, contracts)[a := c.code]
  {
  }

  // ---------------------------------------------------------------- the engine makes the visit

  /** r is the run of the visits kids. */
  ghost predicate Dispatches(w: Chain, kids: seq<Kid>, ms: seq<SubMsg>, origin: Addr, s: State, r: Ran) {
    FollowsAll(w, kids, ms, origin, BooksOf(w, s), BooksOf(w, r.state)) && r.calls == PreorderAll(kids)
  }

  ghost predicate Makes(r: Ran, v: Visit) {
    r.out == v.out && r.calls == Preorder(v)
  }

  lemma {:induction false} VisitResponse(w: Chain, s: State, origin: Addr, r: Response) returns (kids: seq<Kid>)
    ensures Dispatches(w, kids, r.messages, origin, s, HandleResponse(w, s, origin, r))
    ensures HandleResponse(w, s, origin, r).out == Answer(kids, r)
    decreases SizeOfAll(r.messages), 1
  {
    if r.messages == [] {
      kids := [];
    } else {
      kids := VisitMessages(w, s, origin, r.messages);
    }
  }

  lemma {:induction false} VisitMessages(w: Chain, s: State, origin: Addr, ms: seq<SubMsg>) returns (kids: seq<Kid>)
    requires ms != []
    ensures Dispatches(w, kids, ms, origin, s, HandleMessages(w, s, origin, ms))
    ensures kids != [] && HandleMessages(w, s, origin, ms).out == KidOut(kids[|kids| - 1])
    decreases SizeOfAll(ms), 0
  {
    hide FollowsSub;
    hide PreorderKid;
    hide HandleSub;
    hide BooksOf;
    var k := VisitSub(w, s, origin, ms[0]);
    var r := HandleSub(w, s, origin, ms[0]);
    if !Good(r.out) || |ms| == 1 {
      kids := [k];
      assert kids[1..] == [] && PreorderAll(kids) == PreorderKid(k) + [];
    } else {
      var rest := VisitMessages(w, r.state, origin, ms[1..]);
      kids := [k] + rest;
      assert kids[1..] == rest;
    }
  }

  lemma {:induction false} VisitSub(w: Chain, s: State, origin: Addr, m: SubMsg) returns (k: Kid)
    ensures FollowsSub(w, k, m, origin)
    ensures var r := HandleSub(w, s, origin, m);
            && k.before == BooksOf(w, s) && k.after == BooksOf(w, r.state)
            && r.out == KidOut(k) && r.calls == PreorderKid(k)
    decreases SizeOfSub(m), 1
  {
    hide BooksOf;
    hide ExecuteInner;
    hide InstantiateInner;
    hide Resume;
    var x := BooksOf(w, s);
    match m.msg
    case Bank(msg) =>
      k := VisitBank(w, s, origin, m);
    case Execute(target, body, funds, run) =>
      var v := VisitExecute(w, s, target, origin, body, funds, run);
      k := VisitResume(w, origin, m, body, ExecuteInner(w, s, target, origin, body, funds, run), None, v, x);
    case Instantiate(admin, codeId, body, funds, run) =>
      if admin.Some? && admin.value != origin {
        var r := Ran(s, [], Done(Err("cannot instantiate contract")));
        k := VisitResume(w, origin, m, body, r, None, Skipped([], r.out), x);
      } else {
        var i := InstantiateInner(w, s, codeId, origin, body, funds, run);
        var v := VisitInstantiate(w, s, codeId, origin, body, funds, run);
        k := VisitResume(w, origin, m, body, i.ran, i.addr, v, x);
      }
  }

  lemma VisitBank(w: Chain, s: State, origin: Addr, m: SubMsg) returns (k: Kid)
    requires m.msg.Bank?
    ensures FollowsSub(w, k, m, origin)
    ensures var r := HandleSub(w, s, origin, m);
            && k.before == BooksOf(w, s) && k.after == BooksOf(w, r.state)
            && r.out == KidOut(k) && r.calls == PreorderKid(k)
  {
    BooksBank(w, s, origin, m.msg.msg);
    hide View;
    hide CodeOfAll;
    var r := HandleSub(w, s, origin, m);
    k := Kid(BooksOf(w, s), Skipped(r.calls, r.out), BooksOf(w, r.state), None, BooksOf(w, r.state));
  }

  lemma {:induction false} VisitResume(
    w: Chain, origin: Addr, m: SubMsg, body: string, r: Ran, newAddr: Option<Addr>, v: Visit, x: Books)
    returns (k: Kid)
    requires Settled(r.out) && Makes(r, v)
    ensures k.before == x && k.first == v && k.between == BooksOf(w, r.state) && FollowsReply(w, k, m, origin, newAddr)
    ensures var r' := Resume(w, origin, m, body, r, newAddr);
            k.after == BooksOf(w, r'.state) && r'.out == KidOut(k) && r'.calls == PreorderKid(k)
    decreases SizeOfSub(m), 0
  {
    hide View;
    hide CodeOfAll;
    hide ReplyTo;
    hide FollowsEntry;
    var y := BooksOf(w, Resume(w, origin, m, body, r, newAddr).state);
    if r.out.Done? && WantsReply(m.replyOn, r.out.result) {
      var b := if r.out.result.Ok? then m.onOk else m.onErr;
      var reply := VisitReply(w, r.state, origin, m.id, ForReply(r.out.result, newAddr), body, b);
      k := Kid(x, v, BooksOf(w, r.state), Some(reply), y);
    } else {
      k := Kid(x, v, BooksOf(w, r.state), None, y);
      assert Preorder(v) + [] == Preorder(v);
    }
  }

  lemma {:induction false} VisitReply(
    w: Chain, s: State, origin: Addr, id: nat, result: SubResult, body: string, b: Behavior) returns (v: Visit)
    ensures var r := ReplyTo(w, s, origin, id, result, body, b);
            Makes(r, v) && FollowsEntry(w, v, origin, id, result, b, BooksOf(w, s), BooksOf(w, r.state))
    decreases SizeOf(b), 2
  {
    hide View;
    hide CodeOfAll;
    hide Invoke;
    hide HandleResponse;
    hide Follows;
    hide Obstacle;
    var r := ReplyTo(w, s, origin, id, result, body, b);
    var c := Create(w, s, origin);
    BooksCreate(w, s, origin);
    if c.failure.Some? {
      v := Skipped([], r.out);
    } else {
      v := VisitBody(w, c.state, Name(origin, "reply", body), origin, b, [], CallReply(origin, id, result));
    }
  }

  /** The run of a contract that has been made ready and paid, up to its answer. */
  function Body(w: Chain, s: State, name: string, a: Addr, b: Behavior): Ran {
    var s2 := Invoke(w, OpenCall(s, name), a, b);
    match b.verdict
    case Trap(e) => Ran(s2, [], Host(VmError(e)))
    case Reject(e) => Ran(s2, [], Done(Err(e)))
    case Accept(r) => HandleResponse(w, Append(s2, r.events), a, r)
  }

  lemma {:induction false} VisitBody(
    w: Chain, s: State, name: string, a: Addr, b: Behavior, paid: seq<EntryCall>, entry: EntryCall)
    returns (v: Visit)
    ensures var r := Body(w, s, name, a, b);
            && v.Called? && v.paid == paid && v.entry == entry && v.out == r.out
            && Preorder(v) == paid + [entry] + r.calls
            && Follows(w, v, b, a, BooksOf(w, s), BooksOf(w, r.state))
    decreases SizeOf(b), 1
  {
    hide BooksOf;
    hide HandleResponse;
    hide Invoke;
    var r := Body(w, s, name, a, b);
    var kids := [];
    if b.verdict.Accept? {
      var events := b.verdict.response.events;
      BooksInvoke(w, s, name, a, b, events);
      kids := VisitResponse(w, Append(Invoke(w, OpenCall(s, name), a, b), events), a, b.verdict.response);
    } else {
      BooksInvoke(w, s, name, a, b, []);
    }
    v := Called(paid, entry, kids, r.out);
  }

  lemma {:induction false} VisitExecute(
    w: Chain, s: State, addr: Addr, sender: Addr, body: string, funds: seq<Coin>, run: Behavior) returns (v: Visit)
    ensures var r := ExecuteInner(w, s, addr, sender, body, funds, run);
            && Makes(r, v)
            && FollowsExecute(w, v, addr, sender, body, funds, run, BooksOf(w, s), BooksOf(w, r.state))
    decreases SizeOf(run), 2
  {
    hide View;
    hide CodeOfAll;
    hide Invoke;
    hide HandleResponse;
    hide Follows;
    hide Obstacle;
    hide Charge;
    hide Fund;
    var r := ExecuteInner(w, s, addr, sender, body, funds, run);
    var c := Create(w, s, addr);
    var f := Fund(w, c.state, sender, addr, funds);
    BooksCreate(w, s, addr);
    BooksFund(w, c.state, sender, addr, funds);
    if c.failure.Some? || f.error.Some? {
      v := Skipped(r.calls, r.out);
    } else {
      var paid, call := Funding(sender, addr, funds), CallExecute(addr, sender, body, funds);
      v := VisitBody(w, f.state, Name(addr, "execute", body), addr, run, paid, call);
    }
  }

  lemma {:induction false} VisitInstantiate(
    w: Chain, s: State, codeId: nat, sender: Addr, body: string, funds: seq<Coin>, run: Behavior) returns (v: Visit)
    ensures var i := InstantiateInner(w, s, codeId, sender, body, funds, run);
            && Makes(i.ran, v) && i.addr == NewAddress(v, run)
            && FollowsInstantiate(w, v, codeId, sender, body, funds, run, BooksOf(w, s), BooksOf(w, i.ran.state))
    decreases SizeOf(run), 2
  {
    hide View;
    hide CodeOfAll;
    hide Invoke;
    hide HandleResponse;
    hide Follows;
    hide Charge;
    hide Forget;
    hide Allocate;
    var i := InstantiateInner(w, s, codeId, sender, body, funds, run);
    var a := Allocate(w, s, codeId, sender, funds);
    BooksAllocate(w, s, codeId, sender, funds);
    if a.result.Allocated? {
      var name := Name(a.addr, "instantiate", body);
      var paid, call := Funding(sender, a.addr, funds), CallInstantiate(a.addr, sender, body, funds);
      var run' := Announcing(run, codeId, a.addr);
      v := VisitBody(w, a.state, name, a.addr, run', paid, call);
      if run.verdict.Reject? {
        BooksInvoke(w, a.state, name, a.addr, run, []);
        BooksDiscard(w, Invoke(w, OpenCall(a.state, name), a.addr, run), a.addr);
      }
      assert Invoke(w, OpenCall(a.state, name), a.addr, run') == Invoke(w, OpenCall(a.state, name), a.addr, run) by {
        SameRun(w, OpenCall(a.state, name), a.addr, run, run');
      }
    } else {
      v := Skipped(i.ran.calls, i.ran.out);
    }
  }

  /** Running a contract depends on its effects and on whether it traps. */
  lemma SameRun(w: Chain, s: State, a: Addr, b: Behavior, b': Behavior)
    requires b.effects == b'.effects && (b.verdict.Trap? <==> b'.verdict.Trap?)
    ensures Invoke(w, s, a, b) == Invoke(w, s, a, b')
  {
  }

  /** Whatever the contracts do, the engine makes the calls of a visit that follows their behaviour. */
  lemma EngineIsDepthFirst(w: Chain, s: State, tx: Tx) returns (v: Visit)
    ensures var r := Inner(w, s, tx);
            Makes(r, v) && FollowsTx(w, v, tx, s.sender, BooksOf(w, s), BooksOf(w, r.state))
  {
    hide BooksOf;
    match tx
    case ExecuteTx(addr, body, funds, run) =>
      v := VisitExecute(w, s, addr, s.sender, body, funds, run);
    case InstantiateTx(codeId, body, funds, run) =>
      v := VisitInstantiate(w, s, codeId, s.sender, body, funds, run);
  }

  /**
   * There is only one such visit: the behaviour of the contracts and the books at the start determine every
   * call, the outcome and the books at the end, and the engine makes exactly these calls.
   */
  lemma TheVisitIsDetermined(w: Chain, s: State, tx: Tx, v: Visit, y: Books)
    requires FollowsTx(w, v, tx, s.sender, BooksOf(w, s), y)
    ensures var r := Inner(w, s, tx);
            r.calls == Preorder(v) && r.out == v.out && BooksOf(w, r.state) == y
  {
    hide BooksOf;
    var v' := EngineIsDepthFirst(w, s, tx);
    var x, y' := BooksOf(w, s), BooksOf(w, Inner(w, s, tx).state);
    match tx
    case ExecuteTx(addr, body, funds, run) =>
      UniqueExecute(w, v, v', addr, s.sender, body, funds, run, x, y, y');
    case InstantiateTx(codeId, body, funds, run) =>
      UniqueInstantiate(w, v, v', codeId, s.sender, body, funds, run, x, y, y');
  }
}
