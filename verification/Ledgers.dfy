/**
 * The multi-denomination ledger. `BankStates` is filled on demand from the remote chain; `Ledger` is
 * the ledger a reader has in mind, in which every balance is present from the start.
 */
module Ledgers {
  import opened Base
  import opened Chain
  import opened Decimal

  type BankStates = map<Addr, map<Denom, nat>>

  datatype BankMsg = Send(to: Addr, amount: seq<Coin>) | Burn(amount: seq<Coin>)

  // ---------------------------------------------------------------- the ledger loaded on demand

  /** Fetches the balances of an account the first time it is read. */
  function Load(w: Chain, bank: BankStates, a: Addr): BankStates {
    if a in bank then bank else bank[a := w.balances(a)]
  }

  function Held(m: map<Denom, nat>, d: Denom): nat {
    if d in m then m[d] else 0
  }

  /** Overwrites one balance; an account that was never fetched starts from no balances at all. */
  function WithBalance(bank: BankStates, a: Addr, d: Denom, v: nat): BankStates {
    bank[a := (if a in bank then bank[a] else map[])[d := v]]
  }

  /** The error text of a transfer or burn its owner cannot afford. */
  function Insufficient(src: Addr, held: nat, amount: nat): string {
    "insufficient balance (owner: " + src + ", balance: " + Dec(held) + ", amount: " + Dec(amount) + ")"
  }

  /** A bank operation leaves its bank behind also when it stops halfway with an error. */
  datatype Banked = Banked(bank: BankStates, error: Option<string>)

  /** One round of the transfer loop: both balances are read before either is written. */
  function SendCoin(w: Chain, bank: BankStates, src: Addr, dst: Addr, c: Coin): Banked {
    var loaded := Load(w, Load(w, bank, src), dst);
    var srcAmount, dstAmount := Held(loaded[src], c.denom), Held(loaded[dst], c.denom);
    if srcAmount >= c.amount then
      var debited := WithBalance(loaded, src, c.denom, srcAmount - c.amount);
      Banked(WithBalance(debited, dst, c.denom, dstAmount + c.amount), None)
    else
      Banked(loaded, Some(Insufficient(src, srcAmount, c.amount)))
  }

  function SendCoins(w: Chain, bank: BankStates, src: Addr, dst: Addr, coins: seq<Coin>): Banked
    decreases |coins|
  {
    if coins == [] then Banked(bank, None)
    else
      var r := SendCoin(w, bank, src, dst, coins[0]);
      if r.error.Some? then r else SendCoins(w, r.bank, src, dst, coins[1..])
  }

  function BurnCoin(w: Chain, bank: BankStates, src: Addr, c: Coin): Banked {
    var loaded := Load(w, bank, src);
    var srcAmount := Held(loaded[src], c.denom);
    if srcAmount >= c.amount then
      Banked(WithBalance(loaded, src, c.denom, srcAmount - c.amount), None)
    else
      Banked(loaded, Some(Insufficient(src, srcAmount, c.amount)))
  }

  function BurnCoins(w: Chain, bank: BankStates, src: Addr, coins: seq<Coin>): Banked
    decreases |coins|
  {
    if coins == [] then Banked(bank, None)
    else
      var r := BurnCoin(w, bank, src, coins[0]);
      if r.error.Some? then r else BurnCoins(w, r.bank, src, coins[1..])
  }

  function SpentAndReceived(src: Addr, dst: Addr, c: Coin): seq<Event> {
    var text := Dec(c.amount) + c.denom;
    [Event("coin_spent", [("spender", src), ("amount", text)]),
     Event("coin_received", [("receiver", dst), ("amount", text)])]
  }

  /** The events of a completed transfer: one debit and one credit per coin. */
  function SendEvents(src: Addr, dst: Addr, coins: seq<Coin>): seq<Event> {
    if coins == [] then [] else SpentAndReceived(src, dst, coins[0]) + SendEvents(src, dst, coins[1..])
  }

  lemma SendCoinsFrom(w: Chain, bank: BankStates, src: Addr, dst: Addr, coins: seq<Coin>, i: nat)
    requires i < |coins|
    ensures var r := SendCoin(w, bank, src, dst, coins[i]);
            SendCoins(w, bank, src, dst, coins[i..])
            == if r.error.Some? then r else SendCoins(w, r.bank, src, dst, coins[i + 1..])
  {
    assert coins[i..][1..] == coins[i + 1..];
  }

  lemma SendEventsFrom(src: Addr, dst: Addr, coins: seq<Coin>, i: nat)
    requires i < |coins|
    ensures SendEvents(src, dst, coins[i..])
            == SpentAndReceived(src, dst, coins[i]) + SendEvents(src, dst, coins[i + 1..])
  {
    assert coins[i..][1..] == coins[i + 1..];
  }

  function CarryOut(w: Chain, bank: BankStates, sender: Addr, msg: BankMsg): Banked {
    match msg
    case Send(to, amount) => SendCoins(w, bank, sender, to, amount)
    case Burn(amount) => BurnCoins(w, bank, sender, amount)
  }

  function BankEvents(sender: Addr, msg: BankMsg): seq<Event> {
    match msg
    case Send(to, amount) => SendEvents(sender, to, amount)
    case Burn(_) => []
  }

  // ---------------------------------------------------------------- the ledger loaded at the start

  /** A balance for every account and denomination. */
  type Ledger = l: imap<(Addr, Denom), nat> | forall p: (Addr, Denom) :: p in l
    ghost witness imap p: (Addr, Denom) | true :: 0

  datatype Ledgered = Ledgered(ledger: Ledger, error: Option<string>)

  ghost function Credit(l: Ledger, a: Addr, d: Denom, v: nat): Ledger {
    l[(a, d) := v]
  }

  ghost predicate Affords(l: Ledger, a: Addr, c: Coin) {
    l[(a, c.denom)] >= c.amount
  }

  ghost function Pay(l: Ledger, src: Addr, dst: Addr, c: Coin): Ledger
    requires Affords(l, src, c)
  {
    Credit(Credit(l, src, c.denom, l[(src, c.denom)] - c.amount), dst, c.denom, l[(dst, c.denom)] + c.amount)
  }

  ghost function Destroy(l: Ledger, src: Addr, c: Coin): Ledger
    requires Affords(l, src, c)
  {
    Credit(l, src, c.denom, l[(src, c.denom)] - c.amount)
  }

  ghost function SendAll(l: Ledger, src: Addr, dst: Addr, coins: seq<Coin>): Ledgered
    decreases |coins|
  {
    if coins == [] then Ledgered(l, None)
    else if Affords(l, src, coins[0]) then SendAll(Pay(l, src, dst, coins[0]), src, dst, coins[1..])
    else Ledgered(l, Some(Insufficient(src, l[(src, coins[0].denom)], coins[0].amount)))
  }

  ghost function BurnAll(l: Ledger, src: Addr, coins: seq<Coin>): Ledgered
    decreases |coins|
  {
    if coins == [] then Ledgered(l, None)
    else if Affords(l, src, coins[0]) then BurnAll(Destroy(l, src, coins[0]), src, coins[1..])
    else Ledgered(l, Some(Insufficient(src, l[(src, coins[0].denom)], coins[0].amount)))
  }

  ghost function Ledgering(l: Ledger, sender: Addr, msg: BankMsg): Ledgered {
    match msg
    case Send(to, amount) => SendAll(l, sender, to, amount)
    case Burn(amount) => BurnAll(l, sender, amount)
  }

  // ---------------------------------------------------------------- on demand refines at the start

  /** What a bank filled on demand answers for an account and a denomination. */
  ghost function Answer(w: Chain, bank: BankStates, a: Addr, d: Denom): nat {
    Held(if a in bank then bank[a] else w.balances(a), d)
  }

  /** The ledger a bank filled on demand stands for. */
  ghost function View(w: Chain, bank: BankStates): Ledger {
    imap p: (Addr, Denom) | true :: Answer(w, bank, p.0, p.1)
  }

  /** One round of the transfer loop in terms of the two answers it reads. */
  lemma SendCoinByAnswers(w: Chain, bank: BankStates, src: Addr, dst: Addr, c: Coin)
    ensures var loaded := Load(w, Load(w, bank, src), dst);
            var x, y := Answer(w, bank, src, c.denom), Answer(w, Load(w, bank, src), dst, c.denom);
            SendCoin(w, bank, src, dst, c)
            == if x >= c.amount then
                 Banked(WithBalance(WithBalance(loaded, src, c.denom, x - c.amount), dst, c.denom, y + c.amount), None)
               else Banked(loaded, Some(Insufficient(src, x, c.amount)))
  {
    var loaded := Load(w, Load(w, bank, src), dst);
    assert Held(loaded[src], c.denom) == Answer(w, bank, src, c.denom);
    assert Held(loaded[dst], c.denom) == Answer(w, Load(w, bank, src), dst, c.denom);
  }

  lemma LoadKeepsView(w: Chain, bank: BankStates, a: Addr)
    ensures View(w, Load(w, bank, a)) == View(w, bank)
  {
  }

  lemma LoadedHolds(w: Chain, bank: BankStates, a: Addr, d: Denom)
    requires a in bank
    ensures Held(bank[a], d) == View(w, bank)[(a, d)]
  {
    assert (a, d).0 == a && (a, d).1 == d;
  }

  lemma WithBalanceView(w: Chain, bank: BankStates, a: Addr, d: Denom, v: nat)
    requires a in bank
    ensures View(w, WithBalance(bank, a, d, v)) == Credit(View(w, bank), a, d, v)
  {
    var bank' := WithBalance(bank, a, d, v);
    forall p: (Addr, Denom)
      ensures View(w, bank')[p] == Credit(View(w, bank), a, d, v)[p]
    {
      assert p == (p.0, p.1);
    }
  }

  /**
   * Setting the balance of an account that was never fetched hides whatever the remote chain holds
   * for it in the other denominations: the new view is the expected one exactly when there is nothing
   * to hide. Transfers and burns always fetch first, so they never meet the failing case.
   */
  lemma UnfetchedWithBalanceView(w: Chain, bank: BankStates, a: Addr, d: Denom, v: nat)
    requires a !in bank
    ensures View(w, WithBalance(bank, a, d, v)) == Credit(View(w, bank), a, d, v)
            <==> forall e :: e in w.balances(a) && e != d ==> w.balances(a)[e] == 0
  {
    var bank' := WithBalance(bank, a, d, v);
    if View(w, bank') == Credit(View(w, bank), a, d, v) {
      forall e | e in w.balances(a) && e != d
        ensures w.balances(a)[e] == 0
      {
        assert View(w, bank')[(a, e)] == 0;
        assert View(w, bank)[(a, e)] == w.balances(a)[e];
      }
    }
    if forall e :: e in w.balances(a) && e != d ==> w.balances(a)[e] == 0 {
      forall p: (Addr, Denom)
        ensures View(w, bank')[p] == Credit(View(w, bank), a, d, v)[p]
      {
        assert p == (p.0, p.1);
      }
    }
  }

  lemma TransferView(w: Chain, bank: BankStates, src: Addr, dst: Addr, d: Denom, x: nat, y: nat)
    requires src in bank && dst in bank
    ensures View(w, WithBalance(WithBalance(bank, src, d, x), dst, d, y))
            == Credit(Credit(View(w, bank), src, d, x), dst, d, y)
  {
    WithBalanceView(w, bank, src, d, x);
    WithBalanceView(w, WithBalance(bank, src, d, x), dst, d, y);
  }

  /** What a bank operation on one coin does, told on the ledger loaded at the start. */
  ghost predicate Does(w: Chain, l: Ledger, lazy: Banked, src: Addr, c: Coin, paid: Ledger) {
    if Affords(l, src, c) then lazy.error.None? && View(w, lazy.bank) == paid
    else lazy.error == Some(Insufficient(src, l[(src, c.denom)], c.amount)) && View(w, lazy.bank) == l
  }

  lemma SendCoinLoaded(w: Chain, bank: BankStates, src: Addr, dst: Addr, c: Coin)
    requires src in bank && dst in bank && Held(bank[src], c.denom) >= c.amount
    ensures var x, y := Held(bank[src], c.denom) - c.amount, Held(bank[dst], c.denom) + c.amount;
            SendCoin(w, bank, src, dst, c)
            == Banked(WithBalance(WithBalance(bank, src, c.denom, x), dst, c.denom, y), None)
  {
    hide WithBalance;
    hide Held;
  }

  lemma {:induction false} SendCoinPaid(w: Chain, bank: BankStates, src: Addr, dst: Addr, c: Coin)
    requires src in bank && dst in bank && Affords(View(w, bank), src, c)
    ensures SendCoin(w, bank, src, dst, c).error.None?
    ensures View(w, SendCoin(w, bank, src, dst, c).bank) == Pay(View(w, bank), src, dst, c)
  {
    hide View;
    hide WithBalance;
    hide Held;
    hide SendCoin;
    var l := View(w, bank);
    LoadedHolds(w, bank, src, c.denom);
    LoadedHolds(w, bank, dst, c.denom);
    SendCoinLoaded(w, bank, src, dst, c);
    var x, y := l[(src, c.denom)] - c.amount, l[(dst, c.denom)] + c.amount;
    TransferView(w, bank, src, dst, c.denom, x, y);
  }

  lemma {:induction false} SendCoinRefines(w: Chain, bank: BankStates, src: Addr, dst: Addr, c: Coin)
    ensures var l := View(w, bank);
            Does(w, l, SendCoin(w, bank, src, dst, c), src, c, if Affords(l, src, c) then Pay(l, src, dst, c) else l)
  {
    var loaded := Load(w, Load(w, bank, src), dst);
    LoadKeepsView(w, bank, src);
    LoadKeepsView(w, Load(w, bank, src), dst);
    hide View;
    hide WithBalance;
    assert SendCoin(w, bank, src, dst, c) == SendCoin(w, loaded, src, dst, c);
    LoadedHolds(w, loaded, src, c.denom);
    if Affords(View(w, bank), src, c) {
      SendCoinPaid(w, loaded, src, dst, c);
    }
  }

  lemma {:induction false} SendRefines(w: Chain, bank: BankStates, src: Addr, dst: Addr, coins: seq<Coin>)
    ensures var lazy, eager := SendCoins(w, bank, src, dst, coins), SendAll(View(w, bank), src, dst, coins);
            View(w, lazy.bank) == eager.ledger && lazy.error == eager.error
    decreases |coins|
  {
    if coins != [] {
      SendCoinRefines(w, bank, src, dst, coins[0]);
      SendRefines(w, SendCoin(w, bank, src, dst, coins[0]).bank, src, dst, coins[1..]);
    }
  }

  lemma BurnCoinRefines(w: Chain, bank: BankStates, src: Addr, c: Coin)
    ensures var l := View(w, bank);
            Does(w, l, BurnCoin(w, bank, src, c), src, c, if Affords(l, src, c) then Destroy(l, src, c) else l)
  {
    var loaded := Load(w, bank, src);
    LoadKeepsView(w, bank, src);
    var l := View(w, bank);
    LoadedHolds(w, loaded, src, c.denom);
    if Affords(l, src, c) {
      var paid := WithBalance(loaded, src, c.denom, l[(src, c.denom)] - c.amount);
      assert BurnCoin(w, bank, src, c) == Banked(paid, None);
      assert View(w, paid) == Destroy(l, src, c) by {
        WithBalanceView(w, loaded, src, c.denom, l[(src, c.denom)] - c.amount);
      }
    }
  }

  lemma {:induction false} BurnRefines(w: Chain, bank: BankStates, src: Addr, coins: seq<Coin>)
    ensures var lazy, eager := BurnCoins(w, bank, src, coins), BurnAll(View(w, bank), src, coins);
            View(w, lazy.bank) == eager.ledger && lazy.error == eager.error
    decreases |coins|
  {
    if coins != [] {
      BurnCoinRefines(w, bank, src, coins[0]);
      BurnRefines(w, BurnCoin(w, bank, src, coins[0]).bank, src, coins[1..]);
    }
  }

  /** Every bank message does to the on-demand bank what it does to the ledger loaded at the start. */
  lemma BankRefines(w: Chain, bank: BankStates, sender: Addr, msg: BankMsg)
    ensures var lazy, eager := CarryOut(w, bank, sender, msg), Ledgering(View(w, bank), sender, msg);
            View(w, lazy.bank) == eager.ledger && lazy.error == eager.error
  {
    match msg
    case Send(to, amount) => SendRefines(w, bank, sender, to, amount);
    case Burn(amount) => BurnRefines(w, bank, sender, amount);
  }

  // ---------------------------------------------------------------- accounting

  /** The amount of denomination d held by a finite set of accounts. */
  ghost function Total(l: Ledger, accounts: set<Addr>, d: Denom): nat {
    if accounts == {} then 0
    else
      var a :| a in accounts;
      l[(a, d)] + Total(l, accounts - {a}, d)
  }

  lemma {:induction false} TotalSplit(l: Ledger, accounts: set<Addr>, a: Addr, d: Denom)
    requires a in accounts
    ensures Total(l, accounts, d) == l[(a, d)] + Total(l, accounts - {a}, d)
    decreases accounts
  {
    var b :| b in accounts && Total(l, accounts, d) == l[(b, d)] + Total(l, accounts - {b}, d);
    if a != b {
      TotalSplit(l, accounts - {b}, a, d);
      TotalSplit(l, accounts - {a}, b, d);
      assert accounts - {b} - {a} == accounts - {a} - {b};
    }
  }

  lemma {:induction false} TotalFrame(l: Ledger, l': Ledger, accounts: set<Addr>, d: Denom)
    requires forall a :: a in accounts ==> l[(a, d)] == l'[(a, d)]
    ensures Total(l, accounts, d) == Total(l', accounts, d)
    decreases accounts
  {
    if accounts != {} {
      var a :| a in accounts;
      TotalSplit(l, accounts, a, d);
      TotalSplit(l', accounts, a, d);
      TotalFrame(l, l', accounts - {a}, d);
    }
  }

  lemma TotalCredit(l: Ledger, accounts: set<Addr>, a: Addr, e: Denom, v: nat, d: Denom)
    requires a in accounts
    ensures Total(Credit(l, a, e, v), accounts, d)
            == Total(l, accounts, d) + (if d == e then v - l[(a, e)] else 0)
  {
    var l' := Credit(l, a, e, v);
    TotalSplit(l, accounts, a, d);
    TotalSplit(l', accounts, a, d);
    TotalFrame(l, l', accounts - {a}, d);
  }

  function Of(c: Coin, d: Denom): nat {
    if c.denom == d then c.amount else 0
  }

  /** The amount of d moved by a transfer before it completes or stops halfway. */
  ghost function Moved(l: Ledger, src: Addr, dst: Addr, coins: seq<Coin>, d: Denom): nat
    decreases |coins|
  {
    if coins == [] || !Affords(l, src, coins[0]) then 0
    else Of(coins[0], d) + Moved(Pay(l, src, dst, coins[0]), src, dst, coins[1..], d)
  }

  /** The amount of d destroyed by a burn before it completes or stops halfway. */
  ghost function Burned(l: Ledger, src: Addr, coins: seq<Coin>, d: Denom): nat
    decreases |coins|
  {
    if coins == [] || !Affords(l, src, coins[0]) then 0
    else Of(coins[0], d) + Burned(Destroy(l, src, coins[0]), src, coins[1..], d)
  }

  /** What a bank message creates: nothing, except that a transfer to oneself creates what it moves. */
  ghost function MintedBy(l: Ledger, sender: Addr, msg: BankMsg, d: Denom): nat {
    if msg.Send? && msg.to == sender then Moved(l, sender, sender, msg.amount, d) else 0
  }

  ghost function BurnedBy(l: Ledger, sender: Addr, msg: BankMsg, d: Denom): nat {
    if msg.Burn? then Burned(l, sender, msg.amount, d) else 0
  }

  ghost function Touched(sender: Addr, msg: BankMsg): set<Addr> {
    {sender} + if msg.Send? then {msg.to} else {}
  }

  lemma PayTotal(l: Ledger, src: Addr, dst: Addr, c: Coin, accounts: set<Addr>, d: Denom)
    requires src in accounts && dst in accounts && Affords(l, src, c)
    ensures Total(Pay(l, src, dst, c), accounts, d)
            == Total(l, accounts, d) + if src == dst then Of(c, d) else 0
  {
    var l1 := Credit(l, src, c.denom, l[(src, c.denom)] - c.amount);
    TotalCredit(l, accounts, src, c.denom, l[(src, c.denom)] - c.amount, d);
    TotalCredit(l1, accounts, dst, c.denom, l[(dst, c.denom)] + c.amount, d);
  }

  lemma {:induction false} SendTotal(l: Ledger, src: Addr, dst: Addr, coins: seq<Coin>, accounts: set<Addr>, d: Denom)
    requires src in accounts && dst in accounts
    ensures Total(SendAll(l, src, dst, coins).ledger, accounts, d)
            == Total(l, accounts, d) + if src == dst then Moved(l, src, dst, coins, d) else 0
    decreases |coins|
  {
    if coins != [] && Affords(l, src, coins[0]) {
      PayTotal(l, src, dst, coins[0], accounts, d);
      SendTotal(Pay(l, src, dst, coins[0]), src, dst, coins[1..], accounts, d);
    }
  }

  lemma {:induction false} BurnTotal(l: Ledger, src: Addr, coins: seq<Coin>, accounts: set<Addr>, d: Denom)
    requires src in accounts
    ensures Total(BurnAll(l, src, coins).ledger, accounts, d) == Total(l, accounts, d) - Burned(l, src, coins, d)
    decreases |coins|
  {
    if coins != [] && Affords(l, src, coins[0]) {
      TotalCredit(l, accounts, src, coins[0].denom, l[(src, coins[0].denom)] - coins[0].amount, d);
      BurnTotal(Destroy(l, src, coins[0]), src, coins[1..], accounts, d);
    }
  }

  /**
   * The books balance after every bank message, also one that stops halfway: the total over any set of
   * accounts that contains the ones touched changes by what was minted and what was burned.
   */
  lemma BankAccounts(l: Ledger, sender: Addr, msg: BankMsg, accounts: set<Addr>, d: Denom)
    requires Touched(sender, msg) <= accounts
    ensures Total(Ledgering(l, sender, msg).ledger, accounts, d)
            == Total(l, accounts, d) + MintedBy(l, sender, msg, d) - BurnedBy(l, sender, msg, d)
  {
    match msg
    case Send(to, amount) => SendTotal(l, sender, to, amount, accounts, d);
    case Burn(amount) => BurnTotal(l, sender, amount, accounts, d);
  }

  lemma {:induction false} SendLeaves(l: Ledger, src: Addr, dst: Addr, coins: seq<Coin>, a: Addr, d: Denom)
    requires a != src && a != dst
    ensures SendAll(l, src, dst, coins).ledger[(a, d)] == l[(a, d)]
    decreases |coins|
  {
    if coins != [] && Affords(l, src, coins[0]) {
      SendLeaves(Pay(l, src, dst, coins[0]), src, dst, coins[1..], a, d);
    }
  }

  lemma {:induction false} BurnLeaves(l: Ledger, src: Addr, coins: seq<Coin>, a: Addr, d: Denom)
    requires a != src
    ensures BurnAll(l, src, coins).ledger[(a, d)] == l[(a, d)]
    decreases |coins|
  {
    if coins != [] && Affords(l, src, coins[0]) {
      BurnLeaves(Destroy(l, src, coins[0]), src, coins[1..], a, d);
    }
  }

  /** Accounts a bank message does not name keep every balance. */
  lemma BankLeaves(l: Ledger, sender: Addr, msg: BankMsg, a: Addr, d: Denom)
    requires a !in Touched(sender, msg)
    ensures Ledgering(l, sender, msg).ledger[(a, d)] == l[(a, d)]
  {
    match msg
    case Send(to, amount) => SendLeaves(l, sender, to, amount, a, d);
    case Burn(amount) => BurnLeaves(l, sender, amount, a, d);
  }

  // ---------------------------------------------------------------- transfers to oneself

  /** The first coin of a positive amount is affordable. */
  ghost predicate FirstPositiveAffordable(l: Ledger, src: Addr, coins: seq<Coin>) {
    coins != [] &&
    if coins[0].amount == 0 then FirstPositiveAffordable(l, src, coins[1..]) else Affords(l, src, coins[0])
  }

  ghost predicate MovesSome(l: Ledger, src: Addr, dst: Addr, coins: seq<Coin>) {
    exists d :: Moved(l, src, dst, coins, d) > 0
  }

  lemma ZeroPay(l: Ledger, src: Addr, dst: Addr, c: Coin)
    requires c.amount == 0
    ensures Affords(l, src, c) && Pay(l, src, dst, c) == l
  {
  }

  lemma {:induction false} MovesIff(l: Ledger, src: Addr, dst: Addr, coins: seq<Coin>)
    ensures MovesSome(l, src, dst, coins) <==> FirstPositiveAffordable(l, src, coins)
    ensures !FirstPositiveAffordable(l, src, coins) ==> SendAll(l, src, dst, coins).ledger == l
    decreases |coins|
  {
    if coins == [] {
    } else if coins[0].amount == 0 {
      ZeroPay(l, src, dst, coins[0]);
      forall d
        ensures Moved(l, src, dst, coins, d) == Moved(l, src, dst, coins[1..], d)
      {
      }
      MovesIff(l, src, dst, coins[1..]);
    } else if Affords(l, src, coins[0]) {
      assert Moved(l, src, dst, coins, coins[0].denom) > 0;
    }
  }

  /** The balance of the sender goes down by what moved, or up if the coins come back to where they started. */
  lemma {:induction false} SenderBalance(l: Ledger, src: Addr, dst: Addr, coins: seq<Coin>, d: Denom)
    ensures SendAll(l, src, dst, coins).ledger[(src, d)]
            == l[(src, d)] + (if src == dst then 1 else -1) * Moved(l, src, dst, coins, d)
    decreases |coins|
  {
    if coins != [] && Affords(l, src, coins[0]) {
      var l' := Pay(l, src, dst, coins[0]);
      assert l'[(src, d)] == l[(src, d)] + (if src == dst then 1 else -1) * Of(coins[0], d);
      hide Pay;
      SenderBalance(l', src, dst, coins[1..], d);
    }
  }

  /** A transfer leaves the ledger as it was if and only if its first positive coin is not affordable. */
  lemma TransferChangesIff(l: Ledger, src: Addr, dst: Addr, coins: seq<Coin>)
    ensures SendAll(l, src, dst, coins).ledger == l <==> !FirstPositiveAffordable(l, src, coins)
  {
    MovesIff(l, src, dst, coins);
    if MovesSome(l, src, dst, coins) {
      var d :| Moved(l, src, dst, coins, d) > 0;
      SenderBalance(l, src, dst, coins, d);
    }
  }

  predicate AllZero(coins: seq<Coin>) {
    forall i :: 0 <= i < |coins| ==> coins[i].amount == 0
  }

  /** A transfer whose first positive coin is not affordable goes through if and only if there is none. */
  lemma {:induction false} PaidIffAllZero(l: Ledger, src: Addr, dst: Addr, coins: seq<Coin>)
    ensures AllZero(coins) ==> !FirstPositiveAffordable(l, src, coins)
    ensures !FirstPositiveAffordable(l, src, coins) ==>
              (SendAll(l, src, dst, coins).error.None? <==> AllZero(coins))
    decreases |coins|
  {
    if coins != [] && coins[0].amount == 0 {
      ZeroPay(l, src, dst, coins[0]);
      PaidIffAllZero(l, src, dst, coins[1..]);
      assert coins == [coins[0]] + coins[1..];
    }
  }

  /**
   * A transfer conserves the total of every denomination if and only if it is not a transfer to
   * oneself whose first positive coin is affordable.
   */
  lemma SendConservesIff(l: Ledger, src: Addr, dst: Addr, coins: seq<Coin>, accounts: set<Addr>)
    requires src in accounts && dst in accounts
    ensures (forall d :: Total(SendAll(l, src, dst, coins).ledger, accounts, d) == Total(l, accounts, d))
            <==> !(src == dst && FirstPositiveAffordable(l, src, coins))
  {
    var l' := SendAll(l, src, dst, coins).ledger;
    forall d
      ensures Total(l', accounts, d)
              == Total(l, accounts, d) + if src == dst then Moved(l, src, dst, coins, d) else 0
    {
      SendTotal(l, src, dst, coins, accounts, d);
    }
    MovesIff(l, src, dst, coins);
    if src == dst && MovesSome(l, src, dst, coins) {
      var d :| Moved(l, src, src, coins, d) > 0;
      assert Total(l', accounts, d) != Total(l, accounts, d);
    }
  }

  /** Sending oneself five coins out of five leaves ten. */
  lemma SelfSendExample(l: Ledger, a: Addr, d: Denom)
    requires l[(a, d)] == 5
    ensures SendAll(l, a, a, [Coin(d, 5)]).ledger[(a, d)] == 10
  {
    var l' := Pay(l, a, a, Coin(d, 5));
    assert SendAll(l', a, a, []) == Ledgered(l', None);
    assert [Coin(d, 5)][1..] == [];
  }

  // ---------------------------------------------------------------- 128-bit amounts

  const MAX_U128: nat := 0xFFFF_FFFF_FFFF_FFFF_FFFF_FFFF_FFFF_FFFF

  /** No addition of a transfer exceeds 128 bits. */
  ghost predicate Fits(l: Ledger, src: Addr, dst: Addr, coins: seq<Coin>)
    decreases |coins|
  {
    coins != [] && Affords(l, src, coins[0]) ==>
      && l[(dst, coins[0].denom)] + coins[0].amount <= MAX_U128
      && Fits(Pay(l, src, dst, coins[0]), src, dst, coins[1..])
  }

  /** A transfer between two accounts whose totals fit in 128 bits never overflows a balance. */
  lemma {:induction false} SendFits(l: Ledger, src: Addr, dst: Addr, coins: seq<Coin>, accounts: set<Addr>)
    requires src in accounts && dst in accounts && src != dst
    requires forall d :: Total(l, accounts, d) <= MAX_U128
    ensures Fits(l, src, dst, coins)
    decreases |coins|
  {
    if coins != [] && Affords(l, src, coins[0]) {
      var c := coins[0];
      TotalSplit(l, accounts, src, c.denom);
      TotalSplit(l, accounts - {src}, dst, c.denom);
      forall d
        ensures Total(Pay(l, src, dst, c), accounts, d) <= MAX_U128
      {
        PayTotal(l, src, dst, c, accounts, d);
      }
      SendFits(Pay(l, src, dst, c), src, dst, coins[1..], accounts);
    }
  }
}
