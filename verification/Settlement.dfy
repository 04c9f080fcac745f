/**
 * Settling bets and paying for them. Settle calls and retries of any number of processes interleave, any of
 * them may fail at any await, and a request to the wallet may be lost, late or delivered again. The unique
 * settlement of a bet and the wallet's idempotency keys make up for it: a bet is paid once, and what it won.
 */
module Settlement {
  import opened Evaluation
  import opened Payout
  import opened Sequences
  import opened Wrappers
  import Money

  // ---- What is owed ----

  datatype Channel = ONLINE | SHOP

  /** The settlement of a bet as it is stored: once written, never rewritten. */
  datatype Record = Record(outcome: Outcome, payout: nat, channel: Channel, user: Option<int>)

  /** One payout or refund key per bet; `OtherKey` are the keys of everything else the wallet does. */
  datatype Key = PayoutKey(bet: int) | RefundKey(bet: int) | OtherKey(name: string)

  datatype EntryType = BET_PAYOUT | BET_REFUND | OTHER

  /** An entry of the ledger, and the request for one: positive amounts credit, negative ones debit. */
  datatype Entry = Entry(account: int, kind: EntryType, amount: int, key: Key)

  datatype Due = NothingDue | DueTo(entry: Entry) | NoCustomer

  function CustomerCreditFor(bet: int, r: Record): Due {
    if r.channel != ONLINE || r.outcome == LOST || r.payout == 0 then NothingDue
    else if r.user.None? then NoCustomer
    else if r.outcome == WON then DueTo(Entry(r.user.value, BET_PAYOUT, r.payout, PayoutKey(bet)))
    else DueTo(Entry(r.user.value, BET_REFUND, r.payout, RefundKey(bet)))
  }

  // ---- The wallet ----

  datatype Account = Account(balance: int, reserved: int, frozen: bool)

  datatype Wallet = Wallet(accounts: map<int, Account>, ledger: seq<Entry>)

  datatype PostError = ZeroAmount | IdempotencyConflict | WalletFrozen | InsufficientFunds | BalanceLimit

  /** An account is opened with nothing on it when it is first needed. */
  function AccountOf(w: Wallet, id: int): Account {
    if id in w.accounts then w.accounts[id] else Account(0, 0, false)
  }

  /** The entry under the account's key, if there is one. */
  function FindEntry(ledger: seq<Entry>, account: int, key: Key): (r: Option<Entry>)
    ensures r.Some? ==> r.value in ledger && r.value.account == account && r.value.key == key
    ensures r.None? ==> forall e | e in ledger :: e.account != account || e.key != key
  {
    if ledger == [] then None
    else if ledger[0].account == account && ledger[0].key == key then Some(ledger[0])
    else FindEntry(ledger[1..], account, key)
  }

  /** The only way a balance changes; true where the entry was there already. */
  function Post(w: Wallet, e: Entry): Result<(Wallet, bool), PostError> {
    var account, existing := AccountOf(w, e.account), FindEntry(w.ledger, e.account, e.key);
    if e.amount == 0 then Err(ZeroAmount)
    else if existing.Some? then
      if existing.value.kind != e.kind || existing.value.amount != e.amount then Err(IdempotencyConflict)
      else Ok((w, true))
    else if account.frozen then Err(WalletFrozen)
    else if e.amount < 0 && account.balance - account.reserved + e.amount < 0 then Err(InsufficientFunds)
    else if account.balance + e.amount > Money.MAX_SAFE_INTEGER then Err(BalanceLimit)
    else
      var after := account.(balance := account.balance + e.amount);
      Ok((Wallet(w.accounts[e.account := after], w.ledger + [e]), false))
  }

  class Ledger {
    var accounts: map<int, Account>
    var entries: seq<Entry>

    function View(): Wallet
      reads this
    {
      Wallet(accounts, entries)
    }

    constructor ()
      ensures View() == Wallet(map[], [])
    {
      accounts, entries := map[], [];
    }

    /** Locks the account, answers from the entry already there, or writes entry and balance together. */
    method PostWithinTransaction(e: Entry) returns (r: Result<bool, PostError>)
      modifies this
      ensures match Post(old(View()), e)
              case Ok((after, duplicate)) => View() == after && r == Ok(duplicate)
              case Err(error) => View() == old(View()) && r == Err(error)
    {
      if e.amount == 0 {
        return Err(ZeroAmount);
      }
      var account := AccountOf(View(), e.account);
      var existing := FindEntry(entries, e.account, e.key);
      if existing.Some? {
        if existing.value.kind != e.kind || existing.value.amount != e.amount {
          return Err(IdempotencyConflict);
        }
        return Ok(true);
      }
      if account.frozen {
        return Err(WalletFrozen);
      }
      var available := account.balance - account.reserved;
      if e.amount < 0 && available + e.amount < 0 {
        return Err(InsufficientFunds);
      }
      var balanceAfter := account.balance + e.amount;
      if balanceAfter > Money.MAX_SAFE_INTEGER {
        return Err(BalanceLimit);
      }
      entries := entries + [e];
      accounts := accounts[e.account := account.(balance := balanceAfter)];
      return Ok(false);
    }
  }

  // ---- The betting service ----

  datatype Status = PENDING | CANCELLED | Resolved(outcome: Outcome, payout: nat)

  datatype BetRow = BetRow(status: Status, stake: int, potentialPayout: nat)

  /** The bet after `applySettlement`, or nothing where it is refused. */
  function SettleBet(row: BetRow, r: Record): Option<BetRow> {
    match row.status
    case CANCELLED => Some(row)
    case Resolved(outcome, payout) => if outcome == r.outcome && payout == r.payout then Some(row) else None
    case PENDING =>
      if Consistent(Resolution(r.outcome, r.payout), row.stake, row.potentialPayout)
      then Some(row.(status := Resolved(r.outcome, r.payout)))
      else None
  }

  /** A resolved bet takes its own settlement again and no other, and a cancelled one stays cancelled. */
  lemma SettledOnce(row: BetRow, r: Record)
    requires !row.status.PENDING?
    ensures SettleBet(row, r).Some? <==> row.status in {CANCELLED, Resolved(r.outcome, r.payout)}
    ensures SettleBet(row, r).Some? ==> SettleBet(row, r).value == row
  {
  }

  // ---- All calls together ----

  datatype Stage = ToBetting | ToWallet | AwaitingWallet | ToStamp

  datatype Task =
    | Deciding(bet: int, proposal: Record)               // the legs are resolved, nothing is stored
    | Applying(bet: int, record: Record, stage: Stage)   // the stored settlement is in hand

  datatype Stored = Stored(record: Record, stamped: bool)

  /** `requests` are all the credits ever asked for, by task; `answered` those the wallet has granted. */
  datatype State = State(
    bets: map<int, BetRow>,
    settlements: map<int, Stored>,
    wallet: Wallet,
    nextId: nat,
    tasks: map<nat, Task>,
    requests: map<nat, Entry>,
    answered: set<nat>)

  datatype Event =
    | Place(bet: int, row: BetRow)
    | Cancel(bet: int)
    | Begin(bet: int, proposal: Record)   // whatever this call made of the legs it read
    | Resume(bet: int)                    // a call, or the retry job, that found the settlement
    | Save(id: nat)
    | TellBetting(id: nat, legsKnown: bool)
    | AskWallet(id: nat)
    | WalletRuns(id: nat)                 // at any time after the request, and any number of times
    | Reply(id: nat)
    | Stamp(id: nat)
    | Fail(id: nat)
    | OtherPost(entry: Entry)
    | Hold(account: int, frozen: bool, reserved: int)

  function Init(): State {
    State(map[], map[], Wallet(map[], []), 0, map[], map[], {})
  }

  predicate At(s: State, id: nat, stage: Stage) {
    id in s.tasks && s.tasks[id].Applying? && s.tasks[id].stage == stage
  }

  function MoveTo(s: State, id: nat, stage: Stage): State
    requires id in s.tasks && s.tasks[id].Applying?
  {
    s.(tasks := s.tasks[id := s.tasks[id].(stage := stage)])
  }

  /** INSERT ON CONFLICT DO NOTHING, then read: the first settlement of a bet is the one everybody gets. */
  function OnSave(s: State, id: nat): State
    requires id in s.tasks && s.tasks[id].Deciding?
  {
    var bet := s.tasks[id].bet;
    var stored := if bet in s.settlements then s.settlements[bet] else Stored(s.tasks[id].proposal, false);
    s.(settlements := s.settlements[bet := stored],
       tasks := s.tasks[id := Applying(bet, stored.record, ToBetting)])
  }

  function OnTellBetting(s: State, id: nat, legsKnown: bool): State
    requires At(s, id, ToBetting)
  {
    var t := s.tasks[id];
    if t.record.payout > Money.MAX_SAFE_INTEGER || t.bet !in s.bets then s else
    var row := SettleBet(s.bets[t.bet], t.record);
    if row.None? || (s.bets[t.bet].status.PENDING? && !legsKnown) then s
    else MoveTo(s.(bets := s.bets[t.bet := row.value]), id, ToWallet)
  }

  function OnAskWallet(s: State, id: nat): State
    requires At(s, id, ToWallet)
  {
    match CustomerCreditFor(s.tasks[id].bet, s.tasks[id].record)
    case NothingDue => MoveTo(s, id, ToStamp)
    case NoCustomer => s
    case DueTo(entry) => MoveTo(s.(requests := s.requests[id := entry]), id, AwaitingWallet)
  }

  function OnWalletRuns(s: State, id: nat): State
    requires id in s.requests
  {
    match Post(s.wallet, s.requests[id])
    case Err(_) => s
    case Ok((wallet, _)) => s.(wallet := wallet, answered := s.answered + {id})
  }

  function OnStamp(s: State, id: nat): State
    requires At(s, id, ToStamp) && s.tasks[id].bet in s.settlements
  {
    var bet := s.tasks[id].bet;
    s.(settlements := s.settlements[bet := s.settlements[bet].(stamped := true)], tasks := s.tasks - {id})
  }

  /** Freezing and reserving leave the balance alone. */
  function Held(w: Wallet, account: int, frozen: bool, reserved: int): Wallet {
    w.(accounts := w.accounts[account := AccountOf(w, account).(frozen := frozen, reserved := reserved)])
  }

  function Step(s: State, e: Event): State {
    match e
    case Place(bet, row) => if bet in s.bets || !row.status.PENDING? then s else s.(bets := s.bets[bet := row])
    case Cancel(bet) =>
      if bet in s.bets && s.bets[bet].status.PENDING?
      then s.(bets := s.bets[bet := s.bets[bet].(status := CANCELLED)]) else s
    case Begin(bet, proposal) => s.(nextId := s.nextId + 1, tasks := s.tasks[s.nextId := Deciding(bet, proposal)])
    case Resume(bet) =>
      if bet !in s.settlements then s else
      s.(nextId := s.nextId + 1, tasks := s.tasks[s.nextId := Applying(bet, s.settlements[bet].record, ToBetting)])
    case Save(id) => if id in s.tasks && s.tasks[id].Deciding? then OnSave(s, id) else s
    case TellBetting(id, legsKnown) => if At(s, id, ToBetting) then OnTellBetting(s, id, legsKnown) else s
    case AskWallet(id) => if At(s, id, ToWallet) then OnAskWallet(s, id) else s
    case WalletRuns(id) => if id in s.requests then OnWalletRuns(s, id) else s
    case Reply(id) => if At(s, id, AwaitingWallet) && id in s.answered then MoveTo(s, id, ToStamp) else s
    case Stamp(id) => if At(s, id, ToStamp) && s.tasks[id].bet in s.settlements then OnStamp(s, id) else s
    case Fail(id) => s.(tasks := s.tasks - {id})
    case OtherPost(entry) =>
      if !entry.key.OtherKey? || Post(s.wallet, entry).Err? then s else s.(wallet := Post(s.wallet, entry).value.0)
    case Hold(account, frozen, reserved) => s.(wallet := Held(s.wallet, account, frozen, reserved))
  }

  function Run(start: State, events: seq<Event>): State {
    if events == [] then start else Step(Run(start, events[..|events| - 1]), events[|events| - 1])
  }

  // ---- The invariant ----

  predicate Recorded(s: State, bet: int, r: Record) {
    bet in s.settlements && s.settlements[bet].record == r
  }

  /** The entry is the one the stored settlement of its bet calls for. */
  predicate Backed(s: State, e: Entry) {
    && !e.key.OtherKey? && e.key.bet in s.settlements
    && CustomerCreditFor(e.key.bet, s.settlements[e.key.bet].record) == DueTo(e)
  }

  /** What the bet's settlement calls for has been credited, if it calls for anything. */
  predicate PaidUp(s: State, bet: int) {
    bet in s.settlements
    && match CustomerCreditFor(bet, s.settlements[bet].record)
       case NothingDue => true
       case DueTo(entry) => entry in s.wallet.ledger
       case NoCustomer => false
  }

  /** The betting service has the settlement, or had cancelled the bet. */
  predicate Told(s: State, bet: int, r: Record) {
    bet in s.bets && s.bets[bet].status in {CANCELLED, Resolved(r.outcome, r.payout)}
  }

  predicate TaskSound(s: State, id: nat, t: Task) {
    && id < s.nextId
    && (id in s.requests ==> t.Applying? && CustomerCreditFor(t.bet, t.record) == DueTo(s.requests[id]))
    && (t.Applying? ==>
          && Recorded(s, t.bet, t.record)
          && (t.stage != ToBetting ==> Told(s, t.bet, t.record))
          && (t.stage == AwaitingWallet ==> id in s.requests)
          && (t.stage == ToStamp ==> PaidUp(s, t.bet)))
  }

  predicate SettlementSound(s: State, bet: int, stored: Stored) {
    stored.stamped ==> PaidUp(s, bet) && Told(s, bet, stored.record)
  }

  predicate BetSound(s: State, bet: int, row: BetRow) {
    row.status.Resolved? ==>
      && bet in s.settlements
      && s.settlements[bet].record.outcome == row.status.outcome
      && s.settlements[bet].record.payout == row.status.payout
  }

  predicate RequestSound(s: State, id: nat, e: Entry) {
    id < s.nextId && Backed(s, e) && (id in s.answered ==> e in s.wallet.ledger)
  }

  predicate UniqueKeys(ledger: seq<Entry>) {
    forall i, j | 0 <= i < j < |ledger| :: ledger[i].account != ledger[j].account || ledger[i].key != ledger[j].key
  }

  function AmountOn(account: int): Entry -> int {
    (e: Entry) => if e.account == account then e.amount else 0
  }

  /** Every balance is the sum of the account's entries. */
  ghost predicate AddsUp(w: Wallet) {
    forall a :: AccountOf(w, a).balance == Sum(AmountOn(a), w.ledger)
  }

  ghost predicate TasksSound(s: State) {
    forall id | id in s.tasks :: TaskSound(s, id, s.tasks[id])
  }

  ghost predicate SettlementsSound(s: State) {
    forall bet | bet in s.settlements :: SettlementSound(s, bet, s.settlements[bet])
  }

  ghost predicate BetsSound(s: State) {
    forall bet | bet in s.bets :: BetSound(s, bet, s.bets[bet])
  }

  ghost predicate RequestsSound(s: State) {
    && (forall id | id in s.requests :: RequestSound(s, id, s.requests[id]))
    && (forall id | id in s.answered :: id in s.requests)
  }

  ghost predicate WalletSound(s: State) {
    && (forall e | e in s.wallet.ledger :: e.key.OtherKey? || Backed(s, e))
    && UniqueKeys(s.wallet.ledger)
    && AddsUp(s.wallet)
  }

  ghost predicate Sound(s: State) {
    TasksSound(s) && SettlementsSound(s) && BetsSound(s) && RequestsSound(s) && WalletSound(s)
  }

  /** Settlements stay as they are, the ledger only grows, and a bet once told stays told. */
  ghost predicate Grows(s: State, t: State) {
    && (forall bet | bet in s.settlements :: Recorded(t, bet, s.settlements[bet].record))
    && s.wallet.ledger <= t.wallet.ledger
    && (forall bet, r | Told(s, bet, r) :: Told(t, bet, r))
    && s.nextId <= t.nextId
    && (forall id | id in s.requests :: id in t.requests && t.requests[id] == s.requests[id])
  }

  lemma AskingGrows(s: State, id: nat)
    requires Sound(s) && At(s, id, ToWallet)
    ensures Grows(s, OnAskWallet(s, id))
  {
    assert TaskSound(s, id, s.tasks[id]);
  }

  lemma SavingGrows(s: State, id: nat)
    requires id in s.tasks && s.tasks[id].Deciding?
    ensures Grows(s, OnSave(s, id))
  {
  }

  lemma TellingGrows(s: State, id: nat, legsKnown: bool)
    requires At(s, id, ToBetting)
    ensures Grows(s, OnTellBetting(s, id, legsKnown))
  {
  }

  lemma BetMovesGrow(s: State, e: Event)
    requires e.Place? || e.Cancel?
    ensures Grows(s, Step(s, e))
  {
  }

  lemma WalletGrows(s: State, e: Event)
    requires e.WalletRuns? || e.OtherPost? || e.Hold?
    ensures Grows(s, Step(s, e))
  {
  }

  lemma StepGrows(s: State, e: Event)
    requires Sound(s)
    ensures Grows(s, Step(s, e))
  {
    match e
    case Place(_, _) => BetMovesGrow(s, e);
    case Cancel(_) => BetMovesGrow(s, e);
    case Begin(_, _) =>
    case Resume(_) =>
    case Save(id) => if id in s.tasks && s.tasks[id].Deciding? { SavingGrows(s, id); }
    case TellBetting(id, legsKnown) => if At(s, id, ToBetting) { TellingGrows(s, id, legsKnown); }
    case AskWallet(id) => if At(s, id, ToWallet) { AskingGrows(s, id); }
    case WalletRuns(_) => WalletGrows(s, e);
    case Reply(_) =>
    case Stamp(_) =>
    case Fail(_) =>
    case OtherPost(_) => WalletGrows(s, e);
    case Hold(_, _, _) => WalletGrows(s, e);
  }

  lemma PaidUpStays(s: State, t: State, bet: int)
    requires Grows(s, t) && PaidUp(s, bet)
    ensures PaidUp(t, bet)
  {
    assert Recorded(t, bet, s.settlements[bet].record);
    assert forall e | e in s.wallet.ledger :: e in t.wallet.ledger;
  }

  lemma TaskStays(s: State, t: State, id: nat, task: Task)
    requires Grows(s, t) && TaskSound(s, id, task) && (id in t.requests ==> id in s.requests)
    ensures TaskSound(t, id, task)
  {
    if task.Applying? {
      assert Recorded(t, task.bet, s.settlements[task.bet].record);
      if task.stage == ToStamp {
        PaidUpStays(s, t, task.bet);
      }
    }
  }

  lemma SettlementStays(s: State, t: State, bet: int, stored: Stored)
    requires Grows(s, t) && SettlementSound(s, bet, stored)
    ensures SettlementSound(t, bet, stored)
  {
    if stored.stamped {
      PaidUpStays(s, t, bet);
    }
  }

  lemma BackedStays(s: State, t: State, e: Entry)
    requires Grows(s, t) && Backed(s, e)
    ensures Backed(t, e)
  {
    assert Recorded(t, e.key.bet, s.settlements[e.key.bet].record);
  }

  /** Tasks that did not move stay sound; one that moved must be shown so. The same holds of the rest. */
  lemma TasksStay(s: State, t: State)
    requires TasksSound(s) && Grows(s, t)
    requires forall i | i in t.tasks ::
               (i in s.tasks && t.tasks[i] == s.tasks[i] && (i in t.requests ==> i in s.requests))
               || TaskSound(t, i, t.tasks[i])
    ensures TasksSound(t)
  {
    forall i | i in t.tasks
      ensures TaskSound(t, i, t.tasks[i])
    {
      if i in s.tasks && t.tasks[i] == s.tasks[i] && (i in t.requests ==> i in s.requests) {
        TaskStays(s, t, i, s.tasks[i]);
      }
    }
  }

  lemma SettlementsStay(s: State, t: State)
    requires SettlementsSound(s) && Grows(s, t)
    requires forall b | b in t.settlements ::
               (b in s.settlements && t.settlements[b] == s.settlements[b]) || SettlementSound(t, b, t.settlements[b])
    ensures SettlementsSound(t)
  {
    forall b | b in t.settlements
      ensures SettlementSound(t, b, t.settlements[b])
    {
      if b in s.settlements && t.settlements[b] == s.settlements[b] {
        SettlementStays(s, t, b, s.settlements[b]);
      }
    }
  }

  lemma BetsStay(s: State, t: State)
    requires BetsSound(s) && Grows(s, t)
    requires forall b | b in t.bets :: (b in s.bets && t.bets[b] == s.bets[b]) || BetSound(t, b, t.bets[b])
    ensures BetsSound(t)
  {
    forall b | b in t.bets
      ensures BetSound(t, b, t.bets[b])
    {
      if b in s.bets && t.bets[b] == s.bets[b] {
        assert BetSound(s, b, s.bets[b]);
        assert b in s.settlements ==> Recorded(t, b, s.settlements[b].record);
      }
    }
  }

  lemma RequestsStay(s: State, t: State)
    requires RequestsSound(s) && Grows(s, t) && forall i | i in t.answered :: i in t.requests
    requires forall i | i in t.requests ::
               (i in s.requests && (i in t.answered ==> i in s.answered)) || RequestSound(t, i, t.requests[i])
    ensures RequestsSound(t)
  {
    forall i | i in t.requests
      ensures RequestSound(t, i, t.requests[i])
    {
      if i in s.requests && (i in t.answered ==> i in s.answered) {
        BackedStays(s, t, s.requests[i]);
        assert forall e | e in s.wallet.ledger :: e in t.wallet.ledger;
      }
    }
  }

  /** What the wallet has posted stays backed, and what it posts now must be. */
  lemma EntriesStay(s: State, t: State)
    requires WalletSound(s) && Grows(s, t)
    requires forall e | e in t.wallet.ledger :: e in s.wallet.ledger || e.key.OtherKey? || Backed(t, e)
    ensures forall e | e in t.wallet.ledger :: e.key.OtherKey? || Backed(t, e)
  {
    forall e | e in t.wallet.ledger
      ensures e.key.OtherKey? || Backed(t, e)
    {
      if e in s.wallet.ledger && !e.key.OtherKey? {
        BackedStays(s, t, e);
      }
    }
  }

  /** A step that moves at most one task, and neither settlements, bets, requests nor the wallet. */
  lemma MovingIsSound(s: State, t: State)
    requires Sound(s) && Grows(s, t)
    requires t.settlements == s.settlements && t.bets == s.bets && t.requests == s.requests
    requires t.answered == s.answered && t.wallet == s.wallet
    requires forall i | i in t.tasks :: (i in s.tasks && t.tasks[i] == s.tasks[i]) || TaskSound(t, i, t.tasks[i])
    ensures Sound(t)
  {
    TasksStay(s, t);
    SettlementsStay(s, t);
    BetsStay(s, t);
    RequestsStay(s, t);
    EntriesStay(s, t);
  }

  // ---- The wallet keeps its books ----

  lemma PostAddsUp(w: Wallet, e: Entry)
    requires AddsUp(w) && Post(w, e).Ok?
    ensures AddsUp(Post(w, e).value.0)
  {
    var t := Post(w, e).value.0;
    if t != w {
      forall a
        ensures AccountOf(t, a).balance == Sum(AmountOn(a), t.ledger)
      {
        SumAppend(AmountOn(a), w.ledger, [e]);
        assert [e] == [e] + [];
        SumStep(AmountOn(a), e, []);
        assert AccountOf(w, a).balance == Sum(AmountOn(a), w.ledger);
      }
    }
  }

  /** A granted post is in the ledger, the ledger only grows, and keys stay unique in it. */
  lemma PostKeepsKeys(w: Wallet, e: Entry)
    requires UniqueKeys(w.ledger) && Post(w, e).Ok?
    ensures var t := Post(w, e).value.0;
            && UniqueKeys(t.ledger) && w.ledger <= t.ledger && e in t.ledger
            && forall x | x in t.ledger :: x in w.ledger || x == e
  {
    var t := Post(w, e).value.0;
    if t != w {
      assert t.ledger[|w.ledger|] == e;
      assert forall i | 0 <= i < |w.ledger| :: t.ledger[i] == w.ledger[i] && w.ledger[i] in w.ledger;
    }
  }

  lemma HoldAddsUp(w: Wallet, account: int, frozen: bool, reserved: int)
    requires AddsUp(w)
    ensures AddsUp(Held(w, account, frozen, reserved))
  {
    var t := Held(w, account, frozen, reserved);
    forall a
      ensures AccountOf(t, a).balance == Sum(AmountOn(a), t.ledger)
    {
      assert AccountOf(w, a).balance == Sum(AmountOn(a), w.ledger);
    }
  }

  // ---- Every step ----

  lemma BeginIsSound(s: State, bet: int, proposal: Record)
    requires Sound(s)
    ensures Sound(Step(s, Begin(bet, proposal)))
  {
    assert s.nextId !in s.requests;
    MovingIsSound(s, Step(s, Begin(bet, proposal)));
  }

  lemma ResumeIsSound(s: State, bet: int)
    requires Sound(s)
    ensures Sound(Step(s, Resume(bet)))
  {
    assert s.nextId !in s.requests;
    MovingIsSound(s, Step(s, Resume(bet)));
  }

  lemma SaveIsSound(s: State, id: nat)
    requires Sound(s) && id in s.tasks && s.tasks[id].Deciding?
    ensures Sound(OnSave(s, id))
  {
    var t, bet := OnSave(s, id), s.tasks[id].bet;
    assert TaskSound(s, id, s.tasks[id]);
    TasksStay(s, t);
    SettlementsStay(s, t);
    BetsStay(s, t);
    RequestsStay(s, t);
    EntriesStay(s, t);
  }

  lemma TellIsSound(s: State, id: nat, legsKnown: bool)
    requires Sound(s) && At(s, id, ToBetting)
    ensures Sound(OnTellBetting(s, id, legsKnown))
  {
    var t := OnTellBetting(s, id, legsKnown);
    StepGrows(s, TellBetting(id, legsKnown));
    assert TaskSound(s, id, s.tasks[id]);
    if t != s {
      assert BetSound(s, s.tasks[id].bet, s.bets[s.tasks[id].bet]);
      assert TaskSound(t, id, t.tasks[id]);
      TasksStay(s, t);
      SettlementsStay(s, t);
      BetsStay(s, t);
      RequestsStay(s, t);
      EntriesStay(s, t);
    }
  }

  lemma AskIsSound(s: State, id: nat)
    requires Sound(s) && At(s, id, ToWallet)
    ensures Sound(OnAskWallet(s, id))
  {
    var t := OnAskWallet(s, id);
    AskingGrows(s, id);
    assert TaskSound(s, id, s.tasks[id]);
    if t != s {
      var due := CustomerCreditFor(s.tasks[id].bet, s.tasks[id].record);
      if due.DueTo? {
        assert Backed(t, due.entry);
        assert id in s.answered ==> id in s.requests;
      }
      TasksStay(s, t);
      SettlementsStay(s, t);
      BetsStay(s, t);
      RequestsStay(s, t);
      EntriesStay(s, t);
    }
  }

  lemma WalletRunsIsSound(s: State, id: nat)
    requires Sound(s) && id in s.requests
    ensures Sound(OnWalletRuns(s, id))
  {
    var t := OnWalletRuns(s, id);
    StepGrows(s, WalletRuns(id));
    assert RequestSound(s, id, s.requests[id]);
    if Post(s.wallet, s.requests[id]).Ok? {
      PostAddsUp(s.wallet, s.requests[id]);
      PostKeepsKeys(s.wallet, s.requests[id]);
      BackedStays(s, t, s.requests[id]);
      TasksStay(s, t);
      SettlementsStay(s, t);
      BetsStay(s, t);
      RequestsStay(s, t);
      EntriesStay(s, t);
    }
  }

  lemma ReplyIsSound(s: State, id: nat)
    requires Sound(s) && At(s, id, AwaitingWallet) && id in s.answered
    ensures Sound(MoveTo(s, id, ToStamp))
  {
    assert TaskSound(s, id, s.tasks[id]);
    assert RequestSound(s, id, s.requests[id]);
    MovingIsSound(s, MoveTo(s, id, ToStamp));
  }

  lemma StampIsSound(s: State, id: nat)
    requires Sound(s) && At(s, id, ToStamp) && s.tasks[id].bet in s.settlements
    ensures Sound(OnStamp(s, id))
  {
    var t := OnStamp(s, id);
    StepGrows(s, Stamp(id));
    assert TaskSound(s, id, s.tasks[id]);
    PaidUpStays(s, t, s.tasks[id].bet);
    TasksStay(s, t);
    SettlementsStay(s, t);
    BetsStay(s, t);
    RequestsStay(s, t);
    EntriesStay(s, t);
  }

  lemma OtherPostIsSound(s: State, entry: Entry)
    requires Sound(s)
    ensures Sound(Step(s, OtherPost(entry)))
  {
    var t := Step(s, OtherPost(entry));
    StepGrows(s, OtherPost(entry));
    if t != s {
      PostAddsUp(s.wallet, entry);
      PostKeepsKeys(s.wallet, entry);
    }
    TasksStay(s, t);
    SettlementsStay(s, t);
    BetsStay(s, t);
    RequestsStay(s, t);
    EntriesStay(s, t);
  }

  lemma HoldIsSound(s: State, account: int, frozen: bool, reserved: int)
    requires Sound(s)
    ensures Sound(Step(s, Hold(account, frozen, reserved)))
  {
    var t := Step(s, Hold(account, frozen, reserved));
    HoldAddsUp(s.wallet, account, frozen, reserved);
    TasksStay(s, t);
    SettlementsStay(s, t);
    BetsStay(s, t);
    RequestsStay(s, t);
    EntriesStay(s, t);
  }

  /** A bet is placed or cancelled; no settlement can have reached it yet. */
  lemma BetMovesIsSound(s: State, e: Event)
    requires Sound(s) && (e.Place? || e.Cancel?)
    ensures Sound(Step(s, e))
  {
    var t := Step(s, e);
    StepGrows(s, e);
    TasksStay(s, t);
    SettlementsStay(s, t);
    BetsStay(s, t);
    RequestsStay(s, t);
    EntriesStay(s, t);
  }

  lemma FailIsSound(s: State, id: nat)
    requires Sound(s)
    ensures Sound(Step(s, Fail(id)))
  {
    MovingIsSound(s, Step(s, Fail(id)));
  }

  lemma StepIsSound(s: State, e: Event)
    requires Sound(s)
    ensures Sound(Step(s, e))
  {
    match e
    case Place(_, _) => BetMovesIsSound(s, e);
    case Cancel(_) => BetMovesIsSound(s, e);
    case Begin(bet, proposal) => BeginIsSound(s, bet, proposal);
    case Resume(bet) => ResumeIsSound(s, bet);
    case OtherPost(entry) => OtherPostIsSound(s, entry);
    case Hold(account, frozen, reserved) => HoldIsSound(s, account, frozen, reserved);
    case Fail(id) => FailIsSound(s, id);
    case WalletRuns(_) => AnswerIsSound(s, e);
    case Reply(_) => AnswerIsSound(s, e);
    case Stamp(_) => AnswerIsSound(s, e);
    case _ => CallIsSound(s, e);
  }

  /** A task stores its settlement, or calls the betting service or the wallet. */
  lemma CallIsSound(s: State, e: Event)
    requires Sound(s) && (e.Save? || e.TellBetting? || e.AskWallet?)
    ensures Sound(Step(s, e))
  {
    match e
    case Save(id) => if id in s.tasks && s.tasks[id].Deciding? { SaveIsSound(s, id); }
    case TellBetting(id, legsKnown) => if At(s, id, ToBetting) { TellIsSound(s, id, legsKnown); }
    case AskWallet(id) => if At(s, id, ToWallet) { AskIsSound(s, id); }
  }

  /** The wallet acts, its answer arrives, or the settlement is stamped. */
  lemma AnswerIsSound(s: State, e: Event)
    requires Sound(s) && (e.WalletRuns? || e.Reply? || e.Stamp?)
    ensures Sound(Step(s, e))
  {
    match e
    case WalletRuns(id) => if id in s.requests { WalletRunsIsSound(s, id); }
    case Reply(id) => if At(s, id, AwaitingWallet) && id in s.answered { ReplyIsSound(s, id); }
    case Stamp(id) => if At(s, id, ToStamp) && s.tasks[id].bet in s.settlements { StampIsSound(s, id); }
  }

  lemma InitAddsUp()
    ensures Sound(Init())
  {
  }

  /**
   * In every run: stored settlements carry the stamp only when paid up and told, every payout entry is the one
   * its bet's settlement calls for, no account holds two entries under one key, and every balance is the sum of
   * its entries.
   */
  lemma {:induction false} RunIsSound(events: seq<Event>)
    ensures Sound(Run(Init(), events))
  {
    if events == [] {
      InitAddsUp();
    } else {
      RunIsSound(events[..|events| - 1]);
      StepIsSound(Run(Init(), events[..|events| - 1]), events[|events| - 1]);
    }
  }

  /** A resolved bet has nothing if lost, its stake if void, and something up to its potential payout if won. */
  predicate ResolvedWithin(row: BetRow) {
    match row.status
    case Resolved(outcome, payout) =>
      && (outcome == LOST ==> payout == 0)
      && (outcome == VOID ==> payout == row.stake)
      && (outcome == WON ==> 1 <= payout <= row.potentialPayout)
    case _ => true
  }

  /** Whatever is proposed for a bet, it is never resolved beyond its terms. */
  lemma {:induction false} NoBetPaysBeyondItsTerms(events: seq<Event>)
    ensures forall bet | bet in Run(Init(), events).bets :: ResolvedWithin(Run(Init(), events).bets[bet])
  {
    if events != [] {
      var s, e := Run(Init(), events[..|events| - 1]), events[|events| - 1];
      NoBetPaysBeyondItsTerms(events[..|events| - 1]);
      StepResolvesWithin(s, e);
    }
  }

  lemma StepResolvesWithin(s: State, e: Event)
    requires forall bet | bet in s.bets :: ResolvedWithin(s.bets[bet])
    ensures forall bet | bet in Step(s, e).bets :: ResolvedWithin(Step(s, e).bets[bet])
  {
  }

  /** A settlement once stored stays as it is, whatever later calls make of the legs. */
  lemma {:induction false} SettlementIsFinal(before: seq<Event>, after: seq<Event>, bet: int)
    requires bet in Run(Init(), before).settlements
    ensures Recorded(Run(Init(), before + after), bet, Run(Init(), before).settlements[bet].record)
  {
    if after == [] {
      assert before + after == before;
    } else {
      var n := |after| - 1;
      SettlementIsFinal(before, after[..n], bet);
      assert (before + after)[..|before + after| - 1] == before + after[..n];
      RunIsSound(before + after[..n]);
      StepGrows(Run(Init(), before + after[..n]), after[n]);
    }
  }

  // ---- No account is overdrawn ----

  /** What the account's entries come to. */
  function Total(w: Wallet, account: int): int {
    Sum(AmountOn(account), w.ledger)
  }

  predicate HasKey(ledger: seq<Entry>, account: int, key: Key) {
    exists e | e in ledger :: e.account == account && e.key == key
  }

  /** The wallet writes the entry: its key is new, the account is open, covers a debit and has room for a credit. */
  predicate Writes(w: Wallet, e: Entry) {
    && e.amount != 0
    && !HasKey(w.ledger, e.account, e.key)
    && !AccountOf(w, e.account).frozen
    && (e.amount < 0 ==> 0 - e.amount <= Total(w, e.account) - AccountOf(w, e.account).reserved)
    && Total(w, e.account) + e.amount <= Money.MAX_SAFE_INTEGER
  }

  lemma PostWrites(w: Wallet, e: Entry)
    requires AddsUp(w)
    ensures Post(w, e).Ok? && !Post(w, e).value.1 <==> Writes(w, e)
    ensures Writes(w, e) ==> Post(w, e).value.0.ledger == w.ledger + [e]
    ensures Post(w, e).Ok? && Post(w, e).value.1 ==> Post(w, e).value.0 == w
  {
    assert AccountOf(w, e.account).balance == Total(w, e.account);
    var found := FindEntry(w.ledger, e.account, e.key);
    assert found.Some? <==> HasKey(w.ledger, e.account, e.key);
  }

  /** A post is a repeat exactly if the very entry is there, and a conflict exactly if its key stands for another. */
  lemma AnswersFromLedger(w: Wallet, e: Entry)
    requires UniqueKeys(w.ledger) && e.amount != 0
    ensures Post(w, e) == Ok((w, true)) <==> e in w.ledger
    ensures Post(w, e) == Err(IdempotencyConflict) <==> e !in w.ledger && HasKey(w.ledger, e.account, e.key)
  {
    if e in w.ledger {
      FindUnique(w.ledger, e);
    }
  }

  /** Every reserve is covered, no balance is beyond a safe integer, and nothing was written for nothing. */
  ghost predicate Covered(w: Wallet) {
    && (forall a :: 0 <= AccountOf(w, a).reserved <= AccountOf(w, a).balance <= Money.MAX_SAFE_INTEGER)
    && (forall e | e in w.ledger :: e.amount != 0)
  }

  /** Reserves are taken from what is there. */
  ghost predicate HoldsWithin(events: seq<Event>) {
    forall i | 0 <= i < |events| && events[i].Hold? ::
      0 <= events[i].reserved <= AccountOf(Run(Init(), events[..i]).wallet, events[i].account).balance
  }

  lemma PostCovers(w: Wallet, e: Entry)
    requires Covered(w) && Post(w, e).Ok?
    ensures Covered(Post(w, e).value.0)
  {
    var t := Post(w, e).value.0;
    forall a
      ensures 0 <= AccountOf(t, a).reserved <= AccountOf(t, a).balance <= Money.MAX_SAFE_INTEGER
    {
      assert 0 <= AccountOf(w, a).reserved <= AccountOf(w, a).balance;
    }
  }

  lemma StepCovers(s: State, e: Event)
    requires Covered(s.wallet)
    requires e.Hold? ==> 0 <= e.reserved <= AccountOf(s.wallet, e.account).balance
    ensures Covered(Step(s, e).wallet)
  {
    match e
    case WalletRuns(id) =>
      if id in s.requests && Post(s.wallet, s.requests[id]).Ok? {
        PostCovers(s.wallet, s.requests[id]);
      }
    case OtherPost(entry) =>
      if Post(s.wallet, entry).Ok? {
        PostCovers(s.wallet, entry);
      }
    case Hold(account, frozen, reserved) => HoldCovers(s.wallet, account, frozen, reserved);
    case _ => assert Step(s, e).wallet == s.wallet;
  }

  lemma HoldCovers(w: Wallet, account: int, frozen: bool, reserved: int)
    requires Covered(w) && 0 <= reserved <= AccountOf(w, account).balance
    ensures Covered(Held(w, account, frozen, reserved))
  {
    var t := Held(w, account, frozen, reserved);
    forall a
      ensures 0 <= AccountOf(t, a).reserved <= AccountOf(t, a).balance <= Money.MAX_SAFE_INTEGER
    {
      assert 0 <= AccountOf(w, a).reserved <= AccountOf(w, a).balance <= Money.MAX_SAFE_INTEGER;
    }
  }

  lemma HoldsBefore(events: seq<Event>, n: nat)
    requires HoldsWithin(events) && n <= |events|
    ensures HoldsWithin(events[..n])
  {
    forall i | 0 <= i < n && events[..n][i].Hold?
      ensures 0 <= events[..n][i].reserved
              <= AccountOf(Run(Init(), events[..n][..i]).wallet, events[..n][i].account).balance
    {
      Prefixes(events, n, i);
    }
  }

  /** In every run that reserves no more than there is, what is available on an account is never negative. */
  lemma {:induction false} NeverOverdrawn(events: seq<Event>)
    requires HoldsWithin(events)
    ensures Covered(Run(Init(), events).wallet)
  {
    if events != [] {
      var n := |events| - 1;
      HoldsBefore(events, n);
      NeverOverdrawn(events[..n]);
      StepCovers(Run(Init(), events[..n]), events[n]);
    }
  }

  /** In every reachable state, whatever is reserved: a post of any other kind writes its entry, or nothing changes. */
  lemma EntryIsWrittenExactly(events: seq<Event>, e: Entry)
    requires e.key.OtherKey?
    ensures var s := Run(Init(), events); var t := Step(s, OtherPost(e));
            if Writes(s.wallet, e) then t.wallet.ledger == s.wallet.ledger + [e] else t == s
  {
    RunIsSound(events);
    PostWrites(Run(Init(), events).wallet, e);
  }

  lemma {:induction false} NoBalanceIsUnsafe(events: seq<Event>)
    ensures forall a :: AccountOf(Run(Init(), events).wallet, a).balance <= Money.MAX_SAFE_INTEGER
  {
    if events != [] {
      NoBalanceIsUnsafe(events[..|events| - 1]);
      StepKeepsBalancesSafe(Run(Init(), events[..|events| - 1]), events[|events| - 1]);
    }
  }

  lemma StepKeepsBalancesSafe(s: State, e: Event)
    requires forall a :: AccountOf(s.wallet, a).balance <= Money.MAX_SAFE_INTEGER
    ensures forall a :: AccountOf(Step(s, e).wallet, a).balance <= Money.MAX_SAFE_INTEGER
  {
    var t := Step(s, e);
    forall a
      ensures AccountOf(t.wallet, a).balance <= Money.MAX_SAFE_INTEGER
    {
      assert AccountOf(s.wallet, a).balance <= Money.MAX_SAFE_INTEGER;
    }
  }

  /** The last word on the account: whether it is frozen, and what is reserved on it. */
  function LastHold(events: seq<Event>, account: int): (bool, int) {
    if events == [] then (false, 0)
    else
      var e := events[|events| - 1];
      if e.Hold? && e.account == account then (e.frozen, e.reserved) else LastHold(events[..|events| - 1], account)
  }

  /** An account is frozen, and something reserved on it, exactly as it was last told. */
  lemma {:induction false} HeldAsTold(events: seq<Event>, account: int)
    ensures var a := AccountOf(Run(Init(), events).wallet, account);
            (a.frozen, a.reserved) == LastHold(events, account)
  {
    if events != [] {
      HeldAsTold(events[..|events| - 1], account);
      StepKeepsHold(Run(Init(), events[..|events| - 1]), events[|events| - 1], account);
    }
  }

  lemma StepKeepsHold(s: State, e: Event, account: int)
    ensures var a, b := AccountOf(s.wallet, account), AccountOf(Step(s, e).wallet, account);
            (b.frozen, b.reserved)
            == if e.Hold? && e.account == account then (e.frozen, e.reserved) else (a.frozen, a.reserved)
  {
  }

  /** A debit under a new key on an open account is written exactly if the entries less the reserve cover it. */
  lemma DebitIsWrittenExactly(events: seq<Event>, e: Entry)
    requires e.key.OtherKey? && e.amount < 0
    requires var w := Run(Init(), events).wallet;
             !HasKey(w.ledger, e.account, e.key) && !AccountOf(w, e.account).frozen
    ensures var w := Run(Init(), events).wallet;
            Step(Run(Init(), events), OtherPost(e)).wallet.ledger
            == if 0 - e.amount <= Total(w, e.account) - AccountOf(w, e.account).reserved
               then w.ledger + [e] else w.ledger
  {
    EntryIsWrittenExactly(events, e);
    NoBalanceIsUnsafe(events);
    RunIsSound(events);
    var w := Run(Init(), events).wallet;
    assert AccountOf(w, e.account).balance == Total(w, e.account);
    assert AccountOf(w, e.account).balance <= Money.MAX_SAFE_INTEGER;
  }

  // ---- Each bet is paid once ----

  /** What the entry pays of the bet. */
  function PaidOn(bet: int): Entry -> int {
    (e: Entry) => if !e.key.OtherKey? && e.key.bet == bet then e.amount else 0
  }

  /** What a customer is owed for a settled bet. */
  function Owed(bet: int, r: Record): int {
    match CustomerCreditFor(bet, r) case DueTo(entry) => entry.amount case NothingDue => 0 case NoCustomer => 0
  }

  lemma {:induction false} SumOfNone(f: Entry -> int, ledger: seq<Entry>)
    requires forall e | e in ledger :: f(e) == 0
    ensures Sum(f, ledger) == 0
  {
    if ledger != [] {
      SumOfNone(f, ledger[1..]);
    }
  }

  lemma {:induction false} SumOfOne(f: Entry -> int, ledger: seq<Entry>, only: Entry)
    requires UniqueKeys(ledger) && only in ledger
    requires forall e | e in ledger :: e == only || f(e) == 0
    ensures Sum(f, ledger) == f(only)
  {
    var first, rest := ledger[0], ledger[1..];
    assert ledger == [first] + rest;
    if first == only {
      forall e | e in rest
        ensures f(e) == 0
      {
        var i :| 0 <= i < |rest| && rest[i] == e;
        assert ledger[i + 1] == e;
      }
      SumOfNone(f, rest);
    } else {
      assert UniqueKeys(rest);
      SumOfOne(f, rest, only);
    }
  }

  lemma SoundPaysOnce(s: State, bet: int)
    requires Sound(s)
    ensures Sum(PaidOn(bet), s.wallet.ledger)
            == if bet in s.settlements && PaidUp(s, bet) then Owed(bet, s.settlements[bet].record) else 0
  {
    var ledger := s.wallet.ledger;
    if bet in s.settlements && CustomerCreditFor(bet, s.settlements[bet].record).DueTo? {
      var due := CustomerCreditFor(bet, s.settlements[bet].record).entry;
      forall e | e in ledger
        ensures e == due || PaidOn(bet)(e) == 0
      {
        assert e.key.OtherKey? || Backed(s, e);
      }
      if due in ledger {
        SumOfOne(PaidOn(bet), ledger, due);
      } else {
        SumOfNone(PaidOn(bet), ledger);
      }
    } else {
      forall e | e in ledger
        ensures PaidOn(bet)(e) == 0
      {
        assert e.key.OtherKey? || Backed(s, e);
      }
      SumOfNone(PaidOn(bet), ledger);
    }
  }

  /** What the ledger says of a payment on a bet: whom it went to, how much, and whether it was won or returned. */
  lemma PaymentsAreNamed(events: seq<Event>, e: Entry)
    requires e in Run(Init(), events).wallet.ledger && !e.key.OtherKey?
    ensures var s := Run(Init(), events);
            && e.key.bet in s.settlements
            && var r := s.settlements[e.key.bet].record;
               && r.channel == ONLINE && r.user == Some(e.account) && e.amount == r.payout > 0
               && if r.outcome == WON then e.key.PayoutKey? && e.kind == BET_PAYOUT
                  else r.outcome == VOID && e.key.RefundKey? && e.kind == BET_REFUND
  {
    RunIsSound(events);
    assert Backed(Run(Init(), events), e);
  }

  /**
   * Over any interleaving of settle calls, retries and lost, late or repeated requests, all that is ever paid
   * on a bet is either nothing or what its one settlement owes; and once the settlement is stamped it is that.
   */
  lemma EachBetIsPaidOnce(events: seq<Event>, bet: int)
    ensures var s := Run(Init(), events); var paid := Sum(PaidOn(bet), s.wallet.ledger);
            && (bet !in s.settlements ==> paid == 0)
            && (bet in s.settlements ==>
                  && paid in {0, Owed(bet, s.settlements[bet].record)}
                  && (s.settlements[bet].stamped ==>
                        && paid == Owed(bet, s.settlements[bet].record)
                        && Told(s, bet, s.settlements[bet].record)))
  {
    RunIsSound(events);
    SoundPaysOnce(Run(Init(), events), bet);
    var s := Run(Init(), events);
    if bet in s.settlements {
      assert SettlementSound(s, bet, s.settlements[bet]);
    }
  }

  // ---- A retry pays ----

  /** A retry of the bet in which nothing fails on the way: first to the betting service, then to the stamp. */
  function Retold(s: State, bet: int): State {
    Step(Step(s, Resume(bet)), TellBetting(s.nextId, true))
  }

  function Retried(s: State, bet: int): State {
    Step(Repaid(Retold(s, bet), s.nextId), Stamp(s.nextId))
  }

  function Repaid(s: State, id: nat): State {
    Step(Step(Step(s, AskWallet(id)), WalletRuns(id)), Reply(id))
  }

  predicate Stamped(s: State, bet: int) {
    bet in s.settlements && s.settlements[bet].stamped
  }

  /** The wallet takes the credit: it has it already, or the account is not frozen and has room for it. */
  predicate Takes(w: Wallet, due: Due) {
    match due
    case NothingDue => true
    case NoCustomer => false
    case DueTo(e) =>
      e in w.ledger
      || (!AccountOf(w, e.account).frozen && AccountOf(w, e.account).balance + e.amount <= Money.MAX_SAFE_INTEGER)
  }

  /** The betting service takes the settlement. */
  predicate Accepts(s: State, bet: int, r: Record) {
    r.payout <= Money.MAX_SAFE_INTEGER && bet in s.bets && SettleBet(s.bets[bet], r).Some?
  }

  lemma FindUnique(ledger: seq<Entry>, e: Entry)
    requires UniqueKeys(ledger) && e in ledger
    ensures FindEntry(ledger, e.account, e.key) == Some(e)
  {
    var x := FindEntry(ledger, e.account, e.key).value;
    var i :| 0 <= i < |ledger| && ledger[i] == e;
    var j :| 0 <= j < |ledger| && ledger[j] == x;
    assert i == j;
  }

  /** A due credit is granted exactly where the wallet takes it. */
  lemma GrantedIfTaken(s: State, e: Entry)
    requires Sound(s) && Backed(s, e)
    ensures Post(s.wallet, e).Ok? <==> Takes(s.wallet, DueTo(e))
  {
    forall x | x in s.wallet.ledger && x.account == e.account && x.key == e.key
      ensures x == e
    {
      assert Backed(s, x);
    }
    if e in s.wallet.ledger {
      FindUnique(s.wallet.ledger, e);
    }
  }

  lemma RetryReachesWallet(s: State, bet: int)
    requires Sound(s) && bet in s.settlements
    ensures var id, r := s.nextId, s.settlements[bet].record;
            var t := Retold(s, bet);
            && t.settlements == s.settlements && t.wallet == s.wallet && t.requests == s.requests
            && t.answered == s.answered
            && id in t.tasks && t.tasks[id] == Applying(bet, r, if Accepts(s, bet, r) then ToWallet else ToBetting)
  {
  }

  lemma RetryReachesStamp(s: State, id: nat)
    requires id in s.tasks && s.tasks[id].Applying? && s.tasks[id].stage == ToWallet && id !in s.answered
    requires var due := CustomerCreditFor(s.tasks[id].bet, s.tasks[id].record);
             due.DueTo? ==> (Post(s.wallet, due.entry).Ok? <==> Takes(s.wallet, due))
    ensures var due := CustomerCreditFor(s.tasks[id].bet, s.tasks[id].record);
            var t := Repaid(s, id);
            && t.settlements == s.settlements
            && id in t.tasks && t.tasks[id].Applying? && t.tasks[id].bet == s.tasks[id].bet
            && (t.tasks[id].stage == ToStamp <==> Takes(s.wallet, due))
  {
    var due := CustomerCreditFor(s.tasks[id].bet, s.tasks[id].record);
    var a := Step(s, AskWallet(id));
    var b := Step(a, WalletRuns(id));
    if due.DueTo? {
      assert a.requests[id] == due.entry && a.wallet == s.wallet && At(a, id, AwaitingWallet);
      assert id in b.answered <==> Post(s.wallet, due.entry).Ok?;
      assert At(b, id, AwaitingWallet);
    }
  }

  lemma RetryStops(s: State, id: nat)
    requires At(s, id, ToBetting)
    ensures Repaid(s, id).settlements == s.settlements && Repaid(s, id).tasks == s.tasks
  {
  }

  lemma StampsAtTheEnd(s: State, id: nat, bet: int)
    requires id in s.tasks && s.tasks[id].Applying? && s.tasks[id].bet == bet && bet in s.settlements
             && !Stamped(s, bet)
    ensures Stamped(Step(s, Stamp(id)), bet) <==> s.tasks[id].stage == ToStamp
  {
  }

  lemma SoundRetryPays(s: State, bet: int, r: Record)
    requires Sound(s) && Recorded(s, bet, r) && !Stamped(s, bet)
    ensures Stamped(Retried(s, bet), bet) <==> Accepts(s, bet, r) && Takes(s.wallet, CustomerCreditFor(bet, r))
  {
    var id, due := s.nextId, CustomerCreditFor(bet, r);
    assert id !in s.requests && id !in s.answered;
    if due.DueTo? {
      assert Backed(s, due.entry);
      GrantedIfTaken(s, due.entry);
    }
    RetryReachesWallet(s, bet);
    var told := Retold(s, bet);
    if Accepts(s, bet, r) {
      RetryReachesStamp(told, id);
    } else {
      RetryStops(told, id);
    }
    StampsAtTheEnd(Repaid(told, id), id, bet);
  }

  /** What keeps a settled bet from its stamp is a betting service or a wallet that refuses it, and nothing else. */
  lemma RetryPays(events: seq<Event>, bet: int, r: Record)
    requires Recorded(Run(Init(), events), bet, r) && !Stamped(Run(Init(), events), bet)
    ensures var s := Run(Init(), events);
            Stamped(Retried(s, bet), bet) <==> Accepts(s, bet, r) && Takes(s.wallet, CustomerCreditFor(bet, r))
  {
    RunIsSound(events);
    SoundRetryPays(Run(Init(), events), bet, r);
  }

  // ---- From the slip to the payment ----

  /** What a bet was placed at, and by whom. */
  datatype Terms = Terms(stake: nat, prices: seq<nat>, channel: Channel, user: Option<int>)

  /** The slip was priced, and the column for the odds of a leg holds each price. */
  predicate Priced(t: Terms) {
    && PriceSlip(t.stake, t.prices).Ok? && PriceSlip(t.stake, t.prices).value.Some?
    && forall p | p in t.prices :: p < MAX_READABLE_HUNDREDTHS
  }

  function Potential(t: Terms): nat
    requires Priced(t)
  {
    PriceSlip(t.stake, t.prices).value.value.potentialPayout
  }

  /** The bet as the betting service stores it. */
  predicate Follows(t: Terms, row: BetRow) {
    Priced(t) && row.stake == t.stake && row.potentialPayout == Potential(t)
  }

  /** The record is what the bet's legs resolve to, under the outcomes some call read. */
  ghost predicate Resolves(t: Terms, r: Record) {
    && r.channel == t.channel && r.user == t.user
    && exists legs :: StoredAt(legs, t.prices) && ResolveBet(t.stake, legs) == Ok(Resolution(r.outcome, r.payout))
  }

  /** Bets are stored on their terms, and what is proposed for a bet is what its stored legs resolve to. */
  ghost predicate Honest(terms: int -> Terms, s: State, e: Event) {
    match e
    case Place(bet, row) => Follows(terms(bet), row)
    case Begin(bet, proposal) => bet in s.bets && Resolves(terms(bet), proposal)
    case _ => true
  }

  ghost predicate HonestRun(terms: int -> Terms, events: seq<Event>) {
    forall i | 0 <= i < |events| :: Honest(terms, Run(Init(), events[..i]), events[i])
  }

  ghost predicate ProposalOnTerms(terms: int -> Terms, s: State, bet: int, r: Record) {
    bet in s.bets && Resolves(terms(bet), r)
  }

  ghost predicate OnTerms(terms: int -> Terms, s: State) {
    && (forall bet | bet in s.bets :: Follows(terms(bet), s.bets[bet]))
    && (forall bet | bet in s.settlements :: ProposalOnTerms(terms, s, bet, s.settlements[bet].record))
    && (forall id | id in s.tasks && s.tasks[id].Deciding? ::
          ProposalOnTerms(terms, s, s.tasks[id].bet, s.tasks[id].proposal))
  }

  /** Only its status changes in a bet, and no bet goes. */
  lemma BetsKeepTerms(s: State, e: Event)
    ensures var t := Step(s, e);
            && (forall bet | bet in s.bets ::
                  bet in t.bets && t.bets[bet] == s.bets[bet].(status := t.bets[bet].status))
            && (forall bet | bet in t.bets :: bet in s.bets || e == Place(bet, t.bets[bet]))
  {
  }

  lemma StoresKeepTerms(s: State, e: Event)
    ensures var t := Step(s, e);
            && (forall bet | bet in t.settlements ::
                  || (bet in s.settlements && t.settlements[bet].record == s.settlements[bet].record)
                  || (e.Save? && e.id in s.tasks && s.tasks[e.id].Deciding? && s.tasks[e.id].bet == bet
                      && t.settlements[bet].record == s.tasks[e.id].proposal))
            && (forall id | id in t.tasks && t.tasks[id].Deciding? ::
                  || (id in s.tasks && t.tasks[id] == s.tasks[id])
                  || e == Begin(t.tasks[id].bet, t.tasks[id].proposal))
  {
  }

  lemma StepKeepsTerms(terms: int -> Terms, s: State, e: Event)
    requires OnTerms(terms, s) && Honest(terms, s, e)
    ensures OnTerms(terms, Step(s, e))
  {
    var t := Step(s, e);
    BetsKeepTerms(s, e);
    StoresKeepTerms(s, e);
    forall bet | bet in t.settlements
      ensures ProposalOnTerms(terms, t, bet, t.settlements[bet].record)
    {
      assert ProposalOnTerms(terms, s, bet, t.settlements[bet].record);
    }
    forall id | id in t.tasks && t.tasks[id].Deciding?
      ensures ProposalOnTerms(terms, t, t.tasks[id].bet, t.tasks[id].proposal)
    {
      assert ProposalOnTerms(terms, s, t.tasks[id].bet, t.tasks[id].proposal);
    }
  }

  lemma HonestBefore(terms: int -> Terms, events: seq<Event>, n: nat)
    requires HonestRun(terms, events) && n <= |events|
    ensures HonestRun(terms, events[..n])
  {
    forall i | 0 <= i < n
      ensures Honest(terms, Run(Init(), events[..n][..i]), events[..n][i])
    {
      Prefixes(events, n, i);
      assert Honest(terms, Run(Init(), events[..i]), events[i]);
    }
  }

  lemma Prefixes(events: seq<Event>, n: nat, i: nat)
    requires i < n <= |events|
    ensures events[..n][..i] == events[..i] && events[..n][i] == events[i]
  {
  }

  lemma {:induction false} RunIsOnTerms(terms: int -> Terms, events: seq<Event>)
    requires HonestRun(terms, events)
    ensures OnTerms(terms, Run(Init(), events))
  {
    if events != [] {
      var n := |events| - 1;
      HonestBefore(terms, events, n);
      RunIsOnTerms(terms, events[..n]);
      StepKeepsTerms(terms, Run(Init(), events[..n]), events[n]);
    }
  }

  /** Whatever the outcomes, the legs of a placed bet resolve to something the betting service accepts. */
  lemma ResolvedFits(t: Terms, r: Record)
    requires Priced(t) && Resolves(t, r)
    ensures Consistent(Resolution(r.outcome, r.payout), t.stake, Potential(t)) && r.payout <= Money.MAX_SAFE_INTEGER
  {
    var legs :| StoredAt(legs, t.prices) && ResolveBet(t.stake, legs) == Ok(Resolution(r.outcome, r.payout));
    PlacedBetsSettle(t.stake, t.prices, legs);
  }

  lemma BettingAccepts(terms: int -> Terms, s: State, bet: int, r: Record)
    requires Sound(s) && OnTerms(terms, s) && Recorded(s, bet, r)
    ensures Resolves(terms(bet), r) && r.channel == terms(bet).channel
    ensures r.payout <= Money.MAX_SAFE_INTEGER && (r.outcome == LOST ==> r.payout == 0)
    ensures Accepts(s, bet, r)
  {
    assert ProposalOnTerms(terms, s, bet, r);
    assert Follows(terms(bet), s.bets[bet]) && BetSound(s, bet, s.bets[bet]);
    ResolvedFits(terms(bet), r);
  }

  /**
   * The customer cannot be credited: an online bet that pays has no customer, or the credit has not been made
   * and the account is frozen or full.
   */
  predicate HeldUp(s: State, bet: int, r: Record) {
    && r.channel == ONLINE && r.payout > 0
    && (r.user.None?
        || (var account := AccountOf(s.wallet, r.user.value);
            && !(exists e | e in s.wallet.ledger :: CustomerCreditFor(bet, r) == DueTo(e))
            && (account.frozen || account.balance + r.payout > Money.MAX_SAFE_INTEGER)))
  }

  lemma AcceptedIsTaken(s: State, bet: int, r: Record)
    requires r.outcome == LOST ==> r.payout == 0
    ensures Takes(s.wallet, CustomerCreditFor(bet, r)) <==> !HeldUp(s, bet, r)
  {
  }

  /** The retry of a bet that was placed on its terms is held up by the customer's account alone. */
  lemma OnlyTheAccountHoldsUp(terms: int -> Terms, events: seq<Event>, bet: int, r: Record)
    requires HonestRun(terms, events)
    requires Recorded(Run(Init(), events), bet, r) && !Stamped(Run(Init(), events), bet)
    ensures var s := Run(Init(), events); Stamped(Retried(s, bet), bet) <==> !HeldUp(s, bet, r)
  {
    RunIsSound(events);
    RunIsOnTerms(terms, events);
    RetryOnTerms(terms, Run(Init(), events), bet, r);
  }

  lemma RetryOnTerms(terms: int -> Terms, s: State, bet: int, r: Record)
    requires Sound(s) && OnTerms(terms, s) && Recorded(s, bet, r) && !Stamped(s, bet)
    ensures Stamped(Retried(s, bet), bet) <==> !HeldUp(s, bet, r)
  {
    BettingAccepts(terms, s, bet, r);
    AcceptedIsTaken(s, bet, r);
    SoundRetryPays(s, bet, r);
  }

  /** What a stamped settlement owes is its payout, if it is the customer of an online bet who is owed it. */
  lemma StampedOwes(terms: int -> Terms, s: State, bet: int, r: Record)
    requires Sound(s) && OnTerms(terms, s) && Recorded(s, bet, r) && Stamped(s, bet)
    ensures Resolves(terms(bet), r) && Owed(bet, r) == if terms(bet).channel == ONLINE then r.payout else 0
  {
    BettingAccepts(terms, s, bet, r);
    assert SettlementSound(s, bet, s.settlements[bet]);
    PaidUpOwes(s, bet, r, terms(bet).channel);
  }

  lemma PaidUpOwes(s: State, bet: int, r: Record, channel: Channel)
    requires Recorded(s, bet, r) && PaidUp(s, bet) && r.channel == channel && (r.outcome == LOST ==> r.payout == 0)
    ensures Owed(bet, r) == if channel == ONLINE then r.payout else 0
  {
  }

  /**
   * Once stamped, what has been paid on a placed bet is what its legs resolve to: to the customer of an online
   * bet here, and to a ticket's holder at the shop.
   */
  lemma PaidIsResolved(terms: int -> Terms, events: seq<Event>, bet: int, r: Record)
    requires HonestRun(terms, events) && Recorded(Run(Init(), events), bet, r) && Stamped(Run(Init(), events), bet)
    ensures Resolves(terms(bet), r) && Told(Run(Init(), events), bet, r)
    ensures Sum(PaidOn(bet), Run(Init(), events).wallet.ledger)
            == if terms(bet).channel == ONLINE then r.payout else 0
  {
    RunIsSound(events);
    RunIsOnTerms(terms, events);
    EachBetIsPaidOnce(events, bet);
    StampedOwes(terms, Run(Init(), events), bet, r);
  }
}
