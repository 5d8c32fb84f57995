/**
 The exchange as a step machine. Handlers freeze assets and hand orders over, the
 log thread writes and routes them, one book thread a ticker matches them, and the
 settlement thread moves money and shares in the database and in memory. Each
 action is one atomic step of one thread; a run interleaves them in any order.
 */
module Pipeline {
  import opened Orders
  import opened Sums
  import opened Measures
  import opened FlatBook
  import opened BookLaws
  import opened Replay
  import opened Wal
  import opened Accounts
  import opened Settlement

  /** A deposit that is already stored but not yet credited in memory. */
  datatype Deposit = Deposit(user: nat, amount: nat)

  /** The fill being settled and the number of its next update. */
  datatype Settling = Settling(record: MatchRecord, pc: nat)

  /**
   One book thread: its queue, the events of the current batch still to handle, the
   fills of the batch not yet published, and the history of everything handled.
   */
  datatype Thread = Thread(
    queue: seq<Event>, batch: seq<Event>, results: seq<MatchRecord>,
    handled: seq<Event>, done: Progress)

  /**
     What happened so far, for the statements only: orders admitted, fills and cancel
     records put on the settlement queues, and those taken off them again.
   */
  datatype History = History(
    admitted: seq<Order>,
    published: seq<MatchRecord>, settled: seq<MatchRecord>,
    cancelled: seq<CancelRecord>, unfrozen: seq<CancelRecord>)

  const NO_HISTORY := History([], [], [], [], [])

  /** What never changes: the shares in memory and the surplus of stored over loaded holdings. */
  datatype Origin = Origin(shares: map<nat, nat>, gap: map<Asset, nat>)

  datatype State = State(
    ledger: Ledger, db: Store, deposits: seq<Deposit>,
    handed: seq<Order>, usedIds: set<nat>,
    walQueue: seq<Event>, walBatch: seq<Event>, dispatching: bool, wal: seq<WalRecord>,
    dropped: seq<Order>, threads: map<nat, Thread>,
    matchQueue: seq<MatchRecord>, cancelQueue: seq<CancelRecord>, current: Option<Settling>,
    cashIn: nat, origin: Origin, history: History)

  const BATCH := 1000
  /** Half of what a 32-bit signed share count can hold. */
  const HALF32 := 0x3FFF_FFFF

  // --------------------------------------------------------------- actions

  datatype Action =
    | Admit(order: Order)                        // a trade handler freezes
    | Append(i: nat)                             // ... and enqueues for the log
    | RequestCancel(ticker: nat, id: nat, user: nat)
    | StoreDeposit(user: nat, amount: nat)       // a deposit handler updates the database
    | CreditDeposit(i: nat)                      // ... and then the account
    | WalTake(i: nat)                            // the log thread collects a batch
    | WalWrite                                   // ... writes it
    | WalDispatch                                // ... and routes its next event
    | BookTake(ticker: nat, n: nat)              // a book thread takes a batch
    | BookHandle(ticker: nat)                    // ... handles its next event
    | BookPublish(ticker: nat)                   // ... and publishes its fills
    | SettleTake(i: nat)                         // the settlement thread picks a fill
    | SettleStep                                 // ... makes its next update
    | SettleCancel(i: nat)                       // ... or unfreezes a cancelled order

  /** When the code takes the step. */
  predicate Enabled(s: State, a: Action) {
    match a
    case Admit(o) => o.id !in s.usedIds
    case Append(i) => i < |s.handed|
    case RequestCancel(_, _, _) => true
    case StoreDeposit(u, amount) => u in s.ledger && amount > 0
    case CreditDeposit(i) => i < |s.deposits|
    case WalTake(i) => !s.dispatching && i < |s.walQueue| && |s.walBatch| < BATCH
    case WalWrite => !s.dispatching && s.walBatch != []
    case WalDispatch => s.dispatching && s.walBatch != []
    case BookTake(t, n) =>
      t in s.threads && s.threads[t].batch == [] && s.threads[t].results == [] && 0 < n <= |s.threads[t].queue| && n <= BATCH
    case BookHandle(t) => t in s.threads && s.threads[t].batch != []
    case BookPublish(t) => t in s.threads && s.threads[t].batch == [] && s.threads[t].results != []
    case SettleTake(i) => s.current.None? && i < |s.matchQueue|
    case SettleStep => s.current.Some? && s.current.value.pc < 6
    case SettleCancel(i) => s.current.None? && i < |s.cancelQueue|
  }

  /** What a handler asks to freeze for an order: the cost or the amount, converted as the code converts them. */
  function Freeze(l: Ledger, o: Order): Attempt {
    if o.side.Buy? then TryFreezeBalance(l, o.user, I64(U64(o.price * o.qty)))
    else TryFreezeStock(l, o.user, o.ticker, I32(o.qty))
  }

  function Dispatch(s: State): State
    requires s.dispatching && s.walBatch != []
  {
    var e, rest := s.walBatch[0], s.walBatch[1..];
    var t := TickerOf(e);
    var s' := s.(walBatch := rest, dispatching := rest != []);
    if t in s.threads then
      s'.(threads := s.threads[t := s.threads[t].(queue := s.threads[t].queue + [e])])
    else
      s'.(dropped := s.dropped + if e.NewOrder? then [e.order] else [])
  }

  function NewCancels(p: Progress, e: Event): seq<CancelRecord> {
    if e.CancelOrder? && Cancel(p.book, e.id, e.user).order.Some? then
      [ToCancelRecord(Cancel(p.book, e.id, e.user).order.value)]
    else []
  }

  function NewRecords(p: Progress, e: Event): seq<MatchRecord> {
    if e.NewOrder? then Process(p.book, e.order).records else []
  }

  function HandleNext(th: Thread): Thread
    requires th.batch != []
  {
    var e := th.batch[0];
    th.(batch := th.batch[1..], results := th.results + NewRecords(th.done, e),
        handled := th.handled + [e], done := Handle(th.done, e))
  }

  function SettleNext(s: State): State
    requires s.current.Some? && s.current.value.pc < 6
  {
    var c := s.current.value;
    var h := Update(Holdings(s.ledger, s.db), c.record, c.pc);
    s.(ledger := h.ledger, db := h.db, current := if c.pc < 5 then Some(c.(pc := c.pc + 1)) else None)
  }

  function Apply(s: State, a: Action): State
    requires Enabled(s, a)
  {
    match a
    case Admit(o) =>
      var r := Freeze(s.ledger, o);
      var admitted := if r.ok then [o] else [];
      s.(ledger := r.ledger, usedIds := s.usedIds + {o.id}, handed := s.handed + admitted,
         history := s.history.(admitted := s.history.admitted + admitted))
    case Append(i) => s.(handed := RemoveAt(s.handed, i), walQueue := s.walQueue + [NewOrder(s.handed[i])])
    case RequestCancel(t, id, u) => s.(walQueue := s.walQueue + [CancelOrder(t, id, u)])
    case StoreDeposit(u, amount) =>
      s.(db := Credit(s.db, Asset(u, Money), amount), deposits := s.deposits + [Deposit(u, amount)])
    case CreditDeposit(i) =>
      var d := s.deposits[i];
      s.(ledger := AddBalance(s.ledger, d.user, d.amount), deposits := RemoveAt(s.deposits, i), cashIn := s.cashIn + d.amount)
    case WalTake(i) => s.(walQueue := RemoveAt(s.walQueue, i), walBatch := s.walBatch + [s.walQueue[i]])
    case WalWrite => s.(wal := s.wal + RecordAll(s.walBatch), dispatching := true)
    case WalDispatch => Dispatch(s)
    case BookTake(t, n) =>
      var th := s.threads[t];
      s.(threads := s.threads[t := th.(batch := th.queue[..n], queue := th.queue[n..])])
    case BookHandle(t) =>
      var th := s.threads[t];
      var cancels := NewCancels(th.done, th.batch[0]);
      s.(threads := s.threads[t := HandleNext(th)], cancelQueue := s.cancelQueue + cancels,
         history := s.history.(cancelled := s.history.cancelled + cancels))
    case BookPublish(t) =>
      var th := s.threads[t];
      s.(threads := s.threads[t := th.(results := [])], matchQueue := s.matchQueue + th.results,
         history := s.history.(published := s.history.published + th.results))
    case SettleTake(i) =>
      s.(matchQueue := RemoveAt(s.matchQueue, i), current := Some(Settling(s.matchQueue[i], 0)),
         history := s.history.(settled := s.history.settled + [s.matchQueue[i]]))
    case SettleStep => SettleNext(s)
    case SettleCancel(i) =>
      s.(ledger := Settlement.SettleCancel(s.ledger, s.cancelQueue[i]), cancelQueue := RemoveAt(s.cancelQueue, i),
         history := s.history.(unfrozen := s.history.unfrozen + [s.cancelQueue[i]]))
  }

  // ------------------------------------------------- what clients are assumed to ask

  function DepositOf(a: Asset): Deposit -> int {
    (d: Deposit) => if a == Asset(d.user, Money) then d.amount else 0
  }

  function AnyDeposit(): Deposit -> int {
    (d: Deposit) => d.amount
  }

  /** Requests whose products and amounts fit the types they are converted to, and deposits the total can hold. */
  predicate Reasonable(s: State, a: Action) {
    match a
    case Admit(o) => Fits(o)
    case StoreDeposit(_, amount) => s.cashIn + SumSeq(s.deposits, AnyDeposit()) + amount <= MAX_INT64
    case _ => true
  }

  // ------------------------------------------------------------------ totals

  function ThreadWeight(m: Measure, th: Thread): nat {
    InEvents(m, th.queue) + InEvents(m, th.batch) + InBook(m, th.done.book) + InRecords(m, th.results)
  }

  function OfThread(m: Measure): Thread -> int {
    (th: Thread) => ThreadWeight(m, th)
  }

  ghost function InThreads(m: Measure, ths: map<nat, Thread>): nat {
    SumMapBounds(ths, OfThread(m));
    SumMap(ths, OfThread(m))
  }

  /** After the buyer's account is updated only the seller's shares remain claimed. */
  function CurrentWeight(m: Measure, c: Option<Settling>): nat {
    if c.None? then 0
    else if m.Claim? && c.value.pc >= 5 then SellerClaim(m.asset, c.value.record)
    else RecordWeight(m, c.value.record)
  }

  /** The weight of everything in flight, wherever it is. */
  ghost function Total(s: State, m: Measure): nat {
    InOrders(m, s.handed) + InEvents(m, s.walQueue) + InEvents(m, s.walBatch) + InOrders(m, s.dropped)
    + InThreads(m, s.threads) + InRecords(m, s.matchQueue) + InCancels(m, s.cancelQueue) + CurrentWeight(m, s.current)
  }

  function HeldOf(k: Kind): Account -> int {
    (acc: Account) => acc.Held(k)
  }

  /** All money, or all shares of a ticker, in the accounts. */
  ghost function TotalHeld(l: Ledger, k: Kind): int {
    SumMap(l, HeldOf(k))
  }

  // -------------------------------------------------------------- invariants

  /** What is frozen is exactly what is in flight, and what is available is never negative. */
  ghost predicate AccountedAt(s: State, a: Asset) {
    Frozen(s.ledger, a) == Total(s, Claim(a)) && Avail(s.ledger, a) >= 0
  }

  ghost predicate Accounted(s: State) {
    forall a: Asset :: AccountedAt(s, a)
  }

  /** No order id is in flight twice, and none is in flight before it was used. */
  ghost predicate UniqueAt(s: State, i: nat) {
    Total(s, Ident(i)) <= if i in s.usedIds then 1 else 0
  }

  ghost predicate Unique(s: State) {
    forall i: nat :: UniqueAt(s, i)
  }

  ghost predicate Sound(s: State) {
    && Total(s, Broken(s.ledger.Keys)) == 0
    && (forall d :: d in s.deposits ==> d.user in s.ledger)
    && (s.current.Some? ==> s.current.value.pc < 6)
  }

  predicate ForTicker(t: nat, es: seq<Event>) {
    forall e :: e in es ==> TickerOf(e) == t
  }

  predicate BookValid(s: State, t: nat)
    requires t in s.threads
  {
    var th := s.threads[t];
    th.done.book.ticker == t && Valid(th.done.book) && ForTicker(t, th.queue) && ForTicker(t, th.batch)
  }

  // ----------------------------------------------------------------- history

  function FillsOf(rs: seq<MatchRecord>, t: nat): seq<MatchRecord> {
    if rs == [] then [] else (if rs[0].ticker == t then [rs[0]] else []) + FillsOf(rs[1..], t)
  }

  function CancelsOf(cs: seq<CancelRecord>, t: nat): seq<CancelRecord> {
    if cs == [] then [] else (if cs[0].ticker == t then [cs[0]] else []) + CancelsOf(cs[1..], t)
  }

  /** A thread's fills are published or waiting in its batch, and its cancel records are queued: none is lost or made up. */
  predicate RecordedAt(s: State, t: nat)
    requires t in s.threads
  {
    var th := s.threads[t];
    && FillsOf(s.history.published, t) + th.results == th.done.records
    && CancelsOf(s.history.cancelled, t) == th.done.cancels
    && forall r :: r in th.results ==> r.ticker == t
  }

  /** What was put on a settlement queue is on it or was taken off it, once each. */
  ghost predicate Recorded(s: State) {
    && (forall t :: t in s.threads ==> RecordedAt(s, t))
    && multiset(s.history.published) == multiset(s.matchQueue) + multiset(s.history.settled)
    && multiset(s.history.cancelled) == multiset(s.cancelQueue) + multiset(s.history.unfrozen)
  }

  /** On its way to the engine, or dropped there. */
  predicate NotRouted(s: State, o: Order) {
    o in s.handed || NewOrder(o) in s.walQueue || NewOrder(o) in s.walBatch || o in s.dropped
  }

  predicate TracedAt(s: State, o: Order) {
    && (NotRouted(s, o) ==> o in s.history.admitted)
    && (o in s.history.admitted && o.ticker !in s.threads ==> NotRouted(s, o))
    && (o in s.dropped ==> o.ticker !in s.threads)
  }

  /** Orders for tickers without a book never get past the engine, and only they are dropped. */
  ghost predicate Traced(s: State) {
    forall o: Order :: TracedAt(s, o)
  }

  predicate BooksValid(s: State) {
    forall t :: t in s.threads ==> BookValid(s, t)
  }

  function SharesOf(o: Origin, t: nat): nat {
    if t in o.shares then o.shares[t] else 0
  }

  /**
   Between the buyer's and the seller's update of one fill, the money is in
   neither account and the shares are in both.
   */
  function InTransit(c: Option<Settling>, k: Kind): int {
    if c.Some? && c.value.pc == 5 then
      if k.Money? then -Cost(c.value.record)
      else if k.ticker == c.value.record.ticker then Shares(c.value.record) else 0
    else 0
  }

  function Supply(s: State, k: Kind): nat {
    if k.Money? then s.cashIn else SharesOf(s.origin, k.ticker)
  }

  function PendingDeposits(s: State): int {
    SumSeq(s.deposits, AnyDeposit())
  }

  ghost predicate SuppliedAt(s: State, k: Kind) {
    && TotalHeld(s.ledger, k) == Supply(s, k) + InTransit(s.current, k)
    && (k.Money? ==> s.cashIn + PendingDeposits(s) <= MAX_INT64)
    && (k.Stock? ==> Supply(s, k) <= HALF32 && InTransit(s.current, k) <= Supply(s, k))
  }

  /** Money changes only by deposits, shares never. */
  ghost predicate Supplied(s: State) {
    forall k: Kind :: SuppliedAt(s, k)
  }

  /** How far the database is ahead of memory because of the fill being settled. */
  function AheadOfMemory(c: Option<Settling>, a: Asset): int {
    if c.None? then 0
    else
      var r, pc := c.value.record, c.value.pc;
      (if 1 <= pc <= 4 && a == BuyerMoney(r) then -Cost(r) else 0)
      + (if 2 <= pc <= 4 && a == BuyerStock(r) then Shares(r) else 0)
      + (if 3 <= pc && a == SellerMoney(r) then Cost(r) else 0)
      + (if 4 <= pc && a == SellerStock(r) then -Shares(r) else 0)
  }

  function Gap(o: Origin, a: Asset): nat {
    if a in o.gap && !a.kind.Money? then o.gap[a] else 0
  }

  /** Stored assets are the assets in memory, up to the startup gap and the work in progress. */
  predicate MirroredAt(s: State, a: Asset) {
    a.user in s.ledger ==>
      && Stored(s.db, a) == Held(s.ledger, a) + Gap(s.origin, a) + SumSeq(s.deposits, DepositOf(a)) + AheadOfMemory(s.current, a)
      && (a.kind.Money? ==> a in s.db)
  }

  ghost predicate Mirrored(s: State) {
    forall a: Asset :: MirroredAt(s, a)
  }

  /** A book thread is the sequential fold over a prefix of its part of the log; the rest is on its way. */
  predicate LoggedAt(s: State, t: nat)
    requires t in s.threads
  {
    var th := s.threads[t];
    && th.done == HandleAll(Start(t), th.handled)
    && Project(DecodeAll(s.wal), t)
       == th.handled + th.batch + th.queue + if s.dispatching then Project(s.walBatch, t) else []
  }

  predicate Logged(s: State) {
    forall t :: t in s.threads ==> LoggedAt(s, t)
  }

  ghost predicate Inv(s: State) {
    && Accounted(s) && Unique(s) && Sound(s) && BooksValid(s) && Supplied(s) && Mirrored(s) && Logged(s)
    && Recorded(s) && Traced(s)
  }

  // -------------------------------------------------------------------- runs

  /** A freshly loaded server: nothing frozen, nothing in flight, all books empty, and no ticker beyond a supply limit. */
  ghost predicate Init(s: State, limit: nat) {
    && s.deposits == [] && s.handed == [] && s.usedIds == {} && s.walQueue == [] && s.walBatch == []
    && !s.dispatching && s.wal == [] && s.dropped == [] && s.matchQueue == [] && s.cancelQueue == [] && s.current == None
    && s.history == NO_HISTORY
    && (forall t :: t in s.threads ==> s.threads[t] == Thread([], [], [], [], Start(t)))
    && (forall a: Asset :: Frozen(s.ledger, a) == 0 && Avail(s.ledger, a) >= 0)
    && TotalHeld(s.ledger, Money) == s.cashIn <= MAX_INT64
    && (forall t :: TotalHeld(s.ledger, Stock(t)) == SharesOf(s.origin, t) <= limit)
    && (forall a: Asset :: a.user in s.ledger ==>
          Stored(s.db, a) == Avail(s.ledger, a) + Gap(s.origin, a) && (a.kind.Money? ==> a in s.db))
  }

  /** A run: any interleaving of enabled steps that clients keep reasonable. */
  ghost predicate IsRun(states: seq<State>, actions: seq<Action>, limit: nat) {
    && |states| == |actions| + 1 && Init(states[0], limit)
    && forall i :: 0 <= i < |actions| ==>
         Enabled(states[i], actions[i]) && Reasonable(states[i], actions[i]) && states[i + 1] == Apply(states[i], actions[i])
  }
}
