/** The state publication protocol of internal/gateways/publisher.go as a transition system.

    A system consists of the persisted identity states, the pending map, the goroutines that
    are in the middle of an API call or of watching a transaction, and the chain.  Every
    action below is one atomic step of one actor; the outcome of a service call is part of
    the action, so every success or failure of every call is some action.  */
module Publication {
  import opened Wrappers
  import opened Receipts

  type Did = string
  type StateHash = string
  type TxID = string

  datatype Status = Created | Transacted | Confirmed | Failed

  /** A row of identity_states; the key of the table is the state hash. */
  datatype IdentityState = IdentityState(
    identifier: Did,
    genesis: bool,
    status: Status,
    txID: Option<TxID>,
    blockNumber: Option<int>,
    blockTimestamp: Option<int>)

  datatype Chain = Chain(head: int, receipts: map<TxID, Receipt>, headers: map<int, int>)

  /** The chain only grows: receipts and header times never change once they exist. */
  predicate Extends(before: Chain, after: Chain) {
    && before.head <= after.head
    && (forall tx | tx in before.receipts :: tx in after.receipts && after.receipts[tx] == before.receipts[tx])
    && (forall n | n in before.headers :: n in after.headers && after.headers[n] == before.headers[n])
  }

  datatype Kind = Publish | Retry

  /** Where a goroutine stands.  A goroutine keeps its own copy of the state it works on. */
  datatype Pc =
    | Loaded(kind: Kind)                                          // saw no pending entry, has not stored one yet
    | Owning(kind: Kind)                                          // stored its pending entry
    | Preparing(kind: Kind, hash: StateHash, state: IdentityState)
    | Sent(kind: Kind, hash: StateHash, state: IdentityState, tx: TxID)
    | Spawning(hash: StateHash, state: IdentityState, tx: TxID)   // saved as transacted
    | MarkingFailed(hash: StateHash, state: IdentityState)
    | Releasing                                                   // about to delete its pending entry
    | AwaitingReceipt(hash: StateHash, state: IdentityState, tx: TxID)
    | AwaitingDepth(hash: StateHash, state: IdentityState, tx: TxID, receipt: Receipt)
    | Finishing(hash: StateHash, state: IdentityState, tx: TxID, receipt: Receipt)

  datatype Goroutine = Goroutine(did: Did, pc: Pc)

  datatype System = System(
    store: map<StateHash, IdentityState>,
    pending: set<Did>,
    threads: map<nat, Goroutine>,
    chain: Chain,
    confirmations: int,
    checking: Option<(StateHash, IdentityState)>)  // a checker's stale read, only in undisciplined runs

  datatype Action =
    // entering PublishState or RetryPublishState
    | Acquire(t: nat, did: Did, kind: Kind)
    | Load(t: nat, did: Did, kind: Kind)
    | Store(t: nat)
    | Expire(did: Did)
    // publishState, retryPublishFailedState and publishProof
    | PrepareFails(t: nat)
    | CreateState(t: nat, hash: StateHash)
    | FetchFailed(t: nat, hash: StateHash)
    | ProofFails(t: nat)
    | Send(t: nat, tx: TxID)
    | PersistFails(t: nat)
    | Persist(t: nat)
    | Spawn(t: nat)
    | MarkFailed(t: nat)
    | MarkFailedFails(t: nat)
    | Release(t: nat)
    // the watcher
    | SeeReceipt(t: nat)
    | SeeDepth(t: nat)
    | Finish(t: nat)
    | GiveUp(t: nat)
    // the periodic checker, in one step or split into its read and its write
    | CheckStatus(hash: StateHash)
    | CheckRead(hash: StateHash)
    | CheckWrite
    | Mine(chain: Chain)

  /** The assumptions under which the protocol is safe: the pending map is tested and set in
      one step, entries do not expire, and a status check reads and writes in one step. */
  predicate Disciplined(a: Action) {
    !a.Load? && !a.Store? && !a.Expire? && !a.CheckRead? && !a.CheckWrite?
  }

  predicate Owns(pc: Pc) {
    !pc.Loaded?
  }

  /** The SQL update: four columns of the row with this state hash, nothing if there is none. */
  function Update(store: map<StateHash, IdentityState>, hash: StateHash, state: IdentityState)
    : map<StateHash, IdentityState>
  {
    if hash in store then
      store[hash := store[hash].(status := state.status, txID := state.txID,
                                 blockNumber := state.blockNumber, blockTimestamp := state.blockTimestamp)]
    else
      store
  }

  /** What updateIdentityStateTxStatus writes for a receipt and the time of its block. */
  function Settle(state: IdentityState, receipt: Receipt, time: int): IdentityState {
    state.(status := if receipt.successful then Confirmed else Failed,
           blockNumber := Some(receipt.block), blockTimestamp := Some(time))
  }

  function Fresh(did: Did): IdentityState {
    IdentityState(did, false, Created, None, None, None)
  }

  /** waitBlock's test: strictly deeper than the configured count. */
  predicate WatcherSeesDepth(chain: Chain, receipt: Receipt, confirmations: int) {
    chain.head > confirmations + receipt.block
  }

  /** CheckConfirmation's test. */
  predicate CheckerSeesDepth(chain: Chain, receipt: Receipt, confirmations: int) {
    chain.head - receipt.block >= confirmations
  }

  /** A status check of this state would find everything it needs and write. */
  predicate Checkable(s: System, state: IdentityState) {
    && state.status == Transacted
    && !state.genesis
    && state.txID.Some?
    && state.txID.value in s.chain.receipts
    && var receipt := s.chain.receipts[state.txID.value];
       CheckerSeesDepth(s.chain, receipt, s.confirmations) && receipt.block in s.chain.headers
  }

  predicate At(s: System, t: nat) {
    t in s.threads
  }

  predicate Enabled(s: System, a: Action) {
    match a
    case Acquire(t, did, _) => t !in s.threads && did !in s.pending
    case Load(t, did, _) => t !in s.threads && did !in s.pending
    case Store(t) => At(s, t) && s.threads[t].pc.Loaded?
    case Expire(did) => did in s.pending
    case PrepareFails(t) => At(s, t) && s.threads[t].pc.Owning?
    case CreateState(t, hash) => At(s, t) && s.threads[t].pc == Owning(Publish) && hash !in s.store
    case FetchFailed(t, hash) =>
      && At(s, t) && s.threads[t].pc == Owning(Retry) && hash in s.store
      && s.store[hash].identifier == s.threads[t].did
      && s.store[hash].status == Failed && !s.store[hash].genesis
    case ProofFails(t) => At(s, t) && s.threads[t].pc.Preparing?
    case Send(t, _) => At(s, t) && s.threads[t].pc.Preparing?
    case PersistFails(t) => At(s, t) && s.threads[t].pc.Sent?
    case Persist(t) => At(s, t) && s.threads[t].pc.Sent? && s.threads[t].pc.hash in s.store
    case Spawn(t) => At(s, t) && s.threads[t].pc.Spawning?
    case MarkFailed(t) => At(s, t) && s.threads[t].pc.MarkingFailed?
    case MarkFailedFails(t) => At(s, t) && s.threads[t].pc.MarkingFailed?
    case Release(t) => At(s, t) && s.threads[t].pc.Releasing?
    case SeeReceipt(t) =>
      At(s, t) && s.threads[t].pc.AwaitingReceipt? && s.threads[t].pc.tx in s.chain.receipts
    case SeeDepth(t) =>
      && At(s, t) && s.threads[t].pc.AwaitingDepth?
      && WatcherSeesDepth(s.chain, s.threads[t].pc.receipt, s.confirmations)
    case Finish(t) =>
      At(s, t) && s.threads[t].pc.Finishing? && s.threads[t].pc.receipt.block in s.chain.headers
    case GiveUp(t) =>
      && At(s, t)
      && (s.threads[t].pc.AwaitingReceipt? || s.threads[t].pc.AwaitingDepth? || s.threads[t].pc.Finishing?)
    case CheckStatus(hash) => hash in s.store && Checkable(s, s.store[hash])
    case CheckRead(hash) => hash in s.store && Checkable(s, s.store[hash]) && s.checking.None?
    case CheckWrite => s.checking.Some? && Checkable(s, s.checking.value.1)
    case Mine(chain) => Extends(s.chain, chain)
  }

  /** Goroutine t moves on to pc. */
  function Goto(s: System, t: nat, pc: Pc): System
    requires t in s.threads
  {
    s.(threads := s.threads[t := s.threads[t].(pc := pc)])
  }

  function AfterError(kind: Kind, hash: StateHash, state: IdentityState): Pc {
    // publishState saves the state as failed first, retryPublishFailedState just returns
    if kind.Publish? then MarkingFailed(hash, state) else Releasing
  }

  function SettledBy(s: System, state: IdentityState): IdentityState
    requires Checkable(s, state)
  {
    var receipt := s.chain.receipts[state.txID.value];
    Settle(state, receipt, s.chain.headers[receipt.block])
  }

  function Apply(s: System, a: Action): System
    requires Enabled(s, a)
  {
    match a
    case Acquire(t, did, kind) =>
      s.(pending := s.pending + {did}, threads := s.threads[t := Goroutine(did, Owning(kind))])
    case Load(t, did, kind) =>
      s.(threads := s.threads[t := Goroutine(did, Loaded(kind))])
    case Store(t) =>
      Goto(s, t, Owning(s.threads[t].pc.kind)).(pending := s.pending + {s.threads[t].did})
    case Expire(did) =>
      s.(pending := s.pending - {did})
    case PrepareFails(t) =>
      Goto(s, t, Releasing)
    case CreateState(t, hash) =>
      var state := Fresh(s.threads[t].did);
      Goto(s, t, Preparing(Publish, hash, state)).(store := s.store[hash := state])
    case FetchFailed(t, hash) =>
      Goto(s, t, Preparing(Retry, hash, s.store[hash]))
    case ProofFails(t) =>
      var pc := s.threads[t].pc;
      Goto(s, t, AfterError(pc.kind, pc.hash, pc.state))
    case Send(t, tx) =>
      var pc := s.threads[t].pc;
      Goto(s, t, Sent(pc.kind, pc.hash, pc.state, tx))
    case PersistFails(t) =>
      var pc := s.threads[t].pc;
      Goto(s, t, AfterError(pc.kind, pc.hash, pc.state))
    case Persist(t) =>
      var pc := s.threads[t].pc;
      var state := pc.state.(status := Transacted, txID := Some(pc.tx));
      Goto(s, t, Spawning(pc.hash, state, pc.tx)).(store := Update(s.store, pc.hash, state))
    case Spawn(t) =>
      var pc := s.threads[t].pc;
      Goto(s, t, AwaitingReceipt(pc.hash, pc.state, pc.tx))
    case MarkFailed(t) =>
      var pc := s.threads[t].pc;
      Goto(s, t, Releasing).(store := Update(s.store, pc.hash, pc.state.(status := Failed)))
    case MarkFailedFails(t) =>
      Goto(s, t, Releasing)
    case Release(t) =>
      s.(pending := s.pending - {s.threads[t].did}, threads := s.threads - {t})
    case SeeReceipt(t) =>
      var pc := s.threads[t].pc;
      var receipt := s.chain.receipts[pc.tx];
      // a failed transaction is saved at once, a successful one has to be confirmed first
      Goto(s, t, if receipt.successful then AwaitingDepth(pc.hash, pc.state, pc.tx, receipt)
                 else Finishing(pc.hash, pc.state, pc.tx, receipt))
    case SeeDepth(t) =>
      var pc := s.threads[t].pc;
      Goto(s, t, Finishing(pc.hash, pc.state, pc.tx, pc.receipt))
    case Finish(t) =>
      var pc := s.threads[t].pc;
      Goto(s, t, Releasing).(
        store := Update(s.store, pc.hash, Settle(pc.state, pc.receipt, s.chain.headers[pc.receipt.block])))
    case GiveUp(t) =>
      Goto(s, t, Releasing)
    case CheckStatus(hash) =>
      s.(store := Update(s.store, hash, SettledBy(s, s.store[hash])))
    case CheckRead(hash) =>
      s.(checking := Some((hash, s.store[hash])))
    case CheckWrite =>
      var (hash, state) := s.checking.value;
      s.(store := Update(s.store, hash, SettledBy(s, state)), checking := None)
    case Mine(chain) =>
      s.(chain := chain)
  }

  /** Every action of the sequence is enabled when its turn comes. */
  predicate Runs(s: System, actions: seq<Action>)
    decreases |actions|
  {
    actions == [] || (Enabled(s, actions[0]) && Runs(Apply(s, actions[0]), actions[1..]))
  }

  function Run(s: System, actions: seq<Action>): System
    requires Runs(s, actions)
    decreases |actions|
  {
    if actions == [] then s else Run(Apply(s, actions[0]), actions[1..])
  }

  predicate Reaches(s: System, actions: seq<Action>, e: System) {
    Runs(s, actions) && Run(s, actions) == e
  }

  lemma One(s: System, a: Action, e: System)
    requires Enabled(s, a) && Apply(s, a) == e
    ensures Reaches(s, [a], e)
  {
    assert Runs(Apply(s, a), [a][1..]);
  }

  lemma {:induction false} Join(s: System, left: seq<Action>, m: System, right: seq<Action>, e: System)
    requires Reaches(s, left, m) && Reaches(m, right, e)
    ensures Reaches(s, left + right, e)
    decreases |left|
  {
    if left == [] {
      assert left + right == right;
    } else {
      assert (left + right)[1..] == left[1..] + right;
      Join(Apply(s, left[0]), left[1..], m, right, e);
    }
  }

  predicate AllDisciplined(actions: seq<Action>) {
    forall a | a in actions :: Disciplined(a)
  }

  /** Nothing is in flight and the table holds created, genesis or correctly settled states only. */
  predicate Init(s: System) {
    && s.pending == {} && s.threads == map[] && s.checking.None?
    && forall h | h in s.store :: RecordOk(s, s.store[h])
  }

  /** The receipt and the header on the chain that a settled state must agree with. */
  predicate AgreesWithReceipt(chain: Chain, state: IdentityState) {
    && state.txID.Some? && state.txID.value in chain.receipts
    && var receipt := chain.receipts[state.txID.value];
       && receipt.block in chain.headers
       && state.status == (if receipt.successful then Confirmed else Failed)
       && state.blockNumber == Some(receipt.block)
       && state.blockTimestamp == Some(chain.headers[receipt.block])
  }

  predicate NeverSent(state: IdentityState) {
    state.txID.None? && state.blockNumber.None? && state.blockTimestamp.None?
  }

  predicate RecordOk(s: System, state: IdentityState) {
    state.genesis ||
    match state.status
    case Created => NeverSent(state)
    case Transacted => state.txID.Some?
    case Failed => NeverSent(state) || AgreesWithReceipt(s.chain, state)
    case Confirmed =>
      && AgreesWithReceipt(s.chain, state)
      && CheckerSeesDepth(s.chain, s.chain.receipts[state.txID.value], s.confirmations)
  }
}
