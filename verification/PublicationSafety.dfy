/** Safety of the publication protocol over every disciplined run. */
module PublicationSafety {
  import opened Wrappers
  import opened Receipts
  import opened Publication

  // ---------------------------------------------------------------- the inductive invariant

  /** A call is preparing state: it has the row exactly as the table has it. */
  predicate Held(s: System, did: Did, kind: Kind, hash: StateHash, state: IdentityState) {
    && hash in s.store && s.store[hash] == state
    && state.identifier == did && !state.genesis
    && state.status == (if kind.Publish? then Created else Failed)
  }

  /** The row is as this transaction's sender left it, or settled by this transaction's receipt. */
  predicate Watched(s: System, did: Did, hash: StateHash, state: IdentityState, tx: TxID) {
    && hash in s.store
    && state.identifier == did && !state.genesis
    && state.status == Transacted && state.txID == Some(tx)
    && (s.store[hash] == state || SettledFrom(s.chain, s.store[hash], state, tx))
  }

  predicate SettledFrom(chain: Chain, row: IdentityState, state: IdentityState, tx: TxID) {
    && tx in chain.receipts
    && var receipt := chain.receipts[tx];
       receipt.block in chain.headers && row == Settle(state, receipt, chain.headers[receipt.block])
  }

  predicate Seen(chain: Chain, tx: TxID, receipt: Receipt) {
    tx in chain.receipts && chain.receipts[tx] == receipt
  }

  predicate ThreadOk(s: System, th: Goroutine) {
    match th.pc
    case Loaded(_) => false
    case Owning(_) => true
    case Releasing => true
    case Preparing(kind, hash, state) => Held(s, th.did, kind, hash, state)
    case Sent(kind, hash, state, _) => Held(s, th.did, kind, hash, state)
    case MarkingFailed(hash, state) => Held(s, th.did, Publish, hash, state)
    case Spawning(hash, state, tx) => Watched(s, th.did, hash, state, tx)
    case AwaitingReceipt(hash, state, tx) => Watched(s, th.did, hash, state, tx)
    case AwaitingDepth(hash, state, tx, receipt) =>
      Watched(s, th.did, hash, state, tx) && Seen(s.chain, tx, receipt) && receipt.successful
    case Finishing(hash, state, tx, receipt) =>
      && Watched(s, th.did, hash, state, tx) && Seen(s.chain, tx, receipt)
      && (receipt.successful ==> WatcherSeesDepth(s.chain, receipt, s.confirmations))
  }

  predicate LockOk(s: System) {
    && (forall t | t in s.threads :: s.threads[t].did in s.pending)
    && (forall t, u | t in s.threads && u in s.threads && t != u :: s.threads[t].did != s.threads[u].did)
    && (forall did | did in s.pending :: exists t :: t in s.threads && s.threads[t].did == did)
  }

  predicate Inv(s: System) {
    && s.checking.None?
    && LockOk(s)
    && (forall t | t in s.threads :: ThreadOk(s, s.threads[t]))
    && (forall h | h in s.store :: RecordOk(s, s.store[h]))
  }

  // ---------------------------------------------------------------- what one step may change

  /** The status edges: created to transacted or failed, failed to transacted, transacted to
      confirmed or failed. */
  predicate Edge(before: Status, after: Status) {
    match before
    case Created => after.Transacted? || after.Failed?
    case Failed => after.Transacted?
    case Transacted => after.Confirmed? || after.Failed?
    case Confirmed => false
  }

  /** A row is left alone (or rewritten with what it already says), or moves along an edge. */
  predicate LegalChange(before: IdentityState, after: IdentityState) {
        || after == before
    || (Edge(before.status, after.status)
        && after.identifier == before.identifier && after.genesis == before.genesis)
  }

  predicate LegalStep(s: System, s': System) {
    && (forall h | h in s.store :: h in s'.store && LegalChange(s.store[h], s'.store[h]))
    && (forall h | h in s'.store && h !in s.store :: s'.store[h].status == Created && !s'.store[h].genesis)
  }

  // ---------------------------------------------------------------- preservation

  /** The lock is about who works for which identity, not about how far they are. */
  lemma LockKept(s: System, s': System)
    requires LockOk(s) && s'.pending == s.pending && s'.threads.Keys == s.threads.Keys
    requires forall t | t in s.threads :: s'.threads[t].did == s.threads[t].did
    ensures LockOk(s')
  {
    forall did | did in s'.pending ensures exists t :: t in s'.threads && s'.threads[t].did == did {
      var t :| t in s.threads && s.threads[t].did == did;
      assert t in s'.threads && s'.threads[t].did == did;
    }
  }

  lemma ThreadOkSame(s: System, s': System, th: Goroutine)
    requires s'.store == s.store && s'.chain == s.chain && s'.confirmations == s.confirmations && ThreadOk(s, th)
    ensures ThreadOk(s', th)
  {
  }

  lemma RecordOkSame(s: System, s': System, row: IdentityState)
    requires s'.chain == s.chain && s'.confirmations == s.confirmations && RecordOk(s, row)
    ensures RecordOk(s', row)
  {
  }

  /** Steps that touch only one goroutine's program counter. */
  lemma GotoKeepsInv(s: System, t: nat, pc: Pc)
    requires Inv(s) && t in s.threads
    requires ThreadOk(s, Goroutine(s.threads[t].did, pc))
    ensures Inv(Goto(s, t, pc))
  {
    var s' := Goto(s, t, pc);
    LockKept(s, s');
    forall u | u in s'.threads ensures ThreadOk(s', s'.threads[u]) {
      ThreadOkSame(s, s', s'.threads[u]);
    }
    forall h | h in s'.store ensures RecordOk(s', s'.store[h]) {
      RecordOkSame(s, s', s.store[h]);
    }
  }

  /** A write to a row of did leaves the goroutines of other identities in order. */
  lemma OtherThreadsKeep(s: System, s': System, did: Did, hash: StateHash, th: Goroutine)
    requires s'.chain == s.chain && s'.confirmations == s.confirmations
    requires hash in s.store ==> s.store[hash].identifier == did
    requires forall h | h in s.store && h != hash :: h in s'.store && s'.store[h] == s.store[h]
    requires th.did != did && ThreadOk(s, th)
    ensures ThreadOk(s', th)
  {
  }

  lemma OthersHaveOtherDids(s: System, t: nat, u: nat)
    requires LockOk(s) && t in s.threads && u in s.threads && t != u
    ensures s.threads[t].did != s.threads[u].did
  {
  }

  lemma RecordsSurviveWrite(s: System, s': System, hash: StateHash, row: IdentityState)
    requires forall h | h in s.store :: RecordOk(s, s.store[h])
    requires s'.store == s.store[hash := row] && RecordOk(s, row)
    requires s'.chain == s.chain && s'.confirmations == s.confirmations
    ensures forall h | h in s'.store :: RecordOk(s', s'.store[h])
  {
    forall h | h in s'.store ensures RecordOk(s', s'.store[h]) {
      RecordOkSame(s, s', s'.store[h]);
    }
  }

  /** Moving goroutine t on while writing one row of its own identity. */
  lemma WriteKeepsInv(s: System, t: nat, pc: Pc, hash: StateHash, row: IdentityState)
    requires Inv(s) && t in s.threads
    requires hash in s.store ==> s.store[hash].identifier == s.threads[t].did
    requires row.identifier == s.threads[t].did
    requires RecordOk(s, row)
    requires ThreadOk(s.(store := s.store[hash := row]), Goroutine(s.threads[t].did, pc))
    ensures Inv(Goto(s, t, pc).(store := s.store[hash := row]))
  {
    var s' := Goto(s, t, pc).(store := s.store[hash := row]);
    LockKept(s, s');
    ThreadOkSame(s.(store := s.store[hash := row]), s', s'.threads[t]);
    forall u | u in s'.threads ensures ThreadOk(s', s'.threads[u]) {
      if u != t {
        OthersHaveOtherDids(s, t, u);
        OtherThreadsKeep(s, s', s.threads[t].did, hash, s.threads[u]);
      }
    }
    RecordsSurviveWrite(s, s', hash, row);
  }

  lemma CheckKeepsInv(s: System, hash: StateHash)
    requires Inv(s) && Enabled(s, CheckStatus(hash))
    ensures Inv(Apply(s, CheckStatus(hash)))
  {
    var s' := Apply(s, CheckStatus(hash));
    var row := s.store[hash];
    assert s'.store == s.store[hash := SettledBy(s, row)];
    forall t | t in s'.threads ensures ThreadOk(s', s'.threads[t]) {
      if s.threads[t].did != row.identifier {
        OtherThreadsKeep(s, s', row.identifier, hash, s.threads[t]);
      } else {
        assert ThreadOk(s, s.threads[t]);
      }
    }
  }

  lemma MineKeepsInv(s: System, chain: Chain)
    requires Inv(s) && Extends(s.chain, chain)
    ensures Inv(s.(chain := chain))
  {
    var s' := s.(chain := chain);
    forall t | t in s'.threads ensures ThreadOk(s', s'.threads[t]) {
      assert ThreadOk(s, s.threads[t]);
    }
    forall h | h in s'.store ensures RecordOk(s', s'.store[h]) {
      assert RecordOk(s, s.store[h]);
    }
  }

  lemma AcquireKeepsInv(s: System, t: nat, did: Did, kind: Kind)
    requires Inv(s) && Enabled(s, Acquire(t, did, kind))
    ensures Inv(Apply(s, Acquire(t, did, kind)))
  {
    var s' := Apply(s, Acquire(t, did, kind));
    forall d | d in s'.pending ensures exists u :: u in s'.threads && s'.threads[u].did == d {
      if d == did {
        assert t in s'.threads && s'.threads[t].did == d;
      } else {
        var u :| u in s.threads && s.threads[u].did == d;
        assert u in s'.threads && s'.threads[u].did == d;
      }
    }
    forall u | u in s'.threads ensures ThreadOk(s', s'.threads[u]) {
      if u != t { assert ThreadOk(s, s.threads[u]); }
    }
  }

  lemma ReleaseKeepsInv(s: System, t: nat)
    requires Inv(s) && Enabled(s, Release(t))
    ensures Inv(Apply(s, Release(t)))
  {
    var s' := Apply(s, Release(t));
    forall d | d in s'.pending ensures exists u :: u in s'.threads && s'.threads[u].did == d {
      var u :| u in s.threads && s.threads[u].did == d;
      assert u in s'.threads;
    }
    forall u | u in s'.threads ensures ThreadOk(s', s'.threads[u]) {
      assert ThreadOk(s, s.threads[u]);
    }
  }

  /** Writing a row of the goroutine's own identity along a legal change is a legal step. */
  lemma WriteIsLegal(s: System, s': System, hash: StateHash, row: IdentityState)
    requires s'.store == s.store[hash := row]
    requires if hash in s.store then LegalChange(s.store[hash], row) else row.status == Created && !row.genesis
    ensures LegalStep(s, s')
  {
  }

  lemma CreateKeepsInv(s: System, t: nat, hash: StateHash)
    requires Inv(s) && Enabled(s, CreateState(t, hash))
    ensures Inv(Apply(s, CreateState(t, hash))) && LegalStep(s, Apply(s, CreateState(t, hash)))
  {
    var row := Fresh(s.threads[t].did);
    WriteKeepsInv(s, t, Preparing(Publish, hash, row), hash, row);
    WriteIsLegal(s, Apply(s, CreateState(t, hash)), hash, row);
  }

  lemma PersistKeepsInv(s: System, t: nat)
    requires Inv(s) && Enabled(s, Persist(t))
    ensures Inv(Apply(s, Persist(t))) && LegalStep(s, Apply(s, Persist(t)))
  {
    var pc := s.threads[t].pc;
    assert ThreadOk(s, s.threads[t]);
    var state := pc.state.(status := Transacted, txID := Some(pc.tx));
    assert Update(s.store, pc.hash, state) == s.store[pc.hash := state];
    WriteKeepsInv(s, t, Spawning(pc.hash, state, pc.tx), pc.hash, state);
    WriteIsLegal(s, Apply(s, Persist(t)), pc.hash, state);
  }

  lemma MarkFailedKeepsInv(s: System, t: nat)
    requires Inv(s) && Enabled(s, MarkFailed(t))
    ensures Inv(Apply(s, MarkFailed(t))) && LegalStep(s, Apply(s, MarkFailed(t)))
  {
    var pc := s.threads[t].pc;
    assert ThreadOk(s, s.threads[t]) && RecordOk(s, s.store[pc.hash]);
    var state := pc.state.(status := Failed);
    assert Update(s.store, pc.hash, state) == s.store[pc.hash := state];
    WriteKeepsInv(s, t, Releasing, pc.hash, state);
    WriteIsLegal(s, Apply(s, MarkFailed(t)), pc.hash, state);
  }

  lemma FinishKeepsInv(s: System, t: nat)
    requires Inv(s) && Enabled(s, Finish(t))
    ensures Inv(Apply(s, Finish(t))) && LegalStep(s, Apply(s, Finish(t)))
  {
    var pc := s.threads[t].pc;
    assert ThreadOk(s, s.threads[t]);
    var state := Settle(pc.state, pc.receipt, s.chain.headers[pc.receipt.block]);
    assert Update(s.store, pc.hash, state) == s.store[pc.hash := state];
    WriteKeepsInv(s, t, Releasing, pc.hash, state);
    WriteIsLegal(s, Apply(s, Finish(t)), pc.hash, state);
  }

  /** The steps that only move a goroutine on. */
  predicate MovesOnly(a: Action) {
    || a.PrepareFails? || a.FetchFailed? || a.ProofFails? || a.Send? || a.PersistFails? || a.Spawn?
    || a.MarkFailedFails? || a.SeeReceipt? || a.SeeDepth? || a.GiveUp?
  }

  lemma MoveKeepsInv(s: System, a: Action)
    requires Inv(s) && Enabled(s, a) && MovesOnly(a)
    ensures Inv(Apply(s, a)) && Apply(s, a).store == s.store
  {
    var th := s.threads[a.t];
    var pc := Apply(s, a).threads[a.t].pc;
    assert ThreadOk(s, th);
    assert Apply(s, a) == Goto(s, a.t, pc);
    assert ThreadOk(s, Goroutine(th.did, pc));
    GotoKeepsInv(s, a.t, pc);
  }

  lemma StepKeepsInv(s: System, a: Action)
    requires Inv(s) && Enabled(s, a) && Disciplined(a)
    ensures Inv(Apply(s, a)) && LegalStep(s, Apply(s, a))
  {
    if MovesOnly(a) {
      MoveKeepsInv(s, a);
    } else {
      match a
      case Acquire(t, did, kind) => AcquireKeepsInv(s, t, did, kind);
      case Release(t) => ReleaseKeepsInv(s, t);
      case CheckStatus(hash) =>
        CheckKeepsInv(s, hash);
        WriteIsLegal(s, Apply(s, a), hash, SettledBy(s, s.store[hash]));
      case Mine(chain) => MineKeepsInv(s, chain);
      case CreateState(t, hash) => CreateKeepsInv(s, t, hash);
      case Persist(t) => PersistKeepsInv(s, t);
      case MarkFailed(t) => MarkFailedKeepsInv(s, t);
      case Finish(t) => FinishKeepsInv(s, t);
    }
  }

  // ---------------------------------------------------------------- over whole runs

  lemma InitHasInv(s: System)
    requires Init(s)
    ensures Inv(s)
  {
  }

  lemma {:induction false} RunKeepsInv(s: System, actions: seq<Action>)
    requires Inv(s) && Runs(s, actions) && AllDisciplined(actions)
    ensures Inv(Run(s, actions))
    decreases |actions|
  {
    if actions != [] {
      StepKeepsInv(s, actions[0]);
      RunKeepsInv(Apply(s, actions[0]), actions[1..]);
    }
  }

  lemma Unfold(s: System, a: Action, rest: seq<Action>)
    ensures Runs(s, [a] + rest) <==> Enabled(s, a) && Runs(Apply(s, a), rest)
    ensures Runs(s, [a] + rest) ==> Run(s, [a] + rest) == Run(Apply(s, a), rest)
  {
    assert ([a] + rest)[1..] == rest;
  }

  lemma {:induction false} RunSplits(s: System, actions: seq<Action>, i: nat)
    requires Runs(s, actions) && i <= |actions|
    ensures Runs(s, actions[..i]) && Runs(Run(s, actions[..i]), actions[i..])
    ensures Run(s, actions) == Run(Run(s, actions[..i]), actions[i..])
    decreases i
  {
    if i == 0 {
      assert actions[..0] == [] && actions[0..] == actions;
    } else {
      var a, rest := actions[0], actions[1..];
      assert actions == [a] + rest && actions[..i] == [a] + rest[..i - 1] && actions[i..] == rest[i - 1..];
      Unfold(s, a, rest);
      RunSplits(Apply(s, a), rest, i - 1);
      Unfold(s, a, rest[..i - 1]);
    }
  }

  /** Whatever the services answer and however the actors interleave, every persisted change
      is one of the legal ones. */
  lemma EveryTransitionIsLegal(s: System, actions: seq<Action>, i: nat)
    requires Init(s) && Runs(s, actions) && AllDisciplined(actions) && i < |actions|
    ensures Runs(s, actions[..i]) && Runs(s, actions[..i + 1])
    ensures LegalStep(Run(s, actions[..i]), Run(s, actions[..i + 1]))
  {
    InitHasInv(s);
    RunSplits(s, actions, i);
    RunSplits(s, actions, i + 1);
    RunKeepsInv(s, actions[..i]);
    var here := Run(s, actions[..i]);
    assert actions[i..][0] == actions[i];
    StepKeepsInv(here, actions[i]);
    RunSplits(s, actions[..i + 1], i);
    assert actions[..i + 1][..i] == actions[..i];
    assert actions[..i + 1][i..] == [actions[i]];
    assert Run(here, [actions[i]]) == Apply(here, actions[i]);
  }

  /** A row that exists is never removed, keeps its identity, and once confirmed never changes. */
  lemma {:induction false} RowsPersist(s: System, actions: seq<Action>, h: StateHash)
    requires Inv(s) && Runs(s, actions) && AllDisciplined(actions) && h in s.store
    ensures h in Run(s, actions).store
    ensures Run(s, actions).store[h].identifier == s.store[h].identifier
    ensures Run(s, actions).store[h].genesis == s.store[h].genesis
    ensures s.store[h].status == Confirmed ==> Run(s, actions).store[h] == s.store[h]
    decreases |actions|
  {
    if actions != [] {
      StepKeepsInv(s, actions[0]);
      RowsPersist(Apply(s, actions[0]), actions[1..], h);
    }
  }

  lemma ConfirmedIsNeverLeft(s: System, actions: seq<Action>, i: nat, j: nat, h: StateHash)
    requires Init(s) && Runs(s, actions) && AllDisciplined(actions) && i <= j <= |actions|
    requires Runs(s, actions[..i]) && h in Run(s, actions[..i]).store
    requires Run(s, actions[..i]).store[h].status == Confirmed
    ensures Runs(s, actions[..j]) && h in Run(s, actions[..j]).store
    ensures Run(s, actions[..j]).store[h] == Run(s, actions[..i]).store[h]
  {
    InitHasInv(s);
    RunSplits(s, actions, j);
    RunKeepsInv(s, actions[..i]);
    RunSplits(s, actions[..j], i);
    assert actions[..j][..i] == actions[..i];
    RowsPersist(Run(s, actions[..i]), actions[..j][i..], h);
  }

  // ---------------------------------------------------------------- the pending map as a lock

  /** The API calls in progress and live watchers that hold the pending entry of did. */
  function Owners(s: System, did: Did): set<nat> {
    set t | t in s.threads && Owns(s.threads[t].pc) && s.threads[t].did == did
  }

  /** In every reachable state an identity has at most one owner, and it has a pending entry
      exactly when it has one. */
  lemma LockOwnership(s: System, actions: seq<Action>, did: Did)
    requires Init(s) && Runs(s, actions) && AllDisciplined(actions)
    ensures |Owners(Run(s, actions), did)| <= 1
    ensures did in Run(s, actions).pending <==> |Owners(Run(s, actions), did)| == 1
  {
    InitHasInv(s);
    RunKeepsInv(s, actions);
    var e := Run(s, actions);
    var owners := Owners(e, did);
    if did in e.pending {
      var t :| t in e.threads && e.threads[t].did == did;
      assert ThreadOk(e, e.threads[t]);
      assert owners == {t};
    } else {
      assert owners == {};
    }
  }

  /** How far a goroutine still is from giving its entry back. */
  function Rank(pc: Pc): nat {
    match pc
    case Loaded(_) => 9
    case Owning(_) => 8
    case Preparing(_, _, _) => 7
    case Sent(_, _, _, _) => 6
    case Spawning(_, _, _) => 5
    case AwaitingReceipt(_, _, _) => 4
    case AwaitingDepth(_, _, _, _) => 3
    case Finishing(_, _, _, _) => 2
    case MarkingFailed(_, _) => 2
    case Releasing => 1
  }

  /** The step by which the goroutine's current service call fails, and where that leads. */
  function FailingStep(t: nat, pc: Pc): (Action, Pc)
    requires Owns(pc) && !pc.Releasing?
  {
    match pc
    case Owning(_) => (PrepareFails(t), Releasing)
    case Preparing(kind, hash, state) => (ProofFails(t), AfterError(kind, hash, state))
    case Sent(kind, hash, state, _) => (PersistFails(t), AfterError(kind, hash, state))
    case Spawning(hash, state, tx) => (Spawn(t), AwaitingReceipt(hash, state, tx))
    case MarkingFailed(_, _) => (MarkFailedFails(t), Releasing)
    case _ => (GiveUp(t), Releasing)
  }

  /** The actions by which an owner reaches its release when every remaining call fails. */
  function WayOut(t: nat, pc: Pc): seq<Action>
    requires Owns(pc)
    decreases Rank(pc)
  {
    if pc.Releasing? then [Release(t)]
    else var (a, next) := FailingStep(t, pc); [a] + WayOut(t, next)
  }

  /** Every step of an owner brings it nearer to its release, and no step of another actor
      touches it: an owner takes at most eight steps. */
  lemma OwnStepsRunOut(s: System, a: Action, t: nat)
    requires Enabled(s, a) && Disciplined(a) && t in s.threads
    ensures var s' := Apply(s, a);
            if a.Mine? || a.CheckStatus? || a.t != t then t in s'.threads && s'.threads[t] == s.threads[t]
            else t in s'.threads ==> Rank(s'.threads[t].pc) < Rank(s.threads[t].pc)
    ensures t !in Apply(s, a).threads ==> a == Release(t)
  {
  }

  /** No pending entry is leaked: its owner can always get to its release by itself, and doing
      so gives back this entry and nothing else. */
  lemma OwnerCanAlwaysRelease(s: System, actions: seq<Action>, did: Did) returns (t: nat)
    requires Init(s) && Runs(s, actions) && AllDisciplined(actions)
    requires did in Run(s, actions).pending
    ensures var e := Run(s, actions);
            && t in e.threads && e.threads[t].did == did && Owns(e.threads[t].pc)
            && var out := WayOut(t, e.threads[t].pc);
               && Runs(e, out) && AllDisciplined(out)
               && Run(e, out) == e.(pending := e.pending - {did}, threads := e.threads - {t})
  {
    InitHasInv(s);
    RunKeepsInv(s, actions);
    var e := Run(s, actions);
    t :| t in e.threads && e.threads[t].did == did;
    assert ThreadOk(e, e.threads[t]);
    WayOutWorks(e, t);
  }

  lemma {:induction false} WayOutWorks(e: System, t: nat)
    requires t in e.threads && Owns(e.threads[t].pc)
    ensures var out := WayOut(t, e.threads[t].pc);
            && Runs(e, out) && AllDisciplined(out)
            && Run(e, out) == e.(pending := e.pending - {e.threads[t].did}, threads := e.threads - {t})
    decreases Rank(e.threads[t].pc)
  {
    var pc := e.threads[t].pc;
    if pc.Releasing? {
      assert Runs(Apply(e, Release(t)), []);
    } else {
      var (a, next) := FailingStep(t, pc);
      var out := WayOut(t, next);
      assert Apply(e, a) == Goto(e, t, next);
      WayOutWorks(Goto(e, t, next), t);
      assert ([a] + out)[1..] == out;
      assert Goto(e, t, next).threads - {t} == e.threads - {t};
    }
  }

  // ---------------------------------------------------------------- watchers, depth, confluence

  predicate Watching(pc: Pc) {
    pc.AwaitingReceipt? || pc.AwaitingDepth? || pc.Finishing?
  }

  /** Every live watcher watches the transaction stored for its state. */
  predicate WatchersMatch(s: System) {
    forall t | t in s.threads && Watching(s.threads[t].pc) ::
      var pc := s.threads[t].pc;
      && pc.hash in s.store
      && s.store[pc.hash].identifier == s.threads[t].did
      && s.store[pc.hash].txID == Some(pc.tx)
  }

  lemma WatchersMatchTheStore(s: System, actions: seq<Action>)
    requires Init(s) && Runs(s, actions) && AllDisciplined(actions)
    ensures WatchersMatch(Run(s, actions))
  {
    InitHasInv(s);
    RunKeepsInv(s, actions);
    var e := Run(s, actions);
    forall t | t in e.threads && Watching(e.threads[t].pc)
      ensures e.threads[t].pc.hash in e.store
      ensures e.store[e.threads[t].pc.hash].identifier == e.threads[t].did
      ensures e.store[e.threads[t].pc.hash].txID == Some(e.threads[t].pc.tx)
    {
      assert ThreadOk(e, e.threads[t]);
    }
  }

  /** A state that this run confirmed has a successful receipt at the required depth. */
  lemma ConfirmedIsDeep(s: System, actions: seq<Action>, h: StateHash)
    requires Init(s) && Runs(s, actions) && AllDisciplined(actions)
    requires h in Run(s, actions).store
    requires Run(s, actions).store[h].status == Confirmed && !Run(s, actions).store[h].genesis
    ensures var e := Run(s, actions);
            var row := e.store[h];
            && AgreesWithReceipt(e.chain, row)
            && e.chain.receipts[row.txID.value].successful
            && e.chain.head >= e.chain.receipts[row.txID.value].block + s.confirmations
  {
    InitHasInv(s);
    RunKeepsInv(s, actions);
    ConfirmationsAreFixed(s, actions);
    assert RecordOk(Run(s, actions), Run(s, actions).store[h]);
  }

  lemma {:induction false} ConfirmationsAreFixed(s: System, actions: seq<Action>)
    requires Runs(s, actions)
    ensures Run(s, actions).confirmations == s.confirmations
    decreases |actions|
  {
    if actions != [] {
      ConfirmationsAreFixed(Apply(s, actions[0]), actions[1..]);
    }
  }

  /** Once the transaction of a transacted state is settled, by its watcher or by any number of
      status checks, the row is determined by the receipt and the header alone. */
  lemma SettledRowIsDetermined(s: System, actions: seq<Action>, h: StateHash)
    requires Inv(s) && Runs(s, actions) && AllDisciplined(actions)
    requires h in s.store && !s.store[h].genesis && s.store[h].status == Transacted
    requires h in Run(s, actions).store
    requires Run(s, actions).store[h].status != Transacted
    requires Run(s, actions).store[h].txID == s.store[h].txID
    ensures SettledFrom(Run(s, actions).chain, Run(s, actions).store[h], s.store[h], s.store[h].txID.value)
  {
    RunKeepsInv(s, actions);
    RowsPersist(s, actions, h);
    assert RecordOk(s, s.store[h]);
    var e := Run(s, actions);
    assert RecordOk(e, e.store[h]);
  }

  /** Two interleavings of the same history leave the same row. */
  lemma Confluence(s: System, left: seq<Action>, right: seq<Action>, history: Chain, h: StateHash)
    requires Inv(s) && h in s.store && !s.store[h].genesis && s.store[h].status == Transacted
    requires Runs(s, left) && AllDisciplined(left) && Runs(s, right) && AllDisciplined(right)
    requires Extends(Run(s, left).chain, history) && Extends(Run(s, right).chain, history)
    requires h in Run(s, left).store && h in Run(s, right).store
    requires Run(s, left).store[h].status != Transacted && Run(s, right).store[h].status != Transacted
    requires Run(s, left).store[h].txID == Run(s, right).store[h].txID == s.store[h].txID
    ensures Run(s, left).store[h] == Run(s, right).store[h]
  {
    SettledRowIsDetermined(s, left, h);
    SettledRowIsDetermined(s, right, h);
  }

  /** Saving a state as transacted leaves its block values as they are: they are the default ones
      exactly if no transaction of the state has ever been settled, and after a failed
      transaction those of its block. */
  lemma StaleBlockValues(s: System, t: nat)
    requires Inv(s) && Enabled(s, Persist(t))
    ensures var h := s.threads[t].pc.hash;
            && h in s.store
            && var before, after := s.store[h], Apply(s, Persist(t)).store[h];
               && after.status == Transacted
               && after.blockNumber == before.blockNumber && after.blockTimestamp == before.blockTimestamp
               && (after.blockNumber.None? <==> before.txID.None?)
               && (before.txID.Some? ==> AgreesWithReceipt(s.chain, before) && before.status == Failed)
  {
    var pc := s.threads[t].pc;
    assert ThreadOk(s, s.threads[t]);
    assert RecordOk(s, s.store[pc.hash]);
  }
}
