/** The publisher of internal/gateways/publisher.go: each method, run without interference, is
    one particular run of the protocol in Publication.  */
module Publisher {
  import opened Wrappers
  import opened Receipts
  import opened Publication
  import opened PublicationSafety
  import opened PendingMap

  /** The time to live of a pending entry. */
  const SECONDS_TO_LIVE := 60

  datatype Error =
    | StateIsBeingProcessed
    | NoStatesToProcess
    | NoFailedStatesToProcess
    | ServiceError
    | NotConfirmed

  /** publishProof up to and including its save: it fails before sending, or the gateway
      returned a transaction and the save as transacted succeeded or not. */
  datatype ProofOutcome = NotSent | WasSent(tx: TxID, saved: bool)

  /** What the services answer during one PublishState. */
  datatype PublishOutcome = PublishOutcome(
    hasUnprocessed: Result<bool, Error>,
    newState: Result<StateHash, Error>,
    proof: ProofOutcome,
    markedFailed: bool)

  /** What the services answer during one RetryPublishState. */
  datatype RetryOutcome = RetryOutcome(failedState: Result<Option<StateHash>, Error>, proof: ProofOutcome)

  /** What the services answer while a settled state is saved. */
  datatype SaveOutcome = SaveOutcome(
    headerFound: bool,
    saved: bool,
    didParses: bool,
    claims: Result<seq<Claim>, Error>)

  /** What a watcher meets: the chain in which its receipt shows up, the chain that is deep
      enough, and the outcome of the save. */
  datatype WatchOutcome = WatchOutcome(receipt: Option<Chain>, depth: Option<Chain>, save: SaveOutcome)

  datatype CheckOutcome = CheckOutcome(identityKnown: bool, lookupsWork: bool, save: SaveOutcome)

  datatype Claim = Claim(user: string, id: string)

  datatype Event = CreateCredentialEvent(ids: seq<string>, issuer: Did) | CreateStateEvent(hash: StateHash)

  // ---------------------------------------------------------------- notifications

  /** The ids of one user's claims, in the order of the claims. */
  function IdsOf(claims: seq<Claim>, user: string): seq<string> {
    if claims == [] then []
    else
      var last := claims[|claims| - 1];
      IdsOf(claims[..|claims| - 1], user) + (if last.user == user then [last.id] else [])
  }

  function Users(claims: seq<Claim>): set<string> {
    set c | c in claims :: c.user
  }

  lemma IdsOfOneMore(claims: seq<Claim>, i: nat, user: string)
    requires i < |claims|
    ensures IdsOf(claims[..i + 1], user)
         == IdsOf(claims[..i], user) + if claims[i].user == user then [claims[i].id] else []
  {
    assert claims[..i + 1][..i] == claims[..i];
  }

  lemma UsersOfOneMore(claims: seq<Claim>, i: nat)
    requires i < |claims|
    ensures Users(claims[..i + 1]) == Users(claims[..i]) + {claims[i].user}
  {
    assert claims[..i + 1] == claims[..i] + [claims[i]];
    forall u | u in Users(claims[..i]) ensures u in Users(claims[..i + 1]) {
      var c :| c in claims[..i] && c.user == u;
      assert c in claims[..i + 1];
    }
    assert claims[i] in claims[..i + 1];
  }

  method GroupByUserId(claims: seq<Claim>) returns (grouped: map<string, seq<string>>)
    ensures grouped.Keys == Users(claims)
    ensures forall c | c in claims :: c.user in grouped
    ensures forall u | u in grouped :: grouped[u] == IdsOf(claims, u)
    ensures forall u | u in grouped :: exists c :: c in claims && c.user == u
  {
    grouped := map[];
    for i := 0 to |claims|
      invariant grouped.Keys == Users(claims[..i])
      invariant forall u :: IdsOf(claims[..i], u) == if u in grouped then grouped[u] else []
    {
      var c := claims[i];
      UsersOfOneMore(claims, i);
      forall u ensures IdsOf(claims[..i + 1], u)
          == IdsOf(claims[..i], u) + if c.user == u then [c.id] else [] {
        IdsOfOneMore(claims, i, u);
      }
      var ids := if c.user in grouped then grouped[c.user] else [];
      grouped := grouped[c.user := ids + [c.id]];
    }
    assert claims[..|claims|] == claims;
  }

  /** One claim more counts one more for its own user and id, and for nobody else. */
  lemma OneMoreClaim(ids: seq<string>, claims: seq<Claim>, c: Claim, user: string, id: string)
    requires multiset(ids)[id] == multiset(claims)[Claim(user, id)]
    ensures multiset(ids + if c.user == user then [c.id] else [])[id] == multiset(claims + [c])[Claim(user, id)]
  {
    assert multiset([c.id])[id] == if c.id == id then 1 else 0;
    assert multiset([c])[Claim(user, id)] == if c == Claim(user, id) then 1 else 0;
  }

  /** No claim is lost, invented or filed under another user. */
  lemma {:induction false} GroupingCounts(claims: seq<Claim>, user: string, id: string)
    ensures multiset(IdsOf(claims, user))[id] == multiset(claims)[Claim(user, id)]
  {
    if claims != [] {
      var before, last := claims[..|claims| - 1], claims[|claims| - 1];
      GroupingCounts(before, user, id);
      OneMoreClaim(IdsOf(before, user), before, last, user, id);
      assert claims == before + [last];
    }
  }

  /** The ids are those of the user's claims at increasing positions, and none is left out. */
  lemma {:induction false} IdsInOrder(claims: seq<Claim>, user: string) returns (at: seq<nat>)
    ensures |at| == |IdsOf(claims, user)| && forall i, j | 0 <= i < j < |at| :: at[i] < at[j]
    ensures forall i | 0 <= i < |at| :: at[i] < |claims| && claims[at[i]] == Claim(user, IdsOf(claims, user)[i])
    ensures forall k: nat | k < |claims| && claims[k].user == user :: k in at
  {
    if claims == [] {
      at := [];
    } else {
      var n := |claims| - 1;
      var before := IdsInOrder(claims[..n], user);
      at := before + if claims[n].user == user then [n] else [];
      assert forall k: nat | k in before :: k in at;
      assert claims[n].user == user ==> at[|before|] == n;
    }
  }

  /** The notifications for these claims when their users are visited in this order. */
  function Notifications(claims: seq<Claim>, order: seq<string>, issuer: Did): seq<Event> {
    seq(|order|, i requires 0 <= i < |order| => CreateCredentialEvent(IdsOf(claims, order[i]), issuer))
  }

  /** One notification for each user visited, with the ids of the user's claims. */
  lemma NotificationsAre(claims: seq<Claim>, order: seq<string>, issuer: Did, i: nat)
    ensures |Notifications(claims, order, issuer)| == |order|
    ensures i < |order| ==> Notifications(claims, order, issuer)[i].CreateCredentialEvent?
    ensures i < |order| ==> Notifications(claims, order, issuer)[i].ids == IdsOf(claims, order[i])
    ensures i < |order| ==> Notifications(claims, order, issuer)[i].issuer == issuer
  {
  }

  /** Every user with a claim is visited once. */
  ghost predicate IsOrder(order: seq<string>, users: set<string>) {
    && (forall u :: u in order <==> u in users)
    && (forall i, j | 0 <= i < j < |order| :: order[i] != order[j])
  }

  // ---------------------------------------------------------------- scripts

  function ErrorScript(t: nat, kind: Kind, marked: bool): seq<Action> {
    if kind.Publish? then [if marked then MarkFailed(t) else MarkFailedFails(t)] else []
  }

  function ProofScript(t: nat, proof: ProofOutcome): seq<Action> {
    match proof
    case NotSent => [ProofFails(t)]
    case WasSent(tx, saved) => [Send(t, tx)] + if saved then [Persist(t), Spawn(t)] else [PersistFails(t)]
  }

  predicate Works(proof: ProofOutcome) {
    proof.WasSent? && proof.saved
  }

  function PublishScript(t: nat, o: PublishOutcome): seq<Action> {
    if o.hasUnprocessed != Ok(true) || o.newState.Err? then [PrepareFails(t)]
    else [CreateState(t, o.newState.value)] + ProofOrErrorScript(t, o.proof, o.markedFailed)
  }

  function ProofOrErrorScript(t: nat, proof: ProofOutcome, marked: bool): seq<Action> {
    ProofScript(t, proof) + if Works(proof) then [] else ErrorScript(t, Publish, marked)
  }

  function RetryScript(t: nat, o: RetryOutcome): seq<Action> {
    if o.failedState.Err? || o.failedState.value.None? then [PrepareFails(t)]
    else [FetchFailed(t, o.failedState.value.value)] + ProofScript(t, o.proof)
  }

  /** Into the pending map; an entry that is still there has expired. */
  function Entering(t: nat, did: Did, kind: Kind, expired: bool): seq<Action> {
    (if expired then [Expire(did)] else []) + [Acquire(t, did, kind)]
  }

  /** A whole call, with the release of its entry if it fails. */
  function PublishRun(t: nat, did: Did, o: PublishOutcome, expired: bool): seq<Action> {
    Entering(t, did, Publish, expired) + PublishScript(t, o) + (if PublishWorks(o) then [] else [Release(t)])
  }

  function RetryRun(t: nat, did: Did, o: RetryOutcome, expired: bool): seq<Action> {
    Entering(t, did, Retry, expired) + RetryScript(t, o) + (if RetryWorks(o) then [] else [Release(t)])
  }

  lemma Enter(s: System, t: nat, did: Did, kind: Kind, e: System)
    requires t !in s.threads
    requires e == s.(pending := s.pending + {did}, threads := s.threads[t := Goroutine(did, Owning(kind))])
    ensures Reaches(s, Entering(t, did, kind, did in s.pending), e)
  {
    if did in s.pending {
      var m := s.(pending := s.pending - {did});
      assert s.pending + {did} == m.pending + {did};
      One(s, Expire(did), m);
      One(m, Acquire(t, did, kind), e);
      Join(s, [Expire(did)], m, [Acquire(t, did, kind)], e);
    } else {
      assert [] + [Acquire(t, did, kind)] == [Acquire(t, did, kind)];
      One(s, Acquire(t, did, kind), e);
    }
  }

  /** A call: it enters, does its work and, if that failed, releases its entry. */
  lemma WholeCall(s: System, t: nat, did: Did, kind: Kind, body: seq<Action>, m: System, failed: bool, e: System)
    requires t !in s.threads
    requires Reaches(s.(pending := s.pending + {did}, threads := s.threads[t := Goroutine(did, Owning(kind))]), body, m)
    requires if failed then Reaches(m, [Release(t)], e) else e == m
    ensures Reaches(s, Entering(t, did, kind, did in s.pending) + body + (if failed then [Release(t)] else []), e)
  {
    var entering := Entering(t, did, kind, did in s.pending);
    var entered := s.(pending := s.pending + {did}, threads := s.threads[t := Goroutine(did, Owning(kind))]);
    Enter(s, t, did, kind, entered);
    Join(s, entering, entered, body, m);
    if failed {
      Join(s, entering + body, m, [Release(t)], e);
    } else {
      assert entering + body + [] == entering + body;
    }
  }

  lemma WholePublication(s: System, t: nat, o: PublishOutcome, created: System, e: System)
    requires o.hasUnprocessed == Ok(true) && o.newState.Ok?
    requires Reaches(s, [CreateState(t, o.newState.value)], created)
    requires Reaches(created, ProofOrErrorScript(t, o.proof, o.markedFailed), e)
    ensures Reaches(s, PublishScript(t, o), e)
  {
    Join(s, [CreateState(t, o.newState.value)], created, ProofOrErrorScript(t, o.proof, o.markedFailed), e);
  }

  function Expirations(dids: seq<Did>): seq<Action> {
    seq(|dids|, i requires 0 <= i < |dids| => Expire(dids[i]))
  }

  lemma {:induction false} ExpireAll(s: System, dids: seq<Did>, e: System)
    requires forall i, j | 0 <= i < j < |dids| :: dids[i] != dids[j]
    requires forall did | did in dids :: did in s.pending
    requires e == s.(pending := s.pending - (set did | did in dids))
    ensures Reaches(s, Expirations(dids), e)
    decreases |dids|
  {
    if dids == [] {
      assert e == s;
    } else {
      var m := s.(pending := s.pending - {dids[0]});
      var rest := dids[1..];
      assert dids == [dids[0]] + rest;
      One(s, Expire(dids[0]), m);
      assert e.pending == m.pending - (set did | did in rest);
      ExpireAll(m, rest, e);
      Join(s, [Expire(dids[0])], m, Expirations(rest), e);
      assert [Expire(dids[0])] + Expirations(rest) == Expirations(dids);
    }
  }

  predicate PublishWorks(o: PublishOutcome) {
    o.hasUnprocessed == Ok(true) && o.newState.Ok? && Works(o.proof)
  }

  predicate RetryWorks(o: RetryOutcome) {
    o.failedState.Ok? && o.failedState.value.Some? && Works(o.proof)
  }

  /** What GetFailedState promises: a failed state of this identity that is not genesis. */
  predicate FailedOf(store: map<StateHash, IdentityState>, did: Did, hash: StateHash) {
    hash in store && store[hash].identifier == did && store[hash].status == Failed && !store[hash].genesis
  }

  // ---------------------------------------------------------------- the watcher and the checker

  /** The row is written: its block header was found and the update succeeded. */
  predicate Saves(chain: Chain, receipt: Receipt, o: SaveOutcome) {
    o.headerFound && receipt.block in chain.headers && o.saved
  }

  /** What the environment owes a watcher: the chain it sees only grows, a receipt it is given is
      on the chain, and a confirmation it is told of is deeper than the configured count. */
  predicate PlausibleWatch(chain: Chain, tx: TxID, confirmations: int, o: WatchOutcome) {
    && (o.receipt.Some? ==> Extends(chain, o.receipt.value) && tx in o.receipt.value.receipts)
    && (o.receipt.Some? && o.depth.Some? ==>
          && Extends(o.receipt.value, o.depth.value)
          && WatcherSeesDepth(o.depth.value, o.receipt.value.receipts[tx], confirmations))
  }

  /** updateIdentityStateTxStatus reports success.  It may report an error for a row it has
      saved: when the claims to notify about cannot be fetched. */
  predicate SaveReports(chain: Chain, receipt: Receipt, o: SaveOutcome) {
    Saves(chain, receipt, o) && (receipt.successful ==> o.didParses && o.claims.Ok?)
  }

  function SaveScript(t: nat, chain: Chain, receipt: Receipt, o: SaveOutcome): seq<Action> {
    [if Saves(chain, receipt, o) then Finish(t) else GiveUp(t)]
  }

  /** From the receipt on: a failed transaction is saved at once, a successful one once deep. */
  function ReceiptScript(t: nat, chain: Chain, receipt: Receipt, o: WatchOutcome): seq<Action> {
    if !receipt.successful then SaveScript(t, chain, receipt, o.save)
    else if o.depth.None? then [GiveUp(t)]
    else [Mine(o.depth.value), SeeDepth(t)] + SaveScript(t, o.depth.value, receipt, o.save)
  }

  function WatchScript(t: nat, tx: TxID, o: WatchOutcome): seq<Action>
    requires o.receipt.Some? ==> tx in o.receipt.value.receipts
  {
    if o.receipt.None? then [GiveUp(t)]
    else
      [Mine(o.receipt.value), SeeReceipt(t)]
      + ReceiptScript(t, o.receipt.value, o.receipt.value.receipts[tx], o)
  }

  /** The chain as the watcher leaves it. */
  function LastChain(chain: Chain, receipt: Receipt, o: WatchOutcome): Chain {
    if receipt.successful && o.depth.Some? then o.depth.value else chain
  }

  function Saved(store: map<StateHash, IdentityState>, chain: Chain, hash: StateHash, state: IdentityState,
                 receipt: Receipt, o: SaveOutcome): map<StateHash, IdentityState>
  {
    if Saves(chain, receipt, o) then Update(store, hash, Settle(state, receipt, chain.headers[receipt.block]))
    else store
  }

  /** The table after a watcher that has its receipt. */
  function AfterWatch(store: map<StateHash, IdentityState>, chain: Chain, hash: StateHash, state: IdentityState,
                   receipt: Receipt, o: WatchOutcome): map<StateHash, IdentityState>
  {
    if receipt.successful && o.depth.None? then store
    else Saved(store, LastChain(chain, receipt, o), hash, state, receipt, o.save)
  }

  /** What is saved for a receipt: the outcome, the block and its time, in the row of this state
      and nowhere else, if header and row are there and the update succeeds. */
  lemma SavedIs(store: map<StateHash, IdentityState>, chain: Chain, hash: StateHash, state: IdentityState,
                receipt: Receipt, o: SaveOutcome)
    ensures var after := Saved(store, chain, hash, state, receipt, o);
            && after.Keys == store.Keys
            && (forall h | h in store && h != hash :: after[h] == store[h])
            && (hash in store && o.headerFound && receipt.block in chain.headers && o.saved ==>
                  after[hash] == store[hash].(
                    status := if receipt.successful then Confirmed else Failed, txID := state.txID,
                    blockNumber := Some(receipt.block), blockTimestamp := Some(chain.headers[receipt.block])))
            && (!(hash in store && o.headerFound && receipt.block in chain.headers && o.saved) ==> after == store)
    ensures SaveReports(chain, receipt, o) <==>
      && o.headerFound && receipt.block in chain.headers && o.saved
      && (receipt.successful ==> o.didParses && o.claims.Ok?)
  {
  }

  /** What a watcher leaves: a successful receipt is saved on the chain that is deep enough, a
      failed one on the chain it was seen on, and without depth nothing is saved. */
  lemma AfterWatchIs(store: map<StateHash, IdentityState>, chain: Chain, hash: StateHash, state: IdentityState,
                     receipt: Receipt, o: WatchOutcome)
    ensures var after := AfterWatch(store, chain, hash, state, receipt, o);
            && (!receipt.successful ==> after == Saved(store, chain, hash, state, receipt, o.save))
            && (receipt.successful && o.depth.Some? ==>
                  after == Saved(store, o.depth.value, hash, state, receipt, o.save))
            && (receipt.successful && o.depth.None? ==> after == store)
  {
  }

  /** A status check of this row reads a deep enough receipt and saves it. */
  predicate CheckSettles(s: System, hash: StateHash, o: CheckOutcome) {
    && hash in s.store && o.identityKnown && o.lookupsWork
    && Checkable(s, s.store[hash])
    && o.save.headerFound && o.save.saved
  }

  class Publisher {
    var store: map<StateHash, IdentityState>
    const pendingTransactions: TTLMap
    var chain: Chain
    const confirmations: int
    var events: seq<Event>
    ghost var goroutines: map<nat, Goroutine>

    /** The pending entries of the protocol are those the map still has, expired or not. */
    ghost function View(): System
      reads this, pendingTransactions
    {
      System(store, pendingTransactions.data.Keys, goroutines, chain, confirmations, None)
    }

    constructor (rows: map<StateHash, IdentityState>, chain: Chain, confirmations: int)
      ensures fresh(pendingTransactions) && pendingTransactions.Valid() && pendingTransactions.TTL == 60
      ensures View() == System(rows, {}, map[], chain, confirmations, None) && events == []
    {
      store, this.chain, this.confirmations := rows, chain, confirmations;
      pendingTransactions := new TTLMap(SECONDS_TO_LIVE);
      events, goroutines := [], map[];
    }

    /** Load and, if that finds nothing, Store. */
    method Enters(ghost t: nat, did: Did, ghost kind: Kind, now: int) returns (processing: bool)
      requires pendingTransactions.Valid() && t !in goroutines
      modifies pendingTransactions, this`goroutines
      ensures pendingTransactions.Valid()
      ensures processing == Loads(old(pendingTransactions.data), did, now)
      ensures processing ==> View() == old(View())
      ensures !processing ==>
        && View() == old(View()).(pending := old(View()).pending + {did},
                                  threads := old(View()).threads[t := Goroutine(did, Owning(kind))])
        && pendingTransactions.data == old(pendingTransactions.data)[did := now + pendingTransactions.TTL]
    {
      processing := pendingTransactions.Load(did, now);
      if !processing {
        pendingTransactions.Store(did, now);
        goroutines := goroutines[t := Goroutine(did, Owning(kind))];
      }
    }

    method Releases(ghost t: nat, did: Did)
      requires pendingTransactions.Valid()
      requires t in goroutines && goroutines[t] == Goroutine(did, Releasing)
      modifies pendingTransactions, this`goroutines
      ensures pendingTransactions.Valid()
      ensures View() == old(View()).(pending := old(View()).pending - {did}, threads := old(View()).threads - {t})
      ensures Reaches(old(View()), [Release(t)], View())
    {
      ghost var s0 := View();
      pendingTransactions.Delete(did);
      goroutines := goroutines - {t};
      One(s0, Release(t), View());
    }

    /** Refused while a pending entry can be loaded.  An entry that has expired does not refuse
        the call: to the protocol it expires just before the call stores its own. */
    method PublishState(ghost t: nat, did: Did, o: PublishOutcome, now: int) returns (r: Result<TxID, Error>)
      requires pendingTransactions.Valid()
      requires t !in goroutines
      requires o.newState.Ok? ==> o.newState.value !in store
      modifies this`store, pendingTransactions, this`goroutines
      ensures pendingTransactions.Valid()
      ensures Loads(old(pendingTransactions.data), did, now) ==>
        r == Err(StateIsBeingProcessed) && View() == old(View())
      ensures !Loads(old(pendingTransactions.data), did, now) ==>
        && (r.Ok? <==> o.hasUnprocessed == Ok(true) && o.newState.Ok? && o.proof.WasSent? && o.proof.saved)
        && Reaches(old(View()), PublishRun(t, did, o, did in old(View()).pending), View())
      ensures r.Ok? ==>
        && r.value == o.proof.tx
        && pendingTransactions.data == old(pendingTransactions.data)[did := now + pendingTransactions.TTL]
        && var sent := Fresh(did).(status := Transacted, txID := Some(r.value));
           && store == old(store)[o.newState.value := sent]
           && goroutines == old(goroutines)[t := Goroutine(did, AwaitingReceipt(o.newState.value, sent, r.value))]
      ensures r.Err? && !Loads(old(pendingTransactions.data), did, now) ==>
        && View().pending == old(View()).pending - {did} && goroutines == old(goroutines)
        && (o.hasUnprocessed != Ok(true) ==>
              r == Err(if o.hasUnprocessed.Err? then o.hasUnprocessed.error else NoStatesToProcess))
      ensures o.hasUnprocessed != Ok(true) || o.newState.Err? ==> store == old(store)
      ensures !Loads(old(pendingTransactions.data), did, now) && o.hasUnprocessed == Ok(true) && o.newState.Ok?
              && r.Err? ==>
        store == old(store)[o.newState.value := Fresh(did).(status := if o.markedFailed then Failed else Created)]
    {
      ghost var s0 := View();
      var processing := Enters(t, did, Publish, now);
      if processing {
        return Err(StateIsBeingProcessed);
      }
      r := PublishNewState(t, did, o);
      ghost var s2 := View();
      if r.Err? {
        Releases(t, did);
        assert goroutines == old(goroutines);
      }
      WholeCall(s0, t, did, Publish, PublishScript(t, o), s2, r.Err?, View());
    }

    method PublishNewState(ghost t: nat, did: Did, o: PublishOutcome) returns (r: Result<TxID, Error>)
      requires t in goroutines && goroutines[t] == Goroutine(did, Owning(Publish))
      requires o.newState.Ok? ==> o.newState.value !in store
      modifies this`store, this`goroutines
      ensures Reaches(old(View()), PublishScript(t, o), View())
      ensures r.Ok? <==> o.hasUnprocessed == Ok(true) && o.newState.Ok? && o.proof.WasSent? && o.proof.saved
      ensures r.Ok? ==>
        && r.value == o.proof.tx
        && var sent := Fresh(did).(status := Transacted, txID := Some(r.value));
           && store == old(store)[o.newState.value := sent]
           && goroutines == old(goroutines)[t := Goroutine(did, AwaitingReceipt(o.newState.value, sent, r.value))]
      ensures r.Err? ==> goroutines == old(goroutines)[t := Goroutine(did, Releasing)]
      ensures o.hasUnprocessed != Ok(true) ==>
        r == Err(if o.hasUnprocessed.Err? then o.hasUnprocessed.error else NoStatesToProcess)
      ensures o.hasUnprocessed == Ok(true) && o.newState.Err? ==> r == Err(o.newState.error)
      ensures o.hasUnprocessed != Ok(true) || o.newState.Err? ==> store == old(store)
      ensures o.hasUnprocessed == Ok(true) && o.newState.Ok? && r.Err? ==>
        store == old(store)[o.newState.value := Fresh(did).(status := if o.markedFailed then Failed else Created)]
    {
      ghost var s0 := View();
      if o.hasUnprocessed != Ok(true) {
        goroutines := goroutines[t := Goroutine(did, Releasing)];
        One(s0, PrepareFails(t), View());
        return Err(if o.hasUnprocessed.Err? then o.hasUnprocessed.error else NoStatesToProcess);
      }
      if o.newState.Err? {
        goroutines := goroutines[t := Goroutine(did, Releasing)];
        One(s0, PrepareFails(t), View());
        return Err(o.newState.error);
      }
      var hash, updatedState := o.newState.value, Fresh(did);
      store := store[hash := updatedState];
      goroutines := goroutines[t := Goroutine(did, Preparing(Publish, hash, updatedState))];
      ghost var s1 := View();
      One(s0, CreateState(t, hash), s1);
      r := PublishOrMarkFailed(t, did, hash, updatedState, o.proof, o.markedFailed);
      WholePublication(s0, t, o, s1, View());
    }

    /** publishProof and, if that fails, the save of the state as failed. */
    method PublishOrMarkFailed(ghost t: nat, did: Did, hash: StateHash, updatedState: IdentityState,
                               proof: ProofOutcome, markedFailed: bool)
      returns (r: Result<TxID, Error>)
      requires t in goroutines && goroutines[t] == Goroutine(did, Preparing(Publish, hash, updatedState))
      requires hash in store && store[hash] == updatedState
      modifies this`store, this`goroutines
      ensures Reaches(old(View()), ProofOrErrorScript(t, proof, markedFailed), View())
      ensures r.Ok? <==> proof.WasSent? && proof.saved
      ensures r.Ok? ==>
        && r.value == proof.tx
        && var sent := updatedState.(status := Transacted, txID := Some(proof.tx));
           && store == old(store)[hash := sent]
           && goroutines == old(goroutines)[t := Goroutine(did, AwaitingReceipt(hash, sent, proof.tx))]
      ensures r.Err? ==>
        && store == (if markedFailed then old(store)[hash := updatedState.(status := Failed)] else old(store))
        && goroutines == old(goroutines)[t := Goroutine(did, Releasing)]
    {
      ghost var s0 := View();
      r := PublishProof(t, did, Publish, hash, updatedState, proof);
      ghost var s1 := View();
      if r.Err? {
        if markedFailed {
          store := Update(store, hash, updatedState.(status := Failed));
        } else {
          r := Err(ServiceError);
        }
        goroutines := goroutines[t := Goroutine(did, Releasing)];
        One(s1, ErrorScript(t, Publish, markedFailed)[0], View());
        Join(s0, ProofScript(t, proof), s1, ErrorScript(t, Publish, markedFailed), View());
      } else {
        assert ProofScript(t, proof) + [] == ProofScript(t, proof);
      }
    }

    method RetryPublishState(ghost t: nat, did: Did, o: RetryOutcome, now: int) returns (r: Result<TxID, Error>)
      requires pendingTransactions.Valid()
      requires t !in goroutines
      requires o.failedState.Ok? && o.failedState.value.Some? ==> FailedOf(store, did, o.failedState.value.value)
      modifies this`store, pendingTransactions, this`goroutines
      ensures pendingTransactions.Valid()
      ensures Loads(old(pendingTransactions.data), did, now) ==>
        r == Err(StateIsBeingProcessed) && View() == old(View())
      ensures !Loads(old(pendingTransactions.data), did, now) ==>
        && (r.Ok? <==> o.failedState.Ok? && o.failedState.value.Some? && o.proof.WasSent? && o.proof.saved)
        && Reaches(old(View()), RetryRun(t, did, o, did in old(View()).pending), View())
      ensures r.Ok? ==>
        && r.value == o.proof.tx
        && pendingTransactions.data == old(pendingTransactions.data)[did := now + pendingTransactions.TTL]
        && var hash := o.failedState.value.value;
           var sent := old(store)[hash].(status := Transacted, txID := Some(r.value));
           && store == old(store)[hash := sent]
           && goroutines == old(goroutines)[t := Goroutine(did, AwaitingReceipt(hash, sent, r.value))]
      ensures r.Err? && !Loads(old(pendingTransactions.data), did, now) ==>
        && View() == old(View()).(pending := old(View()).pending - {did})
        && (o.failedState == Ok(None) ==> r == Err(NoFailedStatesToProcess))
        && (o.failedState.Err? ==> r == Err(o.failedState.error))
    {
      ghost var s0 := View();
      var processing := Enters(t, did, Retry, now);
      if processing {
        return Err(StateIsBeingProcessed);
      }
      r := RetryFailedState(t, did, o);
      ghost var s2 := View();
      if r.Err? {
        Releases(t, did);
        assert goroutines == old(goroutines);
      }
      WholeCall(s0, t, did, Retry, RetryScript(t, o), s2, r.Err?, View());
    }

    method RetryFailedState(ghost t: nat, did: Did, o: RetryOutcome) returns (r: Result<TxID, Error>)
      requires t in goroutines && goroutines[t] == Goroutine(did, Owning(Retry))
      requires o.failedState.Ok? && o.failedState.value.Some? ==> FailedOf(store, did, o.failedState.value.value)
      modifies this`store, this`goroutines
      ensures Reaches(old(View()), RetryScript(t, o), View())
      ensures r.Ok? <==> o.failedState.Ok? && o.failedState.value.Some? && o.proof.WasSent? && o.proof.saved
      ensures r.Ok? ==>
        && r.value == o.proof.tx
        && var hash := o.failedState.value.value;
           var sent := old(store)[hash].(status := Transacted, txID := Some(r.value));
           && store == old(store)[hash := sent]
           && goroutines == old(goroutines)[t := Goroutine(did, AwaitingReceipt(hash, sent, r.value))]
      ensures r.Err? ==> store == old(store) && goroutines == old(goroutines)[t := Goroutine(did, Releasing)]
      ensures o.failedState == Ok(None) ==> r == Err(NoFailedStatesToProcess)
      ensures o.failedState.Err? ==> r == Err(o.failedState.error)
    {
      ghost var s0 := View();
      if o.failedState.Err? || o.failedState.value.None? {
        goroutines := goroutines[t := Goroutine(did, Releasing)];
        One(s0, PrepareFails(t), View());
        return Err(if o.failedState.Err? then o.failedState.error else NoFailedStatesToProcess);
      }
      var hash := o.failedState.value.value;
      var failedState := store[hash];
      goroutines := goroutines[t := Goroutine(did, Preparing(Retry, hash, failedState))];
      ghost var s1 := View();
      One(s0, FetchFailed(t, hash), s1);
      r := PublishProof(t, did, Retry, hash, failedState, o.proof);
      Join(s0, [FetchFailed(t, hash)], s1, ProofScript(t, o.proof), View());
    }

    /** From the prepared state to the spawned watcher. */
    method PublishProof(ghost t: nat, did: Did, ghost kind: Kind, hash: StateHash, newState: IdentityState,
                        proof: ProofOutcome)
      returns (r: Result<TxID, Error>)
      requires t in goroutines && goroutines[t] == Goroutine(did, Preparing(kind, hash, newState))
      requires hash in store && store[hash] == newState
      modifies this`store, this`goroutines
      ensures Reaches(old(View()), ProofScript(t, proof), View())
      ensures r.Ok? <==> proof.WasSent? && proof.saved
      ensures r.Ok? ==>
        && r.value == proof.tx
        && var sent := newState.(status := Transacted, txID := Some(proof.tx));
           && store == old(store)[hash := sent]
           && goroutines == old(goroutines)[t := Goroutine(did, AwaitingReceipt(hash, sent, proof.tx))]
      ensures r.Err? ==>
        && store == old(store)
        && goroutines == old(goroutines)[t := Goroutine(did, AfterError(kind, hash, newState))]
    {
      ghost var s0 := View();
      if proof.NotSent? {
        goroutines := goroutines[t := Goroutine(did, AfterError(kind, hash, newState))];
        One(s0, ProofFails(t), View());
        return Err(ServiceError);
      }
      var txID := proof.tx;
      goroutines := goroutines[t := Goroutine(did, Sent(kind, hash, newState, txID))];
      ghost var s1 := View();
      One(s0, Send(t, txID), s1);
      var transacted := newState.(status := Transacted, txID := Some(txID));
      if !proof.saved {
        goroutines := goroutines[t := Goroutine(did, AfterError(kind, hash, newState))];
        One(s1, PersistFails(t), View());
        Join(s0, [Send(t, txID)], s1, [PersistFails(t)], View());
        return Err(ServiceError);
      }
      store := Update(store, hash, transacted);
      goroutines := goroutines[t := Goroutine(did, Spawning(hash, transacted, txID))];
      ghost var s2 := View();
      One(s1, Persist(t), s2);
      goroutines := goroutines[t := Goroutine(did, AwaitingReceipt(hash, transacted, txID))];
      One(s2, Spawn(t), View());
      Join(s1, [Persist(t)], s2, [Spawn(t)], View());
      assert [Persist(t)] + [Spawn(t)] == [Persist(t), Spawn(t)];
      Join(s0, [Send(t, txID)], s1, [Persist(t), Spawn(t)], View());
      return Ok(txID);
    }

    /** Saves the outcome of a mined transaction.  For a successful one the update error is only
        returned after the notifications have gone out. */
    method UpdateIdentityStateTxStatus(hash: StateHash, state: IdentityState, receipt: Receipt, o: SaveOutcome)
      returns (err: Option<Error>, order: seq<string>)
      modifies this`store, this`events
      ensures store == Saved(old(store), chain, hash, state, receipt, o)
      ensures err.None? <==> SaveReports(chain, receipt, o)
      ensures o.headerFound && receipt.block in chain.headers && receipt.successful && o.didParses && o.claims.Err? ==>
        err == Some(o.claims.error)
      ensures var notified := o.headerFound && receipt.block in chain.headers && receipt.successful
                              && o.didParses && o.claims.Ok?;
              if notified
              then && IsOrder(order, Users(o.claims.value)) && |events| == |old(events)| + |order| + 1
                   && (forall c | c in o.claims.value :: c.user in order)
                   && (forall i, j | 0 <= i < j < |order| :: order[i] != order[j])
                   && events == old(events) + Notifications(o.claims.value, order, state.identifier)
                                + [CreateStateEvent(hash)]
              else events == old(events)
    {
      order := [];
      if !o.headerFound || receipt.block !in chain.headers {
        return Some(ServiceError), order;
      }
      var settled := state.(blockNumber := Some(receipt.block), blockTimestamp := Some(chain.headers[receipt.block]));
      err := None;
      if receipt.successful {
        settled := settled.(status := Confirmed);
        if o.saved {
          store := Update(store, hash, settled);
        } else {
          err := Some(ServiceError);
        }
        if !o.didParses {
          return Some(ServiceError), order;
        }
        if o.claims.Err? {
          return Some(o.claims.error), order;
        }
        var claims := o.claims.value;
        var grouped := GroupByUserId(claims);
        var left := grouped.Keys;
        while left != {}
          invariant left <= grouped.Keys
          invariant forall u :: u in order <==> u in grouped.Keys - left
          invariant forall i, j | 0 <= i < j < |order| :: order[i] != order[j]
          invariant events == old(events) + Notifications(claims, order, state.identifier)
          invariant store == Saved(old(store), chain, hash, state, receipt, o)
          decreases left
        {
          var user :| user in left;
          assert user !in order;
          left := left - {user};
          events := events + [CreateCredentialEvent(grouped[user], state.identifier)];
          assert Notifications(claims, order + [user], state.identifier)
              == Notifications(claims, order, state.identifier)
                 + [CreateCredentialEvent(grouped[user], state.identifier)];
          order := order + [user];
        }
        events := events + [CreateStateEvent(hash)];
      } else {
        settled := settled.(status := Failed);
        if o.saved {
          store := Update(store, hash, settled);
        } else {
          err := Some(ServiceError);
        }
      }
    }

    /** The watcher of one sent transaction: wait for its receipt, then carry on as ReceiptReceived. */
    method UpdateTransactionStatus(ghost t: nat, hash: StateHash, state: IdentityState, txID: TxID, o: WatchOutcome)
      returns (err: Option<Error>)
      requires t in goroutines && goroutines[t].pc == AwaitingReceipt(hash, state, txID)
      requires PlausibleWatch(chain, txID, confirmations, o)
      modifies this
      ensures Reaches(old(View()), WatchScript(t, txID, o), View())
      ensures View().pending == old(View()).pending
      ensures goroutines == old(goroutines)[t := Goroutine(old(goroutines)[t].did, Releasing)]
      ensures if o.receipt.None? then store == old(store) && chain == old(chain) && err.Some?
              else
                var receipt := o.receipt.value.receipts[txID];
                && store == AfterWatch(old(store), o.receipt.value, hash, state, receipt, o)
                && chain == LastChain(o.receipt.value, receipt, o)
                && (err.None? <==> (receipt.successful ==> o.depth.Some?) && SaveReports(chain, receipt, o.save))
    {
      ghost var s0 := View();
      ghost var did := goroutines[t].did;
      if o.receipt.None? {
        goroutines := goroutines[t := Goroutine(did, Releasing)];
        One(s0, GiveUp(t), View());
        return Some(ServiceError);
      }
      chain := o.receipt.value;
      ghost var s1 := View();
      One(s0, Mine(chain), s1);
      var receipt := chain.receipts[txID];
      goroutines := goroutines[t := if receipt.successful then Goroutine(did, AwaitingDepth(hash, state, txID, receipt))
                                    else Goroutine(did, Finishing(hash, state, txID, receipt))];
      ghost var s2 := View();
      One(s1, SeeReceipt(t), s2);
      Join(s0, [Mine(o.receipt.value)], s1, [SeeReceipt(t)], s2);
      assert [Mine(o.receipt.value)] + [SeeReceipt(t)] == [Mine(o.receipt.value), SeeReceipt(t)];
      err := ReceiptReceived(t, did, hash, state, txID, receipt, o);
      Join(s0, [Mine(o.receipt.value), SeeReceipt(t)], s2, ReceiptScript(t, o.receipt.value, receipt, o), View());
    }

    method ReceiptReceived(ghost t: nat, ghost did: Did, hash: StateHash, state: IdentityState, ghost txID: TxID,
                           receipt: Receipt, o: WatchOutcome)
      returns (err: Option<Error>)
      requires t in goroutines
      requires goroutines[t] == Goroutine(did, if receipt.successful then AwaitingDepth(hash, state, txID, receipt)
                                               else Finishing(hash, state, txID, receipt))
      requires o.depth.Some? ==>
        Extends(chain, o.depth.value) && WatcherSeesDepth(o.depth.value, receipt, confirmations)
      modifies this
      ensures Reaches(old(View()), ReceiptScript(t, old(chain), receipt, o), View())
      ensures View().pending == old(View()).pending
      ensures goroutines == old(goroutines)[t := Goroutine(did, Releasing)]
      ensures store == AfterWatch(old(store), old(chain), hash, state, receipt, o)
      ensures chain == LastChain(old(chain), receipt, o)
      ensures err.None? <==> (receipt.successful ==> o.depth.Some?) && SaveReports(chain, receipt, o.save)
    {
      ghost var s0 := View();
      if receipt.successful {
        if o.depth.None? {
          goroutines := goroutines[t := Goroutine(did, Releasing)];
          One(s0, GiveUp(t), View());
          return Some(NotConfirmed);
        }
        chain := o.depth.value;
        ghost var s1 := View();
        One(s0, Mine(chain), s1);
        goroutines := goroutines[t := Goroutine(did, Finishing(hash, state, txID, receipt))];
        ghost var s2 := View();
        One(s1, SeeDepth(t), s2);
        Join(s0, [Mine(chain)], s1, [SeeDepth(t)], s2);
        assert [Mine(chain)] + [SeeDepth(t)] == [Mine(chain), SeeDepth(t)];
        err := SaveReceipt(t, did, hash, state, txID, receipt, o.save);
        Join(s0, [Mine(chain), SeeDepth(t)], s2, SaveScript(t, chain, receipt, o.save), View());
      } else {
        err := SaveReceipt(t, did, hash, state, txID, receipt, o.save);
      }
    }

    method SaveReceipt(ghost t: nat, ghost did: Did, hash: StateHash, state: IdentityState, ghost txID: TxID,
                       receipt: Receipt, o: SaveOutcome)
      returns (err: Option<Error>)
      requires t in goroutines && goroutines[t] == Goroutine(did, Finishing(hash, state, txID, receipt))
      modifies this`store, this`events, this`goroutines
      ensures Reaches(old(View()), SaveScript(t, chain, receipt, o), View())
      ensures goroutines == old(goroutines)[t := Goroutine(did, Releasing)]
      ensures store == Saved(old(store), chain, hash, state, receipt, o)
      ensures err.None? <==> SaveReports(chain, receipt, o)
    {
      ghost var s0 := View();
      var failure, _ := UpdateIdentityStateTxStatus(hash, state, receipt, o);
      err := failure;
      goroutines := goroutines[t := Goroutine(did, Releasing)];
      One(s0, SaveScript(t, chain, receipt, o)[0], View());
    }

    /** The goroutine that publishProof starts: watch, then give the pending entry back whatever
        happened. */
    method Watch(ghost t: nat, did: Did, hash: StateHash, state: IdentityState, txID: TxID, o: WatchOutcome)
      requires pendingTransactions.Valid()
      requires t in goroutines && goroutines[t] == Goroutine(did, AwaitingReceipt(hash, state, txID))
      requires PlausibleWatch(chain, txID, confirmations, o)
      modifies this, pendingTransactions
      ensures pendingTransactions.Valid()
      ensures Reaches(old(View()), WatchScript(t, txID, o) + [Release(t)], View())
      ensures View().pending == old(View()).pending - {did} && goroutines == old(goroutines) - {t}
      ensures store == if o.receipt.None? then old(store)
                       else AfterWatch(old(store), o.receipt.value, hash, state, o.receipt.value.receipts[txID], o)
    {
      ghost var s0 := View();
      var _ := UpdateTransactionStatus(t, hash, state, txID, o);
      ghost var s1 := View();
      Releases(t, did);
      assert goroutines == old(goroutines) - {t};
      Join(s0, WatchScript(t, txID, o), s1, [Release(t)], View());
    }

    /** One tick of the cleaner that NewPublisher starts: every entry it drops, and those are the
        entries that have not expired, expires in the sense of the protocol. */
    method CleanPending(tick: int) returns (ghost dropped: seq<Did>)
      requires pendingTransactions.Valid()
      modifies pendingTransactions
      ensures pendingTransactions.Valid()
      ensures forall did :: did in dropped <==>
        did in old(pendingTransactions.data) && old(pendingTransactions.data)[did] > tick
      ensures Reaches(old(View()), Expirations(dropped), View())
      ensures AllDisciplined(Expirations(dropped)) <==> dropped == []
    {
      ghost var s0 := View();
      dropped := pendingTransactions.Clean(tick);
      assert View().pending == s0.pending - (set did | did in dropped);
      ExpireAll(s0, dropped, View());
      assert dropped != [] ==>
        Expirations(dropped)[0] == Expire(dropped[0]) && Expirations(dropped)[0] in Expirations(dropped);
    }

    method CheckState(hash: StateHash, o: CheckOutcome) returns (err: Option<Error>)
      requires hash in store && store[hash].status == Transacted && !store[hash].genesis && store[hash].txID.Some?
      modifies this`store, this`events
      ensures Reaches(old(View()), if CheckSettles(old(View()), hash, o) then [CheckStatus(hash)] else [], View())
      ensures store == old(store)[hash := RowAfterCheck(old(View()), hash, o)]
      ensures err.None? ==> CheckSettles(old(View()), hash, o)
      ensures CheckSettles(old(View()), hash, o) && o.save.didParses && o.save.claims.Ok? ==> err.None?
      ensures var tx := old(store)[hash].txID.value;
              o.identityKnown && o.lookupsWork && tx in chain.receipts
              && chain.head < chain.receipts[tx].block + confirmations
              ==> err == Some(StateIsBeingProcessed)
    {
      ghost var s0 := View();
      assert store == store[hash := store[hash]];
      if !o.identityKnown || !o.lookupsWork {
        return Some(ServiceError);
      }
      var state := store[hash];
      if state.txID.value !in chain.receipts {
        return Some(ServiceError);
      }
      var receipt := chain.receipts[state.txID.value];
      if chain.head - receipt.block < confirmations {
        return Some(StateIsBeingProcessed);
      }
      var failure, _ := UpdateIdentityStateTxStatus(hash, state, receipt, o.save);
      err := failure;
      if CheckSettles(s0, hash, o) {
        One(s0, CheckStatus(hash), View());
      }
    }

    /** One round of the periodic job.  The states are the transacted ones the table returned;
        a state is looked at once its timeout has passed since it was last modified.  Without
        interference the round is a run of one status check for every state that is settled. */
    method CheckTransactionStatus(states: seq<StateHash>, modifiedAt: map<StateHash, int>, now: int,
                                  timeout: Did -> Option<int>, outcome: StateHash -> CheckOutcome)
      returns (ghost settled: seq<StateHash>)
      requires forall h | h in states ::
        h in store && store[h].status == Transacted && !store[h].genesis && store[h].txID.Some? && h in modifiedAt
      requires forall i, j | 0 <= i < j < |states| :: states[i] != states[j]
      modifies this`store, this`events
      ensures Reaches(old(View()), Checks(settled), View())
      ensures forall h :: h in settled <==>
        h in states && Due(old(store)[h], modifiedAt, h, now, timeout) && CheckSettles(old(View()), h, outcome(h))
      ensures store.Keys == old(store).Keys
      ensures forall h | h in old(store) ::
        store[h] == if h in states && Due(old(store)[h], modifiedAt, h, now, timeout)
                    then RowAfterCheck(old(View()), h, outcome(h)) else old(store)[h]
      ensures forall h | h in states :: var wait := timeout(old(store)[h].identifier);
        && (wait.None? || now <= modifiedAt[h] + wait.value ==> h !in settled && store[h] == old(store)[h])
        && (wait.Some? && now > modifiedAt[h] + wait.value && CheckSettles(old(View()), h, outcome(h)) ==> h in settled)
      ensures View().pending == old(View()).pending && goroutines == old(goroutines)
    {
      var toCheck: seq<StateHash> := [];
      for i := 0 to |states|
        invariant forall h :: h in toCheck <==> h in states[..i] && Due(store[h], modifiedAt, h, now, timeout)
        invariant forall j, k | 0 <= j < k < |toCheck| :: toCheck[j] != toCheck[k]
        invariant store == old(store)
      {
        if Due(store[states[i]], modifiedAt, states[i], now, timeout) {
          toCheck := toCheck + [states[i]];
        }
      }
      assert states[..|states|] == states;
      settled := CheckAll(toCheck, outcome);
    }

    method CheckAll(toCheck: seq<StateHash>, outcome: StateHash -> CheckOutcome) returns (ghost settled: seq<StateHash>)
      requires forall h | h in toCheck ::
        h in store && store[h].status == Transacted && !store[h].genesis && store[h].txID.Some?
      requires forall i, j | 0 <= i < j < |toCheck| :: toCheck[i] != toCheck[j]
      modifies this`store, this`events
      ensures Reaches(old(View()), Checks(settled), View())
      ensures forall h :: h in settled <==> h in toCheck && CheckSettles(old(View()), h, outcome(h))
      ensures store.Keys == old(store).Keys
      ensures forall h | h in old(store) ::
        store[h] == if h in toCheck then RowAfterCheck(old(View()), h, outcome(h)) else old(store)[h]
    {
      ghost var s0 := View();
      settled := [];
      for i := 0 to |toCheck|
        invariant Reaches(s0, Checks(settled), View())
        invariant forall h :: h in settled <==> h in toCheck[..i] && CheckSettles(s0, h, outcome(h))
        invariant store.Keys == old(store).Keys
        invariant forall h | h in s0.store ::
          store[h] == if h in toCheck[..i] then RowAfterCheck(s0, h, outcome(h)) else s0.store[h]
      {
        var hash := toCheck[i];
        assert hash !in toCheck[..i] && hash in toCheck;
        ghost var s := View();
        SameRowSameCheck(s0, s, hash, outcome(hash));
        var _ := CheckState(hash, outcome(hash));
        assert toCheck[..i + 1] == toCheck[..i] + [hash];
        if CheckSettles(s, hash, outcome(hash)) {
          OneCheckMore(s0, settled, s, hash, View());
          settled := settled + [hash];
        }
      }
      assert toCheck[..|toCheck|] == toCheck;
    }
  }

  function Checks(hashes: seq<StateHash>): seq<Action> {
    seq(|hashes|, i requires 0 <= i < |hashes| => CheckStatus(hashes[i]))
  }

  lemma OneCheckMore(s: System, hashes: seq<StateHash>, m: System, hash: StateHash, e: System)
    requires Reaches(s, Checks(hashes), m) && Reaches(m, [CheckStatus(hash)], e)
    ensures Reaches(s, Checks(hashes + [hash]), e)
  {
    Join(s, Checks(hashes), m, [CheckStatus(hash)], e);
    assert Checks(hashes + [hash]) == Checks(hashes) + [CheckStatus(hash)];
  }

  /** The row after one status check. */
  function RowAfterCheck(s: System, hash: StateHash, o: CheckOutcome): IdentityState
    requires hash in s.store
  {
    if CheckSettles(s, hash, o) then SettledBy(s, s.store[hash]) else s.store[hash]
  }

  /** When a transacted row is settled by a status check, and what it then says. */
  lemma RowAfterCheckIs(s: System, hash: StateHash, o: CheckOutcome)
    requires hash in s.store && s.store[hash].status == Transacted && !s.store[hash].genesis && s.store[hash].txID.Some?
    ensures var row := s.store[hash];
            var settles := && o.identityKnown && o.lookupsWork && o.save.headerFound && o.save.saved
                           && row.txID.value in s.chain.receipts
                           && var receipt := s.chain.receipts[row.txID.value];
                              receipt.block + s.confirmations <= s.chain.head && receipt.block in s.chain.headers;
            && (CheckSettles(s, hash, o) <==> settles)
            && (!settles ==> RowAfterCheck(s, hash, o) == row)
            && (settles ==>
                  var receipt := s.chain.receipts[row.txID.value];
                  RowAfterCheck(s, hash, o) == row.(
                    status := if receipt.successful then Confirmed else Failed,
                    blockNumber := Some(receipt.block), blockTimestamp := Some(s.chain.headers[receipt.block])))
  {
  }

  /** A status check looks at its own row and the chain only. */
  lemma SameRowSameCheck(s: System, s': System, hash: StateHash, o: CheckOutcome)
    requires hash in s.store && hash in s'.store && s'.store[hash] == s.store[hash]
    requires s'.chain == s.chain && s'.confirmations == s.confirmations
    ensures CheckSettles(s', hash, o) <==> CheckSettles(s, hash, o)
    ensures RowAfterCheck(s', hash, o) == RowAfterCheck(s, hash, o)
  {
  }

  predicate Due(state: IdentityState, modifiedAt: map<StateHash, int>, hash: StateHash, now: int,
                timeout: Did -> Option<int>)
  {
    && hash in modifiedAt && timeout(state.identifier).Some?
    && now > modifiedAt[hash] + timeout(state.identifier).value
  }

  /** A state that is due stays due; one without a timeout is never due. */
  lemma DueStaysDue(state: IdentityState, modifiedAt: map<StateHash, int>, hash: StateHash, now: int, later: int,
                    timeout: Did -> Option<int>)
    requires hash in modifiedAt && now <= later
    ensures Due(state, modifiedAt, hash, now, timeout) ==> Due(state, modifiedAt, hash, later, timeout)
    ensures (exists at :: Due(state, modifiedAt, hash, at, timeout)) <==> timeout(state.identifier).Some?
    ensures timeout(state.identifier).Some? ==>
      var last := modifiedAt[hash] + timeout(state.identifier).value;
      !Due(state, modifiedAt, hash, last, timeout) && Due(state, modifiedAt, hash, last + 1, timeout)
  {
    if timeout(state.identifier).Some? {
      assert Due(state, modifiedAt, hash, modifiedAt[hash] + timeout(state.identifier).value + 1, timeout);
    }
  }

  /** A retry can find the state of a failed publication exactly if it was marked as failed. */
  lemma MarkedFailedIsFound(store: map<StateHash, IdentityState>, did: Did, hash: StateHash, marked: bool)
    ensures FailedOf(store[hash := Fresh(did).(status := if marked then Failed else Created)], did, hash) <==> marked
  {
  }

  // ---------------------------------------------------------------- the calls keep the invariant

  lemma ReachesKeepsInv(s: System, actions: seq<Action>, e: System)
    requires Inv(s) && Reaches(s, actions, e) && AllDisciplined(actions)
    ensures Inv(e)
  {
    RunKeepsInv(s, actions);
  }

  /** A call follows the protocol unless it enters over an entry that has expired. */
  lemma PublishRunIsDisciplined(t: nat, did: Did, o: PublishOutcome, expired: bool)
    ensures AllDisciplined(PublishRun(t, did, o, expired)) <==> !expired
  {
    assert AllDisciplined(ProofScript(t, o.proof)) && AllDisciplined(ErrorScript(t, Publish, o.markedFailed));
    assert AllDisciplined(ProofOrErrorScript(t, o.proof, o.markedFailed));
    assert AllDisciplined(PublishScript(t, o));
    if expired {
      assert PublishRun(t, did, o, expired)[0] == Expire(did) && Expire(did) in PublishRun(t, did, o, expired);
    }
  }

  lemma RetryRunIsDisciplined(t: nat, did: Did, o: RetryOutcome, expired: bool)
    ensures AllDisciplined(RetryRun(t, did, o, expired)) <==> !expired
  {
    assert AllDisciplined(ProofScript(t, o.proof)) && AllDisciplined(RetryScript(t, o));
    if expired {
      assert RetryRun(t, did, o, expired)[0] == Expire(did) && Expire(did) in RetryRun(t, did, o, expired);
    }
  }

  lemma WatchScriptIsDisciplined(t: nat, tx: TxID, o: WatchOutcome)
    requires o.receipt.Some? ==> tx in o.receipt.value.receipts
    ensures AllDisciplined(WatchScript(t, tx, o) + [Release(t)])
  {
    if o.receipt.Some? {
      assert AllDisciplined(ReceiptScript(t, o.receipt.value, o.receipt.value.receipts[tx], o));
    }
    assert AllDisciplined(WatchScript(t, tx, o));
  }

  /** A whole publication, from the API call to the end of its watcher, keeps the invariant of
      every interleaving. */
  lemma PublicationKeepsInv(s: System, t: nat, did: Did, o: PublishOutcome, w: WatchOutcome, m: System, e: System)
    requires Inv(s) && did !in s.pending
    requires Reaches(s, PublishRun(t, did, o, false), m)
    requires PublishWorks(o) ==>
      && (w.receipt.Some? ==> o.proof.tx in w.receipt.value.receipts)
      && Reaches(m, WatchScript(t, o.proof.tx, w) + [Release(t)], e)
    requires !PublishWorks(o) ==> e == m
    ensures Inv(m) && Inv(e)
  {
    PublishRunIsDisciplined(t, did, o, false);
    ReachesKeepsInv(s, PublishRun(t, did, o, false), m);
    if PublishWorks(o) {
      WatchScriptIsDisciplined(t, o.proof.tx, w);
      ReachesKeepsInv(m, WatchScript(t, o.proof.tx, w) + [Release(t)], e);
    }
  }

  /** A whole retry keeps it just as well. */
  lemma RetryKeepsInv(s: System, t: nat, did: Did, o: RetryOutcome, w: WatchOutcome, m: System, e: System)
    requires Inv(s) && did !in s.pending
    requires Reaches(s, RetryRun(t, did, o, false), m)
    requires RetryWorks(o) ==>
      && (w.receipt.Some? ==> o.proof.tx in w.receipt.value.receipts)
      && Reaches(m, WatchScript(t, o.proof.tx, w) + [Release(t)], e)
    requires !RetryWorks(o) ==> e == m
    ensures Inv(m) && Inv(e)
  {
    RetryRunIsDisciplined(t, did, o, false);
    ReachesKeepsInv(s, RetryRun(t, did, o, false), m);
    if RetryWorks(o) {
      WatchScriptIsDisciplined(t, o.proof.tx, w);
      ReachesKeepsInv(m, WatchScript(t, o.proof.tx, w) + [Release(t)], e);
    }
  }

  /** And so does a whole round of status checks. */
  lemma CheckRoundKeepsInv(s: System, settled: seq<StateHash>, e: System)
    requires Inv(s) && Reaches(s, Checks(settled), e)
    ensures Inv(e) && e.pending == s.pending && e.threads == s.threads && e.chain == s.chain
    ensures forall h | h in s.store && h !in settled :: h in e.store && e.store[h] == s.store[h]
  {
    ReachesKeepsInv(s, Checks(settled), e);
    ChecksTouchNothingElse(s, settled, e);
  }

  lemma {:induction false} ChecksTouchNothingElse(s: System, settled: seq<StateHash>, e: System)
    requires Reaches(s, Checks(settled), e)
    ensures e.pending == s.pending && e.threads == s.threads && e.chain == s.chain
    ensures forall h | h in s.store && h !in settled :: h in e.store && e.store[h] == s.store[h]
    decreases |settled|
  {
    if settled != [] {
      var m := Apply(s, CheckStatus(settled[0]));
      assert Checks(settled)[0] == CheckStatus(settled[0]) && Checks(settled)[1..] == Checks(settled[1..]);
      ChecksTouchNothingElse(m, settled[1..], e);
      assert settled == [settled[0]] + settled[1..];
    }
  }
}
