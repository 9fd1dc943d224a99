/** Each assumption of the discipline is needed: short runs that break a single one of them and
    leave a live watcher whose transaction is not the one stored for its state. */
module PublicationRuns {
  import opened Wrappers
  import opened Receipts
  import opened Publication
  import opened PublicationSafety
  import PendingMap

  const FAILED := IdentityState("did", false, Failed, None, None, None)

  const EMPTY := Chain(0, map[], map[])

  /** The transaction tx1 has failed in block 1. */
  const MINED := Chain(9, map["tx1" := Receipt(false, 1)], map[1 := 100])

  /** The table holds one row, and nothing has been mined. */
  function Snapshot(row: IdentityState, pending: set<Did>, threads: map<nat, Goroutine>): System {
    System(map["state" := row], pending, threads, EMPTY, 0, None)
  }

  /** One failed state waiting for a retry. */
  const START := Snapshot(FAILED, {}, map[])

  function In(pc: Pc): Goroutine {
    Goroutine("did", pc)
  }

  const RETRYING := In(Preparing(Retry, "state", FAILED))

  function SentBy(tx: TxID): IdentityState {
    FAILED.(status := Transacted, txID := Some(tx))
  }

  function WatcherOf(row: IdentityState, tx: TxID): Goroutine {
    In(AwaitingReceipt("state", row.(status := Transacted, txID := Some(tx)), tx))
  }

  lemma Three(s: System, a: Action, m: System, b: Action, n: System, c: Action, e: System)
    requires Enabled(s, a) && Apply(s, a) == m
    requires Enabled(m, b) && Apply(m, b) == n
    requires Enabled(n, c) && Apply(n, c) == e
    ensures Reaches(s, [a, b, c], e)
  {
    One(s, a, m);
    One(m, b, n);
    One(n, c, e);
    Join(m, [b], n, [c], e);
    Join(s, [a], m, [b] + [c], e);
    assert [a] + ([b] + [c]) == [a, b, c];
  }

  /** A retry that owns its entry and has fetched the row, up to its live watcher. */
  lemma RetryRun(s: System, t: nat, row: IdentityState, tx: TxID, e: System)
    requires t in s.threads && s.threads[t] == In(Preparing(Retry, "state", row)) && "state" in s.store
    requires e == s.(store := Update(s.store, "state", row.(status := Transacted, txID := Some(tx))),
                     threads := s.threads[t := WatcherOf(row, tx)])
    ensures Reaches(s, [Send(t, tx), Persist(t), Spawn(t)], e)
  {
    var s1 := Apply(s, Send(t, tx));
    var s2 := Apply(s1, Persist(t));
    assert Apply(s2, Spawn(t)).threads == e.threads;
    Three(s, Send(t, tx), s1, Persist(t), s2, Spawn(t), e);
  }

  const RACE := Snapshot(FAILED, {"did"}, map[0 := RETRYING, 1 := RETRYING])

  const CLASH := [Send(0, "tx2"), Persist(0), Spawn(0)] + [Send(1, "tx3"), Persist(1), Spawn(1)]

  /** Two retries of the same state, whatever let both of them in, end with a stale watcher. */
  lemma TwoRetriesClash() returns (e: System)
    ensures Reaches(RACE, CLASH, e) && !WatchersMatch(e)
  {
    var m := Snapshot(SentBy("tx2"), {"did"}, map[0 := WatcherOf(FAILED, "tx2"), 1 := RETRYING]);
    e := Snapshot(SentBy("tx3"), {"did"}, map[0 := WatcherOf(FAILED, "tx2"), 1 := WatcherOf(FAILED, "tx3")]);
    RetryRun(RACE, 0, FAILED, "tx2", m);
    RetryRun(m, 1, FAILED, "tx3", e);
    Join(RACE, [Send(0, "tx2"), Persist(0), Spawn(0)], m, [Send(1, "tx3"), Persist(1), Spawn(1)], e);
    assert e.threads[0] == WatcherOf(FAILED, "tx2");
  }

  const BOTH_LOADED := [Load(0, "did", Retry), Load(1, "did", Retry), Store(0)]
  const BOTH_FETCHED := [Store(1), FetchFailed(0, "state"), FetchFailed(1, "state")]
  const ONE_STORED := Snapshot(FAILED, {"did"}, map[0 := In(Owning(Retry)), 1 := In(Loaded(Retry))])

  lemma BothLoad()
    ensures Reaches(START, BOTH_LOADED, ONE_STORED)
  {
    var loaded := In(Loaded(Retry));
    var s1 := Snapshot(FAILED, {}, map[0 := loaded]);
    var s2 := Snapshot(FAILED, {}, map[0 := loaded, 1 := loaded]);
    Three(START, Load(0, "did", Retry), s1, Load(1, "did", Retry), s2, Store(0), ONE_STORED);
  }

  lemma BothFetch()
    ensures Reaches(ONE_STORED, BOTH_FETCHED, RACE)
  {
    var own := In(Owning(Retry));
    var s4 := Snapshot(FAILED, {"did"}, map[0 := own, 1 := own]);
    var s5 := Snapshot(FAILED, {"did"}, map[0 := RETRYING, 1 := own]);
    Three(ONE_STORED, Store(1), s4, FetchFailed(0, "state"), s5, FetchFailed(1, "state"), RACE);
  }

  lemma SplitLockLetsTwoIn()
    ensures Reaches(START, BOTH_LOADED + BOTH_FETCHED, RACE)
  {
    BothLoad();
    BothFetch();
    Join(START, BOTH_LOADED, ONE_STORED, BOTH_FETCHED, RACE);
  }

  /** If Load and Store are two steps, two retries may both find no entry. */
  lemma TestAndSetIsNeeded() returns (actions: seq<Action>)
    ensures Init(START) && Runs(START, actions) && !WatchersMatch(Run(START, actions))
    ensures forall a | a in actions :: Disciplined(a) || a.Load? || a.Store?
  {
    SplitLockLetsTwoIn();
    var e := TwoRetriesClash();
    Join(START, BOTH_LOADED + BOTH_FETCHED, RACE, CLASH, e);
    actions := BOTH_LOADED + BOTH_FETCHED + CLASH;
  }

  const FIRST_RETRY := [Acquire(0, "did", Retry), FetchFailed(0, "state"), Expire("did")]
  const SECOND_RETRY := [Acquire(1, "did", Retry), FetchFailed(1, "state")]

  const EXPIRED := Snapshot(FAILED, {}, map[0 := RETRYING])

  lemma FirstRetryExpires()
    ensures Reaches(START, FIRST_RETRY, EXPIRED)
  {
    var s1 := Snapshot(FAILED, {"did"}, map[0 := In(Owning(Retry))]);
    var s2 := Snapshot(FAILED, {"did"}, map[0 := RETRYING]);
    Three(START, Acquire(0, "did", Retry), s1, FetchFailed(0, "state"), s2, Expire("did"), EXPIRED);
  }

  lemma SecondRetryEnters()
    ensures Reaches(EXPIRED, SECOND_RETRY, RACE)
  {
    var s4 := Snapshot(FAILED, {"did"}, map[0 := RETRYING, 1 := In(Owning(Retry))]);
    One(EXPIRED, Acquire(1, "did", Retry), s4);
    One(s4, FetchFailed(1, "state"), RACE);
    Join(EXPIRED, [Acquire(1, "did", Retry)], s4, [FetchFailed(1, "state")], RACE);
  }

  lemma ExpiryLetsTwoIn()
    ensures Reaches(START, FIRST_RETRY + SECOND_RETRY, RACE)
  {
    FirstRetryExpires();
    SecondRetryEnters();
    Join(START, FIRST_RETRY, EXPIRED, SECOND_RETRY, RACE);
  }

  /** If an entry can expire (60 s after it was stored) while its owner still works, a second
      retry gets in. */
  lemma NoExpiryIsNeeded() returns (actions: seq<Action>)
    ensures Init(START) && Runs(START, actions) && !WatchersMatch(Run(START, actions))
    ensures forall a | a in actions :: Disciplined(a) || a.Expire?
  {
    ExpiryLetsTwoIn();
    var e := TwoRetriesClash();
    Join(START, FIRST_RETRY + SECOND_RETRY, RACE, CLASH, e);
    actions := FIRST_RETRY + SECOND_RETRY + CLASH;
  }

  /** The cleaner is enough: a tick that comes while the entry of a working retry has not expired
      lets the second retry in, and a tick after that does not touch the entry. */
  lemma CleanerBreaksTheLock(stored: int, ttl: int, tick: int) returns (actions: seq<Action>)
    ensures Init(START) && Runs(START, actions)
    ensures var entries := map["did" := stored + ttl];
            var dropped := "did" !in PendingMap.Cleaned(entries, tick);
            && (dropped <==> tick < stored + ttl)
            && (dropped ==> !WatchersMatch(Run(START, actions)) && PendingMap.Loads(entries, "did", tick))
            && (forall a | a in actions :: Disciplined(a) || (dropped && a == Expire("did")))
  {
    if tick < stored + ttl {
      ExpiryLetsTwoIn();
      var e := TwoRetriesClash();
      Join(START, FIRST_RETRY + SECOND_RETRY, RACE, CLASH, e);
      actions := FIRST_RETRY + SECOND_RETRY + CLASH;
    } else {
      actions := [];
    }
  }

  const ENTER := [Acquire(0, "did", Retry), FetchFailed(0, "state")]
  const SEND_FIRST := [Send(0, "tx1"), Persist(0), Spawn(0)]
  const WATCHED := Snapshot(SentBy("tx1"), {"did"}, map[0 := WatcherOf(FAILED, "tx1")])

  lemma FirstRetryIsWatched()
    ensures Reaches(START, ENTER + SEND_FIRST, WATCHED)
  {
    var s1 := Snapshot(FAILED, {"did"}, map[0 := In(Owning(Retry))]);
    var s2 := Snapshot(FAILED, {"did"}, map[0 := RETRYING]);
    One(START, Acquire(0, "did", Retry), s1);
    One(s1, FetchFailed(0, "state"), s2);
    Join(START, [Acquire(0, "did", Retry)], s1, [FetchFailed(0, "state")], s2);
    RetryRun(s2, 0, FAILED, "tx1", WATCHED);
    Join(START, ENTER, s2, SEND_FIRST, WATCHED);
  }

  const SETTLED := Settle(SentBy("tx1"), Receipt(false, 1), 100)
  const STALE := Some(("state", SentBy("tx1")))
  const FINISHING := In(Finishing("state", SentBy("tx1"), "tx1", Receipt(false, 1)))

  /** After tx1 was mined, while a checker holds what it read. */
  function WhileChecking(row: IdentityState, pending: set<Did>, threads: map<nat, Goroutine>): System {
    Snapshot(row, pending, threads).(chain := MINED, checking := STALE)
  }

  const READ := [Mine(MINED), CheckRead("state"), SeeReceipt(0)]
  const SETTLE := [Finish(0), Release(0)]
  const ABOUT_TO_SETTLE := WhileChecking(SentBy("tx1"), {"did"}, map[0 := FINISHING])
  const RELEASED := WhileChecking(SETTLED, {}, map[])

  lemma CheckerReads()
    ensures Reaches(WATCHED, READ, ABOUT_TO_SETTLE)
  {
    var s1 := WATCHED.(chain := MINED);
    var s2 := s1.(checking := STALE);
    Three(WATCHED, Mine(MINED), s1, CheckRead("state"), s2, SeeReceipt(0), ABOUT_TO_SETTLE);
  }

  lemma WatcherSettles()
    ensures Reaches(ABOUT_TO_SETTLE, SETTLE, RELEASED)
  {
    var s3 := WhileChecking(SETTLED, {"did"}, map[0 := In(Releasing)]);
    One(ABOUT_TO_SETTLE, Finish(0), s3);
    One(s3, Release(0), RELEASED);
    Join(ABOUT_TO_SETTLE, [Finish(0)], s3, [Release(0)], RELEASED);
  }

  /** The checker reads the transacted state, then the watcher settles it as failed. */
  lemma WatcherSettlesAfterRead()
    ensures Reaches(WATCHED, READ + SETTLE, RELEASED)
  {
    CheckerReads();
    WatcherSettles();
    Join(WATCHED, READ, ABOUT_TO_SETTLE, SETTLE, RELEASED);
  }

  const ENTER_AGAIN := [Acquire(1, "did", Retry), FetchFailed(1, "state")]
  const SEND_AGAIN := [Send(1, "tx2"), Persist(1), Spawn(1)]

  /** A retry sends another transaction, and now the checker writes the old outcome. */
  lemma CheckerOverwritesRetry() returns (e: System)
    ensures Reaches(RELEASED, ENTER_AGAIN + SEND_AGAIN + [CheckWrite], e) && !WatchersMatch(e)
  {
    var s1 := WhileChecking(SETTLED, {"did"}, map[1 := In(Owning(Retry))]);
    var s2 := WhileChecking(SETTLED, {"did"}, map[1 := In(Preparing(Retry, "state", SETTLED))]);
    var row := SETTLED.(status := Transacted, txID := Some("tx2"));
    var s3 := WhileChecking(row, {"did"}, map[1 := WatcherOf(SETTLED, "tx2")]);
    e := WhileChecking(SETTLED, {"did"}, map[1 := WatcherOf(SETTLED, "tx2")]).(checking := None);
    One(RELEASED, Acquire(1, "did", Retry), s1);
    One(s1, FetchFailed(1, "state"), s2);
    Join(RELEASED, [Acquire(1, "did", Retry)], s1, [FetchFailed(1, "state")], s2);
    RetryRun(s2, 1, SETTLED, "tx2", s3);
    Join(RELEASED, ENTER_AGAIN, s2, SEND_AGAIN, s3);
    One(s3, CheckWrite, e);
    Join(RELEASED, ENTER_AGAIN + SEND_AGAIN, s3, [CheckWrite], e);
    assert e.threads[1] == WatcherOf(SETTLED, "tx2");
  }

  /** If a status check may write what it read earlier, it can overwrite a retry that happened
      in between with the outcome of the old transaction. */
  lemma FreshReadIsNeeded() returns (actions: seq<Action>)
    ensures Init(START) && Runs(START, actions) && !WatchersMatch(Run(START, actions))
    ensures forall a | a in actions :: Disciplined(a) || a.CheckRead? || a.CheckWrite?
  {
    FirstRetryIsWatched();
    WatcherSettlesAfterRead();
    var e := CheckerOverwritesRetry();
    var overwritten := ENTER_AGAIN + SEND_AGAIN + [CheckWrite];
    Join(START, ENTER + SEND_FIRST, WATCHED, READ + SETTLE, RELEASED);
    Join(START, ENTER + SEND_FIRST + (READ + SETTLE), RELEASED, overwritten, e);
    actions := ENTER + SEND_FIRST + (READ + SETTLE) + overwritten;
  }
}
