/** KMS.KeysByIdentity of internal/kms/kms.go: one goroutine per registered provider, one that
    closes the channel when all of them are done, and the collector.  */
module KeyFanIn {
  import opened Wrappers
  import opened KeyPaths
  import opened Orders

  type Error = string

  /** What one provider's ListByIdentity returned. */
  datatype Reply = Keys(keys: seq<KeyID>) | Fails(error: Error)

  /** A provider goroutine: listing, at the select with its reply, past the select, finished. */
  datatype Worker = Listing | Offering(reply: Reply) | Leaving | Gone

  datatype Collector = Collecting | Returned(err: Option<Error>)

  datatype State = State(
    workers: seq<Worker>,
    replies: map<nat, Reply>,  // what every listing that ended returned
    received: seq<nat>,           // whose keys were appended, in order
    allKeys: seq<KeyID>,
    collector: Collector,
    closed: bool,
    cancelled: bool,              // the derived context
    callerCancelled: bool)        // the caller's context

  datatype Action =
    | List(i: nat, reply: Reply)
    | Send(i: nat)
    | Drop(i: nat)
    | Done(i: nat)
    | Close
    | Finish
    | CallerCancels

  function Start(n: nat): State {
    State(seq(n, i => Listing), map[], [], [], Collecting, false, false, false)
  }

  predicate AllGone(workers: seq<Worker>) {
    forall i | 0 <= i < |workers| :: workers[i].Gone?
  }

  predicate Enabled(s: State, a: Action) {
    match a
    case List(i, _) => i < |s.workers| && s.workers[i].Listing?
    // the unbuffered channel: sender and receiver meet
    case Send(i) => i < |s.workers| && s.workers[i].Offering? && s.collector.Collecting? && !s.closed
    case Drop(i) => i < |s.workers| && s.workers[i].Offering? && s.cancelled
    case Done(i) => i < |s.workers| && s.workers[i].Leaving?
    // wg.Wait returns when every worker has called Done
    case Close => !s.closed && AllGone(s.workers)
    case Finish => s.collector.Collecting? && s.closed
    case CallerCancels => !s.callerCancelled
  }

  function Step(s: State, a: Action): State
    requires Enabled(s, a)
  {
    match a
    case List(i, reply) => s.(workers := s.workers[i := Offering(reply)], replies := s.replies[i := reply])
    case Send(i) =>
      var s' := s.(workers := s.workers[i := Leaving]);
      (match s.workers[i].reply
       case Fails(error) => s'.(collector := Returned(Some(error)), cancelled := true)
       case Keys(keys) => s'.(allKeys := s.allKeys + keys, received := s.received + [i]))
    case Drop(i) => s.(workers := s.workers[i := Leaving])
    case Done(i) => s.(workers := s.workers[i := Gone])
    case Close => s.(closed := true)
    case Finish => s.(collector := Returned(None), cancelled := true)
    case CallerCancels => s.(callerCancelled := true, cancelled := true)
  }

  predicate Final(s: State) {
    AllGone(s.workers) && s.closed && s.collector.Returned?
  }

  function KeysOf(replies: map<nat, Reply>, i: nat): seq<KeyID> {
    if i in replies && replies[i].Keys? then replies[i].keys else []
  }

  function ListOf(replies: map<nat, Reply>): nat -> seq<KeyID> {
    (i: nat) => KeysOf(replies, i)
  }

  /** The keys of these providers' lists, one list after the other. */
  function Gather(replies: map<nat, Reply>, order: seq<nat>): seq<KeyID> {
    Collect(ListOf(replies), order)
  }

  // ---------------------------------------------------------------- the invariant

  predicate WorkerOk(s: State, i: nat)
    requires i < |s.workers|
  {
    match s.workers[i]
    case Listing => i !in s.replies
    case Offering(reply) => i in s.replies && s.replies[i] == reply && i !in s.received
    case Leaving => i in s.replies && (Undisturbed(s) ==> i in s.received)
    case Gone => i in s.replies && (Undisturbed(s) ==> i in s.received)
  }

  /** Nothing has made a worker drop its reply, and no failure has been received. */
  predicate Undisturbed(s: State) {
    !s.callerCancelled && (s.collector.Collecting? || s.collector.err.None?)
  }

  ghost predicate Inv(s: State) {
    && (forall i: nat | i < |s.workers| :: WorkerOk(s, i))
    && (forall i: nat | i in s.replies :: i < |s.workers|)
    && (forall k | 0 <= k < |s.received| :: s.received[k] in s.replies && s.replies[s.received[k]].Keys?)
    && (forall j, k | 0 <= j < k < |s.received| :: s.received[j] != s.received[k])
    && s.allKeys == Gather(s.replies, s.received)
    && (s.closed ==> AllGone(s.workers))
    && (s.collector.Returned? ==> s.cancelled)
    && (s.collector == Returned(None) ==> s.closed)
    && (s.collector.Returned? && s.collector.err.Some? ==>
          exists i: nat :: i in s.replies && s.replies[i] == Fails(s.collector.err.value))
    && (s.cancelled && s.collector.Collecting? ==> s.callerCancelled)
  }

  /** Lists that come in later do not change what was gathered before. */
  lemma GatherIgnores(replies: map<nat, Reply>, i: nat, reply: Reply, order: seq<nat>)
    requires i !in order
    ensures Gather(replies[i := reply], order) == Gather(replies, order)
  {
    CollectSame(ListOf(replies[i := reply]), ListOf(replies), order);
  }

  lemma ListKeepsInv(s: State, i: nat, reply: Reply)
    requires Inv(s) && Enabled(s, List(i, reply))
    ensures Inv(Step(s, List(i, reply)))
  {
    var s' := Step(s, List(i, reply));
    assert WorkerOk(s, i);
    assert i !in s.received;
    GatherIgnores(s.replies, i, reply, s.received);
    forall j: nat | j < |s'.workers| ensures WorkerOk(s', j) {
      assert WorkerOk(s, j);
    }
    if s.collector.Returned? && s.collector.err.Some? {
      var j :| j in s.replies && s.replies[j] == Fails(s.collector.err.value);
      assert j in s'.replies && s'.replies[j] == Fails(s.collector.err.value);
    }
  }

  lemma SendKeepsWorkers(s: State, i: nat)
    requires Inv(s) && Enabled(s, Send(i))
    ensures i in s.replies && s.replies[i] == s.workers[i].reply && i !in s.received
    ensures forall j: nat | j < |s.workers| :: WorkerOk(Step(s, Send(i)), j)
  {
    assert WorkerOk(s, i);
    forall j: nat | j < |s.workers| ensures WorkerOk(Step(s, Send(i)), j) {
      assert WorkerOk(s, j);
    }
  }

  lemma SendKeysKeepsInv(s: State, i: nat)
    requires Inv(s) && Enabled(s, Send(i)) && s.workers[i].reply.Keys?
    ensures Inv(Step(s, Send(i)))
  {
    SendKeepsWorkers(s, i);
    CollectOneMore(ListOf(s.replies), s.received, i);
  }

  lemma SendFailureKeepsInv(s: State, i: nat)
    requires Inv(s) && Enabled(s, Send(i)) && s.workers[i].reply.Fails?
    ensures Inv(Step(s, Send(i)))
  {
    SendKeepsWorkers(s, i);
    var s' := Step(s, Send(i));
    assert i in s'.replies && s'.replies[i] == Fails(s'.collector.err.value);
  }

  lemma OtherStepsKeepInv(s: State, a: Action)
    requires Inv(s) && Enabled(s, a) && !a.List? && !a.Send?
    ensures Inv(Step(s, a))
  {
    var s' := Step(s, a);
    forall j: nat | j < |s'.workers| ensures WorkerOk(s', j) {
      assert WorkerOk(s, j);
    }
  }

  lemma StepKeepsInv(s: State, a: Action)
    requires Inv(s) && Enabled(s, a)
    ensures Inv(Step(s, a))
  {
    match a
    case List(i, reply) => ListKeepsInv(s, i, reply);
    case Send(i) => if s.workers[i].reply.Keys? { SendKeysKeepsInv(s, i); } else { SendFailureKeepsInv(s, i); }
    case _ => OtherStepsKeepInv(s, a);
  }

  // ---------------------------------------------------------------- whole runs

  predicate Runs(s: State, actions: seq<Action>)
    decreases |actions|
  {
    actions == [] || (Enabled(s, actions[0]) && Runs(Step(s, actions[0]), actions[1..]))
  }

  function Run(s: State, actions: seq<Action>): State
    requires Runs(s, actions)
    decreases |actions|
  {
    if actions == [] then s else Run(Step(s, actions[0]), actions[1..])
  }

  lemma {:induction false} RunKeepsInv(s: State, actions: seq<Action>)
    requires Inv(s) && Runs(s, actions)
    ensures Inv(Run(s, actions)) && |Run(s, actions).workers| == |s.workers|
    decreases |actions|
  {
    if actions != [] {
      StepKeepsInv(s, actions[0]);
      RunKeepsInv(Step(s, actions[0]), actions[1..]);
    }
  }

  /** At the moment the channel is closed, and ever after, no worker is at its select: nothing is
      ever sent on the closed channel. */
  lemma NoSendOnClosedChannel(n: nat, actions: seq<Action>, i: nat)
    requires Runs(Start(n), actions) && i < n && Run(Start(n), actions).closed
    ensures i < |Run(Start(n), actions).workers| && Run(Start(n), actions).workers[i].Gone?
  {
    RunKeepsInv(Start(n), actions);
  }

  function WorkLeft(workers: seq<Worker>): nat {
    if workers == [] then 0
    else
      WorkLeft(workers[..|workers| - 1]) +
      match workers[|workers| - 1] { case Listing => 3 case Offering(_) => 2 case Leaving => 1 case Gone => 0 }
  }

  function Measure(s: State): nat {
    WorkLeft(s.workers) + (if s.closed then 0 else 1) + (if s.collector.Collecting? then 1 else 0)
    + (if s.callerCancelled then 0 else 1)
  }

  lemma {:induction false} WorkLeftUpdate(workers: seq<Worker>, i: nat, w: Worker)
    requires i < |workers|
    ensures WorkLeft(workers[i := w]) == WorkLeft(workers) - WorkLeft([workers[i]]) + WorkLeft([w])
  {
    var n := |workers| - 1;
    assert [w][..0] == [] && [workers[i]][..0] == [];
    if i < n {
      WorkLeftUpdate(workers[..n], i, w);
      assert workers[i := w][..n] == workers[..n][i := w];
    } else {
      assert workers[i := w][..n] == workers[..n];
    }
  }

  /** Every step uses up some of a bounded amount of work, so every run is finite. */
  lemma StepsRunOut(s: State, a: Action)
    requires Enabled(s, a)
    ensures Measure(Step(s, a)) < Measure(s)
  {
    if a.List? || a.Send? || a.Drop? || a.Done? {
      WorkLeftUpdate(s.workers, a.i, Step(s, a).workers[a.i]);
    }
  }

  /** No deadlock: until all workers are gone, the channel is closed and the call has returned,
      some step other than a cancellation by the caller can be taken. */
  lemma SomeoneCanMove(s: State, reply: Reply) returns (a: Action)
    requires Inv(s) && !Final(s)
    ensures Enabled(s, a) && !a.CallerCancels?
  {
    if AllGone(s.workers) {
      a := if s.closed then Finish else Close;
    } else {
      var i: nat :| i < |s.workers| && !s.workers[i].Gone?;
      match s.workers[i]
      case Listing => a := List(i, reply);
      case Offering(_) => a := if s.collector.Collecting? then Send(i) else Drop(i);
      case Leaving => a := Done(i);
    }
  }

  // ---------------------------------------------------------------- the result

  function UpTo(n: nat): seq<nat> {
    seq(n, i requires 0 <= i < n => i)
  }

  lemma EveryoneWasReceived(s: State)
    requires Inv(s) && s.collector == Returned(None) && !s.callerCancelled
    ensures forall i: nat | i < |s.workers| :: i in s.replies && s.replies[i].Keys?
    ensures Distinct(s.received) && Distinct(UpTo(|s.workers|))
    ensures forall i :: i in s.received <==> i in UpTo(|s.workers|)
  {
    var all := UpTo(|s.workers|);
    forall i ensures i in s.received <==> i in all {
      if i in s.received {
        assert i in s.replies;
        assert all[i] == i;
      }
      if i in all {
        assert WorkerOk(s, i);
      }
    }
    forall i: nat | i < |s.workers| ensures i in s.replies && s.replies[i].Keys? {
      assert all[i] in all;
    }
  }

  /** When the call returns and its caller has not cancelled it: there is no error exactly when
      every provider answered with keys, and then the result is all their keys. */
  lemma ResultIsComplete(s: State)
    requires Inv(s) && s.collector.Returned? && !s.callerCancelled
    ensures s.collector.err.None? <==>
      forall i: nat | i < |s.workers| :: i in s.replies && s.replies[i].Keys?
    ensures s.collector.err.None? ==>
      multiset(s.allKeys) == multiset(Gather(s.replies, UpTo(|s.workers|)))
  {
    if s.collector.err.None? {
      EveryoneWasReceived(s);
      OrderDoesNotMatter(ListOf(s.replies), s.received, UpTo(|s.workers|));
    }
  }

  lemma RunResult(n: nat, actions: seq<Action>)
    requires Runs(Start(n), actions)
    requires var e := Run(Start(n), actions); e.collector.Returned? && !e.callerCancelled
    ensures var e := Run(Start(n), actions);
            && (e.collector.err.None? <==> forall i: nat | i < n :: i in e.replies && e.replies[i].Keys?)
            && (e.collector.err.None? ==> multiset(e.allKeys) == multiset(Gather(e.replies, UpTo(n))))
  {
    RunKeepsInv(Start(n), actions);
    ResultIsComplete(Run(Start(n), actions));
  }

  // ---------------------------------------------------------------- a caller that cancels

  lemma {:induction false} RunMore(s: State, actions: seq<Action>, a: Action)
    requires Runs(s, actions) && Enabled(Run(s, actions), a)
    ensures Runs(s, actions + [a]) && Run(s, actions + [a]) == Step(Run(s, actions), a)
    decreases |actions|
  {
    if actions == [] {
      assert [] + [a] == [a] && [a][1..] == [];
    } else {
      RunMore(Step(s, actions[0]), actions[1..], a);
      assert (actions + [a])[1..] == actions[1..] + [a];
    }
  }

  /** The lists of the first k providers that are kept, and whose they are. */
  function KeptKeys(lists: seq<seq<KeyID>>, kept: seq<bool>, k: nat): seq<KeyID>
    requires k <= |lists| == |kept|
  {
    if k == 0 then [] else KeptKeys(lists, kept, k - 1) + if kept[k - 1] then lists[k - 1] else []
  }

  function KeptOnes(kept: seq<bool>, k: nat): seq<nat>
    requires k <= |kept|
  {
    if k == 0 then [] else KeptOnes(kept, k - 1) + if kept[k - 1] then [k - 1] else []
  }

  /** After a cancellation, with the first k providers done. */
  function Halfway(lists: seq<seq<KeyID>>, kept: seq<bool>, k: nat): State
    requires k <= |lists| == |kept|
  {
    State(seq(|lists|, i => if i < k then Gone else Listing),
          map i: nat | i < k :: Keys(lists[i]),
          KeptOnes(kept, k), KeptKeys(lists, kept, k), Collecting, false, true, true)
  }

  function TurnOf(lists: seq<seq<KeyID>>, kept: seq<bool>, k: nat): seq<Action>
    requires k < |lists| == |kept|
  {
    [List(k, Keys(lists[k])), if kept[k] then Send(k) else Drop(k), Done(k)]
  }

  lemma OneTurn(lists: seq<seq<KeyID>>, kept: seq<bool>, k: nat)
    requires k < |lists| == |kept|
    ensures var s, turn := Halfway(lists, kept, k), TurnOf(lists, kept, k);
            && Enabled(s, turn[0])
            && Enabled(Step(s, turn[0]), turn[1])
            && Enabled(Step(Step(s, turn[0]), turn[1]), turn[2])
            && Step(Step(Step(s, turn[0]), turn[1]), turn[2]) == Halfway(lists, kept, k + 1)
  {
    var s, turn := Halfway(lists, kept, k), TurnOf(lists, kept, k);
    var e := Step(Step(Step(s, turn[0]), turn[1]), turn[2]);
    assert e.workers == Halfway(lists, kept, k + 1).workers;
    assert e.replies == Halfway(lists, kept, k + 1).replies;
  }

  /** If the caller cancels, any of the lists may be lost, and the call still returns without an
      error: for any lists of any number of providers and any choice of those that are kept,
      some run in which every provider answers returns just what is kept. */
  lemma CancelledCallerMayLoseKeys(lists: seq<seq<KeyID>>, kept: seq<bool>) returns (actions: seq<Action>)
    requires |lists| == |kept|
    ensures Runs(Start(|lists|), actions)
    ensures var e := Run(Start(|lists|), actions);
            && e.collector == Returned(None) && Final(e)
            && e.replies == (map i: nat | i < |lists| :: Keys(lists[i]))
            && e.allKeys == KeptKeys(lists, kept, |lists|)
  {
    var s0 := Start(|lists|);
    assert Step(s0, CallerCancels).workers == Halfway(lists, kept, 0).workers;
    RunMore(s0, [], CallerCancels);
    actions := [] + [CallerCancels];
    for k := 0 to |lists|
      invariant Runs(s0, actions) && Run(s0, actions) == Halfway(lists, kept, k)
    {
      var turn := TurnOf(lists, kept, k);
      OneTurn(lists, kept, k);
      RunMore(s0, actions, turn[0]);
      RunMore(s0, actions + [turn[0]], turn[1]);
      RunMore(s0, actions + [turn[0]] + [turn[1]], turn[2]);
      actions := actions + [turn[0]] + [turn[1]] + [turn[2]];
    }
    RunMore(s0, actions, Close);
    RunMore(s0, actions + [Close], Finish);
    actions := actions + [Close] + [Finish];
  }

  /** What was not kept is missing, unless it was empty. */
  lemma {:induction false} LossShows(lists: seq<seq<KeyID>>, kept: seq<bool>, k: nat)
    requires k <= |lists| == |kept|
    ensures var all := KeptKeys(lists, seq(|lists|, _ => true), k);
            && |KeptKeys(lists, kept, k)| <= |all|
            && (|KeptKeys(lists, kept, k)| == |all| <==> forall i | 0 <= i < k :: kept[i] || lists[i] == [])
  {
    if k > 0 {
      LossShows(lists, kept, k - 1);
    }
  }

  // ---------------------------------------------------------------- the call

  /** The scheduler: any one of the steps that can be taken, providers answering with these lists,
      and the caller cancelling only if it may. */
  method Schedule(s: State, lists: seq<Reply>, mayCancel: bool) returns (a: Action)
    requires Inv(s) && !Final(s) && |s.workers| == |lists|
    ensures Enabled(s, a) && (a.CallerCancels? ==> mayCancel)
    ensures a.List? ==> a.i < |lists| && a.reply == lists[a.i]
  {
    ghost var some := SomeoneCanMove(s, Fails(""));
    if {
      case i: nat :| i < |s.workers| && s.workers[i].Listing? =>
        a := List(i, lists[i]);
      case i: nat :| i < |s.workers| && s.workers[i].Offering? && s.collector.Collecting? && !s.closed =>
        a := Send(i);
      case i: nat :| i < |s.workers| && s.workers[i].Offering? && s.cancelled =>
        a := Drop(i);
      case i: nat :| i < |s.workers| && s.workers[i].Leaving? =>
        a := Done(i);
      case !s.closed && AllGone(s.workers) =>
        a := Close;
      case s.collector.Collecting? && s.closed =>
        a := Finish;
      case mayCancel && !s.callerCancelled =>
        a := CallerCancels;
    }
  }

  /** The call under an arbitrary scheduler, for providers that answer with these lists: it always
      returns, leaving no goroutine behind, with whole lists of different providers and the error
      of a failing one if any.  All lists are there if there is no error and no cancellation. */
  method KeysByIdentity(lists: seq<Reply>, mayCancel: bool)
    returns (allKeys: seq<KeyID>, err: Option<Error>, cancelled: bool, received: seq<nat>)
    ensures cancelled ==> mayCancel
    ensures !cancelled ==> (err.None? <==> forall i | 0 <= i < |lists| :: lists[i].Keys?)
    ensures err.Some? ==> exists i :: 0 <= i < |lists| && lists[i] == Fails(err.value)
    ensures allKeys == Gather(Table(lists), received)
    ensures Distinct(received) && forall i | i in received :: i < |lists| && lists[i].Keys?
    ensures !cancelled && err.None? ==> multiset(allKeys) == multiset(Gather(Table(lists), UpTo(|lists|)))
  {
    var s: State := Start(|lists|);
    while !Final(s)
      invariant Inv(s) && |s.workers| == |lists| && (s.callerCancelled ==> mayCancel)
      invariant forall i: nat | i in s.replies :: i < |lists| && s.replies[i] == lists[i]
      decreases Measure(s)
    {
      var a := Schedule(s, lists, mayCancel);
      StepKeepsInv(s, a);
      StepsRunOut(s, a);
      s := Step(s, a);
    }
    EveryoneAnswered(s, lists);
    if !s.callerCancelled {
      ResultIsComplete(s);
    }
    return s.allKeys, s.collector.err, s.callerCancelled, s.received;
  }

  lemma EveryoneAnswered(s: State, lists: seq<Reply>)
    requires Inv(s) && Final(s) && |s.workers| == |lists|
    requires forall i: nat | i in s.replies :: i < |lists| && s.replies[i] == lists[i]
    ensures s.replies == Table(lists)
  {
    forall i: nat | i < |lists| ensures i in s.replies {
      assert WorkerOk(s, i);
    }
  }

  function Table(lists: seq<Reply>): map<nat, Reply> {
    map i: nat | i < |lists| :: lists[i]
  }
}
