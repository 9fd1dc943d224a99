/** internal/syncttlmap: the pending map with its time to live and its background cleaner. */
module PendingMap {

  /** Time of expiry by key; the stored value is always true. */
  type Entries = map<string, int>

  /** Load finds the entry unless it is past its expiry. */
  predicate Loads(data: Entries, key: string, now: int) {
    key in data && now <= data[key]
  }

  datatype Op = StoreAt(key: string, now: int) | DeleteOp(key: string) | CleanAt(tick: int)

  class TTLMap {
    const TTL: int
    var data: Entries
    ghost var history: seq<Op>

    ghost predicate Valid()
      reads this
    {
      data == Replay(history, TTL)
    }

    constructor (ttl: int)
      ensures Valid() && TTL == ttl && history == [] && data == map[]
    {
      TTL := ttl;
      data := map[];
      history := [];
    }

    method Store(key: string, now: int)
      requires Valid()
      modifies this
      ensures Valid() && history == old(history) + [StoreAt(key, now)]
      ensures data == old(data)[key := now + TTL] && data.Keys == old(data.Keys) + {key}
    {
      data := data[key := now + TTL];
      history := history + [StoreAt(key, now)];
    }

    method Delete(key: string)
      requires Valid()
      modifies this
      ensures Valid() && history == old(history) + [DeleteOp(key)]
      ensures data == old(data) - {key} && data.Keys == old(data.Keys) - {key}
    {
      data := data - {key};
      history := history + [DeleteOp(key)];
    }

    /** Found exactly if some store of the key is still in force. */
    method Load(key: string, now: int) returns (found: bool)
      requires Valid()
      ensures found == Loads(data, key, now)
      ensures found <==> exists i :: InForce(history, TTL, key, i) && now <= history[i].now + TTL
    {
      LoadMeans(history, TTL, key, now);
      if key !in data {
        return false;
      }
      return now <= data[key];
    }

    /** One tick of the cleaner.  It deletes the entries whose expiry lies after now, in any order. */
    method Clean(now: int) returns (ghost dropped: seq<string>)
      requires Valid()
      modifies this
      ensures Valid() && history == old(history) + [CleanAt(now)]
      ensures data == Cleaned(old(data), now)
      ensures forall k :: k in dropped <==> k in old(data) && old(data)[k] > now
      ensures forall i, j | 0 <= i < j < |dropped| :: dropped[i] != dropped[j]
    {
      dropped := [];
      var left := data.Keys;
      while left != {}
        invariant history == old(history) && left <= data.Keys <= old(data).Keys
        invariant forall k | k in data :: data[k] == old(data)[k]
        invariant forall k | k in old(data) && k !in left :: k in data <==> old(data)[k] <= now
        invariant forall k :: k in dropped <==> k in old(data) && k !in left && old(data)[k] > now
        invariant forall i, j | 0 <= i < j < |dropped| :: dropped[i] != dropped[j]
        decreases left
      {
        var k :| k in left;
        left := left - {k};
        if data[k] > now {
          data := data - {k};
          dropped := dropped + [k];
        }
      }
      assert data == Cleaned(old(data), now);
      assert (history + [CleanAt(now)])[..|history|] == history;
      history := history + [CleanAt(now)];
    }
  }

  function Cleaned(data: Entries, tick: int): Entries {
    map k | k in data && data[k] <= tick :: data[k]
  }

  /** The cleaner keeps the expired entries and drops the live ones: what it leaves can no longer
      be loaded, except in the very instant of the tick. */
  lemma CleanerDropsLiveEntries(data: Entries, tick: int, key: string, now: int)
    requires tick <= now
    ensures Loads(Cleaned(data, tick), key, now) <==> key in data && data[key] == tick == now
    ensures Loads(data, key, now) && !Loads(Cleaned(data, tick), key, now)
            <==> Loads(data, key, now) && data[key] > tick
  {
  }

  // ---------------------------------------------------------------- the map and its history

  function Replay(ops: seq<Op>, ttl: int): Entries {
    if ops == [] then map[]
    else
      var before := Replay(ops[..|ops| - 1], ttl);
      match ops[|ops| - 1]
      case StoreAt(key, now) => before[key := now + ttl]
      case DeleteOp(key) => before - {key}
      case CleanAt(tick) => Cleaned(before, tick)
  }

  /** The keys that were stored and not deleted since: the entries that still have an owner. */
  function ReplaySet(ops: seq<Op>): set<string> {
    if ops == [] then {}
    else
      var before := ReplaySet(ops[..|ops| - 1]);
      match ops[|ops| - 1]
      case StoreAt(key, _) => before + {key}
      case DeleteOp(key) => before - {key}
      case CleanAt(_) => before
  }

  /** Operation i is the store of the key that counts: none since has stored or deleted the key. */
  ghost predicate Current(ops: seq<Op>, key: string, i: int) {
    && 0 <= i < |ops| && ops[i].StoreAt? && ops[i].key == key
    && forall j | i < j < |ops| :: ops[j].CleanAt? || ops[j].key != key
  }

  /** No tick of the cleaner since the store came before the entry's expiry. */
  ghost predicate Spared(ops: seq<Op>, ttl: int, i: int)
    requires 0 <= i < |ops| && ops[i].StoreAt?
  {
    forall j | i < j < |ops| && ops[j].CleanAt? :: ops[j].tick >= ops[i].now + ttl
  }

  ghost predicate InForce(ops: seq<Op>, ttl: int, key: string, i: int) {
    Current(ops, key, i) && Spared(ops, ttl, i)
  }

  lemma CurrentAfter(before: seq<Op>, op: Op, key: string, i: int)
    ensures Current(before + [op], key, i) <==>
      if i == |before| then op.StoreAt? && op.key == key
      else Current(before, key, i) && (op.CleanAt? || op.key != key)
  {
    var ops := before + [op];
    if Current(ops, key, i) && i < |before| {
      assert ops[|before|] == op;
      assert forall j | i < j < |before| :: ops[j] == before[j];
    }
  }

  lemma SparedAfter(before: seq<Op>, op: Op, ttl: int, i: int)
    requires 0 <= i < |before| && before[i].StoreAt?
    ensures Spared(before + [op], ttl, i)
            <==> Spared(before, ttl, i) && (op.CleanAt? ==> op.tick >= before[i].now + ttl)
  {
    var ops := before + [op];
    assert ops[|before|] == op && forall j | i <= j < |before| :: ops[j] == before[j];
  }

  /** A key has an owner exactly if one of its stores is current. */
  lemma {:induction false} SetMeans(ops: seq<Op>, key: string) returns (i: int)
    ensures key in ReplaySet(ops) <==> Current(ops, key, i)
    ensures forall k | Current(ops, key, k) :: k == i
  {
    if ops == [] {
      i := -1;
    } else {
      var before, op := ops[..|ops| - 1], ops[|ops| - 1];
      assert ops == before + [op];
      i := SetMeans(before, key);
      forall k ensures Current(ops, key, k) <==>
          if k == |before| then op.StoreAt? && op.key == key
          else Current(before, key, k) && (op.CleanAt? || op.key != key) {
        CurrentAfter(before, op, key, k);
      }
      if op.StoreAt? && op.key == key {
        i := |before|;
      }
    }
  }

  /** The entry of a key is the one of its current store, unless the cleaner took it. */
  lemma {:induction false} MapMeans(ops: seq<Op>, ttl: int, key: string, i: int)
    requires Current(ops, key, i)
    ensures key in Replay(ops, ttl) <==> Spared(ops, ttl, i)
    ensures key in Replay(ops, ttl) ==> Replay(ops, ttl)[key] == ops[i].now + ttl
  {
    var before, op := ops[..|ops| - 1], ops[|ops| - 1];
    assert ops == before + [op];
    CurrentAfter(before, op, key, i);
    if i < |before| {
      MapMeans(before, ttl, key, i);
      SparedAfter(before, op, ttl, i);
    }
  }

  lemma {:induction false} MapWithinSet(ops: seq<Op>, ttl: int)
    ensures Replay(ops, ttl).Keys <= ReplaySet(ops)
    ensures (forall op | op in ops :: !op.CleanAt?) ==> Replay(ops, ttl).Keys == ReplaySet(ops)
  {
    if ops != [] {
      MapWithinSet(ops[..|ops| - 1], ttl);
      assert ops[|ops| - 1] in ops;
    }
  }

  lemma LoadMeans(ops: seq<Op>, ttl: int, key: string, now: int)
    ensures Loads(Replay(ops, ttl), key, now) <==> exists i :: InForce(ops, ttl, key, i) && now <= ops[i].now + ttl
  {
    var i := SetMeans(ops, key);
    MapWithinSet(ops, ttl);
    if Current(ops, key, i) {
      MapMeans(ops, ttl, key, i);
    }
    assert Loads(Replay(ops, ttl), key, now) ==> InForce(ops, ttl, key, i) && now <= ops[i].now + ttl;
  }

  /** Load answers like the set of owners for every key exactly as long as no owner has outlived
      its entry and the cleaner has not ticked within the life of an owner's entry.  Entries that
      were deleted do not matter, however old they are. */
  lemma WithinTtlItIsASet(ops: seq<Op>, ttl: int, now: int)
    ensures (forall key :: Loads(Replay(ops, ttl), key, now) <==> key in ReplaySet(ops)) <==>
      forall key, i | Current(ops, key, i) :: Spared(ops, ttl, i) && now <= ops[i].now + ttl
  {
    var data := Replay(ops, ttl);
    MapWithinSet(ops, ttl);
    if forall key :: Loads(data, key, now) <==> key in ReplaySet(ops) {
      forall key, i | Current(ops, key, i) ensures Spared(ops, ttl, i) && now <= ops[i].now + ttl {
        var _ := SetMeans(ops, key);
        MapMeans(ops, ttl, key, i);
      }
    }
    if forall key, i | Current(ops, key, i) :: Spared(ops, ttl, i) && now <= ops[i].now + ttl {
      forall key ensures Loads(data, key, now) <==> key in ReplaySet(ops) {
        var i := SetMeans(ops, key);
        if Current(ops, key, i) {
          MapMeans(ops, ttl, key, i);
        }
      }
    }
  }
}
