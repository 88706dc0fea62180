/** The debounced broadcast of storage updates. Every stored change is
    recorded in a pending batch and (re)arms a single timer; when the timer
    runs, the whole batch is broadcast to every page script, the part of it
    that belongs to the sync tier is pushed to the remote copy, and the batch
    starts empty again. Time is explicit: a write carries the moment it
    happens and the scheduler is modelled by `Tick` events. */
module Broadcast {
  import opened Json
  import opened Schema
  import opened Extension

  /** STORAGE_UPDATE_BROADCAST_DELAY_SECS, in milliseconds despite its name. */
  const DelayMs: int := 1000 * 3

  /** The pending `_updates` object and the armed timer's deadline
      (`None` when `_timer` is null). */
  datatype Batch = Batch(updates: map<string, Value>, deadline: Option<int>)

  const Idle: Batch := Batch(map[], None)

  /** One call of the update handler at time `now`: the key's entry is
      overwritten, the running timer is cleared and a new one is armed. */
  function Record(b: Batch, key: string, v: Value, now: int): Batch {
    Batch(b.updates[key := v], Some(now + DelayMs))
  }

  predicate Due(b: Batch, now: int) {
    b.deadline.Some? && b.deadline.value <= now
  }

  /** The entries of a batch whose keys are sync-tier schema keys. */
  function SyncPart(updates: map<string, Value>): map<string, Value> {
    map k | k in updates && k in TierNames(Sync) :: updates[k]
  }

  /** What the timer callback sends out. */
  function Flush(b: Batch): seq<Effect> {
    [Broadcast(b.updates), PushSync(SyncPart(b.updates))]
  }

  /** The scheduler reaching time `now`: an armed timer whose deadline has
      come runs once, and afterwards the batch is empty and no timer is armed. */
  function Tick(b: Batch, now: int): (Batch, seq<Effect>) {
    if Due(b, now) then (Idle, Flush(b)) else (b, [])
  }

  /** The flush sends the whole batch to page scripts and exactly its
      sync-tier entries to the remote copy, then leaves nothing pending. */
  lemma FlushContents(b: Batch, now: int)
    requires Due(b, now)
    ensures Tick(b, now).0 == Idle
    ensures |Tick(b, now).1| == 2 && Tick(b, now).1[0] == Broadcast(b.updates)
    ensures var pushed := Tick(b, now).1[1];
      pushed.PushSync? &&
      (forall k :: k in pushed.items <==> k in b.updates && Lookup(k).Some? && TierOf(Lookup(k).value) == Sync) &&
      (forall k :: k in pushed.items ==> pushed.items[k] == b.updates[k])
  {
    forall k
      ensures k in TierNames(Sync) <==> Lookup(k).Some? && TierOf(Lookup(k).value) == Sync
    {
      if k in TierNames(Sync) {
        var j :| j in SyncSettings && Name(j) == k;
        LookupName(j);
      }
      if Lookup(k).Some? && TierOf(Lookup(k).value) == Sync {
        LookupFindsName(k, Lookup(k).value);
        AllSettingsListed(Lookup(k).value);
      }
    }
  }

  // ---------------------------------------------------------------------
  // Sequences of writes

  /** A storage change reported to the update handler at time `at`. */
  datatype Write = Write(key: string, value: Value, at: int)

  /** The batch after a sequence of writes, the last write applied last. */
  function Replay(b: Batch, ws: seq<Write>): Batch {
    if ws == [] then b
    else
      var w := ws[|ws| - 1];
      Record(Replay(b, ws[..|ws| - 1]), w.key, w.value, w.at)
  }

  /** The value of the last write to `key`, if any. */
  function LastValue(ws: seq<Write>, key: string): Option<Value> {
    if ws == [] then None
    else if ws[|ws| - 1].key == key then Some(ws[|ws| - 1].value)
    else LastValue(ws[..|ws| - 1], key)
  }

  /** Last writer wins: the batch holds, for every key written, the value of
      the last write to it, and otherwise what it held before; the deadline
      is the last write's time plus the delay. */
  lemma {:induction false} ReplayKeepsLastWrite(b: Batch, ws: seq<Write>, key: string)
    ensures LastValue(ws, key).Some? ==>
      key in Replay(b, ws).updates && Replay(b, ws).updates[key] == LastValue(ws, key).value
    ensures LastValue(ws, key).None? ==>
      (key in Replay(b, ws).updates <==> key in b.updates) &&
      (key in b.updates ==> Replay(b, ws).updates[key] == b.updates[key])
    ensures ws != [] ==> Replay(b, ws).deadline == Some(ws[|ws| - 1].at + DelayMs)
    decreases |ws|
  {
    if ws != [] && ws[|ws| - 1].key != key {
      ReplayKeepsLastWrite(b, ws[..|ws| - 1], key);
    }
  }

  /** A tick before the last write's time plus the delay changes nothing:
      every write postpones the flush. */
  lemma TickBeforeDeadline(b: Batch, ws: seq<Write>, now: int)
    requires ws != [] && now < ws[|ws| - 1].at + DelayMs
    ensures Tick(Replay(b, ws), now) == (Replay(b, ws), [])
  {
    ReplayKeepsLastWrite(b, ws, "");
  }

  /** A tick at or after that moment flushes once, with the last value of
      every key written since the batch was empty. */
  lemma TickAfterDeadline(ws: seq<Write>, now: int)
    requires ws != [] && now >= ws[|ws| - 1].at + DelayMs
    ensures Tick(Replay(Idle, ws), now).0 == Idle
    ensures var out := Tick(Replay(Idle, ws), now).1;
      |out| == 2 && out[0].Broadcast? &&
      forall key :: (key in out[0].items <==> LastValue(ws, key).Some?) &&
        (key in out[0].items ==> out[0].items[key] == LastValue(ws, key).value)
  {
    var b := Replay(Idle, ws);
    ReplayKeepsLastWrite(Idle, ws, "");
    assert Tick(b, now).1 == Flush(b);
    forall key
      ensures key in b.updates <==> LastValue(ws, key).Some?
      ensures key in b.updates ==> b.updates[key] == LastValue(ws, key).value
    {
      ReplayKeepsLastWrite(Idle, ws, key);
    }
  }

  // ---------------------------------------------------------------------
  // Timelines

  /** What can happen next: a stored change, or the scheduler reaching a time. */
  datatype Event = Put(w: Write) | Clock(at: int)

  /** The batch after a timeline, and everything flushed along it. */
  function Run(b: Batch, evs: seq<Event>): (Batch, seq<Effect>) {
    if evs == [] then (b, [])
    else
      var (b', out) := Run(b, evs[..|evs| - 1]);
      match evs[|evs| - 1]
      case Put(w) => (Record(b', w.key, w.value, w.at), out)
      case Clock(t) => var (b'', out') := Tick(b', t); (b'', out + out')
  }

  /** The writes of a timeline, in order. */
  function Puts(evs: seq<Event>): seq<Write> {
    if evs == [] then []
    else Puts(evs[..|evs| - 1]) + (if evs[|evs| - 1].Put? then [evs[|evs| - 1].w] else [])
  }

  /** Every clock event of the timeline comes after some write and before the
      latest write's time plus the delay. */
  predicate EveryClockEarly(evs: seq<Event>) {
    forall i :: 0 <= i < |evs| && evs[i].Clock? ==>
      Puts(evs[..i]) != [] && evs[i].at < Puts(evs[..i])[|Puts(evs[..i])| - 1].at + DelayMs
  }

  lemma EveryClockEarlyPrefix(evs: seq<Event>, n: nat)
    requires EveryClockEarly(evs) && n <= |evs|
    ensures EveryClockEarly(evs[..n])
  {
    forall i | 0 <= i < n && evs[..n][i].Clock?
      ensures Puts(evs[..n][..i]) != [] &&
        evs[..n][i].at < Puts(evs[..n][..i])[|Puts(evs[..n][..i])| - 1].at + DelayMs
    {
      assert evs[..n][..i] == evs[..i];
    }
  }

  /** While no clock event reaches the deadline, nothing is flushed and the
      batch is exactly the writes replayed: updates coalesce. */
  lemma {:induction false} EarlyClocksCoalesce(evs: seq<Event>)
    requires EveryClockEarly(evs)
    ensures Run(Idle, evs) == (Replay(Idle, Puts(evs)), [])
    decreases |evs|
  {
    if evs != [] {
      var n := |evs| - 1;
      EveryClockEarlyPrefix(evs, n);
      EarlyClocksCoalesce(evs[..n]);
      var p := Puts(evs[..n]);
      match evs[n]
      case Put(w) =>
        assert Puts(evs) == p + [w];
        assert (p + [w])[..|p|] == p;
      case Clock(t) =>
        assert Puts(evs) == p + [] == p;
        assert p != [] && t < p[|p| - 1].at + DelayMs by {
          assert evs[n].Clock? && evs[..n] == evs[..n];
        }
        TickBeforeDeadline(Idle, p, t);
        var none: seq<Effect> := [];
        assert none + none == none;
        assert Run(Idle, evs) == (Replay(Idle, p), none + none);
    }
  }

  /** The delay is anchored to the last write, not the first: writes at 0 ms
      and 2000 ms are not flushed at 3000 ms but at 5000 ms, in one message
      carrying the later value. */
  lemma DeadlineFollowsLastWrite(x: string)
    ensures var first := Put(Write(x, Num(1), 0));
      var second := Put(Write(x, Num(2), 2000));
      Run(Idle, [first, second, Clock(3000)]).1 == [] &&
      Run(Idle, [first, second, Clock(3000), Clock(5000)]).1 ==
        [Broadcast(map[x := Num(2)]), PushSync(SyncPart(map[x := Num(2)]))]
  {
    var first := Put(Write(x, Num(1), 0));
    var second := Put(Write(x, Num(2), 2000));
    var b := Batch(map[x := Num(2)], Some(5000));
    var e1 := [first];
    assert e1[..0] == [];
    assert Run(Idle, e1) == (Batch(map[x := Num(1)], Some(3000)), []);
    var e2 := [first, second];
    assert e2[..1] == e1;
    assert map[x := Num(1)][x := Num(2)] == map[x := Num(2)];
    assert Run(Idle, e2) == (b, []);
    var e3 := [first, second, Clock(3000)];
    assert e3[..2] == e2;
    var none: seq<Effect> := [];
    assert none + none == none;
    assert Tick(b, 3000) == (b, none);
    assert Run(Idle, e3) == (b, none);
    var e4 := [first, second, Clock(3000), Clock(5000)];
    assert e4[..3] == e3;
  }
}
