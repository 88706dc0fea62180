/** The `Config` object: the configuration store that writes through to the
    host storage, calls its update handler after every `set`, and fills the
    debounced broadcast batch. Every method is proved to do exactly what the
    matching function of `ConfigSpec` describes, so the lemmas proved there
    hold of the object. */
module ConfigStore {
  import opened Json
  import opened FontList
  import opened Schema
  import opened Extension
  import opened Broadcast
  import opened ConfigSpec

  class Config {
    /** The host runtime the store writes through to. */
    const ext: Ext
    /** The hotkey service the shortcut entries consult. */
    const hotkey: Hotkey
    /** Whether `opts_.onupdate` holds the storage update handler. */
    var onUpdate: bool
    /** `_updates`: the changes not yet broadcast. */
    var updates: map<string, Value>
    /** `_timer`: the deadline of the armed timer, `None` when none is armed. */
    var timer: Option<int>
    /** The calls of the update handler so far. */
    ghost var notices: seq<Notice>

    /** The object's state as the functions of `ConfigSpec` see it. */
    ghost function Snapshot(): State
      reads this, ext
    {
      State(ext.storage, ext.effects, onUpdate, Batch(updates, timer), notices)
    }

    /** `new Config(configInfo, {onupdate: handleStorageUpdate})` followed by
        setting up `_updates` and `_timer`: `init` runs with the handler
        switched off, and the batch starts empty. */
    constructor(host: Ext, hk: Hotkey, now: int)
      modifies host
      ensures ext == host && hotkey == hk
      ensures Snapshot() == ConfigSpec.Init(hk, State(old(host.storage), old(host.effects), true, Idle, []), false, now)
    {
      ext := host;
      hotkey := hk;
      onUpdate := true;
      updates := map[];
      timer := None;
      notices := [];
      new;
      Init(false, now);
    }

    /** `get(name)`. */
    method Get(name: string) returns (r: Option<Value>)
      ensures r == ConfigSpec.Get(Snapshot(), name)
    {
      if Lookup(name).None? {
        return None;
      }
      r := Stored(ext.storage, name);
    }

    /** `handleStorageUpdate(key, value)`: the key's entry in the batch is
        overwritten and the timer re-armed for `DelayMs` after `now`. */
    method HandleStorageUpdate(key: string, value: Value, now: int)
      modifies this
      ensures Batch(updates, timer) == Record(old(Batch(updates, timer)), key, value, now)
      ensures notices == old(notices) + [Notice(key, value)]
      ensures onUpdate == old(onUpdate)
    {
      updates := updates[key := value];
      timer := Some(now + DelayMs);
      notices := notices + [Notice(key, value)];
    }

    /** The timer callback, run when the scheduler reaches `now`: a due batch
        is broadcast, its sync part pushed to the remote copy, and the batch
        emptied. */
    method Fire(now: int)
      modifies this, ext
      ensures Batch(updates, timer) == Tick(old(Batch(updates, timer)), now).0
      ensures ext.effects == old(ext.effects) + Tick(old(Batch(updates, timer)), now).1
      ensures ext.storage == old(ext.storage) && onUpdate == old(onUpdate) && notices == old(notices)
    {
      if timer.Some? && timer.value <= now {
        ext.effects := ext.effects + [Effect.Broadcast(updates)];
        var syncUpdates := SyncUpdates(updates);
        ext.effects := ext.effects + [PushSync(syncUpdates)];
        timer := None;
        updates := map[];
      }
    }

    /** The loop over the sync tier's keys that collects the batch entries
        to push to the remote copy. */
    static method SyncUpdates(pending: map<string, Value>) returns (r: map<string, Value>)
      ensures r == SyncPart(pending)
    {
      r := map[];
      var keys := SyncSettings;
      for i := 0 to |keys|
        invariant forall n :: n in r <==> n in pending && Lookup(n).Some? && Lookup(n).value in keys[..i]
        invariant forall n :: n in r ==> r[n] == pending[n]
      {
        forall n
          ensures Lookup(n) == Some(keys[i]) <==> n == Name(keys[i])
        {
          LookupFindsName(n, keys[i]);
        }
        if Name(keys[i]) in pending {
          r := r[Name(keys[i]) := pending[Name(keys[i])]];
        }
        assert keys[..i + 1] == keys[..i] + [keys[i]];
      }
      assert keys[..|keys|] == keys;
      forall n
        ensures n in TierNames(Sync) <==> Lookup(n).Some? && Lookup(n).value in keys
      {
        if Lookup(n).Some? {
          LookupFindsName(n, Lookup(n).value);
        }
        if n in TierNames(Sync) {
          var k :| k in keys && Name(k) == n;
          LookupName(k);
        }
      }
      assert r.Keys == SyncPart(pending).Keys;
    }

    /** `set(name, value)`. */
    method Set(name: string, v: Value, now: int)
      modifies this, ext
      ensures Snapshot() == ConfigSpec.Set(hotkey, old(Snapshot()), name, v, now)
    {
      match Lookup(name)
      case None =>
      case Some(k) => SetKnown(k, v, now);
    }

    /** `set` on a schema key: run the setter, store what it returns, and
        call the handler when one is installed. */
    method SetKnown(k: Setting, v: Value, now: int)
      modifies this, ext
      ensures Snapshot() == ConfigSpec.SetKnown(hotkey, old(Snapshot()), k, v, now)
      decreases Rank(k), 1
    {
      var value := ApplySetter(k, v, now);
      ext.storage := ext.storage[Name(k) := value];
      if onUpdate {
        HandleStorageUpdate(Name(k), value, now);
      }
    }

    /** The entry's `set` normaliser, called for value `v`; returns the value
        to store. */
    method ApplySetter(k: Setting, v: Value, now: int) returns (r: Value)
      modifies this, ext
      ensures r == Normalised(k, v)
      ensures Snapshot() == RunSetter(hotkey, old(Snapshot()), k, v, now)
      decreases Rank(k), 0
    {
      r := v;
      match k
      case Shortcut =>
        SetKnown(ShortcutCode, hotkey.objectsForDOM(Some(v)), now);
      case FontFamily =>
        r := NormaliseFontFamily(v);
      case Fstab =>
        ext.effects := ext.effects + [FsSetInfo(v)];
      case LogMode =>
        ext.effects := ext.effects + [SetLogMode(v)];
      case _ =>
    }

    /** The two `forEach` passes of `init` over an object value: drop the
        stored keys the default lacks, then copy in the default keys the
        stored object lacks. */
    static method ReconcileFields(cur: map<string, Value>, def: map<string, Value>) returns (r: map<string, Value>)
      ensures r == Reconcile(cur, def)
    {
      r := cur;
      var todo := cur.Keys;
      while todo != {}
        invariant todo <= cur.Keys
        invariant forall key :: key in r <==> key in cur && (key in todo || key in def)
        invariant forall key :: key in r ==> r[key] == cur[key]
        decreases todo
      {
        var key :| key in todo;
        if key !in def {
          r := r - {key};
        }
        todo := todo - {key};
      }
      todo := def.Keys;
      while todo != {}
        invariant todo <= def.Keys
        invariant forall key :: key in r <==> key in def && (key in cur || key !in todo)
        invariant forall key :: key in r ==> r[key] == if key in cur then cur[key] else def[key]
        decreases todo
      {
        var key :| key in todo;
        if key !in r {
          r := r[key := def[key]];
        }
        todo := todo - {key};
      }
      assert r.Keys == Reconcile(cur, def).Keys;
    }

    /** One key of the `init` walk. */
    method InitKey(k: Setting, now: int)
      modifies this, ext
      ensures Snapshot() == ConfigSpec.InitKey(hotkey, old(Snapshot()), k, now)
    {
      var def := DefaultValue(hotkey, ext.storage, k);
      var cur := Stored(ext.storage, Name(k));
      if cur.None? || TypeTag(cur.value) != TypeTag(def) {
        SetKnown(k, def, now);
      } else if !def.Obj? {
        if SetOnInit(k) && HasSetter(k) {
          var _ := ApplySetter(k, cur.value, now);
        }
      } else {
        var merged := ReconcileFields(cur.value.fields, def.fields);
        SetKnown(k, Obj(merged), now);
      }
    }

    /** The `for ... in` walk over one tier's keys. */
    method InitWalk(keys: seq<Setting>, now: int)
      modifies this, ext
      ensures Snapshot() == InitKeys(hotkey, old(Snapshot()), keys, now)
    {
      ghost var s0 := Snapshot();
      for i := 0 to |keys|
        invariant Snapshot() == InitKeys(hotkey, s0, keys[..i], now)
      {
        InitKey(keys[i], now);
        assert keys[..i + 1][..i] == keys[..i];
      }
      assert keys[..|keys|] == keys;
    }

    /** `init(emit)`: the sync keys, then the local keys, in schema order,
        with the handler switched off unless `emit` and put back afterwards. */
    method Init(emit: bool, now: int)
      modifies this, ext
      ensures Snapshot() == ConfigSpec.Init(hotkey, old(Snapshot()), emit, now)
    {
      var handler := onUpdate;
      if !emit {
        onUpdate := false;
      }
      ghost var s0 := Snapshot();
      InitWalk(SyncSettings, now);
      InitWalk(LocalSettings, now);
      InitKeysSplit(hotkey, s0, SyncSettings, LocalSettings, now);
      assert Snapshot() == InitKeys(hotkey, s0, AllSettings, now);
      onUpdate := handler;
    }

    /** The `for ... in` loop over one tier's keys in `clear`. */
    method ClearTier(t: Tier)
      modifies ext
      ensures forall n :: Stored(ext.storage, n) ==
                           if Lookup(n).Some? && TierOf(Lookup(n).value) == t then None else Stored(old(ext.storage), n)
      ensures ext.effects == old(ext.effects)
    {
      var keys := Settings(t);
      for j := 0 to |keys|
        invariant forall n :: Stored(ext.storage, n) ==
                               if Lookup(n).Some? && Lookup(n).value in keys[..j] then None else Stored(old(ext.storage), n)
        invariant ext.effects == old(ext.effects)
      {
        forall n
          ensures Lookup(n) == Some(keys[j]) <==> n == Name(keys[j])
        {
          LookupFindsName(n, keys[j]);
        }
        ext.storage := ext.storage - {Name(keys[j])};
        assert keys[..j + 1] == keys[..j] + [keys[j]];
      }
      assert keys[..|keys|] == keys;
      forall k: Setting
        ensures k in keys <==> TierOf(k) == t
      {
        AllSettingsListed(k);
      }
    }

    /** `clear(...)`: every schema key of the named tiers, both when none is
        named, is set to `undefined`; the handler is not called. */
    method Clear(tiers: seq<Tier>)
      modifies ext
      ensures ext.storage == ClearItems(old(ext.storage), tiers)
      ensures ext.effects == old(ext.effects)
    {
      var storages := if |tiers| == 0 then [Sync, Local] else tiers;
      for i := 0 to |storages|
        invariant forall n :: Stored(ext.storage, n) ==
                               if Lookup(n).Some? && TierOf(Lookup(n).value) in storages[..i] then None else Stored(old(ext.storage), n)
        invariant ext.effects == old(ext.effects)
      {
        ClearTier(storages[i]);
        assert storages[..i + 1] == storages[..i] + [storages[i]];
      }
      assert storages[..|storages|] == storages;
      assert (set t | t in storages) == ClearTiers(tiers);
      forall n
        ensures Stored(ext.storage, n) == Stored(ClearItems(old(ext.storage), tiers), n)
      {
        ClearRemovesTier(old(ext.storage), tiers, n);
      }
      StoredExtensional(ext.storage, ClearItems(old(ext.storage), tiers));
    }
  }

  /** Two item maps that read the same under every name are equal. */
  lemma StoredExtensional(a: map<string, Value>, b: map<string, Value>)
    requires forall n :: Stored(a, n) == Stored(b, n)
    ensures a == b
  {
    assert forall n :: n in a <==> Stored(a, n).Some?;
    assert a.Keys == b.Keys;
  }
}
