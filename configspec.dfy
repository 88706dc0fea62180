/** The configuration store as functions over its state: what `get`, `set`,
    `clear` and `init` do to the stored items, the log of host calls, the
    update handler switch and the pending broadcast batch. The `Config`
    class is proved to follow these functions step for step; the lemmas
    here state what the store promises. */
module ConfigSpec {
  import opened Json
  import opened FontList
  import opened Schema
  import opened Extension
  import opened Broadcast

  /** A call of the update handler with the key and the value just stored. */
  datatype Notice = Notice(name: string, value: Value)

  /** The storage items, the host calls made so far, whether an update
      handler is installed (`opts_.onupdate` non-null), the pending broadcast
      batch the handler fills, and the handler calls made so far. */
  datatype State = State(
    items: map<string, Value>,
    effects: seq<Effect>,
    emit: bool,
    batch: Batch,
    notices: seq<Notice>)

  /** `get`: the stored value of a schema key, `undefined` otherwise. */
  function Get(s: State, name: string): Option<Value> {
    if Lookup(name).Some? then Stored(s.items, name) else None
  }

  /** Calling the update handler, when one is installed. */
  function Notify(s: State, name: string, v: Value, now: int): State {
    if s.emit then s.(batch := Record(s.batch, name, v, now), notices := s.notices + [Notice(name, v)])
    else s
  }

  /** The tail of `set`: store, then notify. */
  function Store(s: State, k: Setting, v: Value, now: int): State {
    Notify(s.(items := s.items[Name(k) := v]), Name(k), v, now)
  }

  function Rank(k: Setting): nat {
    if k == Shortcut then 1 else 0
  }

  /** What a setter does besides returning the value to store: the shortcut's
      stores the derived key codes through a nested `set`, the file-system
      table's and the log mode's call into the host. */
  function RunSetter(hk: Hotkey, s: State, k: Setting, v: Value, now: int): State
    decreases Rank(k), 0
  {
    match k
    case Shortcut => SetKnown(hk, s, ShortcutCode, hk.objectsForDOM(Some(v)), now)
    case Fstab => s.(effects := s.effects + [FsSetInfo(v)])
    case LogMode => s.(effects := s.effects + [SetLogMode(v)])
    case _ => s
  }

  /** `set` on a schema key. */
  function SetKnown(hk: Hotkey, s: State, k: Setting, v: Value, now: int): State
    decreases Rank(k), 1
  {
    Store(RunSetter(hk, s, k, v, now), k, Normalised(k, v), now)
  }

  /** `set(name, value)`: a name outside the schema is ignored. */
  function Set(hk: Hotkey, s: State, name: string, v: Value, now: int): State {
    match Lookup(name)
    case None => s
    case Some(k) => SetKnown(hk, s, k, v, now)
  }

  /** The host calls a setter makes for value `v`. */
  function SetterEffects(k: Setting, v: Value): seq<Effect> {
    if k == Fstab then [FsSetInfo(v)] else if k == LogMode then [SetLogMode(v)] else []
  }

  /** The storage keys a `set` of `k` writes. */
  function Touched(k: Setting): set<string> {
    if k == Shortcut then {Name(k), Name(ShortcutCode)} else {Name(k)}
  }

  /** The items agree on every key outside `except`. */
  ghost predicate SameOutside(a: map<string, Value>, b: map<string, Value>, except: set<string>) {
    forall n :: n !in except ==> Stored(a, n) == Stored(b, n)
  }

  /** `set` on a schema key stores the setter's result under the key; the
      shortcut's setter first stores the derived key codes. The handler, when
      installed, is called once for the key with the stored value, after the
      nested call for the key codes; the setters' host calls are logged and
      nothing else changes. */
  lemma SetKnownEffect(hk: Hotkey, s: State, k: Setting, v: Value, now: int)
    ensures var r := SetKnown(hk, s, k, v, now);
      var code := hk.objectsForDOM(Some(v));
      r.items == (if k == Shortcut then s.items[Name(ShortcutCode) := code] else s.items)[Name(k) := Normalised(k, v)] &&
      r.effects == s.effects + SetterEffects(k, v) &&
      r.emit == s.emit &&
      (s.emit ==>
        r.notices == s.notices + (if k == Shortcut then [Notice(Name(ShortcutCode), code)] else [])
          + [Notice(Name(k), Normalised(k, v))]) &&
      (!s.emit ==> r.notices == s.notices && r.batch == s.batch)
  {
    if k == Shortcut {
      var code := hk.objectsForDOM(Some(v));
      var s1 := SetKnown(hk, s, ShortcutCode, code, now);
      SetterRuns(hk, s, ShortcutCode, code, now);
      assert s1.effects == s.effects + [];
    } else {
      SetterRuns(hk, s, k, v, now);
    }
  }

  /** Every setter but the shortcut's only logs its host calls. */
  lemma SetterRuns(hk: Hotkey, s: State, k: Setting, v: Value, now: int)
    requires k != Shortcut
    ensures SetKnown(hk, s, k, v, now) == Store(s.(effects := s.effects + SetterEffects(k, v)), k, Normalised(k, v), now)
  {
    if k == Fstab {
    } else if k == LogMode {
    } else {
      assert RunSetter(hk, s, k, v, now) == s;
      assert s.effects + SetterEffects(k, v) == s.effects;
    }
  }

  /** What `set` leaves behind, keyed by name: an unknown name changes
      nothing at all; a schema key reads back as the setter's result. */
  lemma SetThenGet(hk: Hotkey, s: State, name: string, v: Value, now: int)
    ensures Lookup(name).None? ==> Set(hk, s, name, v, now) == s
    ensures Lookup(name).Some? ==>
      Get(Set(hk, s, name, v, now), name) == Some(Normalised(Lookup(name).value, v))
  {
    if Lookup(name).Some? {
      var k := Lookup(name).value;
      LookupFindsName(name, k);
      SetKnownEffect(hk, s, k, v, now);
    }
  }

  /** `set` writes only the keys it touches, keeps the handler switch, and
      with the handler off leaves the batch and the handler calls alone. */
  lemma SetKnownFrame(hk: Hotkey, s: State, k: Setting, v: Value, now: int)
    ensures var r := SetKnown(hk, s, k, v, now);
      SameOutside(s.items, r.items, Touched(k)) && r.emit == s.emit &&
      (!s.emit ==> r.notices == s.notices && r.batch == s.batch)
  {
    SetKnownEffect(hk, s, k, v, now);
  }

  // ---------------------------------------------------------------------
  // clear

  /** The tiers `clear(...)` empties: both when none is named. */
  function ClearTiers(tiers: seq<Tier>): set<Tier> {
    if |tiers| == 0 then {Sync, Local} else set t | t in tiers
  }

  function ClearedNames(tiers: seq<Tier>): set<string> {
    set k | k in AllSettings && TierOf(k) in ClearTiers(tiers) :: Name(k)
  }

  /** `clear(...)`: every schema key of the named tiers is set to `undefined`. */
  function ClearItems(items: map<string, Value>, tiers: seq<Tier>): map<string, Value> {
    items - ClearedNames(tiers)
  }

  /** After `clear`, exactly the schema keys of the cleared tiers read as
      `undefined`; every other stored key is kept. */
  lemma ClearRemovesTier(items: map<string, Value>, tiers: seq<Tier>, n: string)
    ensures Stored(ClearItems(items, tiers), n) ==
      if Lookup(n).Some? && TierOf(Lookup(n).value) in ClearTiers(tiers) then None else Stored(items, n)
  {
    if Lookup(n).Some? {
      var k := Lookup(n).value;
      LookupFindsName(n, k);
      AllSettingsListed(k);
    }
    if n in ClearedNames(tiers) {
      var k :| k in AllSettings && TierOf(k) in ClearTiers(tiers) && Name(k) == n;
      LookupName(k);
    }
  }

  // ---------------------------------------------------------------------
  // init

  /** Shallow reconciliation of a stored object against its default: the
      default's keys, each with the stored value when there is one and the
      default's value otherwise. */
  function Reconcile(cur: map<string, Value>, def: map<string, Value>): map<string, Value> {
    map key | key in def :: if key in cur then cur[key] else def[key]
  }

  /** The reconciled object has exactly the default's keys, keeps every stored
      value for a key the default has, and takes the default's value for a
      key the stored object lacks. */
  lemma ReconcileShape(cur: map<string, Value>, def: map<string, Value>)
    ensures Reconcile(cur, def).Keys == def.Keys
    ensures forall key :: key in def && key in cur ==> Reconcile(cur, def)[key] == cur[key]
    ensures forall key :: key in def && key !in cur ==> Reconcile(cur, def)[key] == def[key]
  {
  }

  /** An object that already has the default's keys is left as it is, so
      reconciling twice is reconciling once. */
  lemma ReconcileStable(cur: map<string, Value>, def: map<string, Value>)
    ensures cur.Keys == def.Keys ==> Reconcile(cur, def) == cur
    ensures Reconcile(Reconcile(cur, def), def) == Reconcile(cur, def)
  {
    if cur.Keys == def.Keys {
      assert Reconcile(cur, def).Keys == cur.Keys;
    }
    ReconcileShape(cur, def);
    assert Reconcile(Reconcile(cur, def), def).Keys == Reconcile(cur, def).Keys;
  }

  /** The stale key goes, the missing key comes from the default and the
      shared key keeps its stored value. */
  lemma ReconcileExample()
    ensures Reconcile(map["a" := Num(1), "z" := Num(9)], map["a" := Num(0), "b" := Num(2)])
      == map["a" := Num(1), "b" := Num(2)]
  {
    var r := Reconcile(map["a" := Num(1), "z" := Num(9)], map["a" := Num(0), "b" := Num(2)]);
    assert r.Keys == {"a", "b"};
  }

  /** One key of the `init` walk. A missing value, or one whose type tag
      differs from the default's, is replaced by the default through `set`;
      a scalar of the right type stays, its setter re-run for its host calls
      when the entry asks for that; an object is reconciled and `set`. */
  function InitKey(hk: Hotkey, s: State, k: Setting, now: int): State {
    var def := DefaultValue(hk, s.items, k);
    var cur := Stored(s.items, Name(k));
    if cur.None? || TypeTag(cur.value) != TypeTag(def) then SetKnown(hk, s, k, def, now)
    else if !def.Obj? then
      (if SetOnInit(k) && HasSetter(k) then RunSetter(hk, s, k, cur.value, now) else s)
    else SetKnown(hk, s, k, Obj(Reconcile(cur.value.fields, def.fields)), now)
  }

  /** The walk over a sequence of keys, in order. */
  function InitKeys(hk: Hotkey, s: State, ks: seq<Setting>, now: int): State {
    if ks == [] then s
    else InitKey(hk, InitKeys(hk, s, ks[..|ks| - 1], now), ks[|ks| - 1], now)
  }

  /** `init(emit)`: unless `emit`, the handler is switched off for the walk;
      the sync keys and then the local keys are walked; the handler is put
      back as it was. */
  function Init(hk: Hotkey, s: State, emit: bool, now: int): State {
    var s0 := if emit then s else s.(emit := false);
    InitKeys(hk, s0, AllSettings, now).(emit := s.emit)
  }

  /** A stored value fits a default: same type tag, and for an object the
      same keys. */
  predicate Fits(v: Value, def: Value) {
    TypeTag(v) == TypeTag(def) && (def.Obj? ==> v.fields.Keys == def.fields.Keys)
  }

  predicate Conforms(hk: Hotkey, items: map<string, Value>, k: Setting) {
    Name(k) in items && Fits(items[Name(k)], DefaultValue(hk, items, k))
  }

  /** One step writes only the keys a `set` of its key touches, keeps the
      handler switch, and with the handler off leaves the batch and the
      handler calls alone. */
  lemma InitKeyFrame(hk: Hotkey, s: State, k: Setting, now: int)
    ensures var r := InitKey(hk, s, k, now);
      SameOutside(s.items, r.items, Touched(k)) && r.emit == s.emit &&
      (!s.emit ==> r.notices == s.notices && r.batch == s.batch)
  {
    var def := DefaultValue(hk, s.items, k);
    var cur := Stored(s.items, Name(k));
    var r := InitKey(hk, s, k, now);
    if cur.None? || TypeTag(cur.value) != TypeTag(def) {
      assert r == SetKnown(hk, s, k, def, now);
      SetKnownFrame(hk, s, k, def, now);
    } else if !def.Obj? {
      if SetOnInit(k) && HasSetter(k) {
        assert k == Fstab || k == LogMode;
        assert r == RunSetter(hk, s, k, cur.value, now);
      } else {
        assert r == s;
      }
    } else {
      var rec := Obj(Reconcile(cur.value.fields, def.fields));
      assert r == SetKnown(hk, s, k, rec, now);
      SetKnownFrame(hk, s, k, rec, now);
    }
  }

  /** A missing or mistyped value is replaced by exactly the default. */
  lemma InitKeyResets(hk: Hotkey, s: State, k: Setting, now: int)
    requires var cur := Stored(s.items, Name(k));
      cur.None? || TypeTag(cur.value) != TypeTag(DefaultValue(hk, s.items, k))
    ensures Stored(InitKey(hk, s, k, now).items, Name(k)) == Some(DefaultValue(hk, s.items, k))
  {
    SetKnownEffect(hk, s, k, DefaultValue(hk, s.items, k), now);
    NormalisedDefault(hk, s.items, k);
  }

  /** After its step a key fits its default, the default being computed from
      what is then stored. */
  lemma InitKeyConforms(hk: Hotkey, s: State, k: Setting, now: int)
    ensures Conforms(hk, InitKey(hk, s, k, now).items, k)
  {
    var def := DefaultValue(hk, s.items, k);
    var cur := Stored(s.items, Name(k));
    if cur.None? || TypeTag(cur.value) != TypeTag(def) {
      InitKeyResets(hk, s, k, now);
      InitKeyKeepsShortcut(hk, s, k, now);
    } else if def.Obj? {
      var rec := Obj(Reconcile(cur.value.fields, def.fields));
      SetKnownEffect(hk, s, k, rec, now);
      ObjectDefaultNotNormalised(hk, s.items, k, rec);
      InitKeyKeepsShortcut(hk, s, k, now);
    } else {
      InitKeyFrame(hk, s, k, now);
      InitKeyKeepsShortcut(hk, s, k, now);
    }
  }

  /** The defaults of a step's key are the same before and after the step. */
  lemma InitKeyKeepsShortcut(hk: Hotkey, s: State, k: Setting, now: int)
    ensures DefaultValue(hk, InitKey(hk, s, k, now).items, k) == DefaultValue(hk, s.items, k)
  {
    if k == ShortcutCode {
      var r := InitKey(hk, s, k, now);
      InitKeyFrame(hk, s, k, now);
      NameInjective(ShortcutCode, Shortcut);
      assert Name(Shortcut) !in Touched(k);
      assert Stored(r.items, Name(Shortcut)) == Stored(s.items, Name(Shortcut));
    }
  }

  /** Which step writes a key: its own, and the shortcut's step also writes
      the key codes. */
  lemma TouchedBy(k: Setting, step: Setting)
    ensures Name(k) in Touched(step) <==> k == step || (step == Shortcut && k == ShortcutCode)
  {
    NameInjective(k, step);
    NameInjective(k, ShortcutCode);
  }

  // ---------------------------------------------------------------------
  // The walk

  /** A key no step of the walk writes keeps its stored value. */
  lemma {:induction false} InitKeysFrame(hk: Hotkey, s: State, ks: seq<Setting>, now: int, n: string)
    requires forall j :: 0 <= j < |ks| ==> n !in Touched(ks[j])
    ensures Stored(InitKeys(hk, s, ks, now).items, n) == Stored(s.items, n)
    decreases |ks|
  {
    if ks != [] {
      InitKeysFrame(hk, s, ks[..|ks| - 1], now, n);
      InitKeyFrame(hk, InitKeys(hk, s, ks[..|ks| - 1], now), ks[|ks| - 1], now);
    }
  }

  /** The walk keeps the handler switch, and with the handler off it calls
      no handler and leaves the batch alone. */
  lemma {:induction false} InitKeysQuiet(hk: Hotkey, s: State, ks: seq<Setting>, now: int)
    ensures var r := InitKeys(hk, s, ks, now);
      r.emit == s.emit && (!s.emit ==> r.notices == s.notices && r.batch == s.batch)
    decreases |ks|
  {
    if ks != [] {
      InitKeysQuiet(hk, s, ks[..|ks| - 1], now);
      InitKeyFrame(hk, InitKeys(hk, s, ks[..|ks| - 1], now), ks[|ks| - 1], now);
    }
  }

  /** Walking `a + b` is walking `a`, then `b`. */
  lemma {:induction false} InitKeysSplit(hk: Hotkey, s: State, a: seq<Setting>, b: seq<Setting>, now: int)
    ensures InitKeys(hk, s, a + b, now) == InitKeys(hk, InitKeys(hk, s, a, now), b, now)
    decreases |b|
  {
    if b == [] {
      assert a + b == a;
    } else {
      assert (a + b)[..|a + b| - 1] == a + b[..|b| - 1];
      InitKeysSplit(hk, s, a, b[..|b| - 1], now);
    }
  }

  /** The key codes never come before the shortcut in a walk. */
  predicate ShortcutFirst(ks: seq<Setting>) {
    forall i, j :: 0 <= j < i < |ks| ==> !(ks[j] == ShortcutCode && ks[i] == Shortcut)
  }

  /** A later step leaves an earlier key's fit alone, unless it is the
      shortcut's step rewriting the key codes. */
  lemma ConformsKept(hk: Hotkey, s: State, step: Setting, k: Setting, now: int)
    requires Conforms(hk, s.items, k) && k != step && !(k == ShortcutCode && step == Shortcut)
    ensures Conforms(hk, InitKey(hk, s, step, now).items, k)
  {
    var r := InitKey(hk, s, step, now);
    InitKeyFrame(hk, s, step, now);
    TouchedBy(k, step);
    assert Stored(r.items, Name(k)) == Stored(s.items, Name(k));
    if k == ShortcutCode {
      TouchedBy(Shortcut, step);
      assert Stored(r.items, Name(Shortcut)) == Stored(s.items, Name(Shortcut));
    }
    DefaultDependsOnShortcut(hk, s.items, r.items, k);
  }

  /** After a walk every walked key fits its default. */
  lemma {:induction false} InitKeysConform(hk: Hotkey, s: State, ks: seq<Setting>, now: int)
    requires ShortcutFirst(ks)
    ensures forall j :: 0 <= j < |ks| ==> Conforms(hk, InitKeys(hk, s, ks, now).items, ks[j])
    decreases |ks|
  {
    if ks != [] {
      var n := |ks| - 1;
      var t := InitKeys(hk, s, ks[..n], now);
      assert ShortcutFirst(ks[..n]);
      InitKeysConform(hk, s, ks[..n], now);
      forall j | 0 <= j < |ks|
        ensures Conforms(hk, InitKey(hk, t, ks[n], now).items, ks[j])
      {
        if ks[j] == ks[n] {
          InitKeyConforms(hk, t, ks[n], now);
        } else {
          assert ks[..n][j] == ks[j];
          ConformsKept(hk, t, ks[n], ks[j], now);
        }
      }
    }
  }

  /** In a walk where only step `i` writes a key, the steps before it leave
      the key as it was and the steps after it leave it as step `i` did. */
  lemma WalkedOnce(hk: Hotkey, s: State, ks: seq<Setting>, i: nat, now: int)
    requires i < |ks| && forall j :: 0 <= j < |ks| && j != i ==> Name(ks[i]) !in Touched(ks[j])
    ensures Stored(InitKeys(hk, s, ks[..i], now).items, Name(ks[i])) == Stored(s.items, Name(ks[i]))
    ensures Stored(InitKeys(hk, s, ks, now).items, Name(ks[i])) ==
      Stored(InitKeys(hk, s, ks[..i + 1], now).items, Name(ks[i]))
  {
    var n := Name(ks[i]);
    InitKeysFrame(hk, s, ks[..i], now, n);
    var rest := ks[i + 1..];
    assert ks == ks[..i + 1] + rest;
    InitKeysSplit(hk, s, ks[..i + 1], rest, now);
    InitKeysFrame(hk, InitKeys(hk, s, ks[..i + 1], now), rest, now, n);
  }

  /** Step `i` of a walk runs on what the steps before it left. */
  lemma WalkStep(hk: Hotkey, s: State, ks: seq<Setting>, i: nat, now: int)
    requires i < |ks|
    ensures InitKeys(hk, s, ks[..i + 1], now) == InitKey(hk, InitKeys(hk, s, ks[..i], now), ks[i], now)
  {
    assert ks[..i + 1][..i] == ks[..i];
  }

  // ---------------------------------------------------------------------
  // What `init` promises

  lemma ShortcutFirstInAll()
    ensures ShortcutFirst(AllSettings)
  {
    AllSettingsDistinct();
    ShortcutBeforeCode();
  }

  /** After `init`, every schema key has a value, with its default's type tag,
      and an object value has exactly its default's keys. */
  lemma InitConforms(hk: Hotkey, s: State, emit: bool, now: int)
    ensures forall k :: Conforms(hk, Init(hk, s, emit, now).items, k)
  {
    var s0 := if emit then s else s.(emit := false);
    ShortcutFirstInAll();
    InitKeysConform(hk, s0, AllSettings, now);
    forall k
      ensures Conforms(hk, Init(hk, s, emit, now).items, k)
    {
      AllSettingsListed(k);
    }
  }

  /** After `init`, a key that was missing or held a value of the wrong type
      holds exactly its default. (The key codes' default moves with the
      shortcut: `InitDerivesMissingCode` covers missing key codes and
      `InitDerivesRetypedCode` key codes of the wrong type.) */
  lemma InitResets(hk: Hotkey, s: State, emit: bool, now: int, k: Setting)
    requires k != ShortcutCode
    requires var cur := Stored(s.items, Name(k));
      cur.None? || TypeTag(cur.value) != TypeTag(DefaultValue(hk, s.items, k))
    ensures Stored(Init(hk, s, emit, now).items, Name(k)) == Some(DefaultValue(hk, s.items, k))
  {
    var s0 := if emit then s else s.(emit := false);
    AllSettingsListed(k);
    var i :| 0 <= i < |AllSettings| && AllSettings[i] == k;
    AllSettingsDistinct();
    forall j | 0 <= j < |AllSettings| && j != i
      ensures Name(k) !in Touched(AllSettings[j])
    {
      TouchedBy(k, AllSettings[j]);
    }
    WalkedOnce(hk, s0, AllSettings, i, now);
    WalkStep(hk, s0, AllSettings, i, now);
    var before := InitKeys(hk, s0, AllSettings[..i], now);
    DefaultDependsOnShortcut(hk, before.items, s.items, k);
    InitKeyResets(hk, before, k, now);
  }

  /** `init(false)` calls no update handler and leaves the batch alone; any
      `init` puts back the handler it found. */
  lemma InitQuiet(hk: Hotkey, s: State, emit: bool, now: int)
    ensures Init(hk, s, emit, now).emit == s.emit
    ensures !emit ==> Init(hk, s, emit, now).notices == s.notices && Init(hk, s, emit, now).batch == s.batch
  {
    var s0 := if emit then s else s.(emit := false);
    InitKeysQuiet(hk, s0, AllSettings, now);
  }

  /** `init` leaves every key outside the schema as it was. */
  lemma InitKeepsForeignKeys(hk: Hotkey, s: State, emit: bool, now: int, n: string)
    requires Lookup(n).None?
    ensures Stored(Init(hk, s, emit, now).items, n) == Stored(s.items, n)
  {
    var s0 := if emit then s else s.(emit := false);
    forall j | 0 <= j < |AllSettings|
      ensures n !in Touched(AllSettings[j])
    {
      LookupName(AllSettings[j]);
      LookupName(ShortcutCode);
    }
    InitKeysFrame(hk, s0, AllSettings, now, n);
  }

  // ---------------------------------------------------------------------
  // The key codes, and running `init` twice

  /** The stored key codes are what the hotkey service makes of the stored
      shortcut. */
  predicate CodeDerived(hk: Hotkey, items: map<string, Value>) {
    Stored(items, Name(ShortcutCode)) == Some(hk.objectsForDOM(Stored(items, Name(Shortcut))))
  }

  /** The key codes are derived whenever the stored shortcut is an object. */
  predicate CodeSynced(hk: Hotkey, items: map<string, Value>) {
    Name(Shortcut) in items && items[Name(Shortcut)].Obj? ==> CodeDerived(hk, items)
  }

  /** The shortcut's step either stores the shortcut through its setter, which
      derives the key codes, or leaves every item alone with a shortcut that
      is not an object. */
  lemma ShortcutStep(hk: Hotkey, u: State, now: int)
    ensures var r := InitKey(hk, u, Shortcut, now);
      CodeDerived(hk, r.items) ||
      (r.items == u.items && !(Name(Shortcut) in u.items && u.items[Name(Shortcut)].Obj?))
  {
    var def := DefaultValue(hk, u.items, Shortcut);
    var cur := Stored(u.items, Name(Shortcut));
    NameInjective(Shortcut, ShortcutCode);
    if cur.None? || TypeTag(cur.value) != TypeTag(def) {
      SetKnownEffect(hk, u, Shortcut, def, now);
    } else if !def.Obj? {
      assert !cur.value.Obj?;
    } else {
      SetKnownEffect(hk, u, Shortcut, Obj(Reconcile(cur.value.fields, def.fields)), now);
    }
  }

  /** The key codes' step derives them when they were missing, and keeps them
      when they already were derived. */
  lemma CodeStep(hk: Hotkey, u: State, now: int)
    requires CodeDerived(hk, u.items) || Name(ShortcutCode) !in u.items
    ensures CodeDerived(hk, InitKey(hk, u, ShortcutCode, now).items)
    ensures Stored(InitKey(hk, u, ShortcutCode, now).items, Name(Shortcut)) == Stored(u.items, Name(Shortcut))
  {
    var r := InitKey(hk, u, ShortcutCode, now);
    InitKeyFrame(hk, u, ShortcutCode, now);
    TouchedBy(Shortcut, ShortcutCode);
    assert Stored(r.items, Name(Shortcut)) == Stored(u.items, Name(Shortcut));
    var def := DefaultValue(hk, u.items, ShortcutCode);
    var cur := Stored(u.items, Name(ShortcutCode));
    if cur.None? {
      InitKeyResets(hk, u, ShortcutCode, now);
    } else if def.Obj? {
      ReconcileStable(def.fields, def.fields);
      SetKnownEffect(hk, u, ShortcutCode, Obj(def.fields), now);
    }
  }

  /** The walk over the schema, cut around the shortcut's and the key
      codes' steps. */
  lemma WalkAroundShortcut(hk: Hotkey, s0: State, now: int)
    ensures var a := AllSettings;
      var t1 := InitKeys(hk, s0, a[..2], now);
      var t3 := InitKey(hk, InitKey(hk, t1, Shortcut, now), ShortcutCode, now);
      InitKeys(hk, s0, a, now) == InitKeys(hk, t3, a[4..], now)
  {
    var a := AllSettings;
    ShortcutBeforeCode();
    assert a[..3][..2] == a[..2] && a[..4][..3] == a[..3];
    assert a == a[..4] + a[4..];
    InitKeysSplit(hk, s0, a[..4], a[4..], now);
  }

  /** The steps before the shortcut's leave the key codes alone. */
  lemma BeforeShortcutKeepsCode(hk: Hotkey, s0: State, now: int)
    ensures Stored(InitKeys(hk, s0, AllSettings[..2], now).items, Name(ShortcutCode)) ==
      Stored(s0.items, Name(ShortcutCode))
  {
    var a := AllSettings[..2];
    forall j | 0 <= j < 2
      ensures Name(ShortcutCode) !in Touched(a[j])
    {
      TouchedBy(ShortcutCode, a[j]);
    }
    InitKeysFrame(hk, s0, a, now, Name(ShortcutCode));
  }

  /** The steps after the key codes' leave the shortcut and the key codes alone. */
  lemma AfterCodeKeepsBoth(hk: Hotkey, t: State, now: int)
    ensures var f := InitKeys(hk, t, AllSettings[4..], now);
      Stored(f.items, Name(ShortcutCode)) == Stored(t.items, Name(ShortcutCode)) &&
      Stored(f.items, Name(Shortcut)) == Stored(t.items, Name(Shortcut))
  {
    var a := AllSettings[4..];
    forall j | 0 <= j < |a|
      ensures Name(ShortcutCode) !in Touched(a[j]) && Name(Shortcut) !in Touched(a[j])
    {
      TouchedBy(ShortcutCode, a[j]);
      TouchedBy(Shortcut, a[j]);
    }
    InitKeysFrame(hk, t, a, now, Name(ShortcutCode));
    InitKeysFrame(hk, t, a, now, Name(Shortcut));
  }

  /** The shortcut's step followed by the key codes' step leaves the key codes
      in sync, and derived when none were stored before. */
  lemma ShortcutThenCode(hk: Hotkey, t1: State, now: int)
    ensures var t3 := InitKey(hk, InitKey(hk, t1, Shortcut, now), ShortcutCode, now);
      CodeSynced(hk, t3.items) && (Name(ShortcutCode) !in t1.items ==> CodeDerived(hk, t3.items))
  {
    var t2 := InitKey(hk, t1, Shortcut, now);
    var t3 := InitKey(hk, t2, ShortcutCode, now);
    ShortcutStep(hk, t1, now);
    if CodeDerived(hk, t2.items) || Name(ShortcutCode) !in t2.items {
      CodeStep(hk, t2, now);
    } else {
      InitKeyFrame(hk, t2, ShortcutCode, now);
      TouchedBy(Shortcut, ShortcutCode);
      assert Stored(t3.items, Name(Shortcut)) == Stored(t2.items, Name(Shortcut));
    }
  }

  /** Through the whole walk the key codes end up in sync with the shortcut,
      and derived from it when none were stored. */
  lemma InitShortcutStages(hk: Hotkey, s0: State, now: int)
    ensures var f := InitKeys(hk, s0, AllSettings, now);
      CodeSynced(hk, f.items) && (Name(ShortcutCode) !in s0.items ==> CodeDerived(hk, f.items))
  {
    var t1 := InitKeys(hk, s0, AllSettings[..2], now);
    var t3 := InitKey(hk, InitKey(hk, t1, Shortcut, now), ShortcutCode, now);
    WalkAroundShortcut(hk, s0, now);
    BeforeShortcutKeepsCode(hk, s0, now);
    ShortcutThenCode(hk, t1, now);
    AfterCodeKeepsBoth(hk, t3, now);
  }

  /** The items `init` produces: every key fits its default and the key codes
      are in sync with an object shortcut. */
  ghost predicate Settled(hk: Hotkey, items: map<string, Value>) {
    (forall k :: Conforms(hk, items, k)) && CodeSynced(hk, items)
  }

  lemma InitSettles(hk: Hotkey, s: State, emit: bool, now: int)
    ensures Settled(hk, Init(hk, s, emit, now).items)
  {
    var s0 := if emit then s else s.(emit := false);
    InitConforms(hk, s, emit, now);
    InitShortcutStages(hk, s0, now);
  }

  /** On settled items a step stores nothing new. */
  lemma InitKeySettled(hk: Hotkey, u: State, k: Setting, now: int)
    requires Settled(hk, u.items)
    ensures InitKey(hk, u, k, now).items == u.items
  {
    assert Conforms(hk, u.items, k);
    var def := DefaultValue(hk, u.items, k);
    var cur := u.items[Name(k)];
    if def.Obj? {
      ReconcileStable(cur.fields, def.fields);
      assert Obj(Reconcile(cur.fields, def.fields)) == cur;
      assert InitKey(hk, u, k, now) == SetKnown(hk, u, k, cur, now);
      ObjectDefaultNotNormalised(hk, u.items, k, cur);
      SetStoredAgain(hk, u, k, cur, now);
    }
  }

  /** Storing again what a key already holds, with the key codes already
      derived for a shortcut, leaves the items as they were. */
  lemma SetStoredAgain(hk: Hotkey, u: State, k: Setting, cur: Value, now: int)
    requires Name(k) in u.items && u.items[Name(k)] == cur && Normalised(k, cur) == cur
    requires k == Shortcut ==> CodeDerived(hk, u.items)
    ensures SetKnown(hk, u, k, cur, now).items == u.items
  {
    SetKnownEffect(hk, u, k, cur, now);
    if k == Shortcut {
      NameInjective(Shortcut, ShortcutCode);
      assert u.items[Name(ShortcutCode)] == hk.objectsForDOM(Some(cur));
      assert u.items[Name(ShortcutCode) := hk.objectsForDOM(Some(cur))] == u.items;
    }
    assert u.items[Name(k) := cur] == u.items;
  }

  lemma {:induction false} InitKeysSettled(hk: Hotkey, u: State, ks: seq<Setting>, now: int)
    requires Settled(hk, u.items)
    ensures InitKeys(hk, u, ks, now).items == u.items
    decreases |ks|
  {
    if ks != [] {
      InitKeysSettled(hk, u, ks[..|ks| - 1], now);
      InitKeySettled(hk, InitKeys(hk, u, ks[..|ks| - 1], now), ks[|ks| - 1], now);
    }
  }

  /** Running `init` again, with or without notifications and at any time,
      stores exactly what the first run stored. */
  lemma InitIdempotent(hk: Hotkey, s: State, emit: bool, emit': bool, now: int, now': int)
    ensures Init(hk, Init(hk, s, emit, now), emit', now').items == Init(hk, s, emit, now).items
  {
    var s1 := Init(hk, s, emit, now);
    InitSettles(hk, s, emit, now);
    var s2 := if emit' then s1 else s1.(emit := false);
    InitKeysSettled(hk, s2, AllSettings, now');
  }

  /** Key codes that were missing are derived from the shortcut `init` leaves. */
  lemma InitDerivesMissingCode(hk: Hotkey, s: State, emit: bool, now: int)
    requires Name(ShortcutCode) !in s.items
    ensures CodeDerived(hk, Init(hk, s, emit, now).items)
  {
    var s0 := if emit then s else s.(emit := false);
    InitShortcutStages(hk, s0, now);
  }

  /** Key codes stored with a type other than that of the codes derived from
      the stored shortcut are replaced by the codes derived from the shortcut
      `init` leaves. */
  lemma InitDerivesRetypedCode(hk: Hotkey, s: State, emit: bool, now: int)
    requires Name(ShortcutCode) in s.items
    requires TypeTag(s.items[Name(ShortcutCode)]) != TypeTag(hk.objectsForDOM(Stored(s.items, Name(Shortcut))))
    ensures CodeDerived(hk, Init(hk, s, emit, now).items)
  {
    var s0 := if emit then s else s.(emit := false);
    var t1 := InitKeys(hk, s0, AllSettings[..2], now);
    var t2 := InitKey(hk, t1, Shortcut, now);
    var t3 := InitKey(hk, t2, ShortcutCode, now);
    WalkAroundShortcut(hk, s0, now);
    BeforeShortcutKeepsCode(hk, s0, now);
    forall j | 0 <= j < 2
      ensures Name(Shortcut) !in Touched(AllSettings[..2][j])
    {
      TouchedBy(Shortcut, AllSettings[..2][j]);
    }
    InitKeysFrame(hk, s0, AllSettings[..2], now, Name(Shortcut));
    ShortcutStep(hk, t1, now);
    if CodeDerived(hk, t2.items) {
      CodeStep(hk, t2, now);
    } else {
      InitKeyResets(hk, t2, ShortcutCode, now);
      InitKeyFrame(hk, t2, ShortcutCode, now);
      TouchedBy(Shortcut, ShortcutCode);
      assert Stored(t3.items, Name(Shortcut)) == Stored(t2.items, Name(Shortcut));
    }
    AfterCodeKeepsBoth(hk, t3, now);
  }

  /** Resetting the options clears both tiers and re-runs `init`: afterwards
      every schema key holds its default, the key codes those of the default
      shortcut. */
  lemma ResetRestoresDefaults(hk: Hotkey, s: State, now: int, k: Setting)
    ensures var f := Init(hk, s.(items := ClearItems(s.items, [])), true, now);
      Stored(f.items, Name(k)) == Some(DefaultValue(hk, f.items, k))
  {
    var s1 := s.(items := ClearItems(s.items, []));
    var f := Init(hk, s1, true, now);
    LookupName(k);
    ClearRemovesTier(s.items, [], Name(k));
    if k == ShortcutCode {
      LookupName(Shortcut);
      ClearRemovesTier(s.items, [], Name(Shortcut));
      InitDerivesMissingCode(hk, s1, true, now);
      InitResets(hk, s1, true, now, Shortcut);
    } else {
      InitResets(hk, s1, true, now, k);
      DefaultDependsOnShortcut(hk, s1.items, f.items, k);
    }
  }

  // ---------------------------------------------------------------------
  // As written

  /** `set` as written: a name `getInfo` finds on the prototype chain is
      stored unchanged and the handler is called for it. */
  function SetAsWritten(hk: Hotkey, s: State, name: string, v: Value, now: int): State {
    match LookupAsWritten(name)
    case Missing => s
    case Inherited => Notify(s.(items := s.items[name := v]), name, v, now)
    case Known(k) => SetKnown(hk, s, k, v, now)
  }

  /** The two agree except on inherited names, where `set` as written stores
      a key outside the schema that `Set` ignores. */
  lemma SetAsWrittenDiffers(hk: Hotkey, s: State, name: string, v: Value, now: int)
    ensures name !in ObjectPrototypeNames ==> SetAsWritten(hk, s, name, v, now) == Set(hk, s, name, v, now)
    ensures name in ObjectPrototypeNames ==>
      Set(hk, s, name, v, now) == s &&
      Stored(SetAsWritten(hk, s, name, v, now).items, name) == Some(v)
  {
    LookupAsWrittenInherits(name);
  }

  /** `set("constructor", v)` stores `v` as written. */
  lemma SetConstructorAsWritten(hk: Hotkey, s: State, v: Value, now: int)
    ensures Lookup("constructor").None?
    ensures Stored(SetAsWritten(hk, s, "constructor", v, now).items, "constructor") == Some(v)
    ensures Set(hk, s, "constructor", v, now) == s
  {
    assert "constructor" in ObjectPrototypeNames;
    LookupAsWrittenInherits("constructor");
    SetAsWrittenDiffers(hk, s, "constructor", v, now);
  }

  /** The reconciliation as written: an own key of the stored object survives
      when `key in defaultValue` holds, which an inherited name satisfies, and
      a default key is copied when `key in currentValue` fails, which an
      inherited name never does. */
  function ReconcileAsWritten(cur: map<string, Value>, def: map<string, Value>): map<string, Value> {
    map key | key in cur.Keys + def.Keys &&
        ((key in cur && InPlainObject(key, def)) || (key in def && !InPlainObject(key, cur))) ::
      if key in cur then cur[key] else def[key]
  }

  /** No key of the object is named after an inherited member. */
  predicate OwnNamesOnly(m: map<string, Value>) {
    m.Keys !! ObjectPrototypeNames
  }

  /** For objects without inherited names as keys the two agree; a stored key
      named after an inherited member survives as written. */
  lemma ReconcileAsWrittenDiffers(cur: map<string, Value>, def: map<string, Value>)
    ensures OwnNamesOnly(cur) && OwnNamesOnly(def) ==> ReconcileAsWritten(cur, def) == Reconcile(cur, def)
    ensures ReconcileAsWritten(map["toString" := Num(1)], map[]) == map["toString" := Num(1)]
    ensures Reconcile(map["toString" := Num(1)], map[]) == map[]
  {
    var c: map<string, Value> := map["toString" := Num(1)];
    var e: map<string, Value> := map[];
    assert "toString" in ReconcileAsWritten(c, e);
    assert ReconcileAsWritten(c, e).Keys == {"toString"};
  }

  // ---------------------------------------------------------------------
  // Values that already fit

  /** A step leaves a value that fits its default where it is. */
  lemma InitKeyKeepsFitting(hk: Hotkey, s: State, k: Setting, now: int)
    requires Conforms(hk, s.items, k)
    ensures Stored(InitKey(hk, s, k, now).items, Name(k)) == Stored(s.items, Name(k))
  {
    var def := DefaultValue(hk, s.items, k);
    var cur := s.items[Name(k)];
    if def.Obj? {
      ReconcileStable(cur.fields, def.fields);
      assert Obj(Reconcile(cur.fields, def.fields)) == cur;
      SetKnownEffect(hk, s, k, cur, now);
      ObjectDefaultNotNormalised(hk, s.items, k, cur);
    }
  }

  /** `init` keeps every value that fits its default, the key codes aside,
      whose default follows the shortcut. */
  lemma InitKeepsFitting(hk: Hotkey, s: State, emit: bool, now: int, k: Setting)
    requires k != ShortcutCode && Conforms(hk, s.items, k)
    ensures Stored(Init(hk, s, emit, now).items, Name(k)) == Stored(s.items, Name(k))
  {
    var s0 := if emit then s else s.(emit := false);
    AllSettingsListed(k);
    var i :| 0 <= i < |AllSettings| && AllSettings[i] == k;
    AllSettingsDistinct();
    forall j | 0 <= j < |AllSettings| && j != i
      ensures Name(k) !in Touched(AllSettings[j])
    {
      TouchedBy(k, AllSettings[j]);
    }
    WalkedOnce(hk, s0, AllSettings, i, now);
    WalkStep(hk, s0, AllSettings, i, now);
    var before := InitKeys(hk, s0, AllSettings[..i], now);
    DefaultDependsOnShortcut(hk, before.items, s.items, k);
    InitKeyKeepsFitting(hk, before, k, now);
  }

  // ---------------------------------------------------------------------
  // Merging the remote copy

  /** `handleGetSyncStorage` with a configuration in place: the sync tier is
      cleared, every fetched item is written to storage as it is, and `init`
      runs with notifications on. */
  function SyncMerge(hk: Hotkey, s: State, fetched: map<string, Value>, now: int): State {
    Init(hk, s.(items := ClearItems(s.items, [Sync]) + fetched), true, now)
  }

  /** A sync key the remote copy does not have falls back to its default. */
  lemma MergeResetsMissing(hk: Hotkey, s: State, fetched: map<string, Value>, now: int, k: Setting)
    requires TierOf(k) == Sync && k != ShortcutCode && Name(k) !in fetched
    ensures Stored(SyncMerge(hk, s, fetched, now).items, Name(k)) == Some(DefaultValue(hk, map[], k))
  {
    var m := ClearItems(s.items, [Sync]) + fetched;
    LookupName(k);
    ClearRemovesTier(s.items, [Sync], Name(k));
    InitResets(hk, s.(items := m), true, now, k);
    DefaultDependsOnShortcut(hk, m, map[], k);
  }

  /** A fetched value that fits its default is the one stored afterwards. */
  lemma MergeKeepsFetched(hk: Hotkey, s: State, fetched: map<string, Value>, now: int, k: Setting)
    requires k != ShortcutCode && Name(k) in fetched
    requires Fits(fetched[Name(k)], DefaultValue(hk, map[], k))
    ensures Stored(SyncMerge(hk, s, fetched, now).items, Name(k)) == Some(fetched[Name(k)])
  {
    var m := ClearItems(s.items, [Sync]) + fetched;
    DefaultDependsOnShortcut(hk, m, map[], k);
    InitKeepsFitting(hk, s.(items := m), true, now, k);
  }

  /** A local key that fits its default is not touched by the merge. */
  lemma MergeKeepsLocal(hk: Hotkey, s: State, fetched: map<string, Value>, now: int, k: Setting)
    requires TierOf(k) == Local && Name(k) !in fetched && Conforms(hk, s.items, k)
    ensures Stored(SyncMerge(hk, s, fetched, now).items, Name(k)) == Stored(s.items, Name(k))
  {
    var m := ClearItems(s.items, [Sync]) + fetched;
    LookupName(k);
    ClearRemovesTier(s.items, [Sync], Name(k));
    DefaultDependsOnShortcut(hk, m, s.items, k);
    assert Conforms(hk, m, k);
    InitKeepsFitting(hk, s.(items := m), true, now, k);
  }
}
