/** The background page's state as the code keeps it: the `config` object
    (null until the first sync fetch answers), the bootstrap flag and the
    `blockedEvents` queue, the pushed payload, and the responders of the
    requests it has seen. Every method is proved to move the page exactly
    as the matching function of `Requests` says, so the lemmas proved there
    (each request answered at most once, queued inits answered in arrival
    order when the gate opens) hold of the object. */
module Server {
  import opened Json
  import opened Schema
  import opened Extension
  import opened Broadcast
  import opened ConfigSpec
  import opened ConfigStore
  import opened Router
  import opened Requests

  class Backend {
    /** The host runtime. */
    const ext: Ext
    /** The hotkey service. */
    const hotkey: Hotkey
    /** `config`, null until the remote copy first answers. */
    var config: Config?
    /** `isInitializing`. */
    var initializing: bool
    /** `blockedEvents`: the init requests waiting for the gate; the code
        sets it to null once the gate opens, modelled by the empty queue. */
    var blocked: seq<Pending>
    /** `payload`, set by `push-payload`. */
    var payload: Option<Value>
    /** Every call of a transport `respond` so far. */
    var sent: seq<Reply>
    /** The requests whose `res` still holds `respond`. */
    var live: set<nat>
    /** The number the next request gets. */
    var nextId: nat

    /** The configuration writes through to this page's host. */
    ghost predicate Linked()
      reads this
    {
      config != null ==> config.ext == ext && config.hotkey == hotkey
    }

    /** The page as the functions of `Requests` see it. */
    ghost function Model(): World
      reads this, ext, config
      requires Linked()
    {
      World(
        if config == null then State(ext.storage, ext.effects, false, Idle, []) else config.Snapshot(),
        config != null, initializing, blocked, payload, sent, live, nextId)
    }

    /** The page when the background script starts: `handleRequest` is
        installed, the gate is closed and the remote copy has been asked for
        the sync keys. */
    constructor(host: Ext, hk: Hotkey)
      ensures ext == host && hotkey == hk && Linked()
      ensures Model() == Boot(host.storage, host.effects)
    {
      ext := host;
      hotkey := hk;
      config := null;
      initializing := true;
      blocked := [];
      payload := None;
      sent := [];
      live := {};
      nextId := 0;
    }

    /** `res(arg)` of request `id`. */
    method Res(id: nat, arg: Response)
      requires Linked()
      modifies this
      ensures Linked() && config == old(config) && payload == old(payload)
      ensures Model() == Respond(old(Model()), id, arg)
    {
      if id in live {
        sent := sent + [Reply(id, arg)];
        live := live - {id};
      }
    }

    /** `handleInit`. */
    method HandleInit(p: Pending) returns (o: Outcome)
      requires Linked()
      modifies this
      ensures Linked()
      ensures (Model(), o) == InitHandler(hotkey, old(Model()), p)
    {
      if initializing {
        blocked := blocked + [p];
        return Returned(Some(Bool(true)));
      }
      var r := InitReply(p.kind, p.data, p.sender, payload, hotkey, ext.storage);
      if r.None? {
        return Threw;
      }
      Res(p.id, InitResponse(r.value));
      o := Returned(None);
    }

    /** `handleGetStorage`. */
    method HandleGetStorage(id: nat, data: Value) returns (o: Outcome)
      requires Linked()
      modifies this
      ensures Linked()
      ensures (Model(), o) == GetStorageHandler(old(Model()), id, data)
    {
      if !data.Obj? && !data.Arr? {
        return Threw;
      }
      if data.Obj? && "key" in data.fields {
        if config == null {
          return Threw;
        }
        var v := config.Get(ToJsString(data.fields["key"]));
        Res(id, StorageResponse(Some(data.fields["key"]), v));
      } else {
        Res(id, StorageResponse(None, None));
      }
      o := Returned(None);
    }

    /** `handleSetStorage`: the `forEach` over the items, stopping at the
        first throw. */
    method HandleSetStorage(data: Value, now: int) returns (o: Outcome)
      requires Linked()
      modifies ext, config
      ensures Linked()
      ensures (Model(), o) == SetStorageHandler(hotkey, old(Model()), data, now)
    {
      var list := SetStorageList(data);
      if list.None? {
        return Threw;
      }
      var items := list.value;
      ghost var cfg0 := Cfg(Model());
      var threw := false;
      for i := 0 to |items|
        invariant Linked()
        invariant (Cfg(Model()), threw) == ApplyItems(hotkey, cfg0, items[..i], now)
        invariant config == null ==> ext.storage == old(ext.storage) && ext.effects == old(ext.effects)
      {
        ghost var before := (Cfg(Model()), threw);
        assert ApplyItems(hotkey, cfg0, items[..i + 1], now)
          == if before.1 then before else ApplyItem(hotkey, before.0, items[i], now) by {
          assert items[..i + 1][..i] == items[..i];
        }
        if !threw {
          var item := items[i];
          if !item.Obj? && !item.Arr? {
            threw := true;
          } else if item.Obj? && "key" in item.fields && "value" in item.fields {
            if config == null {
              threw := true;
            } else {
              config.Set(ToJsString(item.fields["key"]), item.fields["value"], now);
            }
          }
        }
      }
      assert items[..|items|] == items;
      assert StoreItems(hotkey, cfg0, data, now) == ApplyItems(hotkey, cfg0, items, now);
      o := if threw then Threw else Returned(None);
    }

    /** `handleResetOptions`. */
    method HandleResetOptions(now: int) returns (o: Outcome)
      requires Linked()
      modifies ext, config
      ensures Linked()
      ensures (Model(), o) == ResetHandler(hotkey, old(Model()), now)
    {
      if config == null {
        return Threw;
      }
      config.Clear([]);
      ext.effects := ext.effects + [ClearSync, ClearCredentials, BuildContextMenu];
      config.Init(true, now);
      o := Returned(None);
    }

    /** A handler whose work lies outside this model. */
    method HandleOther(id: nat, other: OtherCall) returns (o: Outcome)
      requires Linked()
      modifies this
      ensures Linked()
      ensures (Model(), o) == OtherHandler(old(Model()), id, other)
    {
      if other.reply.Some? {
        Res(id, HandlerResponse(other.reply.value));
      }
      o := other.outcome;
    }

    /** The call `handler(command, data, sender, res)`. */
    method RunHandler(h: Handler, id: nat, command: Value, data: Value, sender: Value, other: OtherCall, now: int)
      returns (o: Outcome)
      requires Linked()
      modifies this, ext, config
      ensures Linked()
      ensures (Model(), o) == Requests.RunHandler(hotkey, old(Model()), h, id, command, data, sender, other, now)
    {
      ghost var w0 := Model();
      ghost var r := Requests.RunHandler(hotkey, w0, h, id, command, data, sender, other, now);
      match h
      case HandleInit(kind) =>
        assert r == InitHandler(hotkey, w0, Pending(id, kind, data, sender));
        o := HandleInit(Pending(id, kind, data, sender));
      case GetStorage =>
        assert r == GetStorageHandler(w0, id, data);
        o := HandleGetStorage(id, data);
      case SetStorage =>
        assert r == SetStorageHandler(hotkey, w0, data, now);
        o := HandleSetStorage(data, now);
      case PushPayload =>
        payload := Some(data);
        o := Returned(None);
      case ResetOptions =>
        assert r == ResetHandler(hotkey, w0, now);
        o := HandleResetOptions(now);
      case GetMemorandum =>
        o := Threw;
      case _ =>
        assert r == OtherHandler(w0, id, other);
        o := HandleOther(id, other);
    }

    /** `handleRequest(command, data, sender, respond)`; returns what the
        listener returns. */
    method HandleRequest(command: Option<Value>, data: Option<Value>, sender: Value, other: OtherCall, now: int)
      returns (late: Option<Value>)
      requires Linked()
      modifies this, ext, config
      ensures Linked()
      ensures (Model(), late) == Request(hotkey, old(Model()), command, data, sender, other, now)
    {
      ghost var w0 := Model();
      var id := nextId;
      nextId := nextId + 1;
      live := live + {id};
      ghost var w1 := Model();
      assert w1 == Open(w0);
      late := Some(Bool(false));
      var route := Route(command, data);
      if route.Some? {
        var o := RunHandler(route.value, id, command.value, data.value, sender, other, now);
        ghost var hd := Requests.RunHandler(hotkey, w1, route.value, id, command.value, data.value, sender, other, now);
        assert (Model(), o) == hd;
        assert Handled(hotkey, w0, command, data, sender, other, now) == (hd.0, Some(hd.1));
        late := LateFlag(o);
      } else {
        assert (Model(), None) == Handled(hotkey, w0, command, data, sender, other, now);
      }
      if !Present(late) {
        Res(id, NoArg);
      }
    }

    /** The `for ... in` loop of `handleGetSyncStorage` that writes the
        fetched items straight into the storage. */
    method WriteItems(items: map<string, Value>)
      modifies ext
      ensures ext.storage == old(ext.storage) + items && ext.effects == old(ext.effects)
    {
      var todo := items.Keys;
      while todo != {}
        invariant todo <= items.Keys
        invariant forall n :: n in ext.storage <==> n in old(ext.storage) || (n in items && n !in todo)
        invariant forall n :: n in ext.storage ==>
          ext.storage[n] == if n in items && n !in todo then items[n] else old(ext.storage)[n]
        invariant ext.effects == old(ext.effects)
        decreases todo
      {
        var n :| n in todo;
        ext.storage := ext.storage[n := items[n]];
        todo := todo - {n};
      }
      assert ext.storage.Keys == (old(ext.storage) + items).Keys;
    }

    /** `handleGetSyncStorage(items)`. */
    method ReceiveSyncItems(items: map<string, Value>, now: int)
      requires Linked()
      modifies this, ext, config
      ensures Linked()
      ensures Model() == ReceiveSync(hotkey, old(Model()), items, now)
    {
      if config != null {
        config.Clear([Sync]);
        WriteItems(items);
        config.Init(true, now);
      } else {
        WriteItems(items);
        config := new Config(ext, hotkey, now);
      }
    }

    /** `onSignInChanged`. */
    method SignInChanged()
      requires Linked()
      modifies ext
      ensures Linked()
      ensures Model() == Requests.SignInChanged(old(Model()))
    {
      if config != null {
        ext.effects := ext.effects + [FetchSync(SyncNames())];
      }
    }

    /** The broadcast timer reaching `now`. */
    method TimerFired(now: int)
      requires Linked()
      modifies ext, config
      ensures Linked()
      ensures Model() == Requests.TimerFired(old(Model()), now)
    {
      if config != null {
        config.Fire(now);
      }
    }

    /** The version check of the boot chain. */
    method StoreVersion(version: string, now: int)
      requires Linked() && config != null
      modifies ext, config
      ensures Linked()
      ensures config.Snapshot() == Requests.StoreVersion(hotkey, old(config.Snapshot()), version, now)
    {
      var stored := config.Get("version");
      if stored != Some(Str(version)) {
        config.Set("version", Str(version), now);
      }
    }

    /** The `forEach` over the queued init requests: each is answered
        through its own responder, in arrival order. */
    method AnswerQueue(q: seq<Pending>)
      requires Linked()
      modifies this
      ensures Linked()
      ensures Model() == AnswerAll(old(Model()), q, Builder(hotkey, old(payload), old(ext.storage)))
    {
      ghost var w1 := Model();
      var pl, items := payload, ext.storage;
      ghost var build := Builder(hotkey, pl, items);
      for i := 0 to |q|
        invariant Linked() && payload == pl
        invariant Model() == AnswerAll(w1, q[..i], build)
      {
        var r := InitReply(q[i].kind, q[i].data, q[i].sender, pl, hotkey, items);
        assert Answer(q[i], build) == Reply(q[i].id, if r.Some? then InitResponse(r.value) else NoArg);
        ghost var prev := Model();
        Res(q[i].id, if r.Some? then InitResponse(r.value) else NoArg);
        assert AnswerAll(w1, q[..i + 1], build) == Respond(prev, q[i].id, Answer(q[i], build).arg) by {
          assert q[..i + 1][..i] == q[..i];
        }
      }
      assert q[..|q|] == q;
    }

    /** The boot chain's last step, once the configuration exists and the
        resources are loaded: store the running version when it differs,
        open the gate and run the queued init requests in arrival order. */
    method OpenGate(version: string, now: int)
      requires Linked() && initializing && config != null
      modifies this, ext, config
      ensures Linked()
      ensures Model() == Requests.OpenGate(hotkey, old(Model()), version, now)
    {
      ghost var w0 := Model();
      StoreVersion(version, now);
      ghost var s := config.Snapshot();
      assert s == Requests.StoreVersion(hotkey, w0.store, version, now);
      initializing := false;
      var q := blocked;
      blocked := [];
      assert Model() == w0.(store := s, initializing := false, blocked := []);
      assert payload == w0.payload && ext.storage == s.items && q == w0.blocked;
      AnswerQueue(q);
    }

    /** The boot chain's error handler. */
    method BootFailed()
      requires Linked()
      modifies ext
      ensures Linked()
      ensures Model() == Requests.BootFailed(old(Model()))
    {
      ext.effects := ext.effects + [LogBootError];
    }
  }
}
