/** The background page as a whole, as a value: the configuration, the
    bootstrap gate with its queue of init requests, the pushed payload and
    the transport responders of the requests seen so far. Every entry point
    of the page is a function from one such value to the next, and the
    lemmas below prove what the page promises its callers: each request is
    answered at most once, a request not kept open is answered before
    `handleRequest` returns, init requests that arrive while the page boots
    wait for the gate, and the gate answers each of them in arrival order. */
module Requests {
  import opened Json
  import opened Schema
  import opened Extension
  import opened Broadcast
  import opened ConfigSpec
  import opened Router

  /** The page's state. `store` is the configuration's state when `ready`
      (`config` is not null); before that only its storage and effects are
      meaningful. `live` holds the requests whose `respond` has not been
      used up, `sent` every call of a transport `respond`. */
  datatype World = World(
    store: State,
    ready: bool,
    initializing: bool,
    blocked: seq<Pending>,
    payload: Option<Value>,
    sent: seq<Reply>,
    live: set<nat>,
    nextId: nat)

  /** The page before any event: no configuration, the gate closed, an
      empty queue, no payload. */
  function Boot(items: map<string, Value>, effects: seq<Effect>): World {
    World(State(items, effects, false, Idle, []), false, true, [], None, [], {}, 0)
  }

  /** The configuration as the handlers see it, `None` while `config` is null. */
  function Cfg(w: World): Option<State> {
    if w.ready then Some(w.store) else None
  }

  /** The requests waiting in the queue. */
  function Ids(q: seq<Pending>): set<nat> {
    set i | 0 <= i < |q| :: q[i].id
  }

  /** What the page keeps true between events: every request is answered at
      most once and an answered request's responder is used up; the queue
      holds distinct open requests; once the gate is open the queue is empty
      and the configuration exists. */
  predicate Valid(w: World) {
    (forall i, j :: 0 <= i < j < |w.sent| ==> w.sent[i].id != w.sent[j].id) &&
    (forall i :: 0 <= i < |w.sent| ==> w.sent[i].id !in w.live && w.sent[i].id < w.nextId) &&
    (forall id :: id in w.live ==> id < w.nextId) &&
    Ids(w.blocked) <= w.live &&
    (forall i, j :: 0 <= i < j < |w.blocked| ==> w.blocked[i].id != w.blocked[j].id) &&
    (!w.initializing ==> w.blocked == [] && w.ready)
  }

  lemma BootValid(items: map<string, Value>, effects: seq<Effect>)
    ensures Valid(Boot(items, effects)) && Boot(items, effects).initializing
  {
  }

  /** `res(arg)`: the transport's `respond` is called once and then
      forgotten; later calls do nothing. */
  function Respond(w: World, id: nat, arg: Response): World {
    if id in w.live then w.(sent := w.sent + [Reply(id, arg)], live := w.live - {id}) else w
  }

  /** Responding keeps the page valid when the request is not one waiting
      in the queue, and sends at most one reply. */
  lemma RespondValid(w: World, id: nat, arg: Response)
    requires Valid(w) && id !in Ids(w.blocked)
    ensures Valid(Respond(w, id, arg))
    ensures id !in Respond(w, id, arg).live
  {
    if id in w.live {
      var r := Respond(w, id, arg);
      forall i | 0 <= i < |r.blocked|
        ensures r.blocked[i].id in r.live
      {
        assert r.blocked[i].id in Ids(w.blocked);
      }
    }
  }

  // ---------------------------------------------------------------------
  // The handlers

  /** How an init reply is built for a queued or a current request. */
  function Builder(hk: Hotkey, payload: Option<Value>, items: map<string, Value>): Pending -> Option<InitMessage> {
    (p: Pending) => InitReply(p.kind, p.data, p.sender, payload, hk, items)
  }

  /** `handleInit`: while the page boots the request is queued and kept
      open; afterwards it is answered with the init reply. */
  function InitHandler(hk: Hotkey, w: World, p: Pending): (World, Outcome) {
    if w.initializing then (w.(blocked := w.blocked + [p]), Returned(Some(Bool(true))))
    else
      match Builder(hk, w.payload, w.store.items)(p)
      case None => (w, Threw)
      case Some(m) => (Respond(w, p.id, InitResponse(m)), Returned(None))
  }

  /** `handleGetStorage`. */
  function GetStorageHandler(w: World, id: nat, data: Value): (World, Outcome) {
    match GetStorageReply(data, Cfg(w))
    case None => (w, Threw)
    case Some(r) => (Respond(w, id, r), Returned(None))
  }

  /** `handleSetStorage`. */
  function SetStorageHandler(hk: Hotkey, w: World, data: Value, now: int): (World, Outcome) {
    var (cfg, threw) := StoreItems(hk, Cfg(w), data, now);
    (if cfg.Some? then w.(store := cfg.value) else w, if threw then Threw else Returned(None))
  }

  /** `handleResetOptions`; `config.clear` throws while there is no
      configuration. */
  function ResetHandler(hk: Hotkey, w: World, now: int): (World, Outcome) {
    if w.ready then (w.(store := ResetState(hk, w.store, now)), Returned(None)) else (w, Threw)
  }

  /** A handler whose work lies outside this model, described by what it
      does to its request: the argument it responds with at once, if any,
      and how it ends. */
  datatype OtherCall = OtherCall(reply: Option<Value>, outcome: Outcome)

  function OtherHandler(w: World, id: nat, other: OtherCall): (World, Outcome) {
    (if other.reply.Some? then Respond(w, id, HandlerResponse(other.reply.value)) else w, other.outcome)
  }

  /** The call `handler(command, data, sender, res)`. */
  function RunHandler(hk: Hotkey, w: World, h: Handler, id: nat, command: Value, data: Value, sender: Value,
                      other: OtherCall, now: int): (World, Outcome)
  {
    match h
    case HandleInit(kind) => InitHandler(hk, w, Pending(id, kind, data, sender))
    case GetStorage => GetStorageHandler(w, id, data)
    case SetStorage => SetStorageHandler(hk, w, data, now)
    case PushPayload => (w.(payload := Some(data)), Returned(None))
    case ResetOptions => ResetHandler(hk, w, now)
    case GetMemorandum => (w, Threw)
    case _ => OtherHandler(w, id, other)
  }

  /** The request after `res` is made for it: it gets the next number and
      an unused responder. */
  function Open(w: World): World {
    w.(nextId := w.nextId + 1, live := w.live + {w.nextId})
  }

  /** The outcome of the routed handler, `None` when no handler is reached. */
  function Handled(hk: Hotkey, w: World, command: Option<Value>, data: Option<Value>, sender: Value,
                   other: OtherCall, now: int): (World, Option<Outcome>)
  {
    match Route(command, data)
    case None => (Open(w), None)
    case Some(h) =>
      var (w2, o) := RunHandler(hk, Open(w), h, w.nextId, command.value, data.value, sender, other, now);
      (w2, Some(o))
  }

  /** `handleRequest`: route, run the handler, and unless it asked for a
      late response answer with no argument; the value is what the request
      listener returns. A throw in the handler counts as `false`. */
  function Request(hk: Hotkey, w: World, command: Option<Value>, data: Option<Value>, sender: Value,
                   other: OtherCall, now: int): (World, Option<Value>)
  {
    var (w2, o) := Handled(hk, w, command, data, sender, other, now);
    var late := if o.None? then Some(Bool(false)) else LateFlag(o.value);
    (if Present(late) then w2 else Respond(w2, w.nextId, NoArg), late)
  }

  // ---------------------------------------------------------------------
  // Properties of a request

  /** Opening a request keeps the page valid. */
  lemma OpenValid(w: World)
    requires Valid(w)
    ensures Valid(Open(w)) && w.nextId in Open(w).live && w.nextId !in Ids(w.blocked)
  {
  }

  /** The three things a handler may do to the bookkeeping of request `id`:
      nothing, answer it, or queue it; it touches no other request, and
      neither closes the gate again nor drops the configuration. */
  predicate Bookkept(w: World, r: World, id: nat) {
    r.nextId == w.nextId && r.initializing == w.initializing && (w.ready ==> r.ready) &&
    ((r.sent == w.sent && r.live == w.live && r.blocked == w.blocked) ||
     (id in w.live && r.live == w.live - {id} && r.blocked == w.blocked &&
      |r.sent| == |w.sent| + 1 && r.sent[..|w.sent|] == w.sent && r.sent[|w.sent|].id == id) ||
     (w.initializing && r.sent == w.sent && r.live == w.live &&
      |r.blocked| == |w.blocked| + 1 && r.blocked[..|w.blocked|] == w.blocked && r.blocked[|w.blocked|].id == id))
  }

  /** Whatever a handler does within those bounds keeps the page valid. */
  lemma BookkeptValid(w: World, r: World, id: nat)
    requires Valid(w) && id in w.live && id !in Ids(w.blocked) && Bookkept(w, r, id)
    ensures Valid(r)
  {
    if r.blocked != w.blocked {
      assert Ids(r.blocked) == Ids(w.blocked) + {id} by {
        forall x | x in Ids(r.blocked)
          ensures x in Ids(w.blocked) + {id}
        {
          var i :| 0 <= i < |r.blocked| && r.blocked[i].id == x;
          if i < |w.blocked| {
            assert w.blocked[i] == r.blocked[..|w.blocked|][i];
          }
        }
        forall x | x in Ids(w.blocked)
          ensures x in Ids(r.blocked)
        {
          var i :| 0 <= i < |w.blocked| && w.blocked[i].id == x;
          assert r.blocked[i] == r.blocked[..|w.blocked|][i];
        }
      }
      forall i, j | 0 <= i < j < |r.blocked|
        ensures r.blocked[i].id != r.blocked[j].id
      {
        assert r.blocked[i] == r.blocked[..|w.blocked|][i] || i == |w.blocked|;
        if j < |w.blocked| {
          assert r.blocked[j] == r.blocked[..|w.blocked|][j];
        } else {
          assert r.blocked[i].id in Ids(w.blocked);
        }
      }
    } else if r.sent != w.sent {
      forall i | 0 <= i < |r.sent|
        ensures r.sent[i].id !in r.live && r.sent[i].id < r.nextId
      {
        if i < |w.sent| {
          assert r.sent[i] == r.sent[..|w.sent|][i];
        }
      }
      forall i, j | 0 <= i < j < |r.sent|
        ensures r.sent[i].id != r.sent[j].id
      {
        assert r.sent[i] == r.sent[..|w.sent|][i];
        if j < |w.sent| {
          assert r.sent[j] == r.sent[..|w.sent|][j];
        }
      }
    }
  }

  /** Answering a request is bookkeeping of the second kind. */
  lemma RespondBookkept(w: World, id: nat, arg: Response)
    ensures Bookkept(w, Respond(w, id, arg), id)
  {
    if id in w.live {
      assert Respond(w, id, arg).sent[..|w.sent|] == w.sent;
    }
  }

  /** The init handler queues or answers its request. */
  lemma InitHandlerBookkept(hk: Hotkey, w: World, p: Pending)
    ensures Bookkept(w, InitHandler(hk, w, p).0, p.id)
    ensures p.id !in Ids(w.blocked) && p.id in Ids(InitHandler(hk, w, p).0.blocked) ==>
      InitHandler(hk, w, p).1 == Returned(Some(Bool(true)))
  {
    if w.initializing {
      assert (w.blocked + [p])[..|w.blocked|] == w.blocked;
    } else {
      match Builder(hk, w.payload, w.store.items)(p)
      case None =>
      case Some(m) => RespondBookkept(w, p.id, InitResponse(m));
    }
  }

  /** The handlers that never queue keep within the bounds. */
  lemma StorageHandlersBookkept(hk: Hotkey, w: World, id: nat, data: Value, other: OtherCall, now: int)
    ensures Bookkept(w, GetStorageHandler(w, id, data).0, id) && GetStorageHandler(w, id, data).0.blocked == w.blocked
    ensures Bookkept(w, SetStorageHandler(hk, w, data, now).0, id) && SetStorageHandler(hk, w, data, now).0.blocked == w.blocked
    ensures Bookkept(w, ResetHandler(hk, w, now).0, id) && ResetHandler(hk, w, now).0.blocked == w.blocked
    ensures Bookkept(w, OtherHandler(w, id, other).0, id) && OtherHandler(w, id, other).0.blocked == w.blocked
  {
    match GetStorageReply(data, Cfg(w)) {
      case None =>
      case Some(x) => RespondBookkept(w, id, x);
    }
    StoreItemsKeepsReady(hk, Cfg(w), data, now);
    if other.reply.Some? {
      RespondBookkept(w, id, HandlerResponse(other.reply.value));
    }
  }

  /** The storage handler neither creates nor drops the configuration. */
  lemma StoreItemsKeepsReady(hk: Hotkey, cfg: Option<State>, data: Value, now: int)
    ensures StoreItems(hk, cfg, data, now).0.Some? == cfg.Some?
  {
    match SetStorageList(data)
    case None =>
    case Some(items) => ApplyItemsSchemaOnly(hk, cfg, items, now, "");
  }

  /** Every handler keeps within the bounds, and one that queues its
      request asks for a late response. */
  lemma RunHandlerBookkept(hk: Hotkey, w: World, h: Handler, id: nat, command: Value, data: Value, sender: Value,
                           other: OtherCall, now: int)
    requires id !in Ids(w.blocked)
    ensures var (r, o) := RunHandler(hk, w, h, id, command, data, sender, other, now);
      Bookkept(w, r, id) && (id in Ids(r.blocked) ==> o == Returned(Some(Bool(true))))
  {
    var r := RunHandler(hk, w, h, id, command, data, sender, other, now);
    match h
    case HandleInit(kind) =>
      assert r == InitHandler(hk, w, Pending(id, kind, data, sender));
      InitHandlerBookkept(hk, w, Pending(id, kind, data, sender));
    case PushPayload =>
    case GetStorage =>
      assert r == GetStorageHandler(w, id, data);
      StorageHandlersBookkept(hk, w, id, data, other, now);
    case SetStorage =>
      assert r == SetStorageHandler(hk, w, data, now);
      StorageHandlersBookkept(hk, w, id, data, other, now);
    case ResetOptions =>
      assert r == ResetHandler(hk, w, now);
      StorageHandlersBookkept(hk, w, id, data, other, now);
    case GetMemorandum =>
    case _ =>
      assert r == OtherHandler(w, id, other);
      StorageHandlersBookkept(hk, w, id, data, other, now);
  }

  lemma HandledBookkept(hk: Hotkey, w: World, command: Option<Value>, data: Option<Value>, sender: Value,
                        other: OtherCall, now: int)
    requires Valid(w)
    ensures var (w2, o) := Handled(hk, w, command, data, sender, other, now);
      Bookkept(Open(w), w2, w.nextId) &&
      (w.nextId in Ids(w2.blocked) ==> o == Some(Returned(Some(Bool(true)))))
  {
    OpenValid(w);
    if Route(command, data).Some? {
      RunHandlerBookkept(hk, Open(w), Route(command, data).value, w.nextId, command.value, data.value, sender, other, now);
    }
  }

  /** Every request keeps the page valid: a request is never answered
      twice, and the gate's queue only holds open requests. A request the
      page does not keep open is answered exactly once before
      `handleRequest` returns; one it queues asks for a late response. */
  lemma RequestValid(hk: Hotkey, w: World, command: Option<Value>, data: Option<Value>, sender: Value,
                     other: OtherCall, now: int)
    requires Valid(w)
    ensures var (r, late) := Request(hk, w, command, data, sender, other, now);
      Valid(r) && r.nextId == w.nextId + 1 &&
      (!Present(late) ==> w.nextId !in r.live && exists i :: 0 <= i < |r.sent| && r.sent[i].id == w.nextId) &&
      (w.nextId in Ids(r.blocked) ==> late == Some(Bool(true)) && w.nextId in r.live)
    ensures var (r, late) := Request(hk, w, command, data, sender, other, now);
      var (w2, o) := Handled(hk, w, command, data, sender, other, now);
      (!Present(late) && w.nextId in w2.live ==> r.sent == w2.sent + [Reply(w.nextId, NoArg)]) &&
      (!Present(late) && w.nextId !in w2.live ==> r.sent == w2.sent) &&
      (Present(late) ==> r == w2)
  {
    var id := w.nextId;
    OpenValid(w);
    HandledBookkept(hk, w, command, data, sender, other, now);
    var (w2, o) := Handled(hk, w, command, data, sender, other, now);
    BookkeptValid(Open(w), w2, id);
    var late := if o.None? then Some(Bool(false)) else LateFlag(o.value);
    if !Present(late) {
      RespondValid(w2, id, NoArg);
      if id in w2.live {
        assert Respond(w2, id, NoArg).sent[|w2.sent|].id == id;
      } else {
        assert w2.sent[|Open(w).sent|].id == id;
      }
    }
  }

  /** A request that reaches no handler gets the empty reply and changes
      nothing else. */
  lemma UnroutedRequest(hk: Hotkey, w: World, command: Option<Value>, data: Option<Value>, sender: Value,
                        other: OtherCall, now: int)
    requires Valid(w) && Route(command, data).None?
    ensures var (r, late) := Request(hk, w, command, data, sender, other, now);
      late == Some(Bool(false)) &&
      r == w.(nextId := w.nextId + 1, sent := w.sent + [Reply(w.nextId, NoArg)])
  {
    assert w.nextId !in w.live;
    assert w.live + {w.nextId} - {w.nextId} == w.live;
  }

  /** `handleGetMemorandum` calls the undeclared `response`, so it throws
      before answering, and the request gets the empty reply. */
  lemma GetMemorandumAnswersEmpty(hk: Hotkey, w: World, command: Value, data: Value, sender: Value,
                                  other: OtherCall, now: int)
    requires Valid(w) && Truthy(command) && Truthy(data) && TypeKey(command) == "get-memorandum"
    ensures var (r, late) := Request(hk, w, Some(command), Some(data), sender, other, now);
      late == Some(Bool(false)) &&
      r == w.(nextId := w.nextId + 1, sent := w.sent + [Reply(w.nextId, NoArg)])
  {
    assert Route(Some(command), Some(data)) == Some(GetMemorandum);
    assert w.nextId !in w.live;
    assert w.live + {w.nextId} - {w.nextId} == w.live;
  }

  /** While the page boots an init request is queued and kept open, and
      nothing is sent. */
  lemma InitWaitsForGate(hk: Hotkey, w: World, command: Option<Value>, data: Option<Value>, sender: Value,
                         other: OtherCall, now: int)
    requires w.initializing && Route(command, data).Some? && Route(command, data).value.HandleInit?
    ensures var (r, late) := Request(hk, w, command, data, sender, other, now);
      late == Some(Bool(true)) && r.sent == w.sent && w.nextId in r.live &&
      r.blocked == w.blocked + [Pending(w.nextId, Route(command, data).value.kind, data.value, sender)]
  {
  }

  /** Once the gate is open an init request is answered at once: with the
      init reply, or with no argument when building it throws. */
  lemma InitAfterGate(hk: Hotkey, w: World, command: Option<Value>, data: Option<Value>, sender: Value,
                      other: OtherCall, now: int)
    requires Valid(w) && !w.initializing && Route(command, data).Some? && Route(command, data).value.HandleInit?
    ensures var (r, late) := Request(hk, w, command, data, sender, other, now);
      var p := Pending(w.nextId, Route(command, data).value.kind, data.value, sender);
      !Present(late) && r.blocked == [] &&
      r.sent == w.sent + [Answer(p, Builder(hk, w.payload, w.store.items))]
  {
  }

  // ---------------------------------------------------------------------
  // Configuration events

  /** `handleGetSyncStorage(items)`: with a configuration, the sync keys
      are cleared, the fetched items written and `init` run with the handler
      on; without one, the items are written and the configuration created. */
  function ReceiveSync(hk: Hotkey, w: World, items: map<string, Value>, now: int): World {
    if w.ready then w.(store := SyncMerge(hk, w.store, items, now))
    else w.(store := Init(hk, State(w.store.items + items, w.store.effects, true, Idle, []), false, now), ready := true)
  }

  /** The configuration exists afterwards, and the page stays valid. */
  lemma ReceiveSyncValid(hk: Hotkey, w: World, items: map<string, Value>, now: int)
    requires Valid(w)
    ensures Valid(ReceiveSync(hk, w, items, now)) && ReceiveSync(hk, w, items, now).ready
  {
  }

  /** The first fetch creates a configuration in which every schema key
      has a value of its default's type. */
  lemma FirstSyncConforms(hk: Hotkey, w: World, items: map<string, Value>, now: int, k: Setting)
    requires !w.ready
    ensures Conforms(hk, ReceiveSync(hk, w, items, now).store.items, k)
  {
    InitConforms(hk, State(w.store.items + items, w.store.effects, true, Idle, []), false, now);
  }

  /** The names `Object.keys(config.info.sync)` lists. */
  function SyncNames(): seq<string> {
    seq(|SyncSettings|, i requires 0 <= i < |SyncSettings| => Name(SyncSettings[i]))
  }

  /** `onSignInChanged`: with a configuration, the remote copy is asked
      for the sync keys; the answer comes back as `ReceiveSync`. */
  function SignInChanged(w: World): World {
    if w.ready then w.(store := w.store.(effects := w.store.effects + [FetchSync(SyncNames())])) else w
  }

  /** The broadcast timer reaching `now`. */
  function TimerFired(w: World, now: int): World {
    if w.ready then
      var (b, out) := Tick(w.store.batch, now);
      w.(store := w.store.(batch := b, effects := w.store.effects + out))
    else w
  }

  // ---------------------------------------------------------------------
  // The gate

  /** Answering the queued requests one after the other through their
      responders. */
  function AnswerAll(w: World, q: seq<Pending>, build: Pending -> Option<InitMessage>): World {
    if q == [] then w
    else
      var last := Answer(q[|q| - 1], build);
      Respond(AnswerAll(w, q[..|q| - 1], build), last.id, last.arg)
  }

  /** The version check: `config.set('version', ...)` only when the stored
      version differs from the running one. */
  function StoreVersion(hk: Hotkey, s: State, version: string, now: int): (r: State)
    ensures Get(r, "version") == Some(Str(version))
  {
    if Get(s, "version") != Some(Str(version)) then
      SetThenGet(hk, s, "version", Str(version), now);
      Set(hk, s, "version", Str(version), now)
    else s
  }

  /** The boot chain's last step: store the running version when it
      differs, open the gate, and answer every queued init request in
      arrival order, each with its reply or, when building it throws, with
      no argument. */
  function OpenGate(hk: Hotkey, w: World, version: string, now: int): World {
    var s := StoreVersion(hk, w.store, version, now);
    AnswerAll(w.(store := s, initializing := false, blocked := []), w.blocked, Builder(hk, w.payload, s.items))
  }

  /** Answering distinct open requests sends exactly their replies, in
      order, and uses up their responders. */
  lemma {:induction false} AnswerAllSends(w: World, q: seq<Pending>, build: Pending -> Option<InitMessage>)
    requires Ids(q) <= w.live
    requires forall i, j :: 0 <= i < j < |q| ==> q[i].id != q[j].id
    ensures var r := AnswerAll(w, q, build);
      r.sent == w.sent + ReplayReplies(q, build) && r.live == w.live - Ids(q) &&
      r == w.(sent := r.sent, live := r.live)
    decreases |q|
  {
    if q != [] {
      var n := |q| - 1;
      assert Ids(q[..n]) <= Ids(q) by {
        forall x | x in Ids(q[..n]) ensures x in Ids(q) {
          var i :| 0 <= i < n && q[..n][i].id == x;
          assert q[i].id == x;
        }
      }
      AnswerAllSends(w, q[..n], build);
      assert q[n].id !in Ids(q[..n]) by {
        forall i | 0 <= i < n ensures q[..n][i].id != q[n].id {
          assert q[..n][i] == q[i];
        }
      }
      assert Ids(q) == Ids(q[..n]) + {q[n].id} by {
        forall x | x in Ids(q) ensures x in Ids(q[..n]) + {q[n].id} {
          var i :| 0 <= i < |q| && q[i].id == x;
          if i < n {
            assert q[..n][i] == q[i];
          }
        }
      }
    }
  }

  /** Answering requests one by one, with the queue empty, keeps the page
      valid. */
  lemma {:induction false} AnswerAllValid(w: World, q: seq<Pending>, build: Pending -> Option<InitMessage>)
    requires Valid(w) && w.blocked == []
    ensures Valid(AnswerAll(w, q, build)) && AnswerAll(w, q, build).blocked == []
    decreases |q|
  {
    if q != [] {
      AnswerAllValid(w, q[..|q| - 1], build);
      var last := Answer(q[|q| - 1], build);
      RespondValid(AnswerAll(w, q[..|q| - 1], build), last.id, last.arg);
    }
  }

  /** Opening the gate answers each queued init request exactly once, in
      arrival order, stores the running version, and keeps the page
      valid. */
  lemma OpenGateAnswersQueue(hk: Hotkey, w: World, version: string, now: int)
    requires Valid(w) && w.initializing && w.ready
    ensures var r := OpenGate(hk, w, version, now);
      Valid(r) && !r.initializing && r.blocked == [] &&
      Get(r.store, "version") == Some(Str(version)) &&
      r.sent == w.sent + ReplayReplies(w.blocked, Builder(hk, w.payload, r.store.items)) &&
      r.live == w.live - Ids(w.blocked)
  {
    var s := StoreVersion(hk, w.store, version, now);
    var w1 := w.(store := s, initializing := false, blocked := []);
    assert Valid(w1);
    var build := Builder(hk, w.payload, s.items);
    AnswerAllValid(w1, w.blocked, build);
    AnswerAllSends(w1, w.blocked, build);
  }

  /** A boot that fails before the gate opens only logs the error: the gate
      stays closed, so the queued init requests are never answered. */
  function BootFailed(w: World): World {
    w.(store := w.store.(effects := w.store.effects + [LogBootError]))
  }

  lemma BootFailedStrands(w: World)
    requires Valid(w) && w.initializing
    ensures var r := BootFailed(w);
      Valid(r) && r.initializing && r.blocked == w.blocked && r.sent == w.sent
  {
  }
}
