/** The request side of the backend as functions: which handler a command
    reaches, what the init handler answers, how the set-storage handler
    walks its items, and what replaying the queued init requests sends. */
module Router {
  import opened Json
  import opened Extension
  import opened Schema
  import opened ConfigSpec
  import opened Urls

  /** The three command types served by `handleInit`. */
  datatype InitKind = PageInit | AgentInit | OptionsInit

  /** The entries of `commandMap`. */
  datatype Handler =
    | HandleInit(kind: InitKind)
    | Transfer | WriteFile | GetStorage | SetStorage | PushPayload | PlaySound
    | SetClipboard | GetClipboard | SetMemorandum | GetMemorandum | ResetOptions
    | OpenOptions | QueryShortcut | Terminated

  /** The command type each handler is registered under. */
  function CommandType(h: Handler): string {
    match h
    case HandleInit(PageInit) => "init"
    case HandleInit(AgentInit) => "init-agent"
    case HandleInit(OptionsInit) => "init-options"
    case Transfer => "transfer"
    case WriteFile => "write"
    case GetStorage => "get-storage"
    case SetStorage => "set-storage"
    case PushPayload => "push-payload"
    case PlaySound => "play-sound"
    case SetClipboard => "set-clipboard"
    case GetClipboard => "get-clipboard"
    case SetMemorandum => "set-memorandum"
    case GetMemorandum => "get-memorandum"
    case ResetOptions => "reset-options"
    case OpenOptions => "open-options"
    case QueryShortcut => "query-shortcut"
    case Terminated => "terminated"
  }

  /** `commandMap[type]`, reading only the map's own entries. The entries
      are split in two halves, in the map's order. */
  function Dispatch(t: string): Option<Handler> {
    if DispatchFront(t).Some? then DispatchFront(t) else DispatchBack(t)
  }

  function DispatchFront(t: string): Option<Handler> {
    if t == "init-agent" then Some(HandleInit(AgentInit))
    else if t == "init-options" then Some(HandleInit(OptionsInit))
    else if t == "init" then Some(HandleInit(PageInit))
    else if t == "transfer" then Some(Transfer)
    else if t == "write" then Some(WriteFile)
    else if t == "get-storage" then Some(GetStorage)
    else if t == "set-storage" then Some(SetStorage)
    else if t == "push-payload" then Some(PushPayload)
    else None
  }

  function DispatchBack(t: string): Option<Handler> {
    if t == "play-sound" then Some(PlaySound)
    else if t == "set-clipboard" then Some(SetClipboard)
    else if t == "get-clipboard" then Some(GetClipboard)
    else if t == "set-memorandum" then Some(SetMemorandum)
    else if t == "get-memorandum" then Some(GetMemorandum)
    else if t == "reset-options" then Some(ResetOptions)
    else if t == "open-options" then Some(OpenOptions)
    else if t == "query-shortcut" then Some(QueryShortcut)
    else if t == "terminated" then Some(Terminated)
    else None
  }

  /** Every handler is reached by its own command type. */
  lemma DispatchFindsType(h: Handler)
    ensures Dispatch(CommandType(h)) == Some(h)
  {
    match h
    case HandleInit(_) =>
    case Transfer | WriteFile | GetStorage | SetStorage | PushPayload => DispatchFindsTools(h);
    case _ => DispatchFindsLater(h);
  }

  lemma DispatchFindsTools(h: Handler)
    requires h in {Transfer, WriteFile, GetStorage, SetStorage, PushPayload}
    ensures Dispatch(CommandType(h)) == Some(h)
  {
  }

  lemma DispatchFindsLater(h: Handler)
    requires !h.HandleInit? && h !in {Transfer, WriteFile, GetStorage, SetStorage, PushPayload}
    ensures Dispatch(CommandType(h)) == Some(h)
  {
    assert DispatchFront(CommandType(h)).None?;
  }

  /** A command type reaches only the handler registered under it. */
  lemma DispatchOnlyTypes(t: string)
    ensures Dispatch(t).Some? ==> CommandType(Dispatch(t).value) == t
  {
    DispatchFrontOnlyTypes(t);
    DispatchBackOnlyTypes(t);
  }

  lemma DispatchFrontOnlyTypes(t: string)
    ensures DispatchFront(t).Some? ==> CommandType(DispatchFront(t).value) == t
  {
  }

  lemma DispatchBackOnlyTypes(t: string)
    ensures DispatchBack(t).Some? ==> CommandType(DispatchBack(t).value) == t
  {
  }

  /** Together: a type reaches a handler exactly when the handler is
      registered under it. */
  lemma DispatchMeaning(t: string, h: Handler)
    ensures Dispatch(t) == Some(h) <==> CommandType(h) == t
  {
    DispatchFindsType(h);
    DispatchOnlyTypes(t);
  }

  /** The key `commandMap[command.type]` looks up: the string form of the
      command's `type`, `"undefined"` when there is none. */
  function TypeKey(command: Value): string {
    OptToJsString(Property(Some(command), "type"))
  }

  /** The handler a request reaches: none unless both `command` and `data`
      are truthy. */
  function Route(command: Option<Value>, data: Option<Value>): Option<Handler> {
    if Present(command) && Present(data) then Dispatch(TypeKey(command.value)) else None
  }

  /** How a handler call ends: it returns a value (`undefined` as `None`) or
      throws. */
  datatype Outcome = Returned(value: Option<Value>) | Threw

  /** The late-response flag `handleRequest` ends with: `false` unless the
      handler returned. */
  function LateFlag(o: Outcome): Option<Value> {
    if o.Returned? then o.value else Some(Bool(false))
  }

  // ---------------------------------------------------------------------
  // The command map as written

  /** What `commandMap[key]` finds as the code writes it: the map is a plain
      object, so the names it inherits from `Object.prototype` find the
      inherited members. Called as a handler, `Object` returns its first
      argument, `Object.prototype.toString` returns `"[object Undefined]"`,
      and every other inherited member throws. */
  datatype Member = OwnEntry(h: Handler) | ObjectConstructor | ObjectToString | ThrowingMember | NoEntry

  function DispatchAsWritten(t: string): Member {
    if Dispatch(t).Some? then OwnEntry(Dispatch(t).value)
    else if t == "constructor" then ObjectConstructor
    else if t == "toString" then ObjectToString
    else if t in ObjectPrototypeNames then ThrowingMember
    else NoEntry
  }

  /** How the call of an inherited member ends. */
  function MemberOutcome(m: Member, command: Value): Outcome
    requires !m.OwnEntry? && !m.NoEntry?
  {
    match m
    case ObjectConstructor => Returned(Some(command))
    case ObjectToString => Returned(Some(Str("[object Undefined]")))
    case ThrowingMember => Threw
  }

  /** The two lookups agree on every type except the inherited names. */
  lemma DispatchAsWrittenDiffers(t: string)
    ensures t !in ObjectPrototypeNames ==>
      (DispatchAsWritten(t).OwnEntry? <==> Dispatch(t).Some?) && (DispatchAsWritten(t).NoEntry? <==> Dispatch(t).None?)
    ensures t in ObjectPrototypeNames ==> Dispatch(t).None? && !DispatchAsWritten(t).NoEntry?
  {
    if t in ObjectPrototypeNames {
      FrontMissesInherited(t);
      BackMissesInherited(t);
    }
  }

  /** No command type is a name inherited from `Object.prototype`. */
  lemma FrontMissesInherited(t: string)
    requires t in ObjectPrototypeNames
    ensures DispatchFront(t).None?
  {
  }

  lemma BackMissesInherited(t: string)
    requires t in ObjectPrototypeNames
    ensures DispatchBack(t).None?
  {
  }

  /** A command of type `"toString"` or `"constructor"` reaches an inherited
      member that returns a truthy value, so as written the request is taken
      for a late response and is never answered; with only the map's own
      entries it gets the empty response. */
  lemma InheritedTypesNeverAnswered(command: Value)
    requires TypeKey(command) == "toString" || TypeKey(command) == "constructor"
    requires Truthy(command)
    ensures var m := DispatchAsWritten(TypeKey(command));
      !m.OwnEntry? && !m.NoEntry? && Present(LateFlag(MemberOutcome(m, command)))
    ensures Dispatch(TypeKey(command)).None?
  {
  }

  // ---------------------------------------------------------------------
  // handleInit

  /** The object `handleInit` answers with, less the entries taken from the
      host's resources and services. A `None` field is `undefined`, which the
      message channel leaves out. */
  datatype InitMessage = InitMessage(
    tabId: Value,
    testMode: bool,
    targets: Option<Value>,
    shortcut: Option<Value>,
    shortcutCode: Value,
    fontFamily: Option<Value>,
    quickActivation: Option<Value>,
    payload: Value,
    upgradeNotify: Option<Value>,
    exrc: Option<Value>,
    lineInputHistories: Option<Value>,
    registers: Option<Value>,
    qaBlacklist: Option<Value>)

  /** A value `isTestUrl` accepts without throwing. */
  predicate UrlLike(v: Option<Value>) {
    v.Some? && (v.value.Str? || v.value.Arr?)
  }

  /** Whether the pushed payload puts a page or options init in test mode:
      `payload && isTestUrl(payload.url)`, `None` when the test throws. */
  function PayloadTest(kind: InitKind, payload: Option<Value>): Option<bool> {
    if kind != AgentInit && Present(payload) then IsTestUrlValue(Property(payload, "url")) else Some(false)
  }

  /** The reply once the backend is up, `None` when building it throws.
      `items` is the storage the configuration reads. */
  function InitReply(kind: InitKind, data: Value, sender: Value, payload: Option<Value>,
                     hk: Hotkey, items: map<string, Value>): (r: Option<InitMessage>)
    ensures r.None? <==> !UrlLike(Property(Some(data), "url")) ||
                         (kind != AgentInit && Present(payload) && !UrlLike(Property(payload, "url")))
    ensures r.Some? ==> r.value.testMode == IsTestUrlValue(Property(Some(data), "url")).value
  {
    IsTestUrlThrows(Property(Some(data), "url"));
    IsTestUrlThrows(Property(payload, "url"));
    var testMode := IsTestUrlValue(Property(Some(data), "url"));
    var payloadTest := PayloadTest(kind, payload);
    if testMode.None? || payloadTest.None? then None
    else
      var exrc :=
        if kind == AgentInit then None
        else if payloadTest.value then AugmentExrc(Stored(items, "exrc"), OptToJsString(Property(payload, "url")))
        else Stored(items, "exrc");
      Some(InitMessage(
        tabId := sender,
        testMode := testMode.value,
        targets := Stored(items, "targets"),
        shortcut := Stored(items, "shortcut"),
        shortcutCode := hk.objectsForDOM(Stored(items, "shortcut")),
        fontFamily := Stored(items, "fontFamily"),
        quickActivation := Stored(items, "quickActivation"),
        payload := if Present(payload) then payload.value else Null,
        upgradeNotify := if kind == OptionsInit then Stored(items, "upgradeNotify") else None,
        exrc := exrc,
        lineInputHistories := if kind == PageInit then Stored(items, "wasavi_lineinput_histories") else None,
        registers := if kind == PageInit then Stored(items, "wasavi_registers") else None,
        qaBlacklist := if kind != PageInit then Stored(items, "qaBlacklist") else None))
  }

  /** In test mode the exrc the page or options init gets has a `set list`
      command and begins with the stored exrc, ending with a `set nooverride`
      line when the payload's URL asks for it; otherwise it is the stored
      exrc. The agent init gets none. */
  lemma InitReplyExrc(kind: InitKind, data: Value, sender: Value, payload: Option<Value>,
                      hk: Hotkey, items: map<string, Value>)
    requires InitReply(kind, data, sender, payload, hk, items).Some?
    ensures var m := InitReply(kind, data, sender, payload, hk, items).value;
      var stored := OptToJsString(Stored(items, "exrc"));
      (kind == AgentInit ==> m.exrc.None?) &&
      (kind != AgentInit && PayloadTest(kind, payload) == Some(false) ==> m.exrc == Stored(items, "exrc")) &&
      (kind != AgentInit && PayloadTest(kind, payload) == Some(true) ==>
        m.exrc.Some? && Test(OptToJsString(m.exrc), SetListWord) && StartsWith(OptToJsString(m.exrc), stored) &&
        (Test(OptToJsString(Property(payload, "url")), NooverrideQuery) ==>
          |OptToJsString(m.exrc)| >= 15 && OptToJsString(m.exrc)[|OptToJsString(m.exrc)| - 15..] == "\nset nooverride"))
  {
    if kind != AgentInit && PayloadTest(kind, payload) == Some(true) {
      AugmentExrcSpec(Stored(items, "exrc"), OptToJsString(Property(payload, "url")));
      WithListSpec(Stored(items, "exrc"));
    }
  }

  // ---------------------------------------------------------------------
  // Replaying the queued init requests

  /** An init request queued while the backend boots, with the arguments its
      closure captured. */
  datatype Pending = Pending(id: nat, kind: InitKind, data: Value, sender: Value)

  /** What a request's transport `respond` is called with: nothing, an init
      reply, a storage reply, or what another handler sends. */
  datatype Response =
    | NoArg
    | InitResponse(m: InitMessage)
    | StorageResponse(key: Option<Value>, value: Option<Value>)
    | HandlerResponse(v: Value)

  /** A call of the transport `respond` of request `id`. */
  datatype Reply = Reply(id: nat, arg: Response)

  /** What replaying one queued request sends, given how its reply is built:
      the reply, or the empty response when building it throws. */
  function Answer(p: Pending, build: Pending -> Option<InitMessage>): Reply {
    Reply(p.id, if build(p).Some? then InitResponse(build(p).value) else NoArg)
  }

  /** Replaying the queue in arrival order, each request answered once. */
  function ReplayReplies(q: seq<Pending>, build: Pending -> Option<InitMessage>): seq<Reply> {
    if q == [] then [] else ReplayReplies(q[..|q| - 1], build) + [Answer(q[|q| - 1], build)]
  }

  /** Every queued request is answered exactly once, in arrival order, with
      its own reply. */
  lemma {:induction false} ReplayAnswersEach(q: seq<Pending>, build: Pending -> Option<InitMessage>)
    ensures |ReplayReplies(q, build)| == |q|
    ensures forall i :: 0 <= i < |q| ==> ReplayReplies(q, build)[i] == Answer(q[i], build)
    decreases |q|
  {
    if q != [] {
      ReplayAnswersEach(q[..|q| - 1], build);
    }
  }

  /** `blockedEvents.forEach(cb => cb())` as written: the first closure that
      throws ends the replay, and neither it nor any later request is
      answered. */
  function ReplayAsWritten(q: seq<Pending>, build: Pending -> Option<InitMessage>): seq<Reply> {
    if q == [] || build(q[0]).None? then [] else [Answer(q[0], build)] + ReplayAsWritten(q[1..], build)
  }

  /** Whether no queued reply throws. */
  predicate NoneThrows(q: seq<Pending>, build: Pending -> Option<InitMessage>) {
    forall i :: 0 <= i < |q| ==> build(q[i]).Some?
  }

  /** As written, the replay sends a prefix of what the corrected replay
      sends, all of it exactly when no reply throws. */
  lemma {:induction false} ReplayAsWrittenPrefix(q: seq<Pending>, build: Pending -> Option<InitMessage>)
    ensures var w := ReplayAsWritten(q, build);
      |w| <= |q| && (forall i :: 0 <= i < |w| ==> w[i] == Answer(q[i], build)) &&
      (|w| == |q| <==> NoneThrows(q, build))
    decreases |q|
  {
    if q != [] && build(q[0]).Some? {
      ReplayAsWrittenPrefix(q[1..], build);
      var w := ReplayAsWritten(q, build);
      assert forall i :: 1 <= i < |w| ==> w[i] == ReplayAsWritten(q[1..], build)[i - 1] && q[i] == q[1..][i - 1];
      if NoneThrows(q[1..], build) {
        assert forall i :: 1 <= i < |q| ==> q[i] == q[1..][i - 1];
      }
      if NoneThrows(q, build) {
        assert forall i :: 0 <= i < |q[1..]| ==> q[1..][i] == q[i + 1];
      }
    }
  }

  /** A queued init whose data carries no URL throws while its reply is
      built; as written the request after it, which would have been
      answered, never is. */
  lemma ThrowingReplayStrandsLaterRequests(hk: Hotkey, items: map<string, Value>)
    ensures var q := [Pending(0, PageInit, Obj(map[]), Null), Pending(1, PageInit, Obj(map["url" := Str("x")]), Null)];
      var build := (p: Pending) => InitReply(p.kind, p.data, p.sender, None, hk, items);
      ReplayAsWritten(q, build) == [] &&
      |ReplayReplies(q, build)| == 2 &&
      ReplayReplies(q, build)[0] == Reply(0, NoArg) &&
      ReplayReplies(q, build)[1].id == 1 && ReplayReplies(q, build)[1].arg.InitResponse?
  {
    var q := [Pending(0, PageInit, Obj(map[]), Null), Pending(1, PageInit, Obj(map["url" := Str("x")]), Null)];
    var build := (p: Pending) => InitReply(p.kind, p.data, p.sender, None, hk, items);
    ReplayAnswersEach(q, build);
  }

  // ---------------------------------------------------------------------
  // handleGetStorage

  /** What `handleGetStorage` sends for `data`, `None` when it throws;
      `cfg` is the configuration's state, `None` while `config` is null.
      The `in` test throws on a primitive `data`; a `key` is read through
      `config.get`, which throws while there is no configuration. */
  function GetStorageReply(data: Value, cfg: Option<State>): Option<Response> {
    if !data.Obj? && !data.Arr? then None
    else if data.Obj? && "key" in data.fields then
      (if cfg.None? then None
       else Some(StorageResponse(Some(data.fields["key"]), Get(cfg.value, ToJsString(data.fields["key"])))))
    else Some(StorageResponse(None, None))
  }

  /** The reply echoes the key and carries the stored value exactly when the
      key names a schema entry; any other key reads as `undefined`, whatever
      the storage holds under it. */
  lemma GetStorageReadsSchemaKeys(data: Value, s: State)
    requires data.Obj? && "key" in data.fields
    ensures var name := ToJsString(data.fields["key"]);
      var r := GetStorageReply(data, Some(s));
      r.Some? && r.value.key == Some(data.fields["key"]) &&
      (Lookup(name).Some? ==> r.value.value == Stored(s.items, name)) &&
      (Lookup(name).None? ==> r.value.value.None?)
  {
  }

  // ---------------------------------------------------------------------
  // handleSetStorage

  /** The items `handleSetStorage` walks, `None` when the handler throws
      before the walk: a single `{key, value}` pair when `data` has both,
      otherwise `data.items` when it has that and it is truthy, otherwise
      nothing. The `in` tests throw on a primitive `data`, and `forEach`
      throws on truthy items that are not an array. */
  function SetStorageList(data: Value): Option<seq<Value>> {
    match data
    case Obj(f) =>
      if "key" in f && "value" in f then Some([Obj(map["key" := f["key"], "value" := f["value"]])])
      else if "items" in f then
        (if !Truthy(f["items"]) then Some([]) else if f["items"].Arr? then Some(f["items"].elems) else None)
      else Some([])
    case Arr(_) => Some([])
    case _ => None
  }

  /** One item of the walk over the configuration `cfg`, with a flag that
      reports a throw. An item that is not an object or an array throws at
      its `in` test, an item without `key` or `value` is skipped, and
      `config.set` throws while there is no configuration. */
  function ApplyItem(hk: Hotkey, cfg: Option<State>, item: Value, now: int): (Option<State>, bool) {
    match item
    case Obj(f) =>
      if "key" in f && "value" in f then
        (if cfg.Some? then (Some(Set(hk, cfg.value, ToJsString(f["key"]), f["value"], now)), false) else (cfg, true))
      else (cfg, false)
    case Arr(_) => (cfg, false)
    case _ => (cfg, true)
  }

  /** The `forEach` over the items, stopping at the first throw. */
  function ApplyItems(hk: Hotkey, cfg: Option<State>, items: seq<Value>, now: int): (Option<State>, bool) {
    if items == [] then (cfg, false)
    else
      var before := ApplyItems(hk, cfg, items[..|items| - 1], now);
      if before.1 then before else ApplyItem(hk, before.0, items[|items| - 1], now)
  }

  /** The whole handler: the configuration after it, and whether it threw. */
  function StoreItems(hk: Hotkey, cfg: Option<State>, data: Value, now: int): (Option<State>, bool) {
    match SetStorageList(data)
    case None => (cfg, true)
    case Some(items) => ApplyItems(hk, cfg, items, now)
  }

  /** The walk never creates or drops the configuration, and only ever
      writes schema keys: every other stored key is left as it was,
      whatever the items say. */
  lemma {:induction false} ApplyItemsSchemaOnly(hk: Hotkey, cfg: Option<State>, items: seq<Value>, now: int, n: string)
    requires Lookup(n).None?
    ensures var r := ApplyItems(hk, cfg, items, now).0;
      r.Some? == cfg.Some? && (cfg.Some? ==> Stored(r.value.items, n) == Stored(cfg.value.items, n))
    decreases |items|
  {
    if items != [] {
      ApplyItemsSchemaOnly(hk, cfg, items[..|items| - 1], now, n);
      var before := ApplyItems(hk, cfg, items[..|items| - 1], now);
      var item := items[|items| - 1];
      if !before.1 && item.Obj? && "key" in item.fields && "value" in item.fields && before.0.Some? {
        var name := ToJsString(item.fields["key"]);
        if Lookup(name).Some? {
          var k := Lookup(name).value;
          SetKnownFrame(hk, before.0.value, k, item.fields["value"], now);
          LookupName(k);
          LookupName(ShortcutCode);
          assert n !in Touched(k);
        }
      }
    }
  }

  /** Without a configuration nothing is stored, and the walk throws
      exactly when some item is a primitive or has both `key` and `value`. */
  lemma {:induction false} ApplyItemsWithoutConfig(hk: Hotkey, items: seq<Value>, now: int)
    ensures ApplyItems(hk, None, items, now).0.None?
    ensures ApplyItems(hk, None, items, now).1 <==>
      exists i :: 0 <= i < |items| && ApplyItem(hk, None, items[i], now).1
    decreases |items|
  {
    if items != [] {
      var n := |items| - 1;
      ApplyItemsWithoutConfig(hk, items[..n], now);
      if ApplyItems(hk, None, items, now).1 && !ApplyItem(hk, None, items[n], now).1 {
        var i :| 0 <= i < n && ApplyItem(hk, None, items[..n][i], now).1;
        assert items[..n][i] == items[i];
      }
      if exists i :: 0 <= i < |items| && ApplyItem(hk, None, items[i], now).1 {
        var i :| 0 <= i < |items| && ApplyItem(hk, None, items[i], now).1;
        if i < n {
          assert items[..n][i] == items[i];
        }
      }
    }
  }

  /** Storing a schema key through the storage handler and reading it back
      through `get-storage` gives what the key's setter makes of the value. */
  lemma SetThenGetStorage(hk: Hotkey, s: State, key: Value, v: Value, now: int)
    requires Lookup(ToJsString(key)).Some?
    ensures var after := StoreItems(hk, Some(s), Obj(map["key" := key, "value" := v]), now);
      !after.1 && after.0.Some? &&
      GetStorageReply(Obj(map["key" := key]), after.0) ==
        Some(StorageResponse(Some(key), Some(Normalised(Lookup(ToJsString(key)).value, v))))
  {
    var f := map["key" := key, "value" := v];
    var items := [Obj(f)];
    assert "key" in f && "value" in f && f["key"] == key && f["value"] == v;
    assert SetStorageList(Obj(f)) == Some(items);
    assert items[..0] == [];
    var s' := Set(hk, s, ToJsString(key), v, now);
    assert ApplyItems(hk, Some(s), items, now) == (Some(s'), false);
    SetThenGet(hk, s, ToJsString(key), v, now);
  }

  // ---------------------------------------------------------------------
  // handleResetOptions

  /** The configuration after `handleResetOptions`: every schema key
      cleared, the remote copy and the file-system credentials cleared, the
      context menu rebuilt, then `init` run with the handler on. */
  function ResetState(hk: Hotkey, s: State, now: int): State {
    Init(hk, s.(items := ClearItems(s.items, []), effects := s.effects + [ClearSync, ClearCredentials, BuildContextMenu]), true, now)
  }

  /** After a reset every schema key holds its default, and every other
      stored key is kept. */
  lemma ResetOptionsRestoresDefaults(hk: Hotkey, s: State, now: int, k: Setting, n: string)
    requires Lookup(n).None?
    ensures var r := ResetState(hk, s, now);
      Stored(r.items, Name(k)) == Some(DefaultValue(hk, r.items, k)) &&
      Stored(r.items, n) == Stored(s.items, n)
  {
    var s' := s.(effects := s.effects + [ClearSync, ClearCredentials, BuildContextMenu]);
    ResetRestoresDefaults(hk, s', now, k);
    InitKeepsForeignKeys(hk, s'.(items := ClearItems(s.items, [])), true, now, n);
    ClearRemovesTier(s.items, [], n);
  }
}
