# wasavi background page: configuration store and request router

wasavi is a vi editor that runs inside the browser. Its Chrome extension has a
background page, `src/chrome/backend/lib/main.js`, that keeps the editor's
settings and answers the requests of the content scripts. This project is a
Dafny model of that page's core, with proofs about the model:

- **The settings schema** (`configInfo`). It has ten settings in the *sync*
  tier and three in the *local* tier. Each setting has a default, which can be
  computed from the hotkey service, and an optional setter.
- **The `Config` store.** It has `getInfo`, `getDefaultValue`, `get`, `set`,
  `clear` and `init`. `init` is the pass that fills in missing values, resets
  values of the wrong type and reconciles object values against their default.
- **The normalisers.**
  - The font-family check against its regular expression.
  - The shortcut setter, which derives `shortcutCode`.
  - The `fstab` and `logMode` setters, which forward to the host.
- **The debounced update broadcast** (`handleStorageUpdate`). Changes are
  gathered into a batch. Three seconds after the last change the timer fires:
  the batch is broadcast and its sync-tier part is pushed to the remote copy.
- **The merge of a fetched sync copy** (`handleGetSyncStorage`).
- **The bootstrap gate** (`isInitializing`, `blockedEvents`). Init requests
  that arrive while the page boots are queued, and the last boot step answers
  them.
- **The request entry point** (`handleRequest` and `commandMap`), with
  `handleInit`, `handleGetStorage`, `handleSetStorage`, `handleResetOptions`
  and `handlePushPayload`.
- **`isTestUrl`** and the test-mode additions to `exrc`.
- **`getShrinkedCode`.**

The model has two halves, matching the source's mixed style.

**Pure modules.** These state what each step does as functions on values:
- `Json`: JavaScript values, `typeof` tags, truthiness, `String(v)`, own
  properties.
- `Schema`, `FontList`, `Broadcast`, `ConfigSpec`, `Urls`, `Router`,
  `Requests`, `Shrink`.

**Classes.** These change state in place:
- `Extension.Ext` is the host. It holds the storage map and a log of the
  effects the page asks of the host.
- `ConfigStore.Config` is the `Config` object. It has the `_updates` batch
  and the `_timer` deadline.
- `Server.Backend` is the page's module-level state: `config`,
  `isInitializing`, `blockedEvents`, `payload`, and the responders handed to
  `handleRequest`.

Each method ensures that the object's new state is the pure function applied
to its old state. The lemmas about the functions therefore hold of the
objects.

**Host effects.** Every call into the host is recorded as an `Effect` value in
the host's log rather than performed:
- a broadcast;
- a push to, or clear of, the remote sync copy;
- a file-system `setInfo`;
- `setLogMode`;
- clearing credentials;
- a context-menu rebuild;
- an error log;
- a fetch of the sync copy.

**Time.** Time is an explicit `now` parameter, in milliseconds. A timer is its
deadline. A timer firing is the explicit `TimerFired(now)` event.

**Broadcast deadline.** The code clears and re-arms the timer on every change
(main.js:315-316), so the deadline follows the last change;
`Broadcast.DeadlineFollowsLastWrite` shows it.

**As written and as intended.** For each of the four defects listed under
"## Findings", the model holds both the code as written and the evidently
intended behaviour. The classes and the request functions they implement use
the intended behaviour:
- the schema-only lookup, where `getInfo` as written also finds
  `Object.prototype` members;
- the own-key reconcile, where the `in` tests as written also see inherited
  names;
- the own-entry command table, where `commandMap[t]` as written also finds
  inherited functions;
- the replay that answers every queued init request, where the `forEach` as
  written stops at the first one that throws.

## Model

| member | source | states |
|---|---|---|
| Json.TypeTag | src/chrome/backend/lib/main.js:200-208 | the type tag `init` compares is the object tag exactly for objects and the string tag exactly for strings |
| Schema.LookupSyncSound | src/chrome/backend/lib/main.js:94-167 | a name the sync tier knows is the name of the setting found |
| Schema.LookupLocalSound | src/chrome/backend/lib/main.js:168-172 | a name the local tier knows is the name of the setting found |
| Schema.LookupSound | src/chrome/backend/lib/main.js:237-239 | the schema-only lookup behind `getInfo(name)` finds only the setting called `name` |
| Schema.LookupName | src/chrome/backend/lib/main.js:237-239 | the schema-only lookup finds every schema setting by its name |
| Schema.LookupFindsName | src/chrome/backend/lib/main.js:237-239 | the schema-only lookup gives setting `k` if and only if `name` is `k`'s name |
| Schema.NameInjective | src/chrome/backend/lib/main.js:93-173 | no two settings share a storage key |
| Schema.AllSettingsListed | src/chrome/backend/lib/main.js:189-191 | the `init` walk over both tiers visits every setting, in its own tier |
| Schema.AllSettingsDistinct | src/chrome/backend/lib/main.js:189-191 | the walk visits no setting twice |
| Schema.ShortcutBeforeCode | src/chrome/backend/lib/main.js:112-127 | `shortcut` is walked right before `shortcutCode`, so the derived code sees the settled shortcut |
| Schema.LookupAsWrittenInherits | src/chrome/backend/lib/main.js:237-239 | the literal `info.sync[name] \|\| info.local[name]` yields an inherited `Object.prototype` member exactly for its names, and a schema entry exactly for schema names |
| Schema.DefaultDependsOnShortcut | src/chrome/backend/lib/main.js:240-247 | a default depends on stored data only for `shortcutCode`, and then only on the stored `shortcut` |
| Schema.Normalised | src/chrome/backend/lib/main.js:128-135 | only `fontFamily` rewrites a value on `set`, and what it stores is a well-formed font list |
| Schema.NormalisedDefault | src/chrome/backend/lib/main.js:128-135 | every default passes its own setter unchanged |
| Schema.ObjectDefaultNotNormalised | src/chrome/backend/lib/main.js:95-147 | settings with object defaults have no rewriting setter |
| FontList.NormaliseFontFamily | src/chrome/backend/lib/main.js:130-135 | the stored font family is the value itself or the default, and reads as a font list |
| FontList.DropSpacesOver | src/chrome/backend/lib/main.js:131 | the `\s*` scan consumes exactly a leading run of spaces |
| FontList.DropNameOver | src/chrome/backend/lib/main.js:131 | the `[a-zA-Z-]+` scan consumes exactly a bare name |
| FontList.DropQuotedOver | src/chrome/backend/lib/main.js:131 | the quoted-family scan stops at the closing quote |
| FontList.DropFamilyOver | src/chrome/backend/lib/main.js:131 | one family alternative consumes exactly one well-formed family |
| FontList.AfterFamilyStop | src/chrome/backend/lib/main.js:131 | what follows a family never continues a bare name |
| FontList.FamilyStartsSolid | src/chrome/backend/lib/main.js:131 | a family never starts with a space |
| FontList.WellFormedRestTail | src/chrome/backend/lib/main.js:131 | each `,`-separated item of a well-formed list is well formed |
| FontList.ItemsFollowComplete | src/chrome/backend/lib/main.js:131 | the repeated `\s*,\s*family` group accepts every rendered tail |
| FontList.RenderAccepted | src/chrome/backend/lib/main.js:131 | the font-list test accepts every rendered well-formed list |
| FontList.DropSpacesSplit | src/chrome/backend/lib/main.js:131 | the space scan splits its input into spaces and a rest that starts with no space |
| FontList.DropNameSplit | src/chrome/backend/lib/main.js:131 | the name scan splits its input into name characters and a rest |
| FontList.DropQuotedSplit | src/chrome/backend/lib/main.js:131 | the quoted scan splits its input into allowed characters and a rest at the quote |
| FontList.DropFamilySplit | src/chrome/backend/lib/main.js:131 | a successful family scan splits off one well-formed family |
| FontList.ItemsFollowSound | src/chrome/backend/lib/main.js:131 | every tail the repeated group accepts is a rendered well-formed tail |
| FontList.ItemRendered | src/chrome/backend/lib/main.js:131 | one separator and family before a rendered tail render as a longer tail |
| FontList.WellFormedRestCons | src/chrome/backend/lib/main.js:131 | a well-formed item before a well-formed tail gives a well-formed tail |
| FontList.AcceptedHasParse | src/chrome/backend/lib/main.js:131 | every string the test accepts is a rendered well-formed list |
| FontList.Reassociate | src/chrome/backend/lib/main.js:131 | string concatenation regroups, as the rendering of a list needs |
| FontList.DefaultFamiliesWellFormed | src/chrome/backend/lib/main.js:58 | each family of the default font is well formed |
| FontList.DefaultFontWellFormed | src/chrome/backend/lib/main.js:58 | the default font's parse is well formed |
| FontList.DefaultFontRendered | src/chrome/backend/lib/main.js:58 | the parse renders to the default font string |
| FontList.DefaultFontIsFontList | src/chrome/backend/lib/main.js:58 | the fallback `defaultFont` passes the font-list test |
| FontList.NormaliseFontFamilyIdempotent | src/chrome/backend/lib/main.js:130-135 | normalising twice is normalising once |
| FontList.NormaliseKeepsExactlyGrammatical | src/chrome/backend/lib/main.js:130-135 | a string is kept if and only if it is a well-formed comma-separated list of families |
| Broadcast.FlushContents | src/chrome/backend/lib/main.js:316-333 | a due timer broadcasts the whole batch, pushes exactly its sync-tier entries, and empties the batch |
| Broadcast.ReplayKeepsLastWrite | src/chrome/backend/lib/main.js:312-316 | after any writes the batch holds the last value written to each key, keeps untouched keys, and is due `DelayMs` after the last write |
| Broadcast.TickBeforeDeadline | src/chrome/backend/lib/main.js:315-316 | before the deadline a clock tick changes nothing and emits nothing |
| Broadcast.TickAfterDeadline | src/chrome/backend/lib/main.js:316-331 | at or after the deadline the broadcast carries exactly each key's last written value |
| Broadcast.EveryClockEarlyPrefix | src/chrome/backend/lib/main.js:315-316 | a run whose every tick comes early has early ticks on each prefix |
| Broadcast.EarlyClocksCoalesce | src/chrome/backend/lib/main.js:312-333 | while every tick comes before the current deadline nothing is emitted and the writes merge into one batch |
| Broadcast.DeadlineFollowsLastWrite | src/chrome/backend/lib/main.js:315-316 | a second write re-arms the timer: no broadcast three seconds after the first write, one three seconds after the second |
| ConfigSpec.SetKnownEffect | src/chrome/backend/lib/main.js:257-267 | `set` stores the setter's result (and for `shortcut` the derived code first), logs the setter's host effect, and notifies each store only while the handler is on |
| ConfigSpec.SetterRuns | src/chrome/backend/lib/main.js:257-267 | outside `shortcut`, `set` is the setter's effect followed by one store |
| ConfigSpec.SetThenGet | src/chrome/backend/lib/main.js:248-267 | `get` after `set` of a schema name returns the normalised value, and `set` of any other name changes nothing |
| ConfigSpec.SetKnownFrame | src/chrome/backend/lib/main.js:257-267 | `set` changes no key but its own (and `shortcutCode` for `shortcut`), and with the handler off it leaves the batch alone |
| ConfigSpec.ClearRemovesTier | src/chrome/backend/lib/main.js:268-279 | `clear` drops exactly the schema keys of the named tiers (of both when none is named) and keeps every other key |
| ConfigSpec.ReconcileShape | src/chrome/backend/lib/main.js:215-230 | the reconciled object has exactly the default's keys, stored values where present, and default values elsewhere |
| ConfigSpec.ReconcileStable | src/chrome/backend/lib/main.js:215-230 | reconciling an object with the default's keys changes nothing, and reconciling twice is reconciling once |
| ConfigSpec.ReconcileExample | src/chrome/backend/lib/main.js:215-230 | an extra key is dropped and a missing key is filled from the default |
| ConfigSpec.InitKeyFrame | src/chrome/backend/lib/main.js:190-233 | one step of the `init` walk touches only its own key (and `shortcutCode` for `shortcut`) |
| ConfigSpec.InitKeyResets | src/chrome/backend/lib/main.js:195-206 | a missing value, or one of the wrong type, is replaced by the default |
| ConfigSpec.InitKeyConforms | src/chrome/backend/lib/main.js:190-233 | after its step a key holds a value of the default's type, with the default's keys when it is an object |
| ConfigSpec.InitKeyKeepsShortcut | src/chrome/backend/lib/main.js:192-232 | a step does not change the default its own key is checked against |
| ConfigSpec.TouchedBy | src/chrome/backend/lib/main.js:116-121 | a step touches key `k` exactly when it is `k`'s step, or the `shortcut` step and `k` is `shortcutCode` |
| ConfigSpec.InitKeysFrame | src/chrome/backend/lib/main.js:189-234 | a walk leaves every key no step touches unchanged |
| ConfigSpec.InitKeysQuiet | src/chrome/backend/lib/main.js:184-188 | a walk with the handler off sends no notices and leaves the batch alone |
| ConfigSpec.InitKeysSplit | src/chrome/backend/lib/main.js:189-234 | walking `a` then `b` is walking `a + b` |
| ConfigSpec.ConformsKept | src/chrome/backend/lib/main.js:190-233 | a later step keeps an earlier key conforming |
| ConfigSpec.InitKeysConform | src/chrome/backend/lib/main.js:189-234 | after a walk in which `shortcut` comes before `shortcutCode`, every walked key conforms |
| ConfigSpec.WalkedOnce | src/chrome/backend/lib/main.js:189-234 | a key touched by its own step only is unchanged before that step and after it |
| ConfigSpec.WalkStep | src/chrome/backend/lib/main.js:189-234 | the walk over a prefix one longer is one more step |
| ConfigSpec.ShortcutFirstInAll | src/chrome/backend/lib/main.js:112-127 | the schema's order puts `shortcut` before `shortcutCode` |
| ConfigSpec.InitConforms | src/chrome/backend/lib/main.js:184-236 | after `init` every setting holds a value of its default's type, with exactly its default's keys for objects |
| ConfigSpec.InitResets | src/chrome/backend/lib/main.js:195-206 | `init` resets each missing or wrongly typed setting other than `shortcutCode` to its default; `shortcutCode`, whose default follows the shortcut, is covered by `InitDerivesMissingCode` and `InitDerivesRetypedCode` |
| ConfigSpec.InitQuiet | src/chrome/backend/lib/main.js:184-236  | `init(false)` notifies nothing and restores the handler it switched off |
| ConfigSpec.InitKeepsForeignKeys | src/chrome/backend/lib/main.js:189-234 | `init` leaves keys outside the schema alone |
| ConfigSpec.ShortcutStep | src/chrome/backend/lib/main.js:190-233  | the `shortcut` step leaves `shortcutCode` derived from the stored shortcut, or leaves a non-object shortcut untouched |
| ConfigSpec.CodeStep | src/chrome/backend/lib/main.js:123-127 | the `shortcutCode` step keeps or creates a code derived from the shortcut and does not touch the shortcut |
| ConfigSpec.WalkAroundShortcut | src/chrome/backend/lib/main.js:189-234 | the walk factors into the keys before `shortcut`, the two shortcut steps, and the rest |
| ConfigSpec.BeforeShortcutKeepsCode | src/chrome/backend/lib/main.js:189-234 | the steps before `shortcut` leave `shortcutCode` as stored |
| ConfigSpec.AfterCodeKeepsBoth | src/chrome/backend/lib/main.js:189-234 | the steps after `shortcutCode` leave both shortcut keys alone |
| ConfigSpec.ShortcutThenCode | src/chrome/backend/lib/main.js:112-127 | after the two shortcut steps the code is derived from an object shortcut, and from any shortcut when it was missing |
| ConfigSpec.InitShortcutStages | src/chrome/backend/lib/main.js:184-236 | after the whole walk the code is derived from the stored shortcut, and always so when the code was missing |
| ConfigSpec.InitSettles | src/chrome/backend/lib/main.js:184-236 | `init` ends in a settled state: every setting conforms and the code matches the shortcut |
| ConfigSpec.InitKeySettled | src/chrome/backend/lib/main.js:190-233 | on a settled state each step rewrites nothing |
| ConfigSpec.SetStoredAgain | src/chrome/backend/lib/main.js:209-232  | storing back a value that is already stored and normalised changes no key |
| ConfigSpec.InitKeysSettled | src/chrome/backend/lib/main.js:189-234 | a walk over a settled state leaves the items as they are |
| ConfigSpec.InitIdempotent | src/chrome/backend/lib/main.js:184-236 | a second `init` stores nothing new |
| ConfigSpec.InitDerivesMissingCode | src/chrome/backend/lib/main.js:123-127 | a missing `shortcutCode` is derived from the shortcut by `init` |
| ConfigSpec.InitDerivesRetypedCode | src/chrome/backend/lib/main.js:195-206 | a `shortcutCode` stored with a type other than that of the codes derived from the stored shortcut ends derived from the shortcut `init` leaves |
| ConfigSpec.ResetRestoresDefaults | src/chrome/backend/lib/main.js:651-656 | `clear()` followed by `init(true)` leaves every setting at its default |
| ConfigSpec.SetAsWrittenDiffers | src/chrome/backend/lib/main.js:237-267  | the literal `set` agrees with the schema-only `set` except on `Object.prototype` names, which it stores while the schema-only one ignores them |
| ConfigSpec.SetConstructorAsWritten | src/chrome/backend/lib/main.js:237-267  | `set('constructor', v)` stores `v` under `constructor` as written, and is a no-op as intended |
| ConfigSpec.ReconcileAsWrittenDiffers | src/chrome/backend/lib/main.js:216-230 | the literal `key in` tests agree with the intended reconcile on own names, but keep a stored `toString` key that the intended one drops |
| ConfigSpec.InitKeyKeepsFitting | src/chrome/backend/lib/main.js:190-233 | a step keeps a value that already conforms |
| ConfigSpec.InitKeepsFitting | src/chrome/backend/lib/main.js:184-236 | `init` keeps every setting (other than `shortcutCode`) that already conforms |
| ConfigSpec.MergeResetsMissing | src/chrome/backend/lib/main.js:336-341 | merging a fetched sync copy resets a sync setting the copy lacks to its default |
| ConfigSpec.MergeKeepsFetched | src/chrome/backend/lib/main.js:336-341 | a fetched value that fits its default is what the merge stores |
| ConfigSpec.MergeKeepsLocal | src/chrome/backend/lib/main.js:336-341 | the merge leaves a conforming local-tier value alone |
| ConfigStore.Config.constructor | src/chrome/backend/lib/main.js:177-181  | `new Config` runs `init` with the handler off, over the host's storage, starting an empty batch |
| ConfigStore.Config.Get | src/chrome/backend/lib/main.js:248-256 | `get` over the schema-only lookup returns the stored value of a schema name and `undefined` for any other name |
| ConfigStore.Config.HandleStorageUpdate | src/chrome/backend/lib/main.js:312-316 | the handler records the change in the batch and re-arms the timer `DelayMs` ahead |
| ConfigStore.Config.Fire | src/chrome/backend/lib/main.js:316-331 | a due timer performs exactly the flush of `Tick`, and otherwise nothing changes |
| ConfigStore.Config.SyncUpdates | src/chrome/backend/lib/main.js:322-327 | the loop over the sync tier collects exactly the sync-tier part of the batch |
| ConfigStore.Config.Set | src/chrome/backend/lib/main.js:257-267 | the object's new state is `ConfigSpec.Set` (the schema-only `set`) of its old state |
| ConfigStore.Config.SetKnown | src/chrome/backend/lib/main.js:258-266 | the same for a name already found in the schema |
| ConfigStore.Config.ApplySetter | src/chrome/backend/lib/main.js:116-161  | the setter returns the normalised value and performs the setter's effect |
| ConfigStore.Config.ReconcileFields | src/chrome/backend/lib/main.js:215-230 | the two `forEach` passes, testing own keys, compute the own-key `Reconcile` |
| ConfigStore.Config.InitKey | src/chrome/backend/lib/main.js:190-233 | one iteration of the walk is `ConfigSpec.InitKey` |
| ConfigStore.Config.InitWalk | src/chrome/backend/lib/main.js:189-234 | the loop over the keys is `InitKeys` |
| ConfigStore.Config.Init | src/chrome/backend/lib/main.js:184-236 | `init(emit)` is `ConfigSpec.Init` |
| ConfigStore.Config.ClearTier | src/chrome/backend/lib/main.js:274-277 | clearing one tier removes exactly its schema keys |
| ConfigStore.Config.Clear | src/chrome/backend/lib/main.js:268-279 | `clear(...)` leaves the storage as `ClearItems` describes and logs no effect |
| ConfigStore.StoredExtensional | src/chrome/backend/lib/main.js:268-279 | two storages that read the same under every name are equal |
| Urls.DigitRun | src/chrome/backend/lib/main.js:26 | the `\d+` scan of the port is the longest run of digits |
| Urls.DigitRunExact | src/chrome/backend/lib/main.js:26 | digits followed by a non-digit scan as exactly the digits |
| Urls.PrefixSplit | src/chrome/backend/lib/main.js:26 | a URL starts with `a + b` exactly when it starts with `a` and continues with `b` |
| Urls.TestModeSound | src/chrome/backend/lib/main.js:302-303  | a URL the test-mode pattern accepts starts with the test host, an optional `:port`, and the test page |
| Urls.TestModeComplete | src/chrome/backend/lib/main.js:302-303  | every such URL is accepted |
| Urls.TestModeMeaning | src/chrome/backend/lib/main.js:302-303  | the test-mode pattern holds if and only if the URL has that shape |
| Urls.SearchFinds | src/chrome/backend/lib/main.js:304  | the regular-expression search from position `i` succeeds if and only if the pattern matches at some position from `i` on |
| Urls.TestMeaning | src/chrome/backend/lib/main.js:304  | `re.test(s)` holds if and only if the pattern matches somewhere in `s` |
| Urls.MatchAtExtends | src/chrome/backend/lib/main.js:574 | a match stays a match when a non-word character follows |
| Urls.IsTestUrlThrows | src/chrome/backend/lib/main.js:302-306 | `isTestUrl` throws exactly when its argument is neither a string nor an array |
| Urls.IsTestUrlOnString | src/chrome/backend/lib/main.js:302-306 | on a string, `isTestUrl` holds exactly for a test-page URL, or an app-mode URL with a `testmode` query flag |
| Urls.ListLineMatches | src/chrome/backend/lib/main.js:574-575 | the appended `set list` line satisfies the `\bset list\b` test |
| Urls.WithListSpec | src/chrome/backend/lib/main.js:574-576 | after the `set list` step the exrc contains `set list` and extends the stored exrc, which it appends to only when the line was missing |
| Urls.AppendKeepsList | src/chrome/backend/lib/main.js:577-578 | appending a line keeps `set list` and the stored prefix |
| Urls.AugmentExrcSpec | src/chrome/backend/lib/main.js:573-580 | the test-mode exrc contains `set list`, extends the stored exrc, and ends with `set nooverride` when the URL asks for it |
| Urls.AugmentListOnce | src/chrome/backend/lib/main.js:573-580 | without `nooverride`, augmenting twice is augmenting once |
| Router.DispatchFindsType | src/chrome/backend/lib/main.js:880-898 | every handler is found under its command type |
| Router.DispatchFindsTools | src/chrome/backend/lib/main.js:884-888 | the storage and transfer handlers are found under their types |
| Router.DispatchFindsLater | src/chrome/backend/lib/main.js:889-897 | the later handlers are found under their types |
| Router.DispatchOnlyTypes | src/chrome/backend/lib/main.js:880-898 | a type that finds a handler is that handler's type |
| Router.DispatchFrontOnlyTypes | src/chrome/backend/lib/main.js:881-888 | the same for the first half of the table |
| Router.DispatchBackOnlyTypes | src/chrome/backend/lib/main.js:889-897 | the same for the second half |
| Router.DispatchMeaning | src/chrome/backend/lib/main.js:880-898  | the own-entry command table gives handler `h` for `t` if and only if `t` is `h`'s command type |
| Router.DispatchAsWrittenDiffers | src/chrome/backend/lib/main.js:923-924 | the literal lookup agrees with the table on own names, and finds an inherited member for every `Object.prototype` name |
| Router.FrontMissesInherited | src/chrome/backend/lib/main.js:881-888 | no `Object.prototype` name is a type of the first half |
| Router.BackMissesInherited | src/chrome/backend/lib/main.js:889-897 | no `Object.prototype` name is a type of the second half |
| Router.InheritedTypesNeverAnswered | src/chrome/backend/lib/main.js:919-931 | a request of type `toString` or `constructor` reaches an inherited function that returns a truthy value, so the request is held open and never answered |
| Router.InitReply | src/chrome/backend/lib/main.js:538-607 | building the init reply throws exactly when `data.url`, or the pushed payload's `url` for a page or options init, is neither a string nor an array; `testMode` is `isTestUrl(data.url)` |
| Router.InitReplyExrc | src/chrome/backend/lib/main.js:567-580 | an agent gets no exrc; a page or options init gets the stored exrc, with the test-mode lines when the payload's URL is a test URL |
| Router.ReplayAnswersEach | src/chrome/backend/lib/main.js:1003-1005 | the intended replay answers the i-th queued request, and only it, in place i |
| Router.ReplayAsWrittenPrefix | src/chrome/backend/lib/main.js:1004 | the literal `forEach` answers a prefix of the queue, all of it exactly when no queued reply throws |
| Router.ThrowingReplayStrandsLaterRequests | src/chrome/backend/lib/main.js:1003-1005  | a queued init without a `url` stops the literal replay, so the request behind it is never answered, while the intended replay answers both |
| Router.GetStorageReadsSchemaKeys | src/chrome/backend/lib/main.js:659-665 | `get-storage` with a `key` answers with that key and the stored value of a schema name, `undefined` for other names |
| Router.ApplyItemsSchemaOnly | src/chrome/backend/lib/main.js:685-689 | the `set-storage` loop never writes a key outside the schema |
| Router.ApplyItemsWithoutConfig | src/chrome/backend/lib/main.js:685-689 | without a configuration the loop writes nothing and throws exactly when some item would |
| Router.SetThenGetStorage | src/chrome/backend/lib/main.js:659-691 | a `get-storage` after a `set-storage` of a schema key answers with the normalised value |
| Router.ResetOptionsRestoresDefaults | src/chrome/backend/lib/main.js:651-657 | `reset-options` puts every setting at its default and keeps keys outside the schema |
| Requests.BootValid | src/chrome/backend/lib/main.js:64-65  | the page boots gated, with an empty queue, and in a valid bookkeeping state |
| Requests.RespondValid | src/chrome/backend/lib/main.js:909-917 | `res` answers a request at most once and keeps the bookkeeping valid |
| Requests.OpenValid | src/chrome/backend/lib/main.js:907-917 | a new request gets a fresh, unused responder |
| Requests.BookkeptValid | src/chrome/backend/lib/main.js:907-931 | a handler that answers its own request once, queues it, or leaves it alone keeps the bookkeeping valid |
| Requests.RespondBookkept | src/chrome/backend/lib/main.js:909-917 | `res` is such a handler step |
| Requests.InitHandlerBookkept | src/chrome/backend/lib/main.js:530-607 | `handleInit` answers once, queues, or throws, and returns `true` whenever it queues |
| Requests.StorageHandlersBookkept | src/chrome/backend/lib/main.js:651-691 | the storage and reset handlers answer at most their own request and never touch the queue |
| Requests.StoreItemsKeepsReady | src/chrome/backend/lib/main.js:674-691 | `set-storage` never creates or drops the configuration |
| Requests.RunHandlerBookkept | src/chrome/backend/lib/main.js:925 | every routed handler is such a step, and returns `true` when it queues |
| Requests.HandledBookkept | src/chrome/backend/lib/main.js:919-928 | routing and running a handler is such a step for the new request |
| Requests.RequestValid | src/chrome/backend/lib/main.js:907-931 | `handleRequest` keeps the bookkeeping valid; a request the handler did not keep open is answered before it returns, with no argument unless the handler already answered it, and a request kept open gets no reply from the router |
| Requests.UnroutedRequest | src/chrome/backend/lib/main.js:919-931 | a request without a command, without data, or of an unknown type is answered with no argument and returns `false` |
| Requests.GetMemorandumAnswersEmpty | src/chrome/backend/lib/main.js:732-734 | a `get-memorandum` request throws at the undeclared `response`, so it is answered with no argument and returns `false` |
| Requests.InitWaitsForGate | src/chrome/backend/lib/main.js:531-536 | an init request during boot is queued in arrival order, held open, and answered by nothing yet |
| Requests.InitAfterGate | src/chrome/backend/lib/main.js:530-608  | after boot an init request is answered at once, with its reply or with no argument when building it throws |
| Requests.ReceiveSyncValid | src/chrome/backend/lib/main.js:335-352 | receiving the sync copy creates or updates the configuration and keeps the bookkeeping valid |
| Requests.FirstSyncConforms | src/chrome/backend/lib/main.js:343-351 | after the first sync copy every setting conforms to its default |
| Requests.StoreVersion | src/chrome/backend/lib/main.js:964-992  | after the version step the stored `version` is the running version |
| Requests.AnswerAllSends | src/chrome/backend/lib/main.js:1004 | answering the queue sends exactly the replay's replies and uses up exactly the queued responders |
| Requests.AnswerAllValid | src/chrome/backend/lib/main.js:1004 | answering the queue keeps the bookkeeping valid |
| Requests.OpenGateAnswersQueue | src/chrome/backend/lib/main.js:964-1005 | the last boot step stores the version, opens the gate, and answers every queued init in arrival order |
| Requests.BootFailedStrands | src/chrome/backend/lib/main.js:1007-1009 | a failed boot logs the error and leaves the gate closed with every queued request unanswered |
| Server.Backend.constructor | src/chrome/backend/lib/main.js:64-65  | the page starts as `Requests.Boot` of the host's storage |
| Server.Backend.Res | src/chrome/backend/lib/main.js:909-917 | `res(arg)` is `Respond` on the page's state |
| Server.Backend.HandleInit | src/chrome/backend/lib/main.js:530-608 | the method is `InitHandler` |
| Server.Backend.HandleGetStorage | src/chrome/backend/lib/main.js:659-672 | the method is `GetStorageHandler` |
| Server.Backend.HandleSetStorage | src/chrome/backend/lib/main.js:674-691 | the `forEach` over the items is `SetStorageHandler` |
| Server.Backend.HandleResetOptions | src/chrome/backend/lib/main.js:651-657 | the method is `ResetHandler` |
| Server.Backend.HandleOther | src/chrome/backend/lib/main.js:693-898 | a handler outside the model is its `OtherCall` description |
| Server.Backend.RunHandler | src/chrome/backend/lib/main.js:925 | the call of the routed handler is `Requests.RunHandler`; `get-memorandum` throws |
| Server.Backend.HandleRequest | src/chrome/backend/lib/main.js:907-931 | the method is `Requests.Request`, so `RequestValid` and the gate lemmas hold of it |
| Server.Backend.WriteItems | src/chrome/backend/lib/main.js:338-346  | the `for ... in` copy writes every fetched item into storage |
| Server.Backend.ReceiveSyncItems | src/chrome/backend/lib/main.js:335-352 | `handleGetSyncStorage` is `ReceiveSync` |
| Server.Backend.SignInChanged | src/chrome/backend/lib/main.js:355-359 | a sign-in change asks for the sync tier's keys once the configuration exists |
| Server.Backend.TimerFired | src/chrome/backend/lib/main.js:316-333 | the timer callback is `Requests.TimerFired` |
| Server.Backend.StoreVersion | src/chrome/backend/lib/main.js:964-992  | the version step is `Requests.StoreVersion` |
| Server.Backend.AnswerQueue | src/chrome/backend/lib/main.js:1004 | the loop over the queue is `AnswerAll` |
| Server.Backend.OpenGate | src/chrome/backend/lib/main.js:964-1005 | the last boot step is `Requests.OpenGate`, the intended replay that answers every queued init |
| Server.Backend.BootFailed | src/chrome/backend/lib/main.js:1007-1009 | the error handler is `Requests.BootFailed` |
| Shrink.IndexOf | src/chrome/backend/lib/main.js:288 | `indexOf` returns the first occurrence, or -1 when there is none |
| Shrink.StripHead | src/chrome/backend/lib/main.js:288-291 | the result is what follows the first blank line, or the whole source when there is none |
| Shrink.SkipLine | src/chrome/backend/lib/main.js:294 | `.*` consumes up to the next line terminator |
| Shrink.SkipSpaces | src/chrome/backend/lib/main.js:297 | `[\n\s]*` consumes up to the next non-space |
| Shrink.StripCommentsHead | src/chrome/backend/lib/main.js:294 | a comment start becomes a space and any other character stays |
| Shrink.StripCommentsLeavesNone | src/chrome/backend/lib/main.js:294 | no `//` is left after comments are replaced |
| Shrink.StripCommentsNoneUnchanged | src/chrome/backend/lib/main.js:294 | code without `//` is left unchanged |
| Shrink.CollapseHead | src/chrome/backend/lib/main.js:297 | a newline starts a single space and any other character stays |
| Shrink.CollapseOneLine | src/chrome/backend/lib/main.js:297 | no newline is left after collapsing |
| Shrink.CollapseKeepsNoComment | src/chrome/backend/lib/main.js:294-297 | collapsing creates no new `//` |
| Shrink.SkipSpacesSuffix | src/chrome/backend/lib/main.js:297 | what remains after the spaces is a suffix |
| Shrink.NoCommentStartSuffix | src/chrome/backend/lib/main.js:294 | a suffix of comment-free text is comment-free |
| Shrink.CollapseOneLineUnchanged | src/chrome/backend/lib/main.js:297 | one-line text is left unchanged by collapsing |
| Shrink.OneLineNoBlankLine | src/chrome/backend/lib/main.js:288-291 | one-line text has no blank line, so the head strip keeps it whole |
| Shrink.ShrinkedCodeShape | src/chrome/backend/lib/main.js:286-300 | the shrunk code is one line with no `//` left |
| Shrink.ShrinkedCodeIdempotent | src/chrome/backend/lib/main.js:286-300 | shrinking shrunk code changes nothing |

## Left out

- The parts of the init reply taken from host resources and services are left out: the extension id, version, dev and log modes, message catalog, `fstab` info, status-line height, the frame's HTML and style, the Unicode dictionary, the runtime-overwrite settings (`ros`) and the memorandum (`payload.value` is not rewritten). They need loaders and services outside this file.
- The version report to the home page (the HTTP POST and the upgrade tab) is left out. It is network I/O. Only the version stored afterwards is modelled.
- The resource loaders (`initWasaviFrame`, `initUnicodeDictData`, `initWasaviStyle`) are left out. The boot chain is modelled from their completion (`OpenGate`) or their failure (`BootFailed`).
- The file-system control port (`handleConnect`, `fsctlMap`) is left out. It is a second transport outside the request router.
- Every other handler of `commandMap` is left out: transfer, write, sound, clipboard, set-memorandum, options page, shortcut query and terminated. Each is described by an `OtherCall` parameter giving what it answers and how it ends. `handleGetMemorandum` is modelled: it refers to an undeclared `response`, so it always throws (`Requests.GetMemorandumAnswersEmpty`).
- Schema.Lookup: implements the intended schema-only `getInfo`; the literal `info.sync[name] || info.local[name]` is `Schema.LookupAsWritten`, and `ConfigSpec.SetAsWritten` is the `set` built on it.
- ConfigStore.Config.Get: uses the schema-only lookup; as written, `get('constructor')` returns the stored value (see `Schema.LookupAsWritten`).
- ConfigStore.Config.Set: implements the intended schema-only `set`; the as-written counterpart is `ConfigSpec.SetAsWritten`.
- ConfigStore.Config.ReconcileFields: implements the own-key reconcile; the literal `key in` tests compute `ConfigSpec.ReconcileAsWritten`.
- Server.Backend.HandleRequest: routes through the own-entry table `Router.Dispatch`; the literal `commandMap[command.type]` is `Router.DispatchAsWritten`, which also reaches inherited functions.
- Server.Backend.OpenGate: answers every queued init request, including those whose reply throws; the literal `forEach` is `Router.ReplayAsWritten`, which stops at the first throw.
- Json.Value: numbers are integers only; fractional numbers, `NaN` and `Infinity` (and their `typeof` and `String(v)` forms) are not modelled. No setting of the schema is numeric, so no modelled behaviour depends on them.
- Promises and timers are not modelled as scheduling. Each callback is an explicit event (`ReceiveSyncItems`, `TimerFired`, `OpenGate`, `BootFailed`), and time is a `now` argument.
- Server.Backend.HandleRequest: an exception thrown by a transport `respond` is modelled as a recorded reply, because the source swallows it.
- Requests.StoreVersion: the source compares the version with the loose `!=`; the model compares stored values for equality.
- ConfigStore.Config.Init: the source mutates the stored object in place before storing it again. The model stores a fresh reconciled object, so aliasing between the storage and the object read from it is not captured.
- `ext.storage.setItem(key, undefined)` in `clear` is modelled as removing the key. The host storage reads both the same way.
- The first fetch of the sync copy at boot and every later fetch after a sign-in change are both modelled as `ReceiveSyncItems`. Setting the local `syncStorage` to null after the first fetch has no observable effect: the sign-in listener uses `config._syncStorage`.
- `blockedEvents = null` after the replay is modelled as an empty queue.
- The hotkey service (`defaultHotkeysDesc`, `getObjectsForDOM`) is a parameter: a default value and a total function. The model does not describe its behaviour.
- `getShrinkedCode` has no caller in this file. It is modelled on its own.
- Shrink.ShrinkedCodeShape: the model does not state that the text between comments is kept. It states the shape of the result (one line, no `//`) and idempotence.

## Findings

| source | as written | input that shows it | evidently intended | confidence | as-written member | corrected member |
|---|---|---|---|---|---|---|
| src/chrome/backend/lib/main.js:237-267 | `getInfo` reads `info.sync[name] \|\| info.local[name]`, which finds `Object.prototype` members, so `set` treats `constructor`, `toString` and the like as known settings | a `set-storage` request `{key: "constructor", value: 1}` stores `constructor` in storage and broadcasts it | names outside the schema are ignored, as `getInfo` returning `undefined` intends | not executed | ConfigSpec.SetConstructorAsWritten | ConfigSpec.SetThenGet |
| src/chrome/backend/lib/main.js:216-230 | the reconcile of an object setting tests `key in defaultValue`, which is true for inherited names | a stored `targets` object with an extra own key `toString` keeps that key after `init` | keys the default does not define are dropped | not executed | ConfigSpec.ReconcileAsWrittenDiffers | ConfigSpec.ReconcileShape |
| src/chrome/backend/lib/main.js:923-925 | `commandMap[command.type]` finds inherited functions; `Object.prototype.toString` and `Object` return truthy values, which `handleRequest` takes as "answer later" | a request `{type: "toString"}` with any truthy data is held open and never answered | an unknown type is answered at once with no argument | not executed | Router.InheritedTypesNeverAnswered | Requests.UnroutedRequest |
| src/chrome/backend/lib/main.js:1003-1005 | the replay `blockedEvents.forEach(cb => cb())` lets an exception from one queued `handleInit` escape, ending the loop | two init requests queued during boot, the first with no `url` in its data: neither is ever answered | each queued request is answered as it would be after boot, with no argument when building its reply throws | not executed | Router.ThrowingReplayStrandsLaterRequests | Requests.OpenGateAnswersQueue |
