/** The settings schema: which keys the configuration store knows, in which
    tier each lives, the default each falls back to, and which keys carry a
    normalising setter. The schema is a fixed table; the only parts that are
    not literals come from the hotkey service, which the model takes as a
    parameter. */
module Schema {
  import opened Json
  import opened FontList

  /** The two storage tiers: `sync` keys are replicated to the remote copy,
      `local` keys stay on this machine. */
  datatype Tier = Sync | Local

  /** One schema entry per setting, in the order the schema declares them. */
  datatype Setting =
    | Targets | Exrc | Shortcut | ShortcutCode | FontFamily | Fstab
    | QuickActivation | QaBlacklist | LogMode | UpgradeNotify
    | Version | LineInputHistories | Registers

  /** The storage key of a setting. */
  function Name(k: Setting): string {
    match k
    case Targets => "targets"
    case Exrc => "exrc"
    case Shortcut => "shortcut"
    case ShortcutCode => "shortcutCode"
    case FontFamily => "fontFamily"
    case Fstab => "fstab"
    case QuickActivation => "quickActivation"
    case QaBlacklist => "qaBlacklist"
    case LogMode => "logMode"
    case UpgradeNotify => "upgradeNotify"
    case Version => "version"
    case LineInputHistories => "wasavi_lineinput_histories"
    case Registers => "wasavi_registers"
  }

  function TierOf(k: Setting): Tier {
    if k.Version? || k.LineInputHistories? || k.Registers? then Local else Sync
  }

  /** The keys of each tier in declaration order, which is the order a
      `for ... in` walk over the schema visits them. */
  const SyncSettings: seq<Setting> :=
    [Targets, Exrc, Shortcut, ShortcutCode, FontFamily, Fstab,
     QuickActivation, QaBlacklist, LogMode, UpgradeNotify]
  const LocalSettings: seq<Setting> := [Version, LineInputHistories, Registers]
  const AllSettings: seq<Setting> := SyncSettings + LocalSettings

  function Settings(t: Tier): seq<Setting> {
    match t
    case Sync => SyncSettings
    case Local => LocalSettings
  }

  /** The storage keys of a tier. */
  function TierNames(t: Tier): set<string> {
    set k | k in Settings(t) :: Name(k)
  }

  /** The sync tier's own entries. */
  function LookupSync(name: string): Option<Setting> {
    if name == "targets" then Some(Targets)
    else if name == "exrc" then Some(Exrc)
    else if name == "shortcut" then Some(Shortcut)
    else if name == "shortcutCode" then Some(ShortcutCode)
    else if name == "fontFamily" then Some(FontFamily)
    else if name == "fstab" then Some(Fstab)
    else if name == "quickActivation" then Some(QuickActivation)
    else if name == "qaBlacklist" then Some(QaBlacklist)
    else if name == "logMode" then Some(LogMode)
    else if name == "upgradeNotify" then Some(UpgradeNotify)
    else None
  }

  /** The local tier's own entries. */
  function LookupLocal(name: string): Option<Setting> {
    if name == "version" then Some(Version)
    else if name == "wasavi_lineinput_histories" then Some(LineInputHistories)
    else if name == "wasavi_registers" then Some(Registers)
    else None
  }

  /** `getInfo`: the schema entry whose key is `name`, searching the sync tier
      and then the local tier. Only the schema's own keys are found. */
  function Lookup(name: string): Option<Setting> {
    if LookupSync(name).Some? then LookupSync(name) else LookupLocal(name)
  }

  lemma LookupSyncSound(name: string)
    ensures LookupSync(name).Some? ==> Name(LookupSync(name).value) == name
  {
  }

  lemma LookupLocalSound(name: string)
    ensures LookupLocal(name).Some? ==> Name(LookupLocal(name).value) == name
  {
  }

  /** Whatever `Lookup` finds is stored under the name looked up. */
  lemma LookupSound(name: string)
    ensures Lookup(name).Some? ==> Name(Lookup(name).value) == name
  {
    LookupSyncSound(name);
    LookupLocalSound(name);
  }

  /** `Name` and `Lookup` are inverse: distinct settings have distinct keys. */
  lemma LookupName(k: Setting)
    ensures Lookup(Name(k)) == Some(k)
  {
    match k
    case Targets =>
    case Exrc =>
    case Shortcut =>
    case ShortcutCode =>
    case FontFamily =>
    case Fstab =>
    case QuickActivation =>
    case QaBlacklist =>
    case LogMode =>
    case UpgradeNotify =>
    case Version =>
    case LineInputHistories =>
    case Registers =>
  }

  /** Looking a name up finds exactly the setting stored under that name. */
  lemma LookupFindsName(name: string, k: Setting)
    ensures Lookup(name) == Some(k) <==> Name(k) == name
  {
    LookupSound(name);
    LookupName(k);
  }

  lemma NameInjective(k: Setting, j: Setting)
    ensures Name(k) == Name(j) <==> k == j
  {
    LookupName(k);
    LookupName(j);
  }

  /** Every setting sits in exactly one place of the declaration order, in the
      tier `TierOf` assigns it. */
  lemma AllSettingsListed(k: Setting)
    ensures k in AllSettings && k in Settings(TierOf(k))
  {
  }

  lemma AllSettingsDistinct()
    ensures forall i, j :: 0 <= i < j < |AllSettings| ==> AllSettings[i] != AllSettings[j]
  {
  }

  /** `shortcut` is walked before `shortcutCode`, which matters because the
      former's setter writes the latter. */
  lemma ShortcutBeforeCode()
    ensures AllSettings[2] == Shortcut && AllSettings[3] == ShortcutCode
  {
  }

  /** What `getInfo` finds as the code writes it: `info.sync[name] ||
      info.local[name]` reads through the prototype chain of the two tier
      objects, so a name `Object.prototype` carries finds an inherited member,
      which is truthy and has neither `def`, `get` nor `set`. */
  datatype Entry = Known(k: Setting) | Inherited | Missing

  function LookupAsWritten(name: string): Entry {
    if Lookup(name).Some? then Known(Lookup(name).value)
    else if name in ObjectPrototypeNames then Inherited
    else Missing
  }

  /** The lookup as written agrees with `Lookup` on every name except the
      inherited ones, which it treats as entries. */
  lemma LookupAsWrittenInherits(name: string)
    ensures LookupAsWritten(name) == Inherited <==> name in ObjectPrototypeNames
    ensures LookupAsWritten(name).Known? <==> Lookup(name).Some?
    ensures LookupAsWritten(name) == Inherited ==> Lookup(name).None?
  {
  }

  // ---------------------------------------------------------------------
  // Defaults

  /** What the hotkey service contributes: its default shortcut description and
      the translation of a description into the key codes the page scripts use. */
  datatype Hotkey = Hotkey(defaultDesc: Value, objectsForDOM: Option<Value> -> Value)

  /** Reads the raw stored value of a key, `undefined` when nothing is stored. */
  function Stored(items: map<string, Value>, name: string): Option<Value> {
    if name in items then Some(items[name]) else None
  }

  const TargetsDefault: Value := Obj(map[
    "enableTextArea" := Bool(true), "enableText" := Bool(false),
    "enableSearch" := Bool(false), "enableTel" := Bool(false),
    "enableUrl" := Bool(false), "enableEmail" := Bool(false),
    "enablePassword" := Bool(false), "enableNumber" := Bool(false),
    "enableContentEditable" := Bool(true), "enablePage" := Bool(false)])

  const FstabDefault: Value := Obj(map[
    "dropbox" := Obj(map["enabled" := Bool(true), "isDefault" := Bool(true)]),
    "gdrive" := Obj(map["enabled" := Bool(true)]),
    "onedrive" := Obj(map["enabled" := Bool(true)]),
    "file" := Obj(map["enabled" := Bool(true)])])

  const ExrcDefault: string := "\" exrc for wasavi"

  /** `getDefaultValue` for a known key. Most defaults are literals; the
      shortcut's comes from the hotkey service, and the shortcut code's is
      computed from the shortcut stored at the moment it is asked for. */
  function DefaultValue(hk: Hotkey, items: map<string, Value>, k: Setting): Value {
    match k
    case Targets => TargetsDefault
    case Exrc => Str(ExrcDefault)
    case Shortcut => hk.defaultDesc
    case ShortcutCode => hk.objectsForDOM(Stored(items, Name(Shortcut)))
    case FontFamily => Str(DefaultFont)
    case Fstab => FstabDefault
    case QuickActivation => Bool(false)
    case QaBlacklist => Str("")
    case LogMode => Bool(false)
    case UpgradeNotify => Bool(true)
    case Version => Str("")
    case LineInputHistories => Obj(map[])
    case Registers => Obj(map[])
  }

  /** `getDefaultValue(name)`: `undefined` for a name outside the schema. */
  function GetDefaultValue(hk: Hotkey, items: map<string, Value>, name: string): (r: Option<Value>) {
    match Lookup(name)
    case None => None
    case Some(k) => Some(DefaultValue(hk, items, k))
  }

  /** Only the shortcut code's default depends on what is stored, and only on
      the stored shortcut. */
  lemma DefaultDependsOnShortcut(hk: Hotkey, a: map<string, Value>, b: map<string, Value>, k: Setting)
    requires k == ShortcutCode ==> Stored(a, Name(Shortcut)) == Stored(b, Name(Shortcut))
    ensures DefaultValue(hk, a, k) == DefaultValue(hk, b, k)
  {
  }

  /** The entries that declare a `set` normaliser. */
  predicate HasSetter(k: Setting) {
    k == Shortcut || k == FontFamily || k == Fstab || k == LogMode
  }

  /** The entries whose setter is re-run during initialisation for its side
      effect. */
  predicate SetOnInit(k: Setting) {
    k == Fstab || k == LogMode
  }

  /** The value a setter hands back to be stored: only the font-family setter
      changes it. */
  function Normalised(k: Setting, v: Value): (r: Value)
    ensures k != FontFamily ==> r == v
    ensures k == FontFamily ==> IsFontList(ToJsString(r))
  {
    if k == FontFamily then NormaliseFontFamily(v) else v
  }

  /** Storing a setting's default through its setter stores the default itself. */
  lemma NormalisedDefault(hk: Hotkey, items: map<string, Value>, k: Setting)
    ensures Normalised(k, DefaultValue(hk, items, k)) == DefaultValue(hk, items, k)
  {
    if k == FontFamily {
      DefaultFontIsFontList();
    }
  }

  /** A setting whose default is an object is not normalised by its setter. */
  lemma ObjectDefaultNotNormalised(hk: Hotkey, items: map<string, Value>, k: Setting, v: Value)
    requires DefaultValue(hk, items, k).Obj?
    ensures Normalised(k, v) == v
  {
  }
}
