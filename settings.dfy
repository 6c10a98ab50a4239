/**
 * The settings record and the settings page: four endpoint fields read from
 * the durable store (`app_settings`), with build-time environment values and
 * fixed defaults as fall-backs; field edits, reset to the defaults, and save
 * with a status that returns to idle after a timer.
 */
module AppSettings {
  import opened Wrappers
  import opened JsText
  import opened Json
  import opened LocalStorage

  const SettingsKey: string := "app_settings"

  const ProxyField: string := "corsProxyEndpoint"
  const IndexField: string := "brickIndex"
  const RepoField: string := "repoUrl"
  const DocBaseField: string := "docBaseUrl"

  const DefaultProxy: string := "https://corsproxy.lantian.pro"
  const DefaultIndex: string := "https://codespace.lantian.pro/LantianCloud/BrickHub/raw/branch/main/index.json"
  const DefaultRepo: string := "https://codespace.lantian.pro/LantianCloud/BrickHub"
  const DefaultDocBase: string := "https://codespace.lantian.pro/LantianCloud/Brick/raw/branch/main/docs"

  /** A settings record with the four fields in their declared order. */
  function Record(proxy: string, index: string, repo: string, docBase: string): Json
  {
    JObject([(ProxyField, JString(proxy)), (IndexField, JString(index)), (RepoField, JString(repo)), (DocBaseField, JString(docBase))])
  }

  const Defaults: Json := Record(DefaultProxy, DefaultIndex, DefaultRepo, DefaultDocBase)

  /** `import.meta.env[name] || fallback`: a build-time variable, when set and non-empty. */
  function EnvOr(env: map<string, string>, name: string, fallback: string): string
  {
    if name in env && env[name] != [] then env[name] else fallback
  }

  /** The record built from the environment, each field falling back to its default. */
  function EnvSettings(env: map<string, string>): Json
  {
    Record(EnvOr(env, "VITE_CORS_PROXY_ENDPOINT", DefaultProxy), EnvOr(env, "VITE_BRICK_INDEX", DefaultIndex),
           EnvOr(env, "VITE_REPO_URL", DefaultRepo), EnvOr(env, "VITE_DOC_BASE_URL", DefaultDocBase))
  }

  /**
   * The stored settings as the views read them: the parsed `app_settings`
   * text when it is non-empty and parses (`parse` stands for `JSON.parse`),
   * `null` otherwise. Whatever the text parses to is returned, `null` and
   * non-objects included.
   */
  function StoredSettings(entries: map<string, string>, parse: string -> Option<Json>): Json
  {
    if SettingsKey in entries && entries[SettingsKey] != [] then
      match parse(entries[SettingsKey])
      case Some(v) => v
      case None => JNull
    else JNull
  }

  /** The settings page's initial record: the stored one when present and parseable, else the environment's. */
  function InitialSettings(entries: map<string, string>, parse: string -> Option<Json>, env: map<string, string>): Json
  {
    if SettingsKey in entries && entries[SettingsKey] != [] then
      match parse(entries[SettingsKey])
      case Some(v) => v
      case None => EnvSettings(env)
    else EnvSettings(env)
  }

  /** Without a usable stored record and without environment values, the page starts from the defaults. */
  lemma InitialSettingsDefaults(entries: map<string, string>, parse: string -> Option<Json>)
    requires SettingsKey !in entries
    ensures InitialSettings(entries, parse, map[]) == Defaults
  {
  }

  /** The initial record agrees with what the other views read, whenever a record is stored and parses. */
  lemma InitialSettingsAgree(entries: map<string, string>, parse: string -> Option<Json>, env: map<string, string>)
    ensures StoredSettings(entries, parse) != JNull ==> InitialSettings(entries, parse, env) == StoredSettings(entries, parse)
    ensures StoredSettings(entries, parse) == JNull && InitialSettings(entries, parse, env) != JNull ==>
      InitialSettings(entries, parse, env) == EnvSettings(env)
  {
  }

  /** `{...prev, [field]: value}`. */
  function Changed(prev: Json, field: string, value: string): Json
  {
    JObject(SetMember(Spread(prev), field, JString(value)))
  }

  /** An edit replaces exactly the edited field of a settings object. */
  lemma ChangedFields(prev: Json, field: string, value: string, other: string)
    requires prev.JObject?
    ensures Get(Changed(prev, field, value), field) == Some(JString(value))
    ensures other != field ==> Get(Changed(prev, field, value), other) == Get(prev, other)
    ensures Keys(Changed(prev, field, value).members) == Keys(prev.members) || field !in Keys(prev.members)
  {
    SetMemberLookupSame(prev.members, field, JString(value));
    if other != field {
      SetMemberLookupOther(prev.members, field, JString(value), other);
    }
    SetMemberKeys(prev.members, field, JString(value));
  }

  datatype SaveStatus = Idle | Success | Error

  /** The settings page. */
  class SettingsView {
    var settings: Json
    var isSaving: bool
    var saveStatus: SaveStatus
    /** Reset-to-idle timers started by successful saves that have not fired yet (they are never cancelled). */
    var idleTimers: nat

    constructor Mount(storage: Storage, parse: string -> Option<Json>, env: map<string, string>)
      ensures settings == InitialSettings(storage.entries, parse, env)
      ensures !isSaving && saveStatus == Idle && idleTimers == 0
    {
      settings := InitialSettings(storage.entries, parse, env);
      isSaving := false;
      saveStatus := Idle;
      idleTimers := 0;
    }

    method HandleChange(field: string, value: string)
      modifies this`settings
      ensures settings == Changed(old(settings), field, value)
    {
      settings := Changed(settings, field, value);
    }

    /** Reset restores the fixed defaults, not the environment's values. */
    method HandleReset()
      modifies this`settings
      ensures settings == Defaults
    {
      settings := Defaults;
    }

    /**
     * Save: the record is written compactly under `app_settings`. A refused
     * write (`quotaExceeded`) sets the error status and stores nothing; a
     * successful one sets the success status and starts a 2000 ms timer back
     * to idle. Saving is over when the handler returns.
     */
    method HandleSave(storage: Storage, quotaExceeded: bool)
      modifies this`isSaving, this`saveStatus, this`idleTimers, storage
      ensures storage.entries == if quotaExceeded then old(storage.entries) else old(storage.entries)[SettingsKey := Stringify(settings)]
      ensures saveStatus == (if quotaExceeded then Error else Success)
      ensures idleTimers == old(idleTimers) + (if quotaExceeded then 0 else 1)
      ensures !isSaving && settings == old(settings)
    {
      isSaving := true;
      saveStatus := Idle;
      var ok := storage.SetItem(SettingsKey, Stringify(settings), quotaExceeded);
      if ok {
        saveStatus := Success;
        idleTimers := idleTimers + 1;
      } else {
        saveStatus := Error;
      }
      isSaving := false;
    }

    /** A reset-to-idle timer fires: whatever the status, it becomes idle. */
    method IdleTimerFires()
      requires idleTimers > 0
      modifies this`saveStatus, this`idleTimers
      ensures saveStatus == Idle && idleTimers == old(idleTimers) - 1
    {
      saveStatus := Idle;
      idleTimers := idleTimers - 1;
    }
  }

  /**
   * What the page saves is what the other views read back, for any parser
   * that reads a compact record back.
   */
  method SaveThenRead(view: SettingsView, storage: Storage, parse: string -> Option<Json>)
    requires view.settings.JObject? && parse(Stringify(view.settings)) == Some(view.settings)
    modifies view`isSaving, view`saveStatus, view`idleTimers, storage
    ensures StoredSettings(storage.entries, parse) == view.settings
  {
    view.HandleSave(storage, false);
    assert storage.entries[SettingsKey] == Stringify(view.settings);
    StringifyNonEmpty(view.settings);
  }

  lemma StringifyNonEmpty(v: Json)
    requires v.JObject?
    ensures Stringify(v) != []
  {
    assert Stringify(v)[0] == '{';
  }
}
