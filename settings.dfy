/**
 * The settings hook (src/hooks/useSettings.ts): the settings object as the
 * page holds it at run time, its initial load from the `chatSettings`
 * storage entry over `DEFAULT_SETTINGS`, single-key update, reset, the
 * effect that fills in the username and the effect that writes the
 * settings back after every change.
 */
module Settings {
  import opened Wrappers

  /** A JSON value as `JSON.parse` produces it; numbers are restricted to integers. */
  datatype Json = JNull | JBool(b: bool) | JNum(n: int) | JStr(s: string) | JArr(items: seq<Json>) | JObj(fields: map<string, Json>)

  /** The settings object: the spread that builds it copies keys and values without checking them. */
  type SettingsMap = map<string, Json>

  /** JavaScript truthiness; a key that is absent reads as `undefined`, which is falsy. */
  predicate Truthy(v: Option<Json>) {
    match v
    case None => false
    case Some(JNull) => false
    case Some(JBool(b)) => b
    case Some(JNum(n)) => n != 0
    case Some(JStr(s)) => s != ""
    case Some(_) => true
  }

  /** Reads a key of an object the way `settings.key` does. */
  function Get(s: SettingsMap, key: string): (v: Option<Json>)
    ensures v.Some? <==> key in s
    ensures v.Some? ==> v.value == s[key]
  {
    if key in s then Some(s[key]) else None
  }

  // -------------------------------------------------------------- defaults

  /** `DEFAULT_SETTINGS`. */
  const DefaultSettings: SettingsMap := map[
    "username" := JStr(""),
    "status" := JStr("Available"),
    "soundEnabled" := JBool(true),
    "desktopNotifications" := JBool(true),
    "messagePreview" := JBool(true),
    "muteDuringCalls" := JBool(false),
    "notificationVolume" := JNum(70),
    "theme" := JStr("light"),
    "fontSize" := JStr("medium"),
    "messageAnimations" := JBool(true),
    "compactMode" := JBool(false),
    "enterToSend" := JBool(true),
    "typingIndicators" := JBool(true),
    "readReceipts" := JBool(true),
    "messageHistory" := JNum(1000),
    "autoDownload" := JStr("wifi"),
    "lastSeenVisibility" := JStr("everyone"),
    "profilePhotoVisibility" := JStr("everyone"),
    "whoCanAddMe" := JStr("everyone")]

  /** The defaults set no username. */
  lemma DefaultsHaveNoUsername()
    ensures "username" in DefaultSettings && !Truthy(Get(DefaultSettings, "username"))
  {
  }

  // ------------------------------------------------------------ persistence

  /** The `chatSettings` storage entry, as far as loading can tell it apart. */
  datatype Stored =
    | Missing             // `getItem` returned null
    | Unparsable          // the text is empty, or `JSON.parse` throws on it
    | Parsed(value: Json) // the value `JSON.parse` returned

  /** What `JSON.stringify` writes for the settings, seen through a later `JSON.parse`. */
  function Save(s: SettingsMap): Stored {
    Parsed(JObj(s))
  }

  /**
   * The initial state (lines 62-73): the parsed object's keys spread over
   * the defaults; the defaults when nothing is stored or it does not parse.
   * A parsed value that is not an object adds no keys.
   */
  function Load(e: Stored): (s: SettingsMap)
    ensures !(e.Parsed? && e.value.JObj?) ==> s == DefaultSettings
    ensures e.Parsed? && e.value.JObj? ==>
      && s.Keys == DefaultSettings.Keys + e.value.fields.Keys
      && (forall k :: k in e.value.fields ==> s[k] == e.value.fields[k])
      && (forall k :: k in DefaultSettings && k !in e.value.fields ==> s[k] == DefaultSettings[k])
  {
    match e
    case Parsed(JObj(fields)) => DefaultSettings + fields
    case _ => DefaultSettings
  }

  /** Whatever was stored, the loaded settings have every default key. */
  lemma LoadHasDefaultKeys(e: Stored)
    ensures DefaultSettings.Keys <= Load(e).Keys
  {
  }

  /** Saving settings that have every default key and loading them back gives the same settings. */
  lemma LoadAfterSave(s: SettingsMap)
    requires DefaultSettings.Keys <= s.Keys
    ensures Load(Save(s)) == s
  {
    var r := Load(Save(s));
    assert r.Keys == s.Keys;
  }

  // --------------------------------------------------------------- updates

  /** `updateSetting(key, value)` (lines 88-93): `{ ...prev, [key]: value }`. */
  function Update(s: SettingsMap, key: string, value: Json): (r: SettingsMap)
    ensures r.Keys == s.Keys + {key} && key in r && r[key] == value
    ensures forall k :: k in s && k != key ==> r[k] == s[k]
  {
    s[key := value]
  }

  /** A second update of the same key overrides the first. */
  lemma UpdateTwice(s: SettingsMap, key: string, v: Json, w: Json)
    ensures Update(Update(s, key, v), key, w) == Update(s, key, w)
  {
    var a, b := Update(Update(s, key, v), key, w), Update(s, key, w);
    assert a.Keys == b.Keys;
  }

  /** The username effect's condition (line 77): a user name that is not empty, and no username set yet. */
  predicate NeedsUsername(s: SettingsMap, user: Option<string>) {
    user.Some? && user.value != "" && !Truthy(Get(s, "username"))
  }

  /**
   * The hook's state. `settings` is the state value and `stored` the
   * `chatSettings` entry. `unsaved` says that the settings object has
   * changed since the save effect last ran; `isDefaultObject` says that the
   * state is the `DEFAULT_SETTINGS` object itself, so that setting it to
   * that object again is no change and makes React skip the effects.
   */
  class SettingsStore {
    var settings: SettingsMap
    var stored: Stored
    var unsaved: bool
    var isDefaultObject: bool

    /** Settings keep every default key, and once the save effect has caught up, loading gives them back. */
    ghost predicate Valid()
      reads this
    {
      && DefaultSettings.Keys <= settings.Keys
      && (!unsaved ==> Load(stored) == settings)
      && (isDefaultObject ==> settings == DefaultSettings)
    }

    /**
     * Mounting the hook with a storage entry; the save effect is due after the
     * first render. Any entry that parses yields a fresh object from the
     * spread, even when it adds no keys; only a missing or unparsable entry
     * leaves the state the `DEFAULT_SETTINGS` object itself.
     */
    constructor (entry: Stored)
      ensures Valid()
      ensures settings == Load(entry) && stored == entry && unsaved
      ensures isDefaultObject <==> !entry.Parsed?
    {
      settings := Load(entry);
      LoadHasDefaultKeys(entry);
      stored := entry;
      unsaved := true;
      isDefaultObject := !entry.Parsed?;
    }

    /** `updateSetting`: a new object with one key replaced, so the save effect is due. */
    method UpdateSetting(key: string, value: Json)
      requires Valid()
      modifies this
      ensures Valid()
      ensures settings == Update(old(settings), key, value) && stored == old(stored)
      ensures unsaved && !isDefaultObject
    {
      settings := Update(settings, key, value);
      unsaved := true;
      isDefaultObject := false;
    }

    /**
     * `resetSettings` (lines 96-99): the state becomes `DEFAULT_SETTINGS` and
     * the entry is removed. Unless the state already was that object, the
     * save effect is due again, and it will write the defaults back.
     */
    method ResetSettings()
      requires Valid()
      modifies this
      ensures Valid()
      ensures settings == DefaultSettings && stored == Missing && isDefaultObject
      ensures unsaved == (old(unsaved) || !old(isDefaultObject))
    {
      if !isDefaultObject {
        unsaved := true;
      }
      settings := DefaultSettings;
      stored := Missing;
      isDefaultObject := true;
    }

    /** The username effect (lines 76-80): with a named user and no username yet, the user's name is set. */
    method UsernameEffect(user: Option<string>)
      requires Valid()
      modifies this
      ensures Valid() && stored == old(stored)
      ensures NeedsUsername(old(settings), user) ==>
        settings == Update(old(settings), "username", JStr(user.value)) && unsaved && !isDefaultObject
      ensures !NeedsUsername(old(settings), user) ==>
        settings == old(settings) && unsaved == old(unsaved) && isDefaultObject == old(isDefaultObject)
      ensures !NeedsUsername(settings, user)
    {
      if NeedsUsername(settings, user) {
        UpdateSetting("username", JStr(user.value));
      }
    }

    /** The save effect (lines 83-85): after a change, the current settings are written to the entry. */
    method SaveEffect()
      requires Valid()
      modifies this
      ensures Valid() && !unsaved && settings == old(settings) && isDefaultObject == old(isDefaultObject)
      ensures stored == if old(unsaved) then Save(settings) else old(stored)
      ensures Load(stored) == settings
    {
      if unsaved {
        LoadAfterSave(settings);
        stored := Save(settings);
        unsaved := false;
      }
    }
  }

  /**
   * Mount with nothing stored and the user "ann" logged in, let the effects
   * run, then reset and let them run again: the username is filled in and
   * saved both times, so the entry the reset removed is written again.
   */
  method ResetScenario() returns (afterMount: Stored, afterReset: Stored)
    ensures afterMount == Save(DefaultSettings["username" := JStr("ann")])
    ensures afterReset == afterMount
  {
    DefaultsHaveNoUsername();
    var store := new SettingsStore(Missing);
    store.UsernameEffect(Some("ann"));
    store.SaveEffect();
    afterMount := store.stored;
    store.ResetSettings();
    store.UsernameEffect(Some("ann"));
    store.SaveEffect();
    afterReset := store.stored;
  }

  /**
   * Mount over a stored `null` with no user, let the save effect run, then
   * reset: the state was a copy of the defaults, not the defaults object, so
   * the save effect runs again and writes the defaults back.
   */
  method ResetAfterNullScenario() returns (afterMount: Stored, afterReset: Stored)
    ensures afterMount == Save(DefaultSettings)
    ensures afterReset == Save(DefaultSettings)
  {
    var store := new SettingsStore(Parsed(JNull));
    store.UsernameEffect(None);
    store.SaveEffect();
    afterMount := store.stored;
    store.ResetSettings();
    store.UsernameEffect(None);
    store.SaveEffect();
    afterReset := store.stored;
  }

  /** With nothing stored and no user, a reset keeps the defaults object, so nothing is written back. */
  method ResetUntouchedScenario() returns (afterReset: Stored)
    ensures afterReset == Missing
  {
    var store := new SettingsStore(Missing);
    store.UsernameEffect(None);
    store.SaveEffect();
    store.ResetSettings();
    store.UsernameEffect(None);
    store.SaveEffect();
    afterReset := store.stored;
  }
}
