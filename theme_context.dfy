/**
 * The theme provider of contexts/theme-context.tsx: a user preference
 * (`light`, `dark` or follow-the-`system`), loaded once from persistent
 * storage at mount, resolved against the platform's colour scheme, and
 * written back whenever the user changes it. The provider withholds its value
 * until the stored preference has been read (the "render gate").
 */
module ThemeContext {
  import opened Wrappers

  datatype ThemeMode = Light | Dark | System

  /** The theme actually applied: a mode other than `System`. */
  type ResolvedTheme = m: ThemeMode | m != System witness Light

  /** The one storage key the provider owns. */
  const ThemeStorageKey: string := "@theme_mode"

  /** The failure `useTheme` raises outside a provider. */
  datatype ThemeError = OutsideProvider {
    /** The message of the thrown `Error`. */
    function Message(): string
    {
      "useTheme must be used within a ThemeProvider"
    }
  }

  /** The strings a mode is stored as. */
  const ModeNames: set<string> := {"light", "dark", "system"}

  /** The string `setMode` writes for a mode. */
  function ModeName(m: ThemeMode): (s: string)
    ensures s in ModeNames
  {
    match m
    case Light => "light"
    case Dark => "dark"
    case System => "system"
  }

  /**
   * The validity check of the load callback: a stored string is adopted only
   * when it is exactly one of the three mode names.
   */
  function ParseMode(saved: Option<string>): (r: Option<ThemeMode>)
    ensures r.Some? <==> saved.Some? && saved.value in ModeNames
    ensures r.Some? ==> ModeName(r.value) == saved.value
  {
    match saved
    case None => None
    case Some(s) =>
      if s == "light" then Some(Light)
      else if s == "dark" then Some(Dark)
      else if s == "system" then Some(System)
      else None
  }

  /** Every mode survives being written and read back. */
  lemma ParseModeName(m: ThemeMode)
    ensures ParseMode(Some(ModeName(m))) == Some(m)
  {
  }

  /**
   * `resolvedTheme`: an explicit mode is used as it is; `System` follows the
   * platform's scheme, or `Light` when the platform reports none.
   */
  function Resolve(mode: ThemeMode, systemScheme: Option<ResolvedTheme>): (r: ResolvedTheme)
    ensures mode != System ==> r == mode
    ensures mode == System && systemScheme.Some? ==> r == systemScheme.value
    ensures mode == System && systemScheme.None? ==> r == Light
  {
    if mode == System then systemScheme.GetOr(Light) else mode
  }

  /** An explicit mode does not depend on the platform's scheme at all. */
  lemma ResolveExplicitIgnoresSystem(mode: ThemeMode, a: Option<ResolvedTheme>, b: Option<ResolvedTheme>)
    requires mode != System
    ensures Resolve(mode, a) == Resolve(mode, b) == mode
  {
  }

  /**
   * The mode the load effect leaves behind, starting from `System`, when the
   * storage holds `entries` and the read fails or not.
   */
  function LoadedMode(entries: map<string, string>, readFails: bool): (r: ThemeMode)
    ensures !readFails && ThemeStorageKey in entries && entries[ThemeStorageKey] in ModeNames
            ==> ModeName(r) == entries[ThemeStorageKey]
    ensures readFails || ThemeStorageKey !in entries || entries[ThemeStorageKey] !in ModeNames
            ==> r == System
  {
    if readFails then System
    else
      var saved := if ThemeStorageKey in entries then Some(entries[ThemeStorageKey]) else None;
      ParseMode(saved).GetOr(System)
  }

  /** What the provider hands to its subtree. */
  datatype ThemeContextValue = ThemeContextValue(mode: ThemeMode, resolvedTheme: ResolvedTheme)

  /**
   * `useTheme`: the context value when there is one; otherwise it throws,
   * and never invents a default.
   */
  function UseTheme(context: Option<ThemeContextValue>): (r: Result<ThemeContextValue, ThemeError>)
    ensures r.Failure? <==> context.None?
    ensures r.Success? ==> r.value == context.value
    ensures r.Failure? ==> r.error == OutsideProvider
    ensures r.Failure? ==> r.error.Message() == "useTheme must be used within a ThemeProvider"
  {
    match context
    case Some(v) => Success(v)
    case None => Failure(OutsideProvider)
  }

  /**
   * One mounted `ThemeProvider`. `storage` is the content of the persistent
   * key-value store; it outlives the provider and is handed to the next one.
   */
  class ThemeProvider {
    var mode: ThemeMode
    var isLoaded: bool
    var storage: map<string, string>

    /**
     * Not yet loaded means still in the initial `System` mode. `Load` is one
     * step here; in the source the stored mode is adopted in the read's `.then`
     * and `isLoaded` is set in a later `.finally`, and that in-between state
     * is never observable because the provider withholds its value until
     * it is loaded.
     */
    ghost predicate Valid()
      reads this
    {
      !isLoaded ==> mode == System
    }

    /** Mounting: mode `System`, not yet loaded, over the persisted entries. */
    constructor (persisted: map<string, string>)
      ensures Valid()
      ensures mode == System && !isLoaded && storage == persisted
    {
      mode := System;
      isLoaded := false;
      storage := persisted;
    }

    /**
     * The mount effect: read the key, adopt the value when it is a mode name,
     * and become loaded whatever the read gave (the `.finally`).
     */
    method Load(readFails: bool)
      requires Valid() && !isLoaded
      modifies this`mode, this`isLoaded
      ensures Valid() && isLoaded
      ensures mode == LoadedMode(storage, readFails)
    {
      if !readFails {
        var saved := if ThemeStorageKey in storage then Some(storage[ThemeStorageKey]) else None;
        var parsed := ParseMode(saved);
        if parsed.Some? {
          mode := parsed.value;
        }
      }
      isLoaded := true;
    }

    /**
     * `setMode`: the new mode is visible at once and is written under the
     * provider's key; no other key changes. Only reachable through the
     * context value, hence only once loaded.
     */
    method SetMode(newMode: ThemeMode)
      requires Valid() && isLoaded
      modifies this`mode, this`storage
      ensures Valid() && isLoaded
      ensures mode == newMode
      ensures storage == old(storage)[ThemeStorageKey := ModeName(newMode)]
      ensures forall k :: k in old(storage) && k != ThemeStorageKey ==> k in storage && storage[k] == old(storage)[k]
    {
      mode := newMode;
      storage := storage[ThemeStorageKey := ModeName(newMode)];
    }

    /** The render gate: nothing while loading, then the mode and its resolution. */
    function Value(systemScheme: Option<ResolvedTheme>): (v: Option<ThemeContextValue>)
      reads this
      ensures v.None? <==> !isLoaded
      ensures v.Some? ==> v.value.mode == mode && v.value.resolvedTheme == Resolve(mode, systemScheme)
    {
      if isLoaded then Some(ThemeContextValue(mode, Resolve(mode, systemScheme))) else None
    }
  }

  /**
   * A first session that picks `m`, then a restart over the same storage:
   * the new provider comes up with `m`, whatever the first read gave.
   */
  method SetModeThenRestart(persisted: map<string, string>, firstReadFails: bool, m: ThemeMode)
    returns (reloaded: ThemeMode, stored: map<string, string>)
    ensures reloaded == m
    ensures ThemeStorageKey in stored && stored[ThemeStorageKey] == ModeName(m)
    ensures stored.Keys == persisted.Keys + {ThemeStorageKey}
  {
    var first := new ThemeProvider(persisted);
    first.Load(firstReadFails);
    first.SetMode(m);
    stored := first.storage;
    var second := new ThemeProvider(stored);
    second.Load(false);
    reloaded := second.mode;
  }

  /** Calling `setMode(m)` a second time changes neither the value nor the storage. */
  method SetModeTwice(persisted: map<string, string>, readFails: bool, m: ThemeMode, systemScheme: Option<ResolvedTheme>)
    returns (once: Option<ThemeContextValue>, storedOnce: map<string, string>,
             twice: Option<ThemeContextValue>, storedTwice: map<string, string>)
    ensures once == twice && storedOnce == storedTwice
    ensures once == Some(ThemeContextValue(m, Resolve(m, systemScheme)))
  {
    var p := new ThemeProvider(persisted);
    p.Load(readFails);
    p.SetMode(m);
    once, storedOnce := p.Value(systemScheme), p.storage;
    p.SetMode(m);
    twice, storedTwice := p.Value(systemScheme), p.storage;
  }

  /**
   * A provider observed right after mounting and after its load: it withholds
   * its value (its subtree is not rendered), then exposes the loaded mode,
   * which `useTheme` in the subtree returns.
   */
  method MountAndLoad(persisted: map<string, string>, readFails: bool, systemScheme: Option<ResolvedTheme>)
    returns (before: Option<ThemeContextValue>, after: Result<ThemeContextValue, ThemeError>)
    ensures before == None
    ensures after.Success? && after.value.mode == LoadedMode(persisted, readFails)
    ensures after.value.resolvedTheme == Resolve(LoadedMode(persisted, readFails), systemScheme)
  {
    var p := new ThemeProvider(persisted);
    before := p.Value(systemScheme);
    p.Load(readFails);
    after := UseTheme(p.Value(systemScheme));
  }
}
