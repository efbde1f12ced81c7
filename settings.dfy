/** The persisted user settings store (apps/frontend/src/stores/settings.ts):
    two display toggles, the RPC provider and the hydration flag. */
module Settings {
  datatype TimestampMode = Age | Time
  datatype UtcMode = Local | Utc

  /** An RPC provider entry; its shape comes from the configuration, which
      is not part of this model. */
  type Provider = string

  function FlipTimestamp(m: TimestampMode): (r: TimestampMode)
    ensures r != m
  {
    if m == Age then Time else Age
  }

  function FlipUtc(m: UtcMode): (r: UtcMode)
    ensures r != m
  {
    if m == Local then Utc else Local
  }

  /** What `partialize` writes to storage (lines 62-67): never `hydrated`. */
  datatype Persisted = Persisted(provider: Provider, providers: seq<Provider>,
                                 timestampMode: TimestampMode, utcMode: UtcMode)

  /** The storage key (line 55). */
  function StorageName(network: string): string {
    "nearblocks:" + network
  }

  class SettingsStore {
    var hydrated: bool
    var provider: Provider
    var providers: seq<Provider>
    var timestampMode: TimestampMode
    var utcMode: UtcMode

    /** `createSettingsStore(network, provider)`'s initial state (lines 37-41). */
    constructor(provider: Provider)
      ensures !hydrated && this.provider == provider && providers == []
      ensures timestampMode == Age && utcMode == Utc
    {
      hydrated := false;
      this.provider := provider;
      providers := [];
      timestampMode := Age;
      utcMode := Utc;
    }

    method SetHydrated(value: bool)
      modifies this
      ensures hydrated == value
      ensures provider == old(provider) && providers == old(providers)
      ensures timestampMode == old(timestampMode) && utcMode == old(utcMode)
    {
      hydrated := value;
    }

    method SetProvider(p: Provider)
      modifies this
      ensures provider == p
      ensures hydrated == old(hydrated) && providers == old(providers)
      ensures timestampMode == old(timestampMode) && utcMode == old(utcMode)
    {
      provider := p;
    }

    /** Lines 44-47 */
    method ToggleTimestampMode()
      modifies this
      ensures timestampMode == FlipTimestamp(old(timestampMode))
      ensures hydrated == old(hydrated) && provider == old(provider) && providers == old(providers)
      ensures utcMode == old(utcMode)
    {
      var mode := timestampMode;
      timestampMode := if mode == Age then Time else Age;
    }

    /** Lines 48-51 */
    method ToggleUtcMode()
      modifies this
      ensures utcMode == FlipUtc(old(utcMode))
      ensures hydrated == old(hydrated) && provider == old(provider) && providers == old(providers)
      ensures timestampMode == old(timestampMode)
    {
      var mode := utcMode;
      utcMode := if mode == Local then Utc else Local;
    }

    /** The `onRehydrateStorage` callback (lines 56-61): a supplied state is
        marked hydrated whether or not an error was reported. */
    method Rehydrated(stateSupplied: bool, error: bool)
      modifies this
      ensures hydrated == (stateSupplied || old(hydrated))
      ensures provider == old(provider) && providers == old(providers)
      ensures timestampMode == old(timestampMode) && utcMode == old(utcMode)
    {
      if stateSupplied {
        SetHydrated(true);
      }
    }

    /** `partialize` (lines 62-67) */
    function Partialize(): (p: Persisted)
      reads this
      ensures p.provider == provider && p.providers == providers
      ensures p.timestampMode == timestampMode && p.utcMode == utcMode
    {
      Persisted(provider, providers, timestampMode, utcMode)
    }
  }

  /** Each toggle is an involution: two clicks restore the mode. */
  lemma TogglesInvolutive(t: TimestampMode, u: UtcMode)
    ensures FlipTimestamp(FlipTimestamp(t)) == t
    ensures FlipUtc(FlipUtc(u)) == u
  {
  }

  /** The persisted state does not depend on `hydrated`: two stores that
      differ only there persist the same record. */
  lemma HydratedNotPersisted(a: SettingsStore, b: SettingsStore)
    requires a.provider == b.provider && a.providers == b.providers
    requires a.timestampMode == b.timestampMode && a.utcMode == b.utcMode
    ensures a.Partialize() == b.Partialize()
  {
  }

  /** Toggling twice restores the whole store. */
  method ToggleTwice(s: SettingsStore)
    modifies s
    ensures s.timestampMode == old(s.timestampMode) && s.utcMode == old(s.utcMode)
    ensures s.Partialize() == old(s.Partialize()) && s.hydrated == old(s.hydrated)
  {
    s.ToggleTimestampMode();
    s.ToggleTimestampMode();
    s.ToggleUtcMode();
    s.ToggleUtcMode();
  }
}
