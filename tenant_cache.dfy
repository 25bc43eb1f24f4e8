/** The tenant-config cache in browser storage (frontend/src/lib/cache.ts).
    `localStorage` is an object holding a map from keys to stored values and
    a flag saying whether it can be used at all (a browser that blocks
    storage throws on every call); the clock is the `now` parameter. */
module TenantCache {
  import opened Wrappers
  import opened TenantTypes

  /** `TENANT_CACHE_TTL`: five minutes, in milliseconds. */
  const TenantCacheTtl := 300000

  datatype CacheEntry = CacheEntry(data: TenantConfig, timestamp: int, ttl: int)

  /** A stored string: the JSON of a cache entry, or any other text (which
      does not parse as an entry). */
  datatype Stored = Json(entry: CacheEntry) | RawText(text: string)

  class LocalStorage {
    var items: map<string, Stored>
    var available: bool

    constructor (items: map<string, Stored>, available: bool)
      ensures this.items == items && this.available == available
    {
      this.items := items;
      this.available := available;
    }
  }

  const ConfigPrefix := "tenant:config:"
  const LanguagePrefix := "tenant:language:"

  /** `tenant:config:<slug>`. */
  function ConfigKey(slug: string): string { ConfigPrefix + slug }

  /** `tenant:language:<slug>`, used by the tenant provider. */
  function LanguageKey(slug: string): string { LanguagePrefix + slug }

  /** Different slugs have different config keys. */
  lemma ConfigKeyInjective(a: string, b: string)
    requires ConfigKey(a) == ConfigKey(b)
    ensures a == b
  {
    assert a == ConfigKey(a)[|ConfigPrefix|..];
    assert b == ConfigKey(b)[|ConfigPrefix|..];
  }

  /** A config key is never a language key. */
  lemma KeysDisjoint(a: string, b: string)
    ensures ConfigKey(a) != LanguageKey(b)
  {
    assert ConfigKey(a)[7] == 'c' && LanguageKey(b)[7] == 'l';
  }

  /** `isCacheValid`: the entry is younger than its TTL (strictly). */
  predicate IsCacheValid(entry: CacheEntry, now: int) {
    now - entry.timestamp < entry.ttl
  }

  /** `getCachedConfig(slug)` on a storage holding `items`: the cached config
      when an entry for the slug is stored and still valid; null when storage
      throws, nothing is stored, the text does not parse, or the entry
      expired. Reading never changes the storage, so an expired entry stays. */
  function GetCachedConfig(items: map<string, Stored>, available: bool, slug: string, now: int): (r: Option<TenantConfig>)
    ensures !available || ConfigKey(slug) !in items ==> r.None?
    ensures r.Some? <==> available && ConfigKey(slug) in items && items[ConfigKey(slug)].Json?
                         && IsCacheValid(items[ConfigKey(slug)].entry, now)
    ensures r.Some? ==> r.value == items[ConfigKey(slug)].entry.data
  {
    if !available then None
    else if ConfigKey(slug) !in items then None
    else match items[ConfigKey(slug)]
      case RawText(_) => None
      case Json(entry) => if IsCacheValid(entry, now) then Some(entry.data) else None
  }

  /** The storage contents after `setCachedConfig(slug, config)` at `now`. */
  function WithEntry(items: map<string, Stored>, slug: string, config: TenantConfig, now: int): map<string, Stored> {
    items[ConfigKey(slug) := Json(CacheEntry(config, now, TenantCacheTtl))]
  }

  /** The storage contents after `clearCachedConfig(slug)`. */
  function WithoutEntry(items: map<string, Stored>, slug: string): map<string, Stored> {
    items - {ConfigKey(slug)}
  }

  /** `setCachedConfig`: writes the slug's entry stamped with `now`; a storage
      that throws is left as it was. */
  method SetCachedConfig(store: LocalStorage, slug: string, config: TenantConfig, now: int)
    modifies store`items
    ensures store.available ==> store.items == WithEntry(old(store.items), slug, config, now)
    ensures !store.available ==> store.items == old(store.items)
  {
    if store.available {
      store.items := store.items[ConfigKey(slug) := Json(CacheEntry(config, now, TenantCacheTtl))];
    }
  }

  /** `clearCachedConfig`: removes the slug's entry; a storage that throws is
      left as it was. */
  method ClearCachedConfig(store: LocalStorage, slug: string)
    modifies store`items
    ensures store.available ==> store.items == WithoutEntry(old(store.items), slug)
    ensures !store.available ==> store.items == old(store.items)
  {
    if store.available {
      store.items := store.items - {ConfigKey(slug)};
    }
  }

  /** A set followed by a get within the TTL returns the config just set. */
  lemma SetThenGet(items: map<string, Stored>, slug: string, config: TenantConfig, setAt: int, now: int)
    requires now - setAt < TenantCacheTtl
    ensures GetCachedConfig(WithEntry(items, slug, config, setAt), true, slug, now) == Some(config)
  {
  }

  /** A set followed by a get at or after the TTL finds nothing. */
  lemma SetThenGetExpired(items: map<string, Stored>, slug: string, config: TenantConfig, setAt: int, now: int)
    requires now - setAt >= TenantCacheTtl
    ensures GetCachedConfig(WithEntry(items, slug, config, setAt), true, slug, now) == None
  {
  }

  /** Setting or clearing one slug's entry leaves every other slug's lookup
      as it was. */
  lemma OtherSlugsUnchanged(items: map<string, Stored>, available: bool, slug: string, other: string,
                            config: TenantConfig, setAt: int, now: int)
    requires slug != other
    ensures GetCachedConfig(WithEntry(items, slug, config, setAt), available, other, now)
         == GetCachedConfig(items, available, other, now)
    ensures GetCachedConfig(WithoutEntry(items, slug), available, other, now)
         == GetCachedConfig(items, available, other, now)
  {
    if ConfigKey(slug) == ConfigKey(other) {
      ConfigKeyInjective(slug, other);
    }
  }

  /** The cache never touches the language entries. */
  lemma LanguageUntouched(items: map<string, Stored>, slug: string, other: string, config: TenantConfig, setAt: int)
    ensures var k := LanguageKey(other);
      && (k in WithEntry(items, slug, config, setAt) <==> k in items)
      && (k in items ==> WithEntry(items, slug, config, setAt)[k] == items[k])
      && (k in WithoutEntry(items, slug) <==> k in items)
      && (k in items ==> WithoutEntry(items, slug)[k] == items[k])
  {
    KeysDisjoint(slug, other);
  }

  /** After a clear, a get finds nothing. */
  lemma ClearThenGet(items: map<string, Stored>, available: bool, slug: string, now: int)
    ensures GetCachedConfig(WithoutEntry(items, slug), available, slug, now) == None
  {
  }

  /** Once expired, an entry stays expired as time goes on. */
  lemma ExpiredStaysExpired(items: map<string, Stored>, available: bool, slug: string, now: int, later: int)
    requires ConfigKey(slug) in items && items[ConfigKey(slug)].Json?
    requires !IsCacheValid(items[ConfigKey(slug)].entry, now) && now <= later
    ensures GetCachedConfig(items, available, slug, later) == None
  {
  }
}
