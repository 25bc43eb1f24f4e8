/** The tenant provider's state machine (frontend/src/contexts/TenantProvider.tsx):
    the stored language, config loading with the cache and the in-flight
    guard, refresh, and the language setter. The asynchronous fetch is split
    in two steps: `LoadConfig` starts a load and reports whether a fetch is
    now pending, and `CompleteFetch` applies the fetch's outcome. */
module TenantProvider {
  import opened Wrappers
  import opened TenantTypes
  import opened TenantSlug
  import opened TenantCache

  const SlugError := "Tenant slug is missing or invalid"
  const UnknownLoadError := "Unknown tenant load error"
  const DefaultLanguage := "en"

  /** What `fetchTenantConfig` did: resolved with a config, or threw (with
      the message of an `Error`, or something that is not an `Error`). */
  datatype FetchResult = Fetched(config: TenantConfig) | FetchFailed(message: Option<string>)

  /** `readLanguage(slug)`: the text stored under `tenant:language:<slug>`;
      null without a slug or when storage throws. */
  function ReadLanguage(items: map<string, Stored>, available: bool, slug: Option<string>): (r: Option<string>)
    ensures slug.None? || slug.value == "" || !available ==> r.None?
    ensures r.Some? <==> slug.Some? && slug.value != "" && available && LanguageKey(slug.value) in items
                         && items[LanguageKey(slug.value)].RawText?
    ensures r.Some? ==> r.value == items[LanguageKey(slug.value)].text
  {
    if slug.None? || slug.value == "" || !available then None
    else if LanguageKey(slug.value) !in items then None
    else match items[LanguageKey(slug.value)]
      case RawText(t) => Some(t)
      case Json(_) => None
  }

  /** The contents after `persistLanguage(slug, language)`. */
  function WithLanguage(items: map<string, Stored>, available: bool, slug: Option<string>, language: string): map<string, Stored> {
    if slug.None? || slug.value == "" || !available then items
    else items[LanguageKey(slug.value) := RawText(language)]
  }

  /** The language `loadLanguage(next)` leaves: a non-empty stored language
      wins, then a non-empty language of the config, else it is unchanged. */
  function ChooseLanguage(current: string, stored: Option<string>, next: Option<TenantConfig>): (l: string)
    ensures stored.Some? && stored.value != "" ==> l == stored.value
    ensures (stored.None? || stored.value == "") && next.Some? && next.value.tenant.language != "" ==>
              l == next.value.tenant.language
    ensures (stored.None? || stored.value == "") && (next.None? || next.value.tenant.language == "") ==>
              l == current
  {
    if stored.Some? && stored.value != "" then stored.value
    else if next.Some? && next.value.tenant.language != "" then next.value.tenant.language
    else current
  }

  /** A persisted language is read back. */
  lemma PersistThenRead(items: map<string, Stored>, slug: string, language: string)
    requires slug != ""
    ensures ReadLanguage(WithLanguage(items, true, Some(slug), language), true, Some(slug)) == Some(language)
  {
  }

  /** Writing the config cache never changes the language read back. */
  lemma CacheWriteKeepsLanguage(items: map<string, Stored>, available: bool, slug: Option<string>,
                                other: string, config: TenantConfig, now: int)
    ensures ReadLanguage(WithEntry(items, other, config, now), available, slug) == ReadLanguage(items, available, slug)
    ensures ReadLanguage(WithoutEntry(items, other), available, slug) == ReadLanguage(items, available, slug)
  {
    if slug.Some? {
      KeysDisjoint(other, slug.value);
    }
  }

  /** Persisting a language never changes what the config cache returns. */
  lemma LanguageWriteKeepsCache(items: map<string, Stored>, available: bool, slug: Option<string>,
                                language: string, other: string, now: int)
    ensures GetCachedConfig(WithLanguage(items, available, slug, language), available, other, now)
         == GetCachedConfig(items, available, other, now)
  {
    if slug.Some? {
      KeysDisjoint(other, slug.value);
    }
  }

  class Provider {
    /** `initialSlug ?? extractSlug(pathname)`, fixed for the provider's life. */
    const tenantSlug: Option<string>
    const isValidSlug: bool
    const storage: LocalStorage

    var config: Option<TenantConfig>
    /** The message of the current error, if any. */
    var error: Option<string>
    var isLoading: bool
    /** `isFetchingRef.current`. */
    var isFetching: bool
    var language: string

    /** Loading and the in-flight flag move together; a config and an error
        are never shown at once; nothing is fetched or loaded for an unusable
        slug. */
    ghost predicate Valid()
      reads this
    {
      && isValidSlug == SlugUsable(tenantSlug)
      && isFetching == isLoading
      && !(config.Some? && error.Some?)
      && (isFetching ==> error.None? && isValidSlug)
      && (!isValidSlug ==> config.None? && !isFetching)
    }

    constructor (initialSlug: Option<string>, pathname: Option<string>, storage: LocalStorage)
      ensures Valid()
      ensures tenantSlug == SelectSlug(initialSlug, pathname) && this.storage == storage
      ensures config.None? && error.None? && !isLoading && !isFetching && language == DefaultLanguage
    {
      var slug := SelectSlug(initialSlug, pathname);
      tenantSlug := slug;
      isValidSlug := SlugUsable(slug);
      this.storage := storage;
      config := None;
      error := None;
      isLoading := false;
      isFetching := false;
      language := DefaultLanguage;
    }

    /** `tenantSlug ?? config?.tenant.slug ?? null`, as exposed to consumers. */
    function ExposedSlug(): Option<string>
      reads this
    {
      tenantSlug.OrElse(if config.Some? then Some(config.value.tenant.slug) else None)
    }

    /** `loadLanguage(next)`. */
    method LoadLanguage(next: Option<TenantConfig>)
      modifies this`language
      ensures language == ChooseLanguage(old(language),
                ReadLanguage(storage.items, storage.available,
                             tenantSlug.OrElse(if next.Some? then Some(next.value.tenant.slug) else None)),
                next)
    {
      var slug := tenantSlug.OrElse(if next.Some? then Some(next.value.tenant.slug) else None);
      var stored := ReadLanguage(storage.items, storage.available, slug);
      if stored.Some? && stored.value != "" {
        language := stored.value;
        return;
      }
      if next.Some? && next.value.tenant.language != "" {
        language := next.value.tenant.language;
      }
    }

    /** `loadConfig(bypassCache)` up to the fetch. Returns whether a fetch is
        now pending. */
    method LoadConfig(bypassCache: bool, now: int) returns (pending: bool)
      requires Valid()
      modifies this
      ensures Valid()
      ensures storage.items == old(storage.items)
      ensures !isValidSlug ==>
                && !pending && error == Some(SlugError) && config.None?
                && isLoading == old(isLoading) && isFetching == old(isFetching) && language == old(language)
      ensures isValidSlug && old(isFetching) ==>
                && !pending && config == old(config) && error == old(error)
                && isLoading && isFetching && language == old(language)
      ensures isValidSlug && !old(isFetching) ==>
                var cached := if bypassCache then None
                              else GetCachedConfig(storage.items, storage.available, tenantSlug.value, now);
                && error.None?
                && (cached.Some? ==>
                      && !pending && config == cached && !isLoading && !isFetching
                      && language == ChooseLanguage(old(language),
                                       ReadLanguage(storage.items, storage.available, tenantSlug), cached))
                && (cached.None? ==>
                      && pending && config == old(config) && isLoading && isFetching && language == old(language))
    {
      if !isValidSlug {
        error := Some(SlugError);
        config := None;
        return false;
      }
      if isFetching {
        return false;
      }
      isFetching := true;
      isLoading := true;
      error := None;
      var cached := if bypassCache then None
                    else GetCachedConfig(storage.items, storage.available, tenantSlug.value, now);
      if cached.Some? {
        config := cached;
        LoadLanguage(cached);
        isLoading := false;
        isFetching := false;
        return false;
      }
      pending := true;
    }

    /** The rest of `loadConfig` once the pending fetch settles: a config is
        shown and cached, a failure clears the config and sets the error;
        either way loading ends. */
    method CompleteFetch(result: FetchResult, now: int)
      requires Valid() && isFetching
      modifies this, storage`items
      ensures Valid()
      ensures !isLoading && !isFetching
      ensures result.Fetched? ==>
                && config == Some(result.config) && error.None?
                && (storage.available ==> storage.items == WithEntry(old(storage.items), tenantSlug.value, result.config, now))
                && (!storage.available ==> storage.items == old(storage.items))
                && language == ChooseLanguage(old(language),
                                 ReadLanguage(storage.items, storage.available, tenantSlug), Some(result.config))
      ensures result.FetchFailed? ==>
                && config.None? && error == Some(result.message.GetOr(UnknownLoadError))
                && storage.items == old(storage.items) && language == old(language)
    {
      match result {
        case Fetched(data) =>
          config := Some(data);
          SetCachedConfig(storage, tenantSlug.value, data, now);
          LoadLanguage(Some(data));
        case FetchFailed(message) =>
          error := Some(message.GetOr(UnknownLoadError));
          config := None;
      }
      isLoading := false;
      isFetching := false;
    }

    /** `refreshConfig`: drop the cached entry, then load bypassing the cache. */
    method RefreshConfig(now: int) returns (pending: bool)
      requires Valid()
      modifies this, storage`items
      ensures Valid()
      ensures !isValidSlug ==>
                && !pending && storage.items == old(storage.items)
                && config == old(config) && error == old(error) && isLoading == old(isLoading)
      ensures isValidSlug && storage.available ==> storage.items == WithoutEntry(old(storage.items), tenantSlug.value)
      ensures isValidSlug && !old(isFetching) ==>
                pending && isLoading && isFetching && error.None? && config == old(config)
      ensures isValidSlug && old(isFetching) ==>
                !pending && isLoading && config == old(config) && error == old(error)
      ensures !storage.available ==> storage.items == old(storage.items)
      ensures language == old(language)
    {
      if !isValidSlug {
        return false;
      }
      ClearCachedConfig(storage, tenantSlug.value);
      pending := LoadConfig(true, now);
    }

    /** `setLanguage(lang)`: shown at once and persisted under the exposed slug. */
    method SetLanguage(lang: string)
      requires Valid()
      modifies this`language, storage`items
      ensures Valid()
      ensures language == lang
      ensures storage.items == WithLanguage(old(storage.items), storage.available, ExposedSlug(), lang)
    {
      language := lang;
      var slug := ExposedSlug();
      if slug.Some? && slug.value != "" && storage.available {
        storage.items := storage.items[LanguageKey(slug.value) := RawText(lang)];
      }
    }

    /** The mount effect: refuse an unusable slug, else show a stored
        language at once and start loading, which a valid cache entry
        completes at once and a load already in flight leaves alone. */
    method Mount(now: int) returns (pending: bool)
      requires Valid()
      modifies this
      ensures Valid()
      ensures storage.items == old(storage.items)
      ensures !isValidSlug ==>
                && !pending && error == Some(SlugError) && config.None?
                && isLoading == old(isLoading) && isFetching == old(isFetching) && language == old(language)
      ensures isValidSlug ==>
                var stored := ChooseLanguage(old(language), ReadLanguage(storage.items, storage.available, tenantSlug), None);
                var cached := GetCachedConfig(storage.items, storage.available, tenantSlug.value, now);
                && (old(isFetching) ==>
                      && !pending && config == old(config) && error == old(error)
                      && isLoading && isFetching && language == stored)
                && (!old(isFetching) && cached.Some? ==>
                      && !pending && config == cached && error.None? && !isLoading && !isFetching
                      && language == ChooseLanguage(stored, ReadLanguage(storage.items, storage.available, tenantSlug), cached))
                && (!old(isFetching) && cached.None? ==>
                      && pending && config == old(config) && error.None? && isLoading && isFetching
                      && language == stored)
    {
      if !isValidSlug {
        error := Some(SlugError);
        config := None;
        return false;
      }
      var cachedLanguage := ReadLanguage(storage.items, storage.available, tenantSlug);
      if cachedLanguage.Some? && cachedLanguage.value != "" {
        language := cachedLanguage.value;
      }
      pending := LoadConfig(false, now);
    }
  }

  /** With an unusable slug nothing is ever fetched: mount, load and refresh
      all leave no fetch pending, and the error is the slug error. */
  method UnusableSlugNeverFetches(p: Provider, now: int)
    requires p.Valid() && !p.isValidSlug
    modifies p, p.storage`items
    ensures p.Valid() && p.error == Some(SlugError) && p.config.None? && !p.isFetching
  {
    var a := p.Mount(now);
    var b := p.LoadConfig(false, now);
    var c := p.RefreshConfig(now);
    assert !a && !b && !c;
  }

  /** A load that finds a valid cache entry completes immediately, shows the
      cached config and fetches nothing. */
  method CacheHitCompletes(p: Provider, now: int)
    requires p.Valid() && p.isValidSlug && !p.isFetching
    requires GetCachedConfig(p.storage.items, p.storage.available, p.tenantSlug.value, now).Some?
    modifies p
    ensures p.Valid() && !p.isLoading && !p.isFetching && p.error.None?
    ensures p.config == GetCachedConfig(p.storage.items, p.storage.available, p.tenantSlug.value, now)
  {
    var pending := p.LoadConfig(false, now);
    assert !pending;
  }

  /** A second load while one is in flight changes nothing; after the first
      completes, loading has ended whatever the outcome. */
  method InFlightGuard(p: Provider, result: FetchResult, now: int)
    requires p.Valid() && p.isValidSlug && !p.isFetching
    requires GetCachedConfig(p.storage.items, p.storage.available, p.tenantSlug.value, now).None?
    modifies p, p.storage`items
    ensures p.Valid() && !p.isLoading && !p.isFetching
    ensures result.Fetched? ==> p.config == Some(result.config) && p.error.None?
    ensures result.FetchFailed? ==> p.config.None? && p.error.Some?
  {
    var first := p.LoadConfig(false, now);
    assert first;
    var configBefore, errorBefore := p.config, p.error;
    var second := p.LoadConfig(false, now);
    assert !second && p.config == configBefore && p.error == errorBefore && p.isFetching;
    p.CompleteFetch(result, now);
  }
}
