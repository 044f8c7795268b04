/**
 * The shared helpers of the recorder: the browser table, the fixed-capacity cache with first-in
 * first-out eviction, URL normalisation, and the two helpers memoised through the shared cache.
 */
module Constants {
  import opened Wrappers
  import opened OrderedDict
  import JsObject

  // ---------------------------------------------------------------------------------------------
  // The browser table

  datatype BrowserType = Chromium | Firefox

  /** `{ type, channel, name }`; Firefox has a `null` channel. */
  datatype BrowserConfig = BrowserConfig(browserType: BrowserType, channel: Option<string>, name: string)

  const ChromeConfig := BrowserConfig(Chromium, Some("chrome"), "chrome")
  const EdgeConfig := BrowserConfig(Chromium, Some("msedge"), "edge")
  const FirefoxConfig := BrowserConfig(Firefox, None, "firefox")

  /** `BROWSER_CONFIGS`, keyed by the menu choice. */
  const BrowserConfigs: Dict<string, BrowserConfig> := [("1", ChromeConfig), ("2", EdgeConfig), ("3", FirefoxConfig)]

  /**
   * `BROWSER_CONFIGS[choice] || BROWSER_CONFIGS['1']`, reading own properties only: the three menu
   * choices select their browser, and every other string, the empty one included, selects Chrome.
   */
  function BrowserConfigFor(choice: string): (config: BrowserConfig)
    ensures config == (if choice == "2" then EdgeConfig else if choice == "3" then FirefoxConfig else ChromeConfig)
    ensures config.name in {"chrome", "edge", "firefox"}
  {
    assert BrowserConfigs[1..] == [("2", EdgeConfig), ("3", FirefoxConfig)];
    assert BrowserConfigs[1..][1..] == [("3", FirefoxConfig)];
    assert BrowserConfigs[1..][1..][1..] == [];
    assert Lookup(BrowserConfigs[1..][1..], choice) == if choice == "3" then Some(FirefoxConfig) else None;
    assert Lookup(BrowserConfigs[1..], choice) ==
      if choice == "2" then Some(EdgeConfig) else Lookup(BrowserConfigs[1..][1..], choice);
    Lookup(BrowserConfigs, choice).GetOr(ChromeConfig)
  }

  /** What `obj[name]` can yield: an own property, or a member inherited from `Object.prototype`. */
  datatype PropertyValue = Own(config: BrowserConfig) | Inherited(name: string)

  /**
   * The lookup as the source writes it: the bracket access on the plain object also finds the
   * inherited members, and since those are truthy the `|| BROWSER_CONFIGS['1']` default is skipped.
   */
  function BrowserConfigAsWritten(choice: string): (r: PropertyValue)
    ensures choice !in JsObject.InheritedProperties ==> r == Own(BrowserConfigFor(choice))
    ensures r.Inherited? <==> choice in JsObject.InheritedProperties
  {
    match Lookup(BrowserConfigs, choice)
    case Some(config) => Own(config)
    case None => if choice in JsObject.InheritedProperties then Inherited(choice) else Own(ChromeConfig)
  }

  /** Typing `constructor` at the browser prompt yields the `Object` function, not the Chrome default. */
  lemma InheritedChoiceEscapesDefault()
    ensures BrowserConfigAsWritten("constructor") == Inherited("constructor")
    ensures BrowserConfigFor("constructor") == ChromeConfig
  {
    assert "constructor" in JsObject.InheritedProperties;
  }

  // ---------------------------------------------------------------------------------------------
  // SimpleCache

  /** The most entries a cache built with `maxSize` holds: eviction always leaves room for one. */
  function Capacity(maxSize: int): (n: int)
    ensures n >= 1 && (maxSize >= 1 ==> n == maxSize)
  {
    if maxSize < 1 then 1 else maxSize
  }

  /** The eviction step of `set`: when the size has reached `maxSize`, the first-inserted key goes. */
  function Evict<K, V>(c: Dict<K, V>, maxSize: int): (r: Dict<K, V>)
    ensures r == c || (c != [] && r == c[1..])
    ensures |c| <= Capacity(maxSize) ==> |r| < Capacity(maxSize)
  {
    if |c| >= maxSize && c != [] then c[1..] else c
  }

  /** The whole of `set(key, value)`: evict, then insert or overwrite in place. */
  function SetEntry<K(==,!new), V(!new)>(c: Dict<K, V>, maxSize: int, key: K, value: V): (r: Dict<K, V>)
    requires DistinctKeys(c)
    ensures Lookup(r, key) == Some(value)
  {
    Put(Evict(c, maxSize), key, value)
  }

  /** `set` keeps the keys distinct and the size within capacity. */
  lemma SetKeepsCapacity<K(!new), V(!new)>(c: Dict<K, V>, maxSize: int, key: K, value: V)
    requires DistinctKeys(c) && |c| <= Capacity(maxSize)
    ensures DistinctKeys(SetEntry(c, maxSize, key, value))
    ensures |SetEntry(c, maxSize, key, value)| <= Capacity(maxSize)
  {
    var e := Evict(c, maxSize);
    if e != c {
      DropOldest(c);
    }
    PutKeepsDistinct(e, key, value);
    assert |Keys(Put(e, key, value))| <= |Keys(e)| + 1;
  }

  /**
   * On a full cache `set` removes the first-inserted key and no other, even when `key` is already
   * present; every other key keeps its value unless it is `key`.
   */
  lemma SetWhenFullEvictsOldest<K(!new), V(!new)>(c: Dict<K, V>, maxSize: int, key: K, value: V)
    requires DistinctKeys(c) && c != [] && |c| >= maxSize
    ensures key != c[0].0 ==> Lookup(SetEntry(c, maxSize, key, value), c[0].0) == None
    ensures forall k :: k != c[0].0 ==>
      Lookup(SetEntry(c, maxSize, key, value), k) == if k == key then Some(value) else Lookup(c, k)
    ensures Keys(SetEntry(c, maxSize, key, value)) ==
      if key in Keys(c)[1..] then Keys(c)[1..] else Keys(c)[1..] + [key]
  {
    DropOldest(c);
  }

  /** Overwriting a key other than the oldest in a cache of exactly `maxSize` entries shrinks it to `maxSize - 1`. */
  lemma OverwriteWhenFullShrinks<K(!new), V(!new)>(c: Dict<K, V>, maxSize: int, key: K, value: V)
    requires DistinctKeys(c) && maxSize >= 1 && |c| == maxSize
    requires key in Keys(c) && key != c[0].0
    ensures |SetEntry(c, maxSize, key, value)| == maxSize - 1
  {
    SetWhenFullEvictsOldest(c, maxSize, key, value);
    var i :| 0 <= i < |Keys(c)| && Keys(c)[i] == key;
    assert i != 0;
    assert Keys(c)[1..][i - 1] == key;
  }

  /** Below capacity `set` evicts nothing: an existing key keeps its position, a new one goes last. */
  lemma SetBelowCapacity<K(!new), V(!new)>(c: Dict<K, V>, maxSize: int, key: K, value: V)
    requires DistinctKeys(c) && |c| < maxSize
    ensures Keys(SetEntry(c, maxSize, key, value)) == if key in Keys(c) then Keys(c) else Keys(c) + [key]
    ensures forall k :: Lookup(SetEntry(c, maxSize, key, value), k) == if k == key then Some(value) else Lookup(c, k)
  {
  }

  /** `new SimpleCache(maxSize)`: a JavaScript `Map` with first-in first-out eviction. */
  class SimpleCache<K(==,!new), V(!new)> {
    var cache: Dict<K, V>
    const maxSize: int

    ghost predicate Valid()
      reads this
    {
      DistinctKeys(cache) && |cache| <= Capacity(maxSize)
    }

    constructor(maxSize: int)
      ensures Valid() && this.maxSize == maxSize && cache == []
    {
      this.maxSize := maxSize;
      cache := [];
    }

    /** `get(key)`: the stored value, `undefined` (here `None`) when the key is absent. */
    function Get(key: K): (r: Option<V>)
      reads this
      ensures r.Some? <==> key in Keys(cache)
      ensures r.Some? ==> (key, r.value) in cache
    {
      LookupFound(cache, key);
      Lookup(cache, key)
    }

    /** `has(key)`: exactly when `get` finds a value. */
    function Has(key: K): (b: bool)
      reads this
      ensures b <==> Get(key).Some?
    {
      key in Keys(cache)
    }

    /** `set(key, value)`: afterwards `has(key)` holds and `get(key)` is `value`. */
    method Set(key: K, value: V)
      requires Valid()
      modifies this
      ensures Valid()
      ensures cache == SetEntry(old(cache), maxSize, key, value)
      ensures Has(key) && Get(key) == Some(value)
    {
      SetKeepsCapacity(cache, maxSize, key, value);
      if |cache| >= maxSize && cache != [] {
        cache := cache[1..];
      }
      cache := Put(cache, key, value);
    }

    /** `clear()`: afterwards no key is present. */
    method Clear()
      modifies this
      ensures Valid() && cache == []
      ensures forall k :: !Has(k)
    {
      cache := [];
    }
  }

  // ---------------------------------------------------------------------------------------------
  // URL normalisation

  /** The code points `String.prototype.trim` removes: the WhiteSpace and LineTerminator productions of the ECMAScript lexical grammar. */
  predicate IsJsWhitespace(c: char) {
    var n := c as int;
    n == 0x09 || n == 0x0A || n == 0x0B || n == 0x0C || n == 0x0D || n == 0x20 || n == 0xA0 ||
    n == 0x1680 || (0x2000 <= n <= 0x200A) || n == 0x2028 || n == 0x2029 || n == 0x202F ||
    n == 0x205F || n == 0x3000 || n == 0xFEFF
  }

  /** The whitespace at the front of `s`. */
  function LeadingSpace(s: string): (n: nat)
    ensures n <= |s|
    ensures forall i :: 0 <= i < n ==> IsJsWhitespace(s[i])
    ensures n < |s| ==> !IsJsWhitespace(s[n])
  {
    if s == [] || !IsJsWhitespace(s[0]) then 0 else 1 + LeadingSpace(s[1..])
  }

  /** The whitespace at the back of `s`. */
  function TrailingSpace(s: string): (n: nat)
    ensures n <= |s|
    ensures forall i :: |s| - n <= i < |s| ==> IsJsWhitespace(s[i])
    ensures n < |s| ==> !IsJsWhitespace(s[|s| - 1 - n])
  {
    if s == [] || !IsJsWhitespace(s[|s| - 1]) then 0 else 1 + TrailingSpace(s[..|s| - 1])
  }

  /** `s.trim()`: the middle of `s`, beginning and ending with a non-whitespace character. */
  function Trim(s: string): (t: string)
    ensures |t| <= |s|
    ensures t != [] ==> !IsJsWhitespace(t[0]) && !IsJsWhitespace(t[|t| - 1])
    ensures exists i, j :: 0 <= i <= j <= |s| && t == s[i..j] &&
                           (forall k :: 0 <= k < i ==> IsJsWhitespace(s[k])) &&
                           (forall k :: j <= k < |s| ==> IsJsWhitespace(s[k]))
  {
    var i := LeadingSpace(s);
    var front := s[i..];
    var j := |s| - TrailingSpace(front);
    assert front[..|front| - TrailingSpace(front)] == s[i..j];
    assert forall k :: j <= k < |s| ==> IsJsWhitespace(s[k]) by {
      forall k | j <= k < |s| ensures IsJsWhitespace(s[k]) {
        assert s[k] == front[k - i];
      }
    }
    s[i..j]
  }

  /** Text that starts and ends with a non-whitespace character is its own trim. */
  lemma TrimOfTrimmed(s: string)
    requires s != [] ==> !IsJsWhitespace(s[0]) && !IsJsWhitespace(s[|s| - 1])
    ensures Trim(s) == s
  {
    assert LeadingSpace(s) == 0;
    assert s[0..] == s;
  }

  lemma TrimIdempotent(s: string)
    ensures Trim(Trim(s)) == Trim(s)
  {
    TrimOfTrimmed(Trim(s));
  }

  /** `url.startsWith('http://') || url.startsWith('https://')`, case-sensitive. */
  predicate HasScheme(url: string) {
    "http://" <= url || "https://" <= url
  }

  /**
   * `formatUrl(targetURL)` without the cache: the trimmed input, with `https://` put in front unless
   * it already starts with `http://` or `https://`.
   */
  function FormatUrl(targetUrl: string): (url: string)
    ensures HasScheme(url)
    ensures HasScheme(Trim(targetUrl)) ==> url == Trim(targetUrl)
    ensures !HasScheme(Trim(targetUrl)) ==> url == "https://" + Trim(targetUrl)
  {
    var trimmed := Trim(targetUrl);
    if !("http://" <= trimmed) && !("https://" <= trimmed) then "https://" + trimmed else trimmed
  }

  /** Formatting an already formatted URL changes nothing. */
  lemma FormatUrlIdempotent(targetUrl: string)
    ensures FormatUrl(FormatUrl(targetUrl)) == FormatUrl(targetUrl)
  {
    var url := FormatUrl(targetUrl);
    var trimmed := Trim(targetUrl);
    assert url[0] == 'h';
    if url != trimmed {
      assert url == "https://" + trimmed;
      if trimmed == [] {
        assert url[|url| - 1] == '/';
      } else {
        assert url[|url| - 1] == trimmed[|trimmed| - 1];
      }
    }
    TrimOfTrimmed(url);
  }

  // ---------------------------------------------------------------------------------------------
  // The memoised helpers

  /** The values the shared cache holds: browser configurations and formatted URLs. */
  datatype Cached = ConfigValue(config: BrowserConfig) | UrlValue(url: string)

  const ConfigKeyPrefix := "browserConfig_"
  const UrlKeyPrefix := "formatUrl_"

  /** The size of `globalCache`. */
  const GlobalCacheSize := 100

  /** `const globalCache = new SimpleCache(100)`: the cache both memoised helpers share, empty at start. */
  method NewGlobalCache() returns (c: SimpleCache<string, Cached>)
    ensures fresh(c) && c.Valid() && c.maxSize == GlobalCacheSize && c.cache == []
  {
    c := new SimpleCache(GlobalCacheSize);
  }

  /** No `browserConfig_` key is a `formatUrl_` key, so the two helpers never read each other's entries. */
  lemma MemoKeySpacesDisjoint(choice: string, targetUrl: string)
    ensures ConfigKeyPrefix + choice != UrlKeyPrefix + targetUrl
    ensures !(UrlKeyPrefix <= ConfigKeyPrefix + choice) && !(ConfigKeyPrefix <= UrlKeyPrefix + targetUrl)
  {
    assert (ConfigKeyPrefix + choice)[0] == 'b';
    assert (UrlKeyPrefix + targetUrl)[0] == 'f';
  }

  /** A cache entry under either key space holds what the helper would compute for that key. */
  ghost predicate MemoEntryCoherent(key: string, value: Cached) {
    && (ConfigKeyPrefix <= key ==> value == ConfigValue(BrowserConfigFor(key[|ConfigKeyPrefix|..])))
    && (UrlKeyPrefix <= key ==> value == UrlValue(FormatUrl(key[|UrlKeyPrefix|..])))
  }

  ghost predicate Coherent(c: Dict<string, Cached>) {
    forall entry :: entry in c ==> MemoEntryCoherent(entry.0, entry.1)
  }

  /** Setting a coherent entry keeps the whole cache coherent. */
  lemma SetKeepsCoherent(c: Dict<string, Cached>, maxSize: int, key: string, value: Cached)
    requires DistinctKeys(c) && Coherent(c) && MemoEntryCoherent(key, value)
    ensures Coherent(SetEntry(c, maxSize, key, value))
  {
    var e := Evict(c, maxSize);
    assert forall entry :: entry in e ==> entry in c;
    PutPairs(e, key, value);
  }

  /**
   * `getBrowserConfig(choice)` through the shared cache: the result is the one the table gives,
   * whether it was cached or not, and afterwards it is cached. A hit leaves the cache as it was (eviction
   * is first-in first-out, so a hit does not move the key); a miss makes exactly one `set`.
   */
  method GetBrowserConfig(globalCache: SimpleCache<string, Cached>, choice: string) returns (config: BrowserConfig)
    requires globalCache.Valid() && Coherent(globalCache.cache)
    modifies globalCache
    ensures config == BrowserConfigFor(choice)
    ensures globalCache.Valid() && Coherent(globalCache.cache)
    ensures globalCache.Get(ConfigKeyPrefix + choice) == Some(ConfigValue(config))
    ensures old(globalCache.Has(ConfigKeyPrefix + choice)) ==> globalCache.cache == old(globalCache.cache)
    ensures !old(globalCache.Has(ConfigKeyPrefix + choice)) ==>
      globalCache.cache == SetEntry(old(globalCache.cache), globalCache.maxSize, ConfigKeyPrefix + choice, ConfigValue(config))
  {
    var cacheKey := ConfigKeyPrefix + choice;
    assert cacheKey[|ConfigKeyPrefix|..] == choice;
    MemoKeySpacesDisjoint(choice, "");
    if globalCache.Has(cacheKey) {
      var hit := globalCache.Get(cacheKey).value;
      return hit.config;
    }
    config := BrowserConfigFor(choice);
    SetKeepsCoherent(globalCache.cache, globalCache.maxSize, cacheKey, ConfigValue(config));
    globalCache.Set(cacheKey, ConfigValue(config));
  }

  /**
   * `formatUrl(targetURL)` through the shared cache: the result is the formatted URL whether it was
   * cached or not, and afterwards it is cached. A hit leaves the cache as it was; a miss makes exactly
   * one `set`, which may evict the oldest entry of either helper.
   */
  method FormatUrlMemo(globalCache: SimpleCache<string, Cached>, targetUrl: string) returns (url: string)
    requires globalCache.Valid() && Coherent(globalCache.cache)
    modifies globalCache
    ensures url == FormatUrl(targetUrl)
    ensures globalCache.Valid() && Coherent(globalCache.cache)
    ensures globalCache.Get(UrlKeyPrefix + targetUrl) == Some(UrlValue(url))
    ensures old(globalCache.Has(UrlKeyPrefix + targetUrl)) ==> globalCache.cache == old(globalCache.cache)
    ensures !old(globalCache.Has(UrlKeyPrefix + targetUrl)) ==>
      globalCache.cache == SetEntry(old(globalCache.cache), globalCache.maxSize, UrlKeyPrefix + targetUrl, UrlValue(url))
  {
    var cacheKey := UrlKeyPrefix + targetUrl;
    assert cacheKey[|UrlKeyPrefix|..] == targetUrl;
    MemoKeySpacesDisjoint("", targetUrl);
    if globalCache.Has(cacheKey) {
      var hit := globalCache.Get(cacheKey).value;
      return hit.url;
    }
    url := FormatUrl(targetUrl);
    SetKeepsCoherent(globalCache.cache, globalCache.maxSize, cacheKey, UrlValue(url));
    globalCache.Set(cacheKey, UrlValue(url));
  }
}
