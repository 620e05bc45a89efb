# Rate limiting and search caching of the AI memory layer, in Dafny

This project models two parts of the `ai_memory_layer` service.

The first is the request rate limiting of `src/ai_memory_layer/rate_limit.py`:
- the sliding-window `InMemoryRateLimiter`;
- the limit strings such as `"200/minute"` or `"10 per second"` that `_parse_limit` reads;
- how a request is identified by tenant or by client address;
- what `RateLimitMiddleware.dispatch` decides for a request: pass it through, refuse it with a 429 and a `Retry-After`, or forward it with the `X-RateLimit-*` headers.

The second is the cache of `src/ai_memory_layer/services/cache.py`:
- the TTL dictionary `InMemoryCache`, with its eviction of the entry that expires first;
- the `CacheService` switch in front of it;
- the keys it builds for search results and embeddings;
- the prefix deletion that invalidates a tenant's searches.

Files:

- `wrappers.dfy`: `Option` and `Result`.
- `text.dfy`: the Python string behaviour the code relies on:
  - truthiness of an optional string;
  - `str.isspace` and `str.strip`;
  - `split(c)[0]` and `startswith`;
  - ASCII case-insensitive comparison;
  - `str(int)` and `int(digits)`, proved to be inverse and injective.
- `rate_limit.py`, split into three files:
  - `rate_limit.dfy`: the limiter state (one window of timestamps per key) and `InMemoryRateLimiter.Hit`, a loop proved against the specification functions `HitState` and `HitResult`.
  - `limit_format.dfy`: the language of limit strings as a syntax tree and its rendering. The parser is proved to accept exactly the strings that a well-formed tree renders to, and to return that tree's amount and unit.
  - `middleware.dfy`: the identifiers, `_resolve_tenant_id`, the header values, the 429 response, and `dispatch`. `dispatch` is written as a function of the limiter state (`Dispatched`) and as a method of `RateLimitMiddleware` proved equal to it.
- `dicts.dfy`: a Python `dict` with string keys, kept as a map plus the insertion order of its keys. The walk over `list(keys())` in prefix deletion follows that order, but its result does not depend on it. Only which of several entries with the same least expiry `min` evicts depends on the order.
- `cache.dfy`: the cache store as a specification function per operation (`AfterGet`, `AfterSet`, `WithoutPrefix`). The classes `InMemoryCache` and `CacheService` have methods proved against those functions. The key and prefix lemmas relate `search_key` to `invalidate_search`.

Time is an integer number of seconds passed in as `now`. The SHA-256 hex digest is a function parameter `digest`, about which nothing is assumed.

## Model

| member | source | states |
|---|---|---|
| Text.Strip | src/ai_memory_layer/rate_limit.py:173 | The result is a slice of the input. Everything cut from either end is whitespace, and the result neither starts nor ends with whitespace. |
| Text.StripIdempotent | src/ai_memory_layer/rate_limit.py:173 | Stripping an already stripped string changes nothing. |
| Text.BeforeFirst | src/ai_memory_layer/rate_limit.py:173 | `split(c)[0]` is a prefix of the input that does not contain `c`, and is followed by `c` whenever it is shorter than the input. |
| Text.DigitsValueOfNatToString | src/ai_memory_layer/rate_limit.py:186 | `int(str(n)) == n` for every natural number. |
| Text.IntToStringInjective | src/ai_memory_layer/rate_limit.py:67-68 | Different integers have different decimal renderings, the minus sign included. |
| RateLimit.Key | src/ai_memory_layer/rate_limit.py:67-68 | The key starts with the amount and `:` and ends with the identifier. |
| RateLimit.KeyInjective | src/ai_memory_layer/rate_limit.py:67-68 | Two `_key` strings are equal only for the same amount, window and identifier, because the numbers contain no `:`. |
| RateLimit.Dropped | src/ai_memory_layer/rate_limit.py:57-58 | The `popleft` loop drops exactly the leading run of timestamps at or before `now - window_seconds`. |
| RateLimit.Evict | src/ai_memory_layer/rate_limit.py:56-58 | Eviction never lengthens the window, and what it keeps starts after `now - window_seconds`. `EvictKeepsSuffix` adds that the kept part is a suffix and everything dropped is at or before the window start. |
| RateLimit.WindowAfterHit | src/ai_memory_layer/rate_limit.py:56-59 | After a hit the window holds between 1 and one more than its old number of entries, and its last entry is `now`. |
| RateLimit.HitState | src/ai_memory_layer/rate_limit.py:51-65 | A hit adds its own key to the state and leaves every other key's window unchanged. |
| RateLimit.HitResult | src/ai_memory_layer/rate_limit.py:59-65 | The count is the size of the window after the append and is at least 1. The window ends with `now`. The hit is allowed if and only if the count is at most the amount. |
| RateLimit.ResetFromOldest | src/ai_memory_layer/rate_limit.py:62-64 | The reset is always the oldest kept timestamp plus the window, in milliseconds. The `else` fallback is never taken. |
| RateLimit.WindowAfterHitOrdered | src/ai_memory_layer/rate_limit.py:54-59 | A sorted window stays sorted after a hit, and everything it keeps lies in `(now - window_seconds, now]`. |
| RateLimit.HitPreservesOrder | src/ai_memory_layer/rate_limit.py:51-59 | While the clock does not go back, every window stays sorted and holds no timestamp later than the latest `now`. |
| RateLimit.ResetAfterNow | src/ai_memory_layer/rate_limit.py:62-64 | Under that invariant the reported reset lies strictly after `now`. |
| RateLimit.InMemoryRateLimiter.constructor | src/ai_memory_layer/rate_limit.py:47-49 | A new limiter has no windows. |
| RateLimit.EvictExpired | src/ai_memory_layer/rate_limit.py:57-58 | The `popleft` loop, run on the key's window, leaves exactly `Evict` of it. |
| RateLimit.InMemoryRateLimiter.Hit | src/ai_memory_layer/rate_limit.py:51-65 | The eviction loop (`EvictExpired`) and the append leave exactly the state `HitState`, and the method returns `HitResult`. |
| RateLimit.ThreeHitsForOneClient | tests/unit/test_rate_limit.py:6-20 | With amount 2 and window 60, three hits within a minute are allowed, allowed, then refused. The third reports count 3 and a positive reset. |
| LimitFormat.ParsePer | src/ai_memory_layer/rate_limit.py:180 | `per` in any case followed by at least one space, split into the word, the spaces and the rest. |
| LimitFormat.ParseSeparator | src/ai_memory_layer/rate_limit.py:180 | The optional separator (`/` or `[/] per`) it reads is well formed, and its rendering followed by the rest is the input. |
| LimitFormat.ParseUnitWord | src/ai_memory_layer/rate_limit.py:180 | The unit word is one of `second`, `minute`, `hour` and `day` in any case, and it starts the input. |
| LimitFormat.ParseEnd | src/ai_memory_layer/rate_limit.py:180 | An optional plural `s` or `S` is followed by whitespace up to the end of the input. |
| LimitFormat.ParseSyntax | src/ai_memory_layer/rate_limit.py:179-184 | A successful match returns a well-formed syntax tree that renders back to the input. |
| LimitFormat.ParseLimit | src/ai_memory_layer/rate_limit.py:178-194 | On success the amount is non-negative and the window is 1, 60, 3600 or 86400. On failure the error is `"Invalid rate limit format: " + s`. |
| LimitFormat.ParseSyntaxOfRender | src/ai_memory_layer/rate_limit.py:179-184 | Every well-formed tree is parsed back to itself. |
| LimitFormat.ParseLimitSound | src/ai_memory_layer/rate_limit.py:183-194 | An accepted string is the rendering of a well-formed tree, and the config is that tree's amount and unit seconds. |
| LimitFormat.ParseLimitComplete | src/ai_memory_layer/rate_limit.py:183-194 | Every string of the limit language is accepted with the amount and unit it spells. |
| LimitFormat.ParseLimitFailsIffUngrammatical | src/ai_memory_layer/rate_limit.py:183-185 | `ValueError` is raised exactly for the strings outside the limit language. |
| LimitFormat.ParseCanonical | src/ai_memory_layer/rate_limit.py:186-194 | `str(n) + "/" + unit` reads back as amount `n` and that unit's seconds, for every `n` and unit. The limit strings `"200/minute"` of tests/unit/test_rate_limit.py:24 and `"2/minute"` of tests/integration/test_rate_limit.py:24 are instances. |
| LimitFormat.ParsePerSecond | tests/unit/test_rate_limit.py:25 | `"10 per second"` reads as amount 10 per 1 second. |
| Middleware.ExtractTenantIdHint | src/ai_memory_layer/rate_limit.py:133-140 | The header takes precedence over the path parameter, which takes precedence over the query parameter. Empty values are skipped. The result is truthy if and only if one of the three is. |
| Middleware.IpIdentifier | src/ai_memory_layer/rate_limit.py:169-175 | The result always starts with `ip:`. A forwarded address has no comma and no whitespace at either end, and may be empty. Without a truthy header the result is the client host, or `unknown` when there is no client. |
| Middleware.StripWithout | src/ai_memory_layer/rate_limit.py:173 | Stripping does not introduce a character, so the first hop contains no comma. |
| Middleware.ForwardedFirstHop | src/ai_memory_layer/rate_limit.py:171-173 | For `x-forwarded-for: hop,more` the identifier is `ip:` plus `hop` stripped, for any comma-free `hop`, blank or empty ones included. |
| Middleware.ForwardedSingleHop | src/ai_memory_layer/rate_limit.py:171-173 | A non-empty header without a comma gives `ip:` plus the whole header stripped. |
| Middleware.BlankFirstHopsShareBucket | src/ai_memory_layer/rate_limit.py:171-175 | The headers `", 1.1.1.1"` and `" ,2.2.2.2"` both give the bare identifier `ip:`, so clients whose first hop is blank share one global bucket. |
| Middleware.GetClientIdentifier | src/ai_memory_layer/rate_limit.py:160-166 | The result starts with `tenant:` if and only if there is a truthy tenant hint, and then carries that hint. Otherwise it is the address identifier. |
| Middleware.ResolveTenantId | src/ai_memory_layer/rate_limit.py:143-157 | A truthy hint wins. For a POST, PUT or PATCH with a JSON content type, an object body gives its `tenant_id` and an unreadable body gives `None`. In every other case the hint is returned as it is. |
| Middleware.IsExempt | src/ai_memory_layer/rate_limit.py:215 | Every exempt path is outside `/v1/` or under `/v1/admin/`, so no tenant API path is exempt. |
| Middleware.Remaining | src/ai_memory_layer/rate_limit.py:249-251 | The remaining quota is `amount - count` when positive and 0 otherwise, so it is never negative. |
| Middleware.ResetSeconds | src/ai_memory_layer/rate_limit.py:252 | The reset header is the reset time in whole seconds, rounded down. |
| Middleware.RetryAfter | src/ai_memory_layer/rate_limit.py:276 | `Retry-After` is at least 1. It is the seconds until the reset, truncated, when that is at least one second, and it is 1 when less than two seconds remain. |
| Middleware.Detail | src/ai_memory_layer/rate_limit.py:278-282 | For the tenant scope the detail is `"Tenant rate limit exceeded for "`, then the tenant id (or `None`), `": "` and the limit string. For the global scope it is `"Rate limit exceeded: "` plus the limit string. |
| Middleware.Reject | src/ai_memory_layer/rate_limit.py:260-293 | A rejection keeps its scope and its detail text, and its `Retry-After` is at least 1. |
| Middleware.RateLimitHeaders | src/ai_memory_layer/rate_limit.py:242-258 | The three global headers (limit, remaining, reset) are always set, in that order. The three tenant headers follow only when there was a tenant hit. |
| Middleware.Dispatched | src/ai_memory_layer/rate_limit.py:214-240 | A request is passed through exactly when its path is exempt, and then no window changes. Any other request keeps every window key and adds its global key. A refusal's `Retry-After` is at least 1. |
| Middleware.GlobalAndTenantKeysDistinct | src/ai_memory_layer/rate_limit.py:219-228 | The address key and the tenant key of one request never share a window. |
| Middleware.ExemptNeverHits | src/ai_memory_layer/rate_limit.py:215-216 | The five exempt paths are passed through, and the limiter is not touched. |
| Middleware.TenantOnlyAfterGlobal | src/ai_memory_layer/rate_limit.py:222-224 | A refused global hit is answered with a global 429, and no window other than the global key's changes. |
| Middleware.ForwardedPassedLimits | src/ai_memory_layer/rate_limit.py:222-240 | A forwarded request passed the global limit. It was checked against the tenant limit exactly when it resolves to a truthy tenant id, and then passed that limit too. |
| Middleware.BothHitsRecorded | src/ai_memory_layer/rate_limit.py:222-228 | When both limits are hit, the global window is exactly what the global hit made of it. |
| Middleware.RateLimitMiddleware.constructor | src/ai_memory_layer/rate_limit.py:200-207 | A middleware keeps the limits and the limiter it is given. |
| Middleware.RateLimitMiddleware.Create | src/ai_memory_layer/rate_limit.py:200-206 | Construction succeeds if and only if both limit strings parse. It fails with the global string's error first, then the tenant string's, and on success it holds both strings and both configs. |
| Middleware.RateLimitMiddleware.Dispatch | src/ai_memory_layer/rate_limit.py:214-240 | The outcome and the limiter's new windows are exactly `Dispatched` on the old windows. |
| Dicts.Dict.Pop | src/ai_memory_layer/services/cache.py:43 | `pop` removes the key, keeps the dict consistent, and shrinks it by one when the key was present. The new order is the old one with that key cut out at its position. |
| Dicts.Dict.Assign | src/ai_memory_layer/services/cache.py:53 | Assignment maps the key to the value. The order is unchanged for an existing key, and a new key is appended at the end. It keeps the dict consistent and grows it by one exactly for a new key. |
| Dicts.SizeIsKeyCount | src/ai_memory_layer/services/cache.py:49 | `len` of a consistent dict is its number of keys. |
| Cache.OldestIndex | src/ai_memory_layer/services/cache.py:51 | `min(..., key=expiry)` picks an entry of least expiry, the first such in insertion order. |
| Cache.OldestKey | src/ai_memory_layer/services/cache.py:51 | The evicted key is in the store, and no entry expires earlier. |
| Cache.Lookup | src/ai_memory_layer/services/cache.py:36-45 | `get` returns a value exactly when the key survives the read, and that value is the stored one. |
| Cache.AfterGet | src/ai_memory_layer/services/cache.py:36-45 | A read leaves the store unchanged unless the entry is stale. A stale entry is removed and the store shrinks by one. |
| Cache.AfterSet | src/ai_memory_layer/services/cache.py:47-53 | The result fails exactly when the store is full and empty at once, where `min` raises. Otherwise the key maps to `(now + ttl, value)` and the entries are as before, minus the oldest entry when the store was full. The size stays within `max_items`. |
| Cache.WithoutPrefix | src/ai_memory_layer/services/cache.py:55-59 | The keys left are exactly the old keys that do not start with the prefix, with their old values. |
| Cache.SetThenGet | src/ai_memory_layer/services/cache.py:36-53 | A value written with `ttl` at `now` is read back up to `now + ttl` and is dropped as stale afterwards. |
| Cache.InMemoryCache.constructor | src/ai_memory_layer/services/cache.py:31-34 | A new cache is empty, with the given `max_items`. |
| Cache.InMemoryCache.Get | src/ai_memory_layer/services/cache.py:36-45 | The method returns `Lookup` and leaves the store `AfterGet`. |
| Cache.InMemoryCache.Set | src/ai_memory_layer/services/cache.py:47-53 | The method leaves the store `AfterSet`, or reports failure and changes nothing where `min` raises. |
| Cache.InMemoryCache.DeletePrefix | src/ai_memory_layer/services/cache.py:55-59 | Walking the snapshot of the keys and popping the matching ones leaves exactly `WithoutPrefix`. |
| Cache.ConversationPart | src/ai_memory_layer/services/cache.py:122 | `conversation_id or "*"` is the id when it is truthy, and `*` when it is `None` or empty. |
| Cache.SearchKey | src/ai_memory_layer/services/cache.py:110-129 | A search key starts with `search:` and ends with the digest of the joined fields. |
| Cache.EmbeddingKey | src/ai_memory_layer/services/cache.py:131-133 | Every embedding key starts with `embedding:`. |
| Cache.SearchKeyHasPrefix | src/ai_memory_layer/services/cache.py:129-148 | Every search key falls under the invalidation prefix of its own tenant and conversation. |
| Cache.SearchPrefix | src/ai_memory_layer/services/cache.py:148 | The invalidation prefix starts with `search:` and ends with `:`. |
| Cache.EmbeddingKeySurvivesInvalidation | src/ai_memory_layer/services/cache.py:131-148 | Invalidating searches never deletes an embedding. |
| Cache.InvalidationOnlyOwn | src/ai_memory_layer/services/cache.py:129-148 | If the ids contain no `:`, a search key under the prefix of `(tenant, conversation)` belongs to that tenant and conversation. |
| Cache.InvalidationScope | src/ai_memory_layer/services/cache.py:129-148 | If the ids contain no `:`, a search key falls under an invalidation prefix if and only if it was built for that tenant and conversation. `None`, `""` and `"*"` are all the conversation `*`. |
| Cache.InvalidationCrossesTenants | src/ai_memory_layer/services/cache.py:148 | If an id contains `:`, two different tenant/conversation pairs can share a prefix. `("a", "b:c")` and `("a:b", "c")` give the same prefix. |
| Cache.EffectiveTtl | src/ai_memory_layer/services/cache.py:143 | `ttl or search_ttl`: a missing or zero TTL becomes the search TTL. |
| Cache.CacheService.constructor | src/ai_memory_layer/services/cache.py:103-108 | The service keeps its backend, its switch and its TTLs, and is consistent when its backend is. |
| Cache.CacheService.Get | src/ai_memory_layer/services/cache.py:135-138 | When disabled, the result is `None` and the backend is left alone. Otherwise it is the backend's `get`. |
| Cache.CacheService.Set | src/ai_memory_layer/services/cache.py:140-143 | When disabled, nothing happens. Otherwise the backend's `set` runs with `ttl or search_ttl`. |
| Cache.CacheService.InvalidateSearch | src/ai_memory_layer/services/cache.py:145-149 | When disabled, nothing happens. Otherwise every key under `search:{tenant}:{conversation or *}:` is deleted, and nothing else is. |

## Left out

- `RedisRateLimiter` and `RedisCache`: they run a Lua script or commands on a Redis server, outside this program.
- `_build_limiter`, `get_rate_limiter`, `reset_rate_limiter_cache` and `_default_backend`: these read the settings and choose a backend. The model's classes take their limiter or backend as a parameter.
- The settings fallbacks `rate_limit or settings.global_rate_limit` and `enabled if enabled is not None else settings.cache_enabled`: the model's constructors take the values directly.
- `enforce_tenant_rate_limit`: it only raises `RuntimeError`.
- `asyncio.Lock`: each locked body is modelled as one sequential step, with no interleaving.
- Logging calls, the `X-Request-ID` header and the construction of the `JSONResponse`: the rejection is modelled as its scope, detail and `Retry-After`.
- `call_next`, the downstream application: a forwarded request is modelled as the limiter results and the headers to set.
- `time.time()`: the current time is an integer number of seconds, `now`. The source reads the clock separately in the global hit, in the tenant hit (rate_limit.py:53, reached from :228) and in `_reject`; the model uses one `now` for all three.
- SHA-256: the hex digest is an opaque function parameter.
- `request.json()`: the body is abstracted as a JSON object with an optional string `tenant_id`, some other JSON value, or an unreadable body. A `tenant_id` that is missing, `null` or falsy (`0`, `false`, `[]`, `{}`) is `None`, since the source then makes no tenant hit. Any other non-string value is taken in its `str` form.
- The other source files (metrics, worker, load test, logging configuration, migrations) are not part of this model.
- RateLimit.InMemoryRateLimiter.Hit: timestamps are integers, so the float arithmetic of `now - window_seconds` and `int((entries[0] + window_seconds) * 1000)` is exact here.
- Middleware.RetryAfter: `reset_epoch_ms / 1000 - time.time()` is computed exactly on integers and truncated toward zero, without floating-point rounding.
- LimitFormat.ParseLimit: `\d` and `int()` are restricted to ASCII digits; Python also accepts other Unicode decimal digits. Python's limit of 4300 digits on `int()` of a string is not modelled.
- LimitFormat.ParseLimit: letter case is ignored for ASCII letters only. Python's `re.IGNORECASE` also pairs a few non-ASCII letters with ASCII ones, such as `ſ` with `s` and `ı` with `i`. Two strings differ from the source because of this, and the model rejects both:
  - The plural `s?` lies outside the unit group, so the source accepts a final `ſ`. `"10 secondſ"` gives amount 10 per 1 second there.
  - A `ſ` or `ı` inside the unit word, as in `"10/ſecond"`, matches the regex in the source, which then fails at the `unit_seconds` lookup with a `KeyError`.
- Values and TTLs: cached values are of a type parameter, and TTLs are integer seconds rather than floats.
