/**
 * `services/cache.py`: the TTL store `InMemoryCache`, the `CacheService` in front of it,
 * and the cache keys it builds.
 *
 * Time is an explicit integer `now` (seconds) instead of `time.time()`, and each
 * `asyncio.Lock`-guarded body is one sequential step. The SHA-256 hex digest is a
 * parameter `digest`, about which nothing is assumed.
 */
module Cache {
  import opened Wrappers
  import opened Text
  import opened Dicts

  /** A stored value and the time after which it is stale. */
  datatype Entry<V> = Entry(expiresAt: int, value: V)

  type Store<V> = Dict<Entry<V>>

  /** `min(store, key=lambda k: store[k][0])`: the position of the first key, in insertion
      order, whose expiry is smallest (`min` keeps the first of equal keys). */
  function OldestIndex<V>(order: seq<string>, items: map<string, Entry<V>>): (i: nat)
    requires order != []
    requires forall j :: 0 <= j < |order| ==> order[j] in items
    ensures i < |order|
    ensures forall j :: 0 <= j < |order| ==> items[order[i]].expiresAt <= items[order[j]].expiresAt
    ensures forall j :: 0 <= j < i ==> items[order[j]].expiresAt > items[order[i]].expiresAt
  {
    if |order| == 1 then 0
    else
      var m := 1 + OldestIndex(order[1..], items);
      assert forall j :: 1 <= j < |order| ==> order[j] == order[1..][j - 1];
      if items[order[0]].expiresAt <= items[order[m]].expiresAt then 0 else m
  }

  /** The key `set` evicts from a full store. */
  function OldestKey<V>(d: Store<V>): (k: string)
    requires d.Valid() && d.order != []
    ensures k in d.items
    ensures forall k' :: k' in d.items ==> d.items[k].expiresAt <= d.items[k'].expiresAt
  {
    var i := OldestIndex(d.order, d.items);
    assert forall k' :: k' in d.items ==> exists j :: 0 <= j < |d.order| && d.order[j] == k';
    d.order[i]
  }

  /** What `get(key)` at time `now` returns. */
  function Lookup<V>(d: Store<V>, key: string, now: int): (r: Option<V>)
    ensures r.Some? <==> key in AfterGet(d, key, now).items
    ensures r.Some? ==> r.value == d.items[key].value
  {
    if key in d.items && now <= d.items[key].expiresAt then Some(d.items[key].value) else None
  }

  /** The store after `get(key)` at time `now`: a stale entry is dropped, nothing else changes. */
  function AfterGet<V>(d: Store<V>, key: string, now: int): (r: Store<V>)
    ensures d.Valid() ==> r.Valid()
    ensures key !in d.items || now <= d.items[key].expiresAt ==> r == d
    ensures key in d.items && d.items[key].expiresAt < now ==> r.items == d.items - {key}
    ensures d.Valid() && key in d.items && d.items[key].expiresAt < now ==> r.Size() == d.Size() - 1
  {
    if key in d.items && d.items[key].expiresAt < now then d.Pop(key) else d
  }

  /** The store after `set(key, value, ttl)` at time `now` with room for `maxItems`: when it
      is full, the first key with the smallest expiry goes first. `None` when the store is
      full and empty at once, where `min` of nothing raises `ValueError`. */
  function AfterSet<V>(d: Store<V>, maxItems: int, key: string, value: V, ttl: int, now: int)
    : (r: Option<Store<V>>)
    requires d.Valid()
    ensures r.None? <==> d.Size() >= maxItems && d.Size() == 0
    ensures r.Some? ==> r.value.Valid() && key in r.value.items && r.value.items[key] == Entry(now + ttl, value)
    ensures r.Some? && d.Size() < maxItems ==> r.value.items == d.items[key := Entry(now + ttl, value)]
    ensures r.Some? && d.Size() >= maxItems ==>
      var victim := OldestKey(d);
      r.value.items == (d.items - {victim})[key := Entry(now + ttl, value)]
    ensures r.Some? && d.Size() <= maxItems ==> r.value.Size() <= maxItems
  {
    if d.Size() >= maxItems then
      if d.order == [] then None
      else
        var victim := OldestKey(d);
        var e := d.Pop(victim);
        Some(e.Assign(key, Entry(now + ttl, value)))
    else Some(d.Assign(key, Entry(now + ttl, value)))
  }

  /** The store after `delete_prefix(prefix)`: the keys starting with `prefix` are gone, the
      others keep their values and their order. */
  function WithoutPrefix<V>(d: Store<V>, prefix: string): (r: Store<V>)
    ensures d.Valid() ==> r.Valid()
    ensures d.Valid() ==> forall k :: k in r.items <==> k in d.items && !IsPrefix(prefix, k)
    ensures forall k :: k in r.items ==> k in d.items && r.items[k] == d.items[k]
    ensures r.Size() <= d.Size()
  {
    Dict(d.items - Matching(d.order, prefix), Keep(d.order, prefix))
  }

  /** An entry written at `now` with `ttl` is read back at every time up to `now + ttl`, and
      is stale afterwards. */
  lemma SetThenGet<V>(d: Store<V>, maxItems: int, key: string, value: V, ttl: int, now: int, later: int)
    requires d.Valid() && AfterSet(d, maxItems, key, value, ttl, now).Some?
    ensures var s := AfterSet(d, maxItems, key, value, ttl, now).value;
      && (later <= now + ttl ==> Lookup(s, key, later) == Some(value) && AfterGet(s, key, later) == s)
      && (later > now + ttl ==> Lookup(s, key, later) == None && key !in AfterGet(s, key, later).items)
  {
  }

  /** `InMemoryCache`: a dict from key to `(expires_at, value)` holding at most `maxItems`
      entries. */
  class InMemoryCache<V> {
    const maxItems: int
    var store: Store<V>

    /** The dict is consistent and within its bound; with no room at all it stays empty,
        because `set` on an empty store that counts as full raises. */
    ghost predicate Valid()
      reads this
    {
      store.Valid() && (store.Size() <= maxItems || store.Size() == 0)
    }

    constructor (maxItems: int)
      ensures Valid()
      ensures this.maxItems == maxItems && store == Dict(map[], [])
    {
      this.maxItems := maxItems;
      store := Dict(map[], []);
    }

    /** `get`: the value of a fresh entry; a stale one is dropped and reads as `None`. */
    method Get(key: string, now: int) returns (r: Option<V>)
      requires Valid()
      modifies this
      ensures Valid()
      ensures r == Lookup(old(store), key, now)
      ensures store == AfterGet(old(store), key, now)
    {
      if key !in store.items {
        return None;
      }
      var item := store.items[key];
      if item.expiresAt < now {
        store := store.Pop(key);
        return None;
      }
      r := Some(item.value);
    }

    /** `set`: make room by evicting the entry that expires first, then store the value with
        expiry `now + ttl`. `ok` is false where `min` raises, and then nothing changes. */
    method Set(key: string, value: V, ttl: int, now: int) returns (ok: bool)
      requires Valid()
      modifies this
      ensures Valid()
      ensures ok == AfterSet(old(store), maxItems, key, value, ttl, now).Some?
      ensures ok ==> store == AfterSet(old(store), maxItems, key, value, ttl, now).value
      ensures !ok ==> store == old(store)
    {
      if store.Size() >= maxItems {
        if store.order == [] {
          return false;
        }
        var oldest := store.order[OldestIndex(store.order, store.items)];
        store := store.Pop(oldest);
      }
      store := store.Assign(key, Entry(now + ttl, value));
      ok := true;
    }

    /** `delete_prefix`: walk a snapshot of the keys and pop every one starting with `prefix`. */
    method DeletePrefix(prefix: string)
      requires Valid()
      modifies this
      ensures Valid()
      ensures store == WithoutPrefix(old(store), prefix)
    {
      var keys := store.order;
      ghost var start := store;
      PartialStart(start, prefix);
      for i := 0 to |keys|
        invariant store == Partial(start, i, prefix)
      {
        PartialStep(start, i, prefix);
        if IsPrefix(prefix, keys[i]) {
          store := store.Pop(keys[i]);
        }
      }
      PartialEnd(start, prefix);
    }
  }

  /** The store `delete_prefix` has made of `d` after looking at its first `i` keys. */
  function Partial<V>(d: Store<V>, i: nat, prefix: string): Store<V>
    requires i <= |d.order|
  {
    Dict(d.items - Matching(d.order[..i], prefix), Keep(d.order[..i], prefix) + d.order[i..])
  }

  lemma PartialStart<V>(d: Store<V>, prefix: string)
    ensures Partial(d, 0, prefix) == d
  {
    assert d.order[..0] == [] && d.order[0..] == d.order;
    assert Matching([], prefix) == {};
    assert d.items - {} == d.items;
  }

  lemma PartialEnd<V>(d: Store<V>, prefix: string)
    ensures Partial(d, |d.order|, prefix) == WithoutPrefix(d, prefix)
  {
    assert d.order[..|d.order|] == d.order;
    assert d.order[|d.order|..] == [];
    assert Keep(d.order, prefix) + [] == Keep(d.order, prefix);
  }

  /** One turn of the loop: the `i`-th key is popped when it starts with `prefix`. */
  lemma PartialStep<V>(d: Store<V>, i: nat, prefix: string)
    requires d.Valid() && i < |d.order|
    ensures Partial(d, i + 1, prefix) ==
      if IsPrefix(prefix, d.order[i]) then Partial(d, i, prefix).Pop(d.order[i]) else Partial(d, i, prefix)
  {
    KeepStep(d.order, i, prefix);
    MatchingStep(d.order, i, prefix);
    if IsPrefix(prefix, d.order[i]) {
      PartialStepPop(d, i, prefix);
    } else {
      PartialStepKeep(d, i, prefix);
    }
  }

  lemma PartialStepPop<V>(d: Store<V>, i: nat, prefix: string)
    requires d.Valid() && i < |d.order| && IsPrefix(prefix, d.order[i])
    requires Keep(d.order[..i + 1], prefix) == Keep(d.order[..i], prefix)
    requires Matching(d.order[..i + 1], prefix) == Matching(d.order[..i], prefix) + {d.order[i]}
    ensures Partial(d, i + 1, prefix) == Partial(d, i, prefix).Pop(d.order[i])
  {
    var keys := d.order;
    PopStep(keys, i, prefix);
    MinusStep(d.items, Matching(keys[..i], prefix), keys[i]);
  }

  lemma PartialStepKeep<V>(d: Store<V>, i: nat, prefix: string)
    requires i < |d.order|
    requires Keep(d.order[..i + 1], prefix) == Keep(d.order[..i], prefix) + [d.order[i]]
    requires Matching(d.order[..i + 1], prefix) == Matching(d.order[..i], prefix)
    ensures Partial(d, i + 1, prefix) == Partial(d, i, prefix)
  {
    var keys := d.order;
    var k0, k1 := Keep(keys[..i], prefix), Keep(keys[..i + 1], prefix);
    var m0, m1 := Matching(keys[..i], prefix), Matching(keys[..i + 1], prefix);
    KeptStep(k0, keys, i);
    assert Partial(d, i + 1, prefix) == Dict(d.items - m1, k1 + keys[i + 1..]);
    assert Partial(d, i, prefix) == Dict(d.items - m0, k0 + keys[i..]);
  }

  /** Moving the `i`-th key from the unvisited part to the kept part leaves the order as it is. */
  lemma KeptStep(k0: seq<string>, keys: seq<string>, i: nat)
    requires i < |keys|
    ensures (k0 + [keys[i]]) + keys[i + 1..] == k0 + keys[i..]
  {
    assert keys[i..] == [keys[i]] + keys[i + 1..];
  }

  lemma MinusStep<V>(m: map<string, V>, a: set<string>, k: string)
    ensures m - (a + {k}) == (m - a) - {k}
  {
  }

  lemma KeepStep(keys: seq<string>, i: nat, prefix: string)
    requires i < |keys|
    ensures Keep(keys[..i + 1], prefix) == Keep(keys[..i], prefix) + if IsPrefix(prefix, keys[i]) then [] else [keys[i]]
  {
    assert keys[..i + 1][..i] == keys[..i];
  }

  lemma MatchingStep(keys: seq<string>, i: nat, prefix: string)
    requires i < |keys|
    ensures Matching(keys[..i + 1], prefix) == Matching(keys[..i], prefix) + if IsPrefix(prefix, keys[i]) then {keys[i]} else {}
  {
    assert keys[..i + 1] == keys[..i] + [keys[i]];
  }

  /** Popping the key at position `i` of a duplicate-free snapshot, from the order
      `delete_prefix` has reached there. */
  lemma PopStep(keys: seq<string>, i: nat, prefix: string)
    requires NoDup(keys) && i < |keys|
    ensures Remove(Keep(keys[..i], prefix) + keys[i..], keys[i]) == Keep(keys[..i], prefix) + keys[i + 1..]
  {
    var key := keys[i];
    assert key !in keys[..i] && key !in keys[i + 1..];
    assert keys[i..] == [key] + keys[i + 1..];
    assert Keep(keys[..i], prefix) + keys[i..] == Keep(keys[..i], prefix) + [key] + keys[i + 1..];
    RemoveSplit(Keep(keys[..i], prefix), key, keys[i + 1..]);
  }

  /** `conversation_id or "*"`. */
  function ConversationPart(conversationId: Option<string>): (r: string)
    ensures Truthy(conversationId) ==> r == conversationId.value
    ensures !Truthy(conversationId) ==> r == "*"
  {
    if Truthy(conversationId) then conversationId.value else "*"
  }

  /** The text `search_key` hashes: the five fields joined with `"|"`. */
  function SearchRaw(tenantId: string, conversationId: Option<string>, query: string,
                     topK: int, candidateLimit: int): string
  {
    tenantId + "|" + ConversationPart(conversationId) + "|" + IntToString(topK) + "|"
      + IntToString(candidateLimit) + "|" + query
  }

  /** `search_key`: `"search:{tenant}:{conversation or *}:{digest of the fields}"`. */
  function SearchKey(tenantId: string, conversationId: Option<string>, query: string,
                     topK: int, candidateLimit: int, digest: string -> string): (k: string)
    ensures IsPrefix("search:", k)
    ensures var h := digest(SearchRaw(tenantId, conversationId, query, topK, candidateLimit));
      |h| < |k| && k[|k| - |h|..] == h
  {
    var h := digest(SearchRaw(tenantId, conversationId, query, topK, candidateLimit));
    var p := "search:" + tenantId + ":" + ConversationPart(conversationId) + ":";
    var k := p + h;
    assert p[..7] == "search:";
    assert k[..7] == p[..7] && k[|p|..] == h;
    k
  }

  /** `embedding_key`: `"embedding:{digest of the text}"`. */
  function EmbeddingKey(text: string, digest: string -> string): (k: string)
    ensures IsPrefix("embedding:", k)
  {
    var k := "embedding:" + digest(text);
    assert k[..10] == "embedding:";
    k
  }

  /** The prefix `invalidate_search(tenant, conversation)` deletes. */
  function SearchPrefix(tenantId: string, conversationId: Option<string>): (p: string)
    ensures IsPrefix("search:", p) && p[|p| - 1] == ':'
  {
    var p := "search:" + tenantId + ":" + ConversationPart(conversationId) + ":";
    assert p == "search:" + (tenantId + ":" + ConversationPart(conversationId) + ":");
    assert p[..7] == "search:";
    p
  }

  /** Every search key starts with the prefix its own tenant and conversation invalidate. */
  lemma SearchKeyHasPrefix(tenantId: string, conversationId: Option<string>, query: string,
                           topK: int, candidateLimit: int, digest: string -> string)
    ensures IsPrefix(SearchPrefix(tenantId, conversationId),
                     SearchKey(tenantId, conversationId, query, topK, candidateLimit, digest))
  {
    var p := SearchPrefix(tenantId, conversationId);
    var k := SearchKey(tenantId, conversationId, query, topK, candidateLimit, digest);
    assert k == p + digest(SearchRaw(tenantId, conversationId, query, topK, candidateLimit));
    assert k[..|p|] == p;
  }

  /** Invalidation never removes an embedding. */
  lemma EmbeddingKeySurvivesInvalidation(tenantId: string, conversationId: Option<string>,
                                         text: string, digest: string -> string)
    ensures !IsPrefix(SearchPrefix(tenantId, conversationId), EmbeddingKey(text, digest))
  {
    var p := SearchPrefix(tenantId, conversationId);
    var k := EmbeddingKey(text, digest);
    assert p[0] == 's' && k[0] == 'e';
  }

  /** When `c` does not occur in `a` nor in `x`, `a + [c]` starts `x + [c] + y` only if
      `a == x`. */
  lemma PrefixAtFirst(a: string, x: string, y: string, c: char)
    requires c !in a && c !in x
    requires IsPrefix(a + [c], x + [c] + y)
    ensures a == x
  {
    var s := x + [c] + y;
    assert forall i :: 0 <= i < |x| ==> s[i] == x[i];
    assert forall i :: 0 <= i < |a| ==> s[i] == a[i];
    assert s[|a|] == c && s[|x|] == c;
    assert a == s[..|a|] && x == s[..|x|];
  }

  lemma PrefixShorter(p: string, q: string, s: string)
    requires IsPrefix(p + q, s)
    ensures IsPrefix(p, s)
  {
    assert s[..|p|] == s[..|p + q|][..|p|] == (p + q)[..|p|] == p;
  }

  lemma PrefixDrop(p: string, q: string, s: string)
    requires IsPrefix(p + q, p + s)
    ensures IsPrefix(q, s)
  {
    assert s[..|q|] == (p + s)[..|p + q|][|p|..] == (p + q)[|p|..] == q;
  }

  /** The "only if" half of InvalidationScope. */
  lemma InvalidationOnlyOwn(t1: string, c1: string, t2: string, c2: string, h: string)
    requires ':' !in t1 && ':' !in c1 && ':' !in t2 && ':' !in c2
    requires IsPrefix("search:" + t1 + ":" + c1 + ":", "search:" + t2 + ":" + c2 + ":" + h)
    ensures t1 == t2 && c1 == c2
  {
    var p1 := t1 + [':'] + (c1 + [':']);
    var k1 := t2 + [':'] + (c2 + [':'] + h);
    assert "search:" + t1 + ":" + c1 + ":" == "search:" + p1;
    assert "search:" + t2 + ":" + c2 + ":" + h == "search:" + k1;
    PrefixDrop("search:", p1, k1);
    PrefixShorter(t1 + [':'], c1 + [':'], k1);
    PrefixAtFirst(t1, t2, c2 + [':'] + h, ':');
    assert k1 == t1 + [':'] + (c2 + [':'] + h);
    PrefixDrop(t1 + [':'], c1 + [':'], c2 + [':'] + h);
    PrefixAtFirst(c1, c2, h, ':');
  }

  /** With tenant and conversation ids free of `":"`, a search key falls under an
      invalidation prefix exactly when it was built for that tenant and conversation
      (`None`, `""` and `"*"` all being the conversation `"*"`). */
  lemma InvalidationScope(tenantId: string, conversationId: Option<string>,
                          keyTenant: string, keyConversation: Option<string>, query: string,
                          topK: int, candidateLimit: int, digest: string -> string)
    requires ':' !in tenantId && ':' !in ConversationPart(conversationId)
    requires ':' !in keyTenant && ':' !in ConversationPart(keyConversation)
    ensures IsPrefix(SearchPrefix(tenantId, conversationId),
                     SearchKey(keyTenant, keyConversation, query, topK, candidateLimit, digest))
      <==> tenantId == keyTenant && ConversationPart(conversationId) == ConversationPart(keyConversation)
  {
    var c1, c2 := ConversationPart(conversationId), ConversationPart(keyConversation);
    var h := digest(SearchRaw(keyTenant, keyConversation, query, topK, candidateLimit));
    if tenantId == keyTenant && c1 == c2 {
      SearchKeyHasPrefix(keyTenant, keyConversation, query, topK, candidateLimit, digest);
    }
    if IsPrefix(SearchPrefix(tenantId, conversationId),
                SearchKey(keyTenant, keyConversation, query, topK, candidateLimit, digest)) {
      InvalidationOnlyOwn(tenantId, c1, keyTenant, c2, h);
    }
  }

  /** Ids containing `":"` break that: invalidating conversation `"b:c"` of tenant `"a"`
      also deletes the searches of conversation `"c"` of tenant `"a:b"`. */
  lemma InvalidationCrossesTenants()
    ensures SearchPrefix("a", Some("b:c")) == SearchPrefix("a:b", Some("c"))
  {
  }

  /** `ttl or search_ttl`: a missing or zero TTL means the search TTL. */
  function EffectiveTtl(ttl: Option<int>, searchTtl: int): (r: int)
    ensures ttl.Some? && ttl.value != 0 ==> r == ttl.value
    ensures ttl.None? || ttl.value == 0 ==> r == searchTtl
  {
    if ttl.Some? && ttl.value != 0 then ttl.value else searchTtl
  }

  /** `CacheService`: a switch and a default TTL in front of an in-memory backend. */
  class CacheService<V> {
    const enabled: bool
    const backend: InMemoryCache<V>
    const searchTtl: int
    const embeddingTtl: int

    ghost predicate Valid()
      reads this, backend
    {
      backend.Valid()
    }

    constructor (backend: InMemoryCache<V>, enabled: bool, searchTtl: int, embeddingTtl: int)
      requires backend.Valid()
      ensures Valid()
      ensures this.backend == backend && this.enabled == enabled
      ensures this.searchTtl == searchTtl && this.embeddingTtl == embeddingTtl
    {
      this.backend := backend;
      this.enabled := enabled;
      this.searchTtl := searchTtl;
      this.embeddingTtl := embeddingTtl;
    }

    /** `get`: `None` when disabled, without touching the backend. */
    method Get(key: string, now: int) returns (r: Option<V>)
      requires Valid()
      modifies backend
      ensures Valid()
      ensures !enabled ==> r == None && backend.store == old(backend.store)
      ensures enabled ==>
        r == Lookup(old(backend.store), key, now) && backend.store == AfterGet(old(backend.store), key, now)
    {
      if !enabled {
        return None;
      }
      r := backend.Get(key, now);
    }

    /** `set`: nothing when disabled; otherwise store with `ttl or search_ttl`. */
    method Set(key: string, value: V, ttl: Option<int>, now: int) returns (ok: bool)
      requires Valid()
      modifies backend
      ensures Valid()
      ensures !enabled ==> ok && backend.store == old(backend.store)
      ensures enabled ==>
        var after := AfterSet(old(backend.store), backend.maxItems, key, value, EffectiveTtl(ttl, searchTtl), now);
        && ok == after.Some?
        && backend.store == if ok then after.value else old(backend.store)
    {
      if !enabled {
        return true;
      }
      ok := backend.Set(key, value, EffectiveTtl(ttl, searchTtl), now);
    }

    /** `invalidate_search`: nothing when disabled; otherwise delete every key under the
        tenant's and conversation's search prefix. */
    method InvalidateSearch(tenantId: string, conversationId: Option<string>)
      requires Valid()
      modifies backend
      ensures Valid()
      ensures !enabled ==> backend.store == old(backend.store)
      ensures enabled ==> backend.store == WithoutPrefix(old(backend.store), SearchPrefix(tenantId, conversationId))
    {
      if !enabled {
        return;
      }
      backend.DeletePrefix(SearchPrefix(tenantId, conversationId));
    }
  }
}
