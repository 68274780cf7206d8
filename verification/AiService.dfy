/** Cached model calls with usage accounting: the cache table, one invocation, and its primitives. */
module AiService {
  import opened Wrappers
  import Locks = LockRegistry

  type Key = Locks.Key

  type CallerId = Locks.CallerId

  datatype Tokens = Tokens(prompt: int, completion: int, total: int)

  const ZERO := Tokens(0, 0, 0)

  function Plus(a: Tokens, b: Tokens): Tokens {
    Tokens(a.prompt + b.prompt, a.completion + b.completion, a.total + b.total)
  }

  datatype ChatResult = ChatResult(text: string, tokens: Tokens)

  /** A cached value, or one that no longer decodes. */
  datatype Stored = Readable(result: ChatResult) | Corrupt

  datatype Row = Row(stored: Stored, expiresAt: real)

  type Cache = map<Key, Row>

  datatype Usage = Usage(caller: CallerId, key: Key, tokens: Tokens, hit: bool, success: bool)

  /** What a lookup at time now returns. */
  function Lookup(cache: Cache, k: Key, now: real): Option<ChatResult> {
    if k in cache && cache[k].expiresAt > now && cache[k].stored.Readable? then Some(cache[k].stored.result) else None
  }

  /** What a lookup leaves behind: an expired row goes if a second reading of the clock agrees, a row that
      does not decode goes at once. */
  function Evict(cache: Cache, k: Key, now: real, again: real): Cache {
    if k !in cache then cache
    else if cache[k].expiresAt <= now then (if cache[k].expiresAt <= again then cache - {k} else cache)
    else if cache[k].stored.Corrupt? then cache - {k}
    else cache
  }

  datatype Invocation = Invocation(text: string, tokens: Tokens, cached: bool)

  datatype Failure = ProviderFailed | ValidationFailed

  /** What one invocation of caller c for key k does to the table and the ledger. */
  ghost predicate Accounted(c: CallerId, k: Key, valid: string -> bool, provider: Option<ChatResult>,
                            now: real, expiry: real,
                            cache: Cache, usage: seq<Usage>, cache': Cache, usage': seq<Usage>)
  {
    var seen := Lookup(cache, k, now);
    var hit := seen.Some? && valid(seen.value.text);
    var answered := provider.Some? && valid(provider.value.text);
    && usage' == usage +
                  [Usage(c, k, if hit || provider.None? then ZERO else provider.value.tokens, hit, hit || answered)]
    && (hit ==> cache' == cache)
    && (!hit && answered ==> k in cache' && cache'[k] == Row(Readable(provider.value), expiry))
    && (!hit && !answered ==> Lookup(cache', k, now).None?)
    && (forall x | x != k :: x in cache' <==> x in cache)
    && (forall x | x != k && x in cache' :: cache'[x] == cache[x])
  }

  /** The cache and the usage ledger, updated in place by one invocation at a time per key. */
  class AiService {
    var cache: Cache
    var usage: seq<Usage>
    const ttl: real

    constructor (ttl: real)
      requires ttl > 0.0
      ensures cache == map[] && usage == [] && this.ttl == ttl
    {
      cache, usage := map[], [];
      this.ttl := ttl;
    }

    method Get(k: Key, now: real, again: real) returns (result: Option<ChatResult>)
      modifies this`cache
      ensures result == Lookup(old(cache), k, now)
      ensures cache == Evict(old(cache), k, now, again)
    {
      if k !in cache {
        return None;
      }
      var row := cache[k];
      if row.expiresAt <= now {
        if row.expiresAt <= again {
          cache := cache - {k};
        }
        return None;
      }
      match row.stored
      case Readable(r) => result := Some(r);
      case Corrupt =>
        cache := cache - {k};
        result := None;
    }

    method RecordUsage(c: CallerId, k: Key, result: Option<ChatResult>, hit: bool, success: bool)
      modifies this`usage
      ensures usage == old(usage) +
              [Usage(c, k, if hit || result.None? then ZERO else result.value.tokens, hit, success)]
    {
      var tokens := if hit || result.None? then ZERO else result.value.tokens;
      usage := usage + [Usage(c, k, tokens, hit, success)];
    }

    /** One invocation: `provider` is what the model would answer (None when it raises), `valid` the caller's
        validator. It writes exactly one usage row, charging the provider's tokens and nothing for a hit;
        it serves a fresh valid entry without calling the provider; otherwise it stores a valid answer
        until its time to live ends, and leaves no entry that a lookup at that moment would serve. */
    method Invoke(c: CallerId, k: Key, valid: string -> bool, provider: Option<ChatResult>,
                  now: real, again: real, storedAt: real) returns (r: Result<Invocation, Failure>)
      modifies this
      ensures Accounted(c, k, valid, provider, now, storedAt + ttl, old(cache), old(usage), cache, usage)
      ensures var seen := Lookup(old(cache), k, now);
              r == (if seen.Some? && valid(seen.value.text) then Ok(Invocation(seen.value.text, ZERO, true))
                    else if provider.None? then Err(ProviderFailed)
                    else if valid(provider.value.text) then
                         Ok(Invocation(provider.value.text, provider.value.tokens, false))
                    else Err(ValidationFailed))
    {
      var seen := Get(k, now, again);
      if seen.Some? {
        if valid(seen.value.text) {
          RecordUsage(c, k, seen, true, true);
          return Ok(Invocation(seen.value.text, ZERO, true));
        }
        cache := cache - {k};
      }
      if provider.None? {
        RecordUsage(c, k, None, false, false);
        return Err(ProviderFailed);
      }
      if !valid(provider.value.text) {
        RecordUsage(c, k, provider, false, false);
        return Err(ValidationFailed);
      }
      cache := cache[k := Row(Readable(provider.value), storedAt + ttl)];
      RecordUsage(c, k, provider, false, true);
      r := Ok(Invocation(provider.value.text, provider.value.tokens, false));
    }
  }
}
