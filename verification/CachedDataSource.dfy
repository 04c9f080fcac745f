/** Public reads that fall back to the offline copy when the platform cannot be reached. */
module CachedDataSource {
  import opened Wrappers
  import opened OfflineCache

  /** The codes of failures that say nothing about the answer, only about the connection. */
  predicate IsConnectivityError(code: Option<string>) {
    code in [Some("NETWORK"), Some("OFFLINE"), Some("TIMEOUT"), Some("UNAVAILABLE")]
  }

  /** One read: which query, what the platform answered (or the code of what it threw) and when. */
  datatype Query<V> = Query(kind: string, key: string, outcome: Result<V, Option<string>>, now: int)

  /** What the read leaves in the cache, if anything. */
  ghost function Storable<V>(json: Json<V>, q: Query<V>): Option<Saved<V>> {
    if q.outcome.Ok? && Accepted(json, q.kind, q.outcome.value, q.now)
    then Some(Saved(EntryKey(q.kind, q.key), q.outcome.value, q.now))
    else None
  }

  function Joined<V>(history: seq<Saved<V>>, save: Option<Saved<V>>): seq<Saved<V>> {
    if save.Some? then history + [save.value] else history
  }

  ghost function Answer<V>(history: seq<Saved<V>>, q: Query<V>): Result<V, Option<string>> {
    if q.outcome.Err? && IsConnectivityError(q.outcome.error) && IsCacheableKind(q.kind)
       && Lookup(history, EntryKey(q.kind, q.key), q.now).Some?
    then Ok(Lookup(history, EntryKey(q.kind, q.key), q.now).value.value)
    else q.outcome
  }

  method Cached<V(!new)>(cache: OfflineCache<V>, q: Query<V>) returns (r: Result<V, Option<string>>)
    requires cache.Valid()
    modifies cache
    ensures cache.Valid()
    ensures cache.history == Joined(old(cache.history), Storable(cache.json, q))
    ensures r == Answer(old(cache.history), q)
  {
    match q.outcome
    case Ok(value) =>
      cache.Write(q.kind, q.key, value, q.now);
      return q.outcome;
    case Err(code) =>
      var fallback := None;
      if IsConnectivityError(code) {
        fallback := cache.Read(q.kind, q.key, q.now);
      }
      if fallback.None? {
        return q.outcome;
      }
      return Ok(fallback.value.value);
  }

  function AllJoined<V>(saves: seq<Option<Saved<V>>>): seq<Saved<V>> {
    if saves == [] then [] else Joined(AllJoined(saves[..|saves| - 1]), saves[|saves| - 1])
  }

  /** The history after these queries, in order, from an empty cache. */
  ghost function HistoryOf<V>(json: Json<V>, queries: seq<Query<V>>): seq<Saved<V>> {
    AllJoined(Saves(json, queries))
  }

  ghost function Saves<V>(json: Json<V>, queries: seq<Query<V>>): (saves: seq<Option<Saved<V>>>)
    ensures |saves| == |queries| && forall i | 0 <= i < |queries| :: saves[i] == Storable(json, queries[i])
  {
    seq(|queries|, i requires 0 <= i < |queries| => Storable(json, queries[i]))
  }

  lemma HistoryGrows<V>(json: Json<V>, queries: seq<Query<V>>, q: Query<V>)
    ensures HistoryOf(json, []) == []
            && HistoryOf(json, queries + [q]) == Joined(HistoryOf(json, queries), Storable(json, q))
  {
    assert Saves(json, queries + [q])[..|queries|] == Saves(json, queries);
  }

  predicate Stores<V>(save: Option<Saved<V>>, id: string) {
    save.Some? && save.value.id == id
  }

  lemma {:induction false} LastSave<V>(saves: seq<Option<Saved<V>>>, id: string) returns (i: nat)
    requires LastWrite(AllJoined(saves), id) > 0
    ensures i < |saves| && Stores(saves[i], id)
    ensures LastValue(AllJoined(saves), id) == CachedValue(saves[i].value.value, saves[i].value.savedAt)
    ensures forall j | i < j < |saves| :: !Stores(saves[j], id)
  {
    var before, save := saves[..|saves| - 1], saves[|saves| - 1];
    if save.Some? {
      LastWriteAppended(AllJoined(before), save.value, id);
    }
    if Stores(save, id) {
      i := |saves| - 1;
    } else {
      i := LastSave(before, id);
      forall j | i < j < |saves|
        ensures !Stores(saves[j], id)
      {
        assert j < |before| ==> before[j] == saves[j];
      }
    }
  }

  /**
   * A read that failed yet answers does so only after a connectivity error, and with the very value the
   * platform gave to the last storable read of the same entry, at most a day before.
   */
  lemma FallbackIsLastAnswer<V>(json: Json<V>, queries: seq<Query<V>>, q: Query<V>) returns (i: nat)
    requires q.outcome.Err? && Answer(HistoryOf(json, queries), q).Ok?
    ensures IsConnectivityError(q.outcome.error) && IsCacheableKind(q.kind)
    ensures i < |queries| && Stores(Storable(json, queries[i]), EntryKey(q.kind, q.key))
    ensures Answer(HistoryOf(json, queries), q) == queries[i].outcome
    ensures q.now - queries[i].now <= MAX_AGE_MS
    ensures forall j | i < j < |queries| :: !Stores(Storable(json, queries[j]), EntryKey(q.kind, q.key))
  {
    i := LastSave(Saves(json, queries), EntryKey(q.kind, q.key));
  }
}
