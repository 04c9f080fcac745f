/**
 * The mobile app's offline copy of public reads: a flat key-value store holding at most forty
 * entries and, under one more key, the list of their ids. It refines "the forty ids written last".
 */
module OfflineCache {
  import opened Sequences
  import opened Wrappers

  const PREFIX := "betng.offline."
  const INDEX_KEY := PREFIX + "index"
  const MAX_AGE_MS := 24 * 60 * 60 * 1000
  const MAX_ENTRIES := 40
  const MAX_LENGTH := 256 * 1024
  const MAX_KEY_LENGTH := 120

  // ---- Ids ----

  predicate IsCacheableKind(kind: string) {
    kind in ["fixtures", "standings", "results"]
  }

  predicate KeyChar(c: char) {
    'A' <= c <= 'Z' || 'a' <= c <= 'z' || '0' <= c <= '9' || c in "_:.,-"
  }

  function Sanitize(key: string): (clean: string)
    ensures |clean| == |key|
    ensures forall i :: 0 <= i < |key| ==> clean[i] == if KeyChar(key[i]) then key[i] else '_'
  {
    seq(|key|, i requires 0 <= i < |key| => if KeyChar(key[i]) then key[i] else '_')
  }

  /** The characters a key keeps, by code point: letters, digits and five more. */
  lemma KeyCharCodes(c: char)
    ensures var n := c as int;
            KeyChar(c) <==> 65 <= n <= 90 || 97 <= n <= 122 || 48 <= n <= 57 || n in {95, 58, 46, 44, 45}
  {
  }

  function Shorten(key: string): string {
    if |key| > MAX_KEY_LENGTH then key[..MAX_KEY_LENGTH] else key
  }

  function KindAndKey(kind: string, clean: string): string {
    kind + "." + clean
  }

  function EntryKey(kind: string, key: string): string {
    PREFIX + KindAndKey(kind, Shorten(Sanitize(key)))
  }

  lemma SamePrefix(p: string, x: string, y: string)
    ensures p + x == p + y <==> x == y
    ensures p <= p + x
  {
    assert (p + x)[|p|..] == x && (p + y)[|p|..] == y;
  }

  /** The kinds differ in their first letter, from each other and from the index. */
  lemma KindsApart(kind: string, kind': string)
    requires IsCacheableKind(kind) && IsCacheableKind(kind')
    ensures kind != [] && kind' != [] && kind[0] != 'i' && (kind[0] == kind'[0] <==> kind == kind')
  {
  }

  lemma SameKindAndKey(kind: string, clean: string, kind': string, clean': string)
    requires IsCacheableKind(kind) && IsCacheableKind(kind')
    ensures KindAndKey(kind, clean) != "index"
    ensures KindAndKey(kind, clean) == KindAndKey(kind', clean') <==> kind == kind' && clean == clean'
  {
    KindsApart(kind, kind');
    var a, b := KindAndKey(kind, clean), KindAndKey(kind', clean');
    assert a[0] == kind[0] && b[0] == kind'[0];
    assert a[|kind| + 1..] == clean && b[|kind'| + 1..] == clean';
  }

  /** An entry never lands on the index, and two queries share an entry exactly when kind and cleaned, cut key agree. */
  lemma EntryKeysSeparate(kind: string, key: string, kind': string, key': string)
    requires IsCacheableKind(kind) && IsCacheableKind(kind')
    ensures EntryKey(kind, key) != INDEX_KEY && PREFIX <= EntryKey(kind, key)
    ensures EntryKey(kind, key) == EntryKey(kind', key')
            <==> kind == kind' && Shorten(Sanitize(key)) == Shorten(Sanitize(key'))
  {
    var clean, clean' := Shorten(Sanitize(key)), Shorten(Sanitize(key'));
    SameKindAndKey(kind, clean, kind', clean');
    SamePrefix(PREFIX, KindAndKey(kind, clean), KindAndKey(kind', clean'));
    SamePrefix(PREFIX, KindAndKey(kind, clean), "index");
  }

  predicate Clean(key: string) {
    forall i | 0 <= i < |key| :: KeyChar(key[i])
  }

  /** An entry key stays clean and short, and a query's key that is clean and short already stands in it unchanged. */
  lemma EntryKeyShape(kind: string, key: string)
    ensures Clean(Shorten(Sanitize(key))) && |Shorten(Sanitize(key))| <= MAX_KEY_LENGTH
    ensures Clean(key) && |key| <= MAX_KEY_LENGTH ==> EntryKey(kind, key) == PREFIX + KindAndKey(kind, key)
  {
    assert Clean(Sanitize(key));
    if Clean(key) {
      assert Sanitize(key) == key;
    }
  }

  // ---- The simple model: a history of accepted writes ----

  datatype Saved<V> = Saved(id: string, value: V, savedAt: int)

  datatype CachedValue<V> = CachedValue(value: V, savedAt: int)

  /** One past the position of the last write of `id`; zero when it was never written. */
  function LastWrite<V>(history: seq<Saved<V>>, id: string): (at: nat)
    ensures at <= |history|
    ensures at > 0 ==> history[at - 1].id == id
    ensures forall i :: at <= i < |history| ==> history[i].id != id
  {
    if history == [] then 0
    else if history[|history| - 1].id == id then |history|
    else LastWrite(history[..|history| - 1], id)
  }

  /** The distinct ids written since `id` was last written. */
  ghost function WrittenSince<V>(history: seq<Saved<V>>, id: string): set<string> {
    set i | LastWrite(history, id) <= i < |history| :: history[i].id
  }

  /** `id` is among the forty distinct ids written last. */
  ghost predicate Recent<V>(history: seq<Saved<V>>, id: string) {
    LastWrite(history, id) > 0 && |WrittenSince(history, id)| < MAX_ENTRIES
  }

  function LastValue<V>(history: seq<Saved<V>>, id: string): CachedValue<V>
    requires LastWrite(history, id) > 0
  {
    var entry := history[LastWrite(history, id) - 1];
    CachedValue(entry.value, entry.savedAt)
  }

  /** What a read must answer: the last value written, while it is recent and at most a day old. */
  ghost function Lookup<V>(history: seq<Saved<V>>, id: string, now: int): Option<CachedValue<V>> {
    if Recent(history, id) && now - LastValue(history, id).savedAt <= MAX_AGE_MS
    then Some(LastValue(history, id))
    else None
  }

  // ---- The index ----

  predicate NoDuplicates(s: seq<string>) {
    forall i, j :: 0 <= i < j < |s| ==> s[i] != s[j]
  }

  function Without(s: seq<string>, x: string): (r: seq<string>)
    ensures forall y :: y in r <==> y in s && y != x
  {
    if s == [] then [] else
    var front := Without(s[..|s| - 1], x);
    assert s == s[..|s| - 1] + [s[|s| - 1]];
    if s[|s| - 1] == x then front else front + [s[|s| - 1]]
  }

  lemma {:induction false} WithoutDistinct(s: seq<string>, x: string)
    requires NoDuplicates(s)
    ensures NoDuplicates(Without(s, x))
    ensures |Without(s, x)| == |s| - if x in s then 1 else 0
  {
    if s != [] {
      WithoutDistinct(s[..|s| - 1], x);
      assert s == s[..|s| - 1] + [s[|s| - 1]];
      assert s[|s| - 1] !in s[..|s| - 1];
    }
  }

  function Newest(s: seq<string>): seq<string> {
    if |s| > MAX_ENTRIES then s[|s| - MAX_ENTRIES..] else s
  }

  /** Every id ever written, ordered by its last write. */
  function ByLastWrite<V>(history: seq<Saved<V>>): seq<string> {
    if history == [] then [] else
    var id := history[|history| - 1].id;
    Without(ByLastWrite(history[..|history| - 1]), id) + [id]
  }

  function Index<V>(history: seq<Saved<V>>): seq<string> {
    Newest(ByLastWrite(history))
  }

  lemma {:induction false} WithoutSplits(s: seq<string>, t: seq<string>, x: string)
    ensures Without(s + t, x) == Without(s, x) + Without(t, x)
  {
    if t == [] {
      assert s + t == s;
    } else {
      WithoutSplits(s, t[..|t| - 1], x);
      assert (s + t)[..|s + t| - 1] == s + t[..|t| - 1];
    }
  }

  lemma NewestOfTail(gone: seq<string>, tail: seq<string>)
    requires |tail| >= MAX_ENTRIES
    ensures Newest(gone + tail) == Newest(tail)
  {
    var all := gone + tail;
    assert all[|gone|..] == tail;
    assert all[|all| - MAX_ENTRIES..] == tail[|tail| - MAX_ENTRIES..];
  }

  /** Trimming before removing and appending loses nothing that trimming afterwards would keep. */
  lemma NewestAfterMove(all: seq<string>, id: string)
    requires NoDuplicates(all)
    ensures Newest(Without(Newest(all), id) + [id]) == Newest(Without(all, id) + [id])
  {
    if |all| > MAX_ENTRIES {
      var dropped, recent := all[..|all| - MAX_ENTRIES], all[|all| - MAX_ENTRIES..];
      var gone, kept := Without(dropped, id), Without(recent, id);
      assert all == dropped + recent;
      WithoutSplits(dropped, recent, id);
      WithoutDistinct(recent, id);
      NewestOfTail(gone, kept + [id]);
      assert Without(all, id) + [id] == gone + (kept + [id]);
    }
  }

  /** `ids` stand in the order of their last writes. */
  ghost predicate Ordered<V>(history: seq<Saved<V>>, ids: seq<string>) {
    forall i, j :: 0 <= i < j < |ids| ==> LastWrite(history, ids[i]) < LastWrite(history, ids[j])
  }

  lemma LastWriteAppended<V>(history: seq<Saved<V>>, entry: Saved<V>, id: string)
    ensures LastWrite(history + [entry], id) == if id == entry.id then |history| + 1 else LastWrite(history, id)
    ensures id != entry.id && LastWrite(history, id) > 0 ==> LastValue(history + [entry], id) == LastValue(history, id)
  {
    assert (history + [entry])[..|history|] == history;
  }

  lemma MembersAppended<V>(history: seq<Saved<V>>, entry: Saved<V>, ids: seq<string>)
    requires forall id :: id in ids <==> LastWrite(history, id) > 0
    ensures forall id :: id in Without(ids, entry.id) + [entry.id] <==> LastWrite(history + [entry], id) > 0
  {
    forall id
      ensures id in Without(ids, entry.id) + [entry.id] <==> LastWrite(history + [entry], id) > 0
    {
      LastWriteAppended(history, entry, id);
    }
  }

  lemma {:induction false} ByLastWriteOrdered<V>(history: seq<Saved<V>>)
    ensures NoDuplicates(ByLastWrite(history)) && Ordered(history, ByLastWrite(history))
    ensures forall id :: id in ByLastWrite(history) <==> LastWrite(history, id) > 0
  {
    if history != [] {
      var before, entry := history[..|history| - 1], history[|history| - 1];
      var ids := ByLastWrite(before);
      ByLastWriteOrdered(before);
      assert before + [entry] == history;
      WithoutDistinct(ids, entry.id);
      WithoutKeepsOrder(before, ids, entry.id);
      OrderedAppended(before, entry, Without(ids, entry.id));
      MembersAppended(before, entry, ids);
    }
  }

  lemma OrderedAppended<V>(history: seq<Saved<V>>, entry: Saved<V>, ids: seq<string>)
    requires Ordered(history, ids) && entry.id !in ids
    ensures Ordered(history + [entry], ids + [entry.id])
  {
    LastWriteAppended(history, entry, entry.id);
    forall i | 0 <= i < |ids|
      ensures LastWrite(history + [entry], ids[i]) == LastWrite(history, ids[i])
    {
      LastWriteAppended(history, entry, ids[i]);
    }
  }

  lemma {:induction false} WithoutKeepsOrder<V>(history: seq<Saved<V>>, ids: seq<string>, x: string)
    requires Ordered(history, ids)
    ensures Ordered(history, Without(ids, x))
  {
    if ids != [] {
      var front, last := ids[..|ids| - 1], ids[|ids| - 1];
      WithoutKeepsOrder(history, front, x);
      var r := Without(front, x);
      forall i | 0 <= i < |r|
        ensures LastWrite(history, r[i]) < LastWrite(history, last)
      {
        assert r[i] in front;
        var k :| 0 <= k < |front| && front[k] == r[i];
        assert ids[k] == r[i];
      }
    }
  }

  lemma {:induction false} SizeOfDistinct(s: seq<string>, elements: set<string>)
    requires NoDuplicates(s) && forall x :: x in elements <==> x in s
    ensures |elements| == |s|
  {
    if s == [] {
      assert elements == {};
    } else {
      var front, last := s[..|s| - 1], s[|s| - 1];
      SizeOfDistinct(front, elements - {last});
    }
  }

  lemma WrittenSinceIsTail<V>(history: seq<Saved<V>>, i: nat)
    requires i < |ByLastWrite(history)|
    ensures |WrittenSince(history, ByLastWrite(history)[i])| == |ByLastWrite(history)| - 1 - i
  {
    var ids := ByLastWrite(history);
    ByLastWriteOrdered(history);
    var since := WrittenSince(history, ids[i]);
    forall x
      ensures x in since <==> x in ids[i + 1..]
    {
      if x in since {
        LaterIsBehind(history, i, x);
      }
      if x in ids[i + 1..] {
        var j :| i < j < |ids| && ids[j] == x;
        assert history[LastWrite(history, x) - 1].id == x;
      }
    }
    SizeOfDistinct(ids[i + 1..], since);
  }

  lemma LaterIsBehind<V>(history: seq<Saved<V>>, i: nat, x: string)
    requires i < |ByLastWrite(history)| && x in WrittenSince(history, ByLastWrite(history)[i])
    ensures x in ByLastWrite(history)[i + 1..]
  {
    var ids := ByLastWrite(history);
    ByLastWriteOrdered(history);
    assert LastWrite(history, x) > LastWrite(history, ids[i]);
    var j :| 0 <= j < |ids| && ids[j] == x;
    assert j > i;
  }

  /** The index holds each of the forty ids written last once, in the order of their last writes, and nothing else. */
  lemma IndexIsRecent<V>(history: seq<Saved<V>>)
    ensures |Index(history)| <= MAX_ENTRIES && NoDuplicates(Index(history)) && Ordered(history, Index(history))
    ensures forall id :: id in Index(history) <==> Recent(history, id)
  {
    var ids := ByLastWrite(history);
    ByLastWriteOrdered(history);
    var cut := if |ids| > MAX_ENTRIES then |ids| - MAX_ENTRIES else 0;
    assert Index(history) == ids[cut..];
    assert |ids[cut..]| == |ids| - cut;
    forall id
      ensures id in ids[cut..] <==> Recent(history, id)
    {
      assert id in ids[cut..] ==> id in ids;
      assert LastWrite(history, id) > 0 <==> id in ids;
      if id in ids {
        var i :| 0 <= i < |ids| && ids[i] == id;
        WrittenSinceIsTail(history, i);
        InTail(ids, i, cut);
      }
    }
  }

  lemma InTail(ids: seq<string>, i: nat, cut: nat)
    requires NoDuplicates(ids) && i < |ids| && cut <= |ids|
    ensures ids[i] in ids[cut..] <==> cut <= i
  {
    if cut <= i {
      assert ids[cut..][i - cut] == ids[i];
    }
  }

  lemma IndexAfterWrite<V>(history: seq<Saved<V>>, entry: Saved<V>)
    ensures Index(history + [entry]) == Newest(Without(Index(history), entry.id) + [entry.id])
  {
    ByLastWriteOrdered(history);
    assert (history + [entry])[..|history|] == history;
    NewestAfterMove(ByLastWrite(history), entry.id);
  }

  // ---- JSON, as far as the cache uses it ----

  /**
   * `writeEntry` is `None` where `JSON.stringify` throws, the readers where `JSON.parse` or the checks on its result
   * fail.
   */
  datatype Json<!V> = Json(
    writeEntry: (V, int) -> Option<string>,
    readEntry: string -> Option<CachedValue<V>>,
    writeIndex: seq<string> -> string,
    readIndex: string -> Option<seq<string>>)

  ghost predicate Faithful<V(!new)>(json: Json<V>) {
    && (forall value, at | json.writeEntry(value, at).Some? ::
          json.readEntry(json.writeEntry(value, at).value) == Some(CachedValue(value, at)))
    && (forall ids :: json.readIndex(json.writeIndex(ids)) == Some(ids))
  }

  function OnlyOurs(ids: seq<string>): (r: seq<string>)
    ensures (forall i :: 0 <= i < |ids| ==> PREFIX <= ids[i]) ==> r == ids
  {
    if ids == [] then []
    else
      var front := OnlyOurs(ids[..|ids| - 1]);
      assert ids == ids[..|ids| - 1] + [ids[|ids| - 1]];
      if PREFIX <= ids[|ids| - 1] then front + [ids[|ids| - 1]] else front
  }

  // ---- The cache ----

  ghost predicate Accepted<V>(json: Json<V>, kind: string, value: V, now: int) {
    IsCacheableKind(kind) && json.writeEntry(value, now).Some? && |json.writeEntry(value, now).value| <= MAX_LENGTH
  }

  ghost predicate Holds<V>(store: map<string, string>, json: Json<V>, history: seq<Saved<V>>, id: string) {
    Recent(history, id) && id in store && json.readEntry(store[id]) == Some(LastValue(history, id))
  }

  /** The store holds the index and one readable entry per recent id, and nothing besides. */
  ghost predicate Represents<V>(store: map<string, string>, json: Json<V>, history: seq<Saved<V>>) {
    && (history == [] ==> store == map[])
    && (history != [] ==> INDEX_KEY in store && store[INDEX_KEY] == json.writeIndex(Index(history)))
    && (forall key | key in store && key != INDEX_KEY :: Recent(history, key))
    && (forall id | Recent(history, id) :: Holds(store, json, history, id))
    && (forall i | 0 <= i < |history| :: Ours(history[i].id))
  }

  predicate Ours(id: string) {
    id != INDEX_KEY && PREFIX <= id
  }

  lemma IdsAreOurs<V>(history: seq<Saved<V>>)
    requires forall i | 0 <= i < |history| :: Ours(history[i].id)
    ensures forall id | Recent(history, id) :: Ours(id)
    ensures forall i | 0 <= i < |Index(history)| :: Ours(Index(history)[i])
  {
    IndexIsRecent(history);
    forall id | Recent(history, id)
      ensures Ours(id)
    {
      assert history[LastWrite(history, id) - 1].id == id;
    }
    assert forall i | 0 <= i < |Index(history)| :: Index(history)[i] in Index(history);
  }

  /** What one write does to the store: the ids the new index drops are removed, the entry and the index are set. */
  ghost predicate Written<V>(store: map<string, string>, after: map<string, string>, json: Json<V>,
          before: seq<string>, index: seq<string>, id: string, raw: string) {
    && after.Keys == (store.Keys - (set x | x in before && x !in index)) + {id, INDEX_KEY}
    && after[id] == raw
    && after[INDEX_KEY] == json.writeIndex(index)
    && forall key | key in after && key != id && key != INDEX_KEY :: key in store && after[key] == store[key]
  }

  lemma RecentAfterWrite<V>(history: seq<Saved<V>>, entry: Saved<V>)
    ensures var grown := history + [entry];
            && Recent(grown, entry.id)
            && LastValue(grown, entry.id) == CachedValue(entry.value, entry.savedAt)
            && forall id | id != entry.id ::
                 LastWrite(grown, id) == LastWrite(history, id) && (Recent(grown, id) ==> Recent(history, id))
  {
    var grown := history + [entry];
    assert grown[..|history|] == history;
    assert WrittenSince(grown, entry.id) == {};
    IndexIsRecent(history);
    IndexIsRecent(grown);
    IndexAfterWrite(history, entry);
    forall id | id != entry.id
      ensures LastWrite(grown, id) == LastWrite(history, id) && (Recent(grown, id) ==> Recent(history, id))
    {
      if Recent(grown, id) {
        assert id in Index(grown);
        assert id in Without(Index(history), entry.id) + [entry.id];
      }
    }
  }

  /** A recent id keeps its entry, or is the one just written. */
  lemma EntryAfterWrite<V(!new)>(store: map<string, string>, json: Json<V>, history: seq<Saved<V>>, entry: Saved<V>,
          raw: string, after: map<string, string>, id: string)
    requires json.readEntry(raw) == Some(CachedValue(entry.value, entry.savedAt)) && Ours(entry.id)
    requires forall i | Recent(history, i) :: Holds(store, json, history, i) && Ours(i)
    requires Written(store, after, json, Index(history), Index(history + [entry]), entry.id, raw)
    requires Recent(history + [entry], id)
    ensures Holds(after, json, history + [entry], id)
  {
    RecentAfterWrite(history, entry);
    if id != entry.id {
      assert Recent(history, id) && Holds(store, json, history, id);
      assert id in Index(history + [entry]) by { IndexIsRecent(history + [entry]); }
      assert id in after;
      assert (history + [entry])[LastWrite(history, id) - 1] == history[LastWrite(history, id) - 1];
    }
  }

  lemma KeyAfterWrite<V>(store: map<string, string>, json: Json<V>, history: seq<Saved<V>>, entry: Saved<V>,
          raw: string, after: map<string, string>, key: string)
    requires forall key | key in store && key != INDEX_KEY :: Recent(history, key)
    requires Written(store, after, json, Index(history), Index(history + [entry]), entry.id, raw)
    requires key in after && key != INDEX_KEY
    ensures Recent(history + [entry], key)
  {
    if key == entry.id {
      RecentAfterWrite(history, entry);
    } else {
      assert key in Index(history) by { IndexIsRecent(history); }
      assert key in Index(history + [entry]);
      IndexIsRecent(history + [entry]);
    }
  }

  lemma WriteRepresents<V(!new)>(store: map<string, string>, json: Json<V>, history: seq<Saved<V>>, entry: Saved<V>,
          raw: string, after: map<string, string>)
    requires Faithful(json) && Represents(store, json, history) && Ours(entry.id)
    requires json.writeEntry(entry.value, entry.savedAt) == Some(raw)
    requires Written(store, after, json, Index(history), Index(history + [entry]), entry.id, raw)
    ensures Represents(after, json, history + [entry])
  {
    IdsAreOurs(history);
    forall id | Recent(history + [entry], id)
      ensures Holds(after, json, history + [entry], id)
    {
      EntryAfterWrite(store, json, history, entry, raw, after, id);
    }
    forall key | key in after && key != INDEX_KEY
      ensures Recent(history + [entry], key)
    {
      KeyAfterWrite(store, json, history, entry, raw, after, key);
    }
  }

  /** The ids shifted off the front are exactly the old ones the new index no longer lists. */
  lemma EvictedAreGone(ids: seq<string>, id: string, removed: nat)
    requires NoDuplicates(ids) && |ids| <= MAX_ENTRIES
    requires var listed := Without(ids, id) + [id]; removed <= |listed| && Newest(listed) == listed[removed..]
    ensures var listed := Without(ids, id) + [id];
            Elements(listed[..removed]) == (set x | x in ids && x !in Newest(listed))
  {
    var listed := Without(ids, id) + [id];
    WithoutDistinct(ids, id);
    assert listed[|listed| - 1] == id;
    forall x
      ensures x in listed[..removed] <==> x in ids && x !in listed[removed..]
    {
      assert x in listed <==> x in ids || x == id;
      CutApart(listed, removed, x);
    }
  }

  /** Cut in two, a list without duplicates has each of its elements on one side, and its last one on the second. */
  lemma CutApart(s: seq<string>, k: nat, x: string)
    requires NoDuplicates(s) && k <= |s|
    ensures x in s[..k] <==> x in s && x !in s[k..]
    ensures k < |s| ==> s[|s| - 1] in s[k..]
  {
    assert s == s[..k] + s[k..];
    if k < |s| {
      assert s[k..][|s| - 1 - k] == s[|s| - 1];
    }
  }

  /** Evict, set the entry, set the index: the store then represents the longer history. */
  lemma WriteSucceeds<V(!new)>(store: map<string, string>, json: Json<V>, history: seq<Saved<V>>, entry: Saved<V>,
          raw: string, removed: nat)
    requires Faithful(json) && Represents(store, json, history) && Ours(entry.id)
    requires json.writeEntry(entry.value, entry.savedAt) == Some(raw)
    requires var listed := Without(Index(history), entry.id) + [entry.id];
             removed <= |listed| && Newest(listed) == listed[removed..]
    ensures var listed := Without(Index(history), entry.id) + [entry.id];
            var kept := store - Elements(listed[..removed]);
            var after := kept[entry.id := raw][INDEX_KEY := json.writeIndex(Newest(listed))];
            Represents(after, json, history + [entry])
  {
    var listed := Without(Index(history), entry.id) + [entry.id];
    var after := (store - Elements(listed[..removed]))[entry.id := raw][INDEX_KEY := json.writeIndex(Newest(listed))];
    IndexIsRecent(history);
    IndexAfterWrite(history, entry);
    EvictedAreGone(Index(history), entry.id, removed);
    WriteRepresents(store, json, history, entry, raw, after);
  }

  /** Beside the index, the store holds an entry for exactly the ids written recently: never more than forty. */
  lemma StoreIsRecentForty<V>(store: map<string, string>, json: Json<V>, history: seq<Saved<V>>)
    requires Represents(store, json, history)
    ensures forall key :: key in store && key != INDEX_KEY <==> Recent(history, key)
    ensures |store.Keys - {INDEX_KEY}| <= MAX_ENTRIES
  {
    IndexIsRecent(history);
    IdsAreOurs(history);
    SizeOfDistinct(Index(history), store.Keys - {INDEX_KEY});
  }

  class OfflineCache<V(!new)> {
    const json: Json<V>
    var store: map<string, string>
    /** The accepted writes, oldest first. */
    ghost var history: seq<Saved<V>>

    ghost predicate Valid()
      reads this
    {
      Faithful(json) && Represents(store, json, history)
    }

    constructor (json: Json<V>)
      requires Faithful(json)
      ensures Valid() && history == [] && this.json == json
    {
      this.json, store, history := json, map[], [];
    }

    method ReadIndex() returns (ids: seq<string>)
      requires Valid()
      ensures ids == Index(history)
    {
      IdsAreOurs(history);
      var raw := if INDEX_KEY in store then store[INDEX_KEY] else json.writeIndex([]);
      var parsed := json.readIndex(raw);
      ids := if parsed.Some? then OnlyOurs(parsed.value) else [];
    }

    /** The last value written under the query's id, if it is still recent and at most a day old. */
    method Read(kind: string, key: string, now: int) returns (r: Option<CachedValue<V>>)
      requires Valid()
      ensures r == if IsCacheableKind(kind) then Lookup(history, EntryKey(kind, key), now) else None
    {
      if !IsCacheableKind(kind) {
        return None;
      }
      var id := EntryKey(kind, key);
      EntryKeysSeparate(kind, key, kind, key);
      assert Recent(history, id) ==> Holds(store, json, history, id);
      if id !in store {
        return None;
      }
      var entry := json.readEntry(store[id]);
      if entry.None? || now - entry.value.savedAt > MAX_AGE_MS {
        return None;
      }
      return entry;
    }

    /** Shifts ids off the front of the index, and their entries out of the store, until forty are left. */
    method Evict(listed: seq<string>) returns (index: seq<string>)
      modifies this`store
      ensures index == Newest(listed) && index == listed[|listed| - |index|..]
      ensures store == old(store) - Elements(listed[..|listed| - |index|])
    {
      index := listed;
      ghost var removed := 0;
      while |index| > MAX_ENTRIES
        invariant 0 <= removed <= |listed| && index == listed[removed..]
        invariant removed > 0 ==> |index| >= MAX_ENTRIES
        invariant store == old(store) - Elements(listed[..removed])
      {
        store := store - {index[0]};
        index := index[1..];
        assert listed[..removed + 1] == listed[..removed] + [listed[removed]];
        removed := removed + 1;
      }
    }

    /** `write` once the text is known to fit: the id moves to the end, what overflows goes, the entry is set. */
    method Commit(id: string, raw: string, ghost entry: Saved<V>)
      requires Valid() && Ours(id) && entry.id == id && json.writeEntry(entry.value, entry.savedAt) == Some(raw)
      modifies this
      ensures Valid() && history == old(history) + [entry]
    {
      var before := ReadIndex();
      var listed := Without(before, id) + [id];
      var index := Evict(listed);
      WriteSucceeds(old(store), json, history, entry, raw, |listed| - |index|);
      store := store[id := raw];
      store := store[INDEX_KEY := json.writeIndex(index)];
      history := history + [entry];
    }

    /** An accepted write joins the history; any other write changes nothing. */
    method Write(kind: string, key: string, value: V, now: int)
      requires Valid()
      modifies this
      ensures Valid()
      ensures Accepted(json, kind, value, now) ==> history == old(history) + [Saved(EntryKey(kind, key), value, now)]
      ensures !Accepted(json, kind, value, now) ==> history == old(history) && store == old(store)
    {
      if !IsCacheableKind(kind) {
        return;
      }
      var raw := json.writeEntry(value, now);
      if raw.None? || |raw.value| > MAX_LENGTH {
        return;
      }
      EntryKeysSeparate(kind, key, kind, key);
      Commit(EntryKey(kind, key), raw.value, Saved(EntryKey(kind, key), value, now));
    }
  }
}
