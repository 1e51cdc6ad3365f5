/**
 The embedding service's cache, least recently used out first and with a time to live, and the batched encode that
 consults it.
 */
module EmbeddingCache {
  import opened Collections
  import opened Recency

  datatype Vector = Vector(dense: seq<real>, sparse: map<int, real>)

  datatype Entry = Entry(vector: Vector, insertedAt: real)

  /** An ordered dictionary: its keys, oldest first, and its entries. */
  datatype Cache = Cache(order: seq<string>, table: map<string, Entry>)

  const EMPTY := Cache([], map[])

  ghost predicate IsWellFormed(c: Cache, capacity: nat) {
    && NoRepeats(c.order)
    && (forall k :: k in c.table <==> k in c.order)
    && |c.order| <= capacity
  }

  // ---- The operations on values ----

  predicate IsExpired(e: Entry, now: real, ttl: real) {
    now - e.insertedAt > ttl
  }

  /** `get`: a hit moves its key to the end, an expired entry is removed. */
  function Looked(c: Cache, key: string, now: real, ttl: real): Cache {
    if key !in c.table then c
    else if IsExpired(c.table[key], now, ttl) then Cache(Minus(c.order, {key}), c.table - {key})
    else Cache(Touch(c.order, key), c.table)
  }

  function Found(c: Cache, key: string, now: real, ttl: real): Option<Vector> {
    if key in c.table && !IsExpired(c.table[key], now, ttl) then Some(c.table[key].vector) else None
  }

  /** Drops the oldest keys until at most `capacity` are left. */
  function Evicted(c: Cache, capacity: nat): Cache
    decreases |c.order|
  {
    if |c.order| > capacity then Evicted(Cache(c.order[1..], c.table - {c.order[0]}), capacity) else c
  }

  /** `put`: the key goes to the end, the oldest keys make room. */
  function Stored(c: Cache, key: string, vector: Vector, now: real, capacity: nat): Cache {
    Evicted(Cache(Touch(c.order, key), c.table[key := Entry(vector, now)]), capacity)
  }

  lemma LookedIsWellFormed(c: Cache, key: string, now: real, ttl: real, capacity: nat)
    requires IsWellFormed(c, capacity)
    ensures IsWellFormed(Looked(c, key, now, ttl), capacity)
  {
    MinusNoRepeats(c.order, {key});
    MinusMembers(c.order, {key});
    MinusOne(c.order, key);
  }

  lemma {:induction false} EvictedKeepsLast(c: Cache, capacity: nat)
    requires NoRepeats(c.order) && forall k :: k in c.table <==> k in c.order
    ensures
      var d := Evicted(c, capacity);
      && d.order == Trim(c.order, capacity) && IsWellFormed(d, capacity)
      && forall k <- d.table :: k in c.table && d.table[k] == c.table[k]
    decreases |c.order|
  {
    if |c.order| > capacity {
      var oldest, rest := c.order[0], c.order[1..];
      assert c.order == [oldest] + rest;
      NoRepeatsSplit([oldest], rest);
      EvictedKeepsLast(Cache(rest, c.table - {oldest}), capacity);
      TrimRest(c.order, capacity);
    }
  }

  lemma StoredKeepsLast(c: Cache, key: string, vector: Vector, now: real, capacity: nat)
    requires IsWellFormed(c, capacity)
    ensures
      var d := Stored(c, key, vector, now, capacity);
      && d.order == Trim(Touch(c.order, key), capacity) && IsWellFormed(d, capacity)
      && forall k <- d.table ::
           if k == key then d.table[k] == Entry(vector, now) else k in c.table && d.table[k] == c.table[k]
  {
    TouchNoRepeats(c.order, key);
    EvictedKeepsLast(Cache(Touch(c.order, key), c.table[key := Entry(vector, now)]), capacity);
  }

  /** A lookup hits exactly when the key is held and its entry is no older than the time to live; an older entry is
      removed, and a hit does not make its entry any younger. */
  lemma LookMeaning(c: Cache, key: string, now: real, ttl: real)
    ensures Found(c, key, now, ttl).Some? <==> key in c.table && now - c.table[key].insertedAt <= ttl
    ensures Found(c, key, now, ttl).Some? ==> Found(c, key, now, ttl).value == c.table[key].vector
    ensures
      var d := Looked(c, key, now, ttl);
      && (forall k :: k in d.table <==> k in c.table && (k == key ==> now - c.table[key].insertedAt <= ttl))
      && forall k <- d.table :: d.table[k] == c.table[k]
  {
  }

  /** What is stored at one time is found later exactly until its time to live has passed. */
  lemma StoredIsFound(c: Cache, key: string, vector: Vector, now: real, later: real, ttl: real, capacity: nat)
    requires IsWellFormed(c, capacity) && capacity >= 1
    ensures Found(Stored(c, key, vector, now, capacity), key, later, ttl)
      == if later - now <= ttl then Some(vector) else None
  {
    var d := Stored(c, key, vector, now, capacity);
    StoredKeepsLast(c, key, vector, now, capacity);
    assert d.order[|d.order| - 1] == key;
  }

  // ---- The cache class ----

  class LRUCache {
    var order: seq<string>
    var entries: map<string, Entry>
    const capacity: nat
    const ttl: real

    ghost predicate Valid()
      reads this
    {
      IsWellFormed(View(), capacity)
    }

    ghost function View(): Cache
      reads this
    {
      Cache(order, entries)
    }

    constructor (capacity: nat, ttl: real)
      ensures Valid() && View() == EMPTY && this.capacity == capacity && this.ttl == ttl
    {
      this.capacity, this.ttl := capacity, ttl;
      order, entries := [], map[];
    }

    method Get(key: string, now: real) returns (hit: Option<Vector>)
      requires Valid()
      modifies this
      ensures Valid() && View() == Looked(old(View()), key, now, ttl) && hit == Found(old(View()), key, now, ttl)
    {
      LookedIsWellFormed(View(), key, now, ttl, capacity);
      if key !in entries {
        return None;
      }
      if now - entries[key].insertedAt > ttl {
        order, entries := Minus(order, {key}), entries - {key};
        return None;
      }
      order := Touch(order, key);
      return Some(entries[key].vector);
    }

    method Put(key: string, vector: Vector, now: real)
      requires Valid()
      modifies this
      ensures Valid() && View() == Stored(old(View()), key, vector, now, capacity)
    {
      StoredKeepsLast(View(), key, vector, now, capacity);
      order, entries := Touch(order, key), entries[key := Entry(vector, now)];
      while |order| > capacity
        invariant Evicted(View(), capacity) == Stored(old(View()), key, vector, now, capacity)
        decreases |order|
      {
        order, entries := order[1..], entries - {order[0]};
      }
    }

    method Clear() returns (n: nat)
      modifies this
      ensures Valid() && View() == EMPTY && n == |old(View()).order|
    {
      n := |order|;
      order, entries := [], map[];
    }
  }

  // ---- A batch ----

  /** The fixed parts of a service: the key of a text, the model, the cache's limits. */
  datatype Setup = Setup(keyOf: string -> string, model: string -> Vector, capacity: nat, ttl: real)

  function MapAll<S, T>(f: S -> T, s: seq<S>): (r: seq<T>)
    ensures |r| == |s| && forall i :: 0 <= i < |s| ==> r[i] == f(s[i])
  {
    seq(|s|, i requires 0 <= i < |s| => f(s[i]))
  }

  lemma MapAllNext<S, T>(f: S -> T, s: seq<S>, x: S)
    ensures MapAll(f, s + [x]) == MapAll(f, s) + [f(x)]
  {
  }

  /** The lookups of a batch in order, at the clock's successive readings. */
  function LookedAll(c: Cache, texts: seq<string>, clock: nat -> real, s: Setup): Cache {
    if texts == [] then c
    else
      var n := |texts| - 1;
      Looked(LookedAll(c, texts[..n], clock, s), s.keyOf(texts[n]), clock(n), s.ttl)
  }

  /** What the last lookup of a batch finds. */
  function FoundLast(c: Cache, texts: seq<string>, clock: nat -> real, s: Setup): Option<Vector>
    requires texts != []
  {
    var n := |texts| - 1;
    Found(LookedAll(c, texts[..n], clock, s), s.keyOf(texts[n]), clock(n), s.ttl)
  }

  /** The texts whose lookup missed, in order. */
  function MissTexts(c: Cache, texts: seq<string>, clock: nat -> real, s: Setup): seq<string> {
    if texts == [] then []
    else
      MissTexts(c, texts[..|texts| - 1], clock, s)
      + if FoundLast(c, texts, clock, s).None? then [texts[|texts| - 1]] else []
  }

  /** The texts whose lookup hit, in order. */
  function HitTexts(c: Cache, texts: seq<string>, clock: nat -> real, s: Setup): seq<string> {
    if texts == [] then []
    else
      HitTexts(c, texts[..|texts| - 1], clock, s)
      + if FoundLast(c, texts, clock, s).Some? then [texts[|texts| - 1]] else []
  }

  /** The stores of a batch in order. */
  function StoredAll(c: Cache, texts: seq<string>, clock: nat -> real, s: Setup): Cache {
    if texts == [] then c
    else
      var n := |texts| - 1;
      Stored(StoredAll(c, texts[..n], clock, s), s.keyOf(texts[n]), s.model(texts[n]), clock(n), s.capacity)
  }

  lemma StoredAllNext(c: Cache, texts: seq<string>, k: nat, clock: nat -> real, s: Setup)
    requires k < |texts|
    ensures StoredAll(c, texts[..k + 1], clock, s)
      == Stored(StoredAll(c, texts[..k], clock, s), s.keyOf(texts[k]), s.model(texts[k]), clock(k), s.capacity)
  {
    assert texts[..k + 1][..k] == texts[..k];
  }

  /** The cache after a batch: all lookups, then the misses encoded and stored. The clock is read at `clock(0)`,
      `clock(1)`, ... by the lookups and at `later(0)`, ... by the stores. */
  function Encoded(c: Cache, texts: seq<string>, clock: nat -> real, later: nat -> real, s: Setup): Cache {
    StoredAll(LookedAll(c, texts, clock, s), MissTexts(c, texts, clock, s), later, s)
  }

  /** Every cached vector is the model's vector of the text with that key. */
  ghost predicate IsFaithful(c: Cache, s: Setup) {
    forall t :: s.keyOf(t) in c.table ==> c.table[s.keyOf(t)].vector == s.model(t)
  }

  ghost predicate HasInjectiveKeys(s: Setup) {
    forall t, u :: s.keyOf(t) == s.keyOf(u) ==> t == u
  }

  ghost predicate IsSound(c: Cache, s: Setup) {
    IsWellFormed(c, s.capacity) && IsFaithful(c, s)
  }

  lemma LookedIsSound(c: Cache, text: string, now: real, s: Setup)
    requires IsSound(c, s)
    ensures IsSound(Looked(c, s.keyOf(text), now, s.ttl), s)
    ensures Found(c, s.keyOf(text), now, s.ttl) in {None, Some(s.model(text))}
  {
    LookedIsWellFormed(c, s.keyOf(text), now, s.ttl, s.capacity);
  }

  lemma StoredIsSound(c: Cache, text: string, now: real, s: Setup)
    requires IsSound(c, s) && HasInjectiveKeys(s)
    ensures IsSound(Stored(c, s.keyOf(text), s.model(text), now, s.capacity), s)
  {
    var d := Stored(c, s.keyOf(text), s.model(text), now, s.capacity);
    StoredKeepsLast(c, s.keyOf(text), s.model(text), now, s.capacity);
    forall t | s.keyOf(t) in d.table ensures d.table[s.keyOf(t)].vector == s.model(t) {
      assert s.keyOf(t) == s.keyOf(text) ==> t == text;
    }
  }

  lemma {:induction false} LookedAllIsSound(c: Cache, texts: seq<string>, clock: nat -> real, s: Setup)
    requires IsSound(c, s)
    ensures IsSound(LookedAll(c, texts, clock, s), s)
  {
    if texts != [] {
      var n := |texts| - 1;
      LookedAllIsSound(c, texts[..n], clock, s);
      LookedIsSound(LookedAll(c, texts[..n], clock, s), texts[n], clock(n), s);
    }
  }

  lemma {:induction false} StoredAllIsSound(c: Cache, texts: seq<string>, clock: nat -> real, s: Setup)
    requires IsSound(c, s) && HasInjectiveKeys(s)
    ensures IsSound(StoredAll(c, texts, clock, s), s)
  {
    if texts != [] {
      var n := |texts| - 1;
      StoredAllIsSound(c, texts[..n], clock, s);
      StoredIsSound(StoredAll(c, texts[..n], clock, s), texts[n], clock(n), s);
    }
  }

  /** Encoding a batch keeps the cache well formed and faithful to the model. */
  lemma EncodedIsSound(c: Cache, texts: seq<string>, clock: nat -> real, later: nat -> real, s: Setup)
    requires IsSound(c, s) && HasInjectiveKeys(s)
    ensures IsSound(Encoded(c, texts, clock, later, s), s)
  {
    LookedAllIsSound(c, texts, clock, s);
    StoredAllIsSound(LookedAll(c, texts, clock, s), MissTexts(c, texts, clock, s), later, s);
  }

  // ---- The model, in sub-batches ----

  function Sum(sizes: seq<nat>): nat {
    if sizes == [] then 0 else Sum(sizes[..|sizes| - 1]) + sizes[|sizes| - 1]
  }

  lemma SumNext(sizes: seq<nat>, n: nat)
    ensures Sum(sizes + [n]) == Sum(sizes) + n
  {
    assert (sizes + [n])[..|sizes|] == sizes;
  }

  lemma MapAllPart<S, T>(f: S -> T, s: seq<S>, i: nat, j: nat)
    requires i <= j <= |s|
    ensures MapAll(f, s[..j]) == MapAll(f, s[..i]) + MapAll(f, s[i..j])
  {
  }

  /** The model's own batch encoder, which encodes row by row. `calls` records the size of each call: none exceeds the
      cap, and together they encode every text once. */
  method EncodeInSubBatches(texts: seq<string>, model: string -> Vector, cap: nat)
    returns (vectors: seq<Vector>, calls: seq<nat>)
    requires cap >= 1
    ensures vectors == MapAll(model, texts)
    ensures forall n <- calls :: 1 <= n <= cap
    ensures forall i :: 0 <= i < |calls| - 1 ==> calls[i] == cap
    ensures Sum(calls) == |texts|
  {
    vectors, calls := [], [];
    var i := 0;
    while i < |texts|
      invariant i <= |texts|
      invariant vectors == MapAll(model, texts[..i])
      invariant forall n <- calls :: 1 <= n <= cap
      invariant forall j :: 0 <= j < |calls| && (j < |calls| - 1 || i < |texts|) ==> calls[j] == cap
      invariant Sum(calls) == i
    {
      var end := if i + cap < |texts| then i + cap else |texts|;
      MapAllPart(model, texts, i, end);
      vectors := vectors + MapAll(model, texts[i..end]);
      SumNext(calls, end - i);
      calls := calls + [end - i];
      i := end;
    }
    assert texts[..|texts|] == texts;
  }

  // ---- The service ----

  /** A text whose lookup missed, and its place in the batch. */
  datatype Miss = Miss(place: nat, text: string)

  function TextsOf(misses: seq<Miss>): seq<string> {
    MapAll((m: Miss) => m.text, misses)
  }

  function Values(slots: seq<Option<Vector>>): (vectors: seq<Vector>)
    requires forall slot <- slots :: slot.Some?
    ensures |vectors| == |slots| && forall i :: 0 <= i < |slots| ==> vectors[i] == slots[i].value
  {
    seq(|slots|, i requires 0 <= i < |slots| => slots[i].value)
  }

  class EmbeddingService {
    const cache: LRUCache
    const setup: Setup
    const batchCap: nat

    ghost predicate Valid()
      reads this, cache
    {
      && cache.Valid() && cache.capacity == setup.capacity && cache.ttl == setup.ttl
      && IsSound(cache.View(), setup) && HasInjectiveKeys(setup) && batchCap >= 1
    }

    constructor (setup: Setup, batchCap: nat)
      requires HasInjectiveKeys(setup) && batchCap >= 1
      ensures Valid() && fresh(cache) && cache.View() == EMPTY && this.setup == setup
    {
      this.setup, this.batchCap := setup, batchCap;
      cache := new LRUCache(setup.capacity, setup.ttl);
    }

    /** `encode`: every result is the model's vector of its text, whatever the cache held, and the cache ends as
        `Encoded` says. */
    method Encode(texts: seq<string>, clock: nat -> real, later: nat -> real)
      returns (results: seq<Vector>, calls: seq<nat>)
      requires Valid()
      modifies cache
      ensures Valid()
      ensures results == MapAll(setup.model, texts)
      ensures forall n <- calls :: 1 <= n <= batchCap
      ensures forall i :: 0 <= i < |calls| - 1 ==> calls[i] == batchCap
      ensures Sum(calls) == |MissTexts(old(cache.View()), texts, clock, setup)|
      ensures cache.View() == Encoded(old(cache.View()), texts, clock, later, setup)
    {
      if texts == [] {
        return [], [];
      }
      var slots, misses := LookUp(texts, clock);
      calls := [];
      if misses != [] {
        slots, calls := FillMisses(texts, slots, misses, later);
      }
      AllFilled(texts, slots);
      results := Values(slots);
    }

    /** The slots not waiting for a miss hold the model's vectors. */
    ghost predicate AreFilled(texts: seq<string>, slots: seq<Option<Vector>>, misses: seq<Miss>) {
      && |slots| == |texts|
      && (forall m <- misses :: m.place < |texts| && m.text == texts[m.place])
      && (forall i :: 0 <= i < |texts| ==>
            slots[i] == Some(setup.model(texts[i])) || exists m <- misses :: m.place == i)
    }

    lemma AllFilled(texts: seq<string>, slots: seq<Option<Vector>>)
      requires AreFilled(texts, slots, [])
      ensures (forall slot <- slots :: slot.Some?) && Values(slots) == MapAll(setup.model, texts)
    {
    }

    lemma FilledNext(texts: seq<string>, i: nat, slots: seq<Option<Vector>>, misses: seq<Miss>, hit: Option<Vector>)
      requires i < |texts| && AreFilled(texts[..i], slots, misses)
      requires hit.Some? ==> hit.value == setup.model(texts[i])
      ensures AreFilled(texts[..i + 1], slots + [hit], misses + if hit.None? then [Miss(i, texts[i])] else [])
    {
    }

    /** The first loop: the hits fill their slots, the misses are noted. */
    method LookUp(texts: seq<string>, clock: nat -> real) returns (slots: seq<Option<Vector>>, misses: seq<Miss>)
      requires Valid()
      modifies cache
      ensures Valid() && cache.View() == LookedAll(old(cache.View()), texts, clock, setup)
      ensures TextsOf(misses) == MissTexts(old(cache.View()), texts, clock, setup)
      ensures AreFilled(texts, slots, misses)
    {
      ghost var c := cache.View();
      slots, misses := [], [];
      for i := 0 to |texts|
        invariant Valid() && cache.View() == LookedAll(c, texts[..i], clock, setup)
        invariant TextsOf(misses) == MissTexts(c, texts[..i], clock, setup)
        invariant AreFilled(texts[..i], slots, misses)
      {
        assert texts[..i + 1][..i] == texts[..i];
        LookedIsSound(cache.View(), texts[i], clock(i), setup);
        var hit := cache.Get(setup.keyOf(texts[i]), clock(i));
        MapAllNext((m: Miss) => m.text, misses, Miss(i, texts[i]));
        FilledNext(texts, i, slots, misses, hit);
        slots := slots + [hit];
        if hit.None? {
          misses := misses + [Miss(i, texts[i])];
        }
      }
      assert texts[..|texts|] == texts;
    }

    lemma FilledOne(texts: seq<string>, slots: seq<Option<Vector>>, misses: seq<Miss>, k: nat)
      requires k < |misses| && AreFilled(texts, slots, misses[k..])
      ensures
        var m := misses[k];
        && m.place < |slots| && m.text == texts[m.place]
        && AreFilled(texts, slots[m.place := Some(setup.model(m.text))], misses[k + 1..])
    {
    }

    /** The second loop: the misses are encoded together, stored and put in their slots. */
    method FillMisses(texts: seq<string>, slots: seq<Option<Vector>>, misses: seq<Miss>, later: nat -> real)
      returns (filled: seq<Option<Vector>>, calls: seq<nat>)
      requires Valid() && AreFilled(texts, slots, misses)
      modifies cache
      ensures Valid()
      ensures cache.View() == StoredAll(old(cache.View()), TextsOf(misses), later, setup)
      ensures AreFilled(texts, filled, [])
      ensures forall n <- calls :: 1 <= n <= batchCap
      ensures forall i :: 0 <= i < |calls| - 1 ==> calls[i] == batchCap
      ensures Sum(calls) == |misses|
    {
      ghost var c, missed := cache.View(), TextsOf(misses);
      var vectors: seq<Vector>;
      vectors, calls := EncodeInSubBatches(TextsOf(misses), setup.model, batchCap);
      filled := slots;
      for k := 0 to |misses|
        invariant Valid() && cache.View() == StoredAll(c, missed[..k], later, setup)
        invariant AreFilled(texts, filled, misses[k..])
      {
        var m := misses[k];
        StoredAllNext(c, missed, k, later, setup);
        FilledOne(texts, filled, misses, k);
        StoredIsSound(cache.View(), m.text, later(k), setup);
        filled := filled[m.place := Some(vectors[k])];
        cache.Put(setup.keyOf(m.text), vectors[k], later(k));
      }
      assert missed[..|misses|] == missed && misses[|misses|..] == [];
    }

    method FlushCache() returns (n: nat)
      requires Valid()
      modifies cache
      ensures Valid() && cache.View() == EMPTY && n == |old(cache.View()).order|
    {
      n := cache.Clear();
    }
  }

  // ---- The order of keys ----

  /** A hit is a use of its key; an expired key is gone until it is stored again. */
  lemma LookHolds(d: Cache, history: seq<string>, gone: set<string>, key: string, now: real, ttl: real, capacity: nat)
    returns (gone': set<string>)
    requires IsWellFormed(d, capacity) && Holds(d.order, LastUsed(history), gone, capacity)
    ensures Holds(Looked(d, key, now, ttl).order,
                  LastUsed(if Found(d, key, now, ttl).Some? then history + [key] else history), gone', capacity)
    ensures gone' == gone || (gone' == gone + {key} && Found(d, key, now, ttl).None?)
  {
    gone' := gone;
    if key in d.table {
      if IsExpired(d.table[key], now, ttl) {
        ExpireHolds(d.order, LastUsed(history), gone, capacity, key);
        gone' := gone + {key};
      } else {
        HitHolds(d.order, LastUsed(history), gone, capacity, key);
      }
    }
  }

  function Keys(texts: seq<string>, s: Setup): seq<string> {
    MapAll(s.keyOf, texts)
  }

  lemma KeysNext(texts: seq<string>, t: string, s: Setup)
    ensures Keys(texts + [t], s) == Keys(texts, s) + [s.keyOf(t)]
  {
  }

  function AsSet(keys: seq<string>): set<string> {
    set k | k in keys
  }

  lemma AsSetNext(keys: seq<string>, k: string)
    ensures AsSet(keys + [k]) == AsSet(keys) + {k}
  {
  }

  lemma Assoc(a: seq<string>, b: seq<string>, k: string)
    ensures a + (b + [k]) == a + b + [k]
    ensures b + [] == b
  {
  }

  /** The state of the cache during the lookups: the hits are the most recently used keys, and what expired will be
      stored again. */
  ghost predicate LookupsHold(
    d: Cache, history: seq<string>, hits: seq<string>, misses: seq<string>, gone: set<string>, capacity: nat)
  {
    IsWellFormed(d, capacity) && Holds(d.order, LastUsed(history + hits), gone, capacity) && gone <= AsSet(misses)
  }

  lemma LookupsHoldNext(d: Cache, history: seq<string>, hits: seq<string>, misses: seq<string>, gone: set<string>,
                        key: string, now: real, ttl: real, capacity: nat) returns (gone': set<string>)
    requires LookupsHold(d, history, hits, misses, gone, capacity)
    ensures
      var hit := Found(d, key, now, ttl).Some?;
      LookupsHold(Looked(d, key, now, ttl), history, hits + (if hit then [key] else []),
                  misses + (if hit then [] else [key]), gone', capacity)
  {
    LookedIsWellFormed(d, key, now, ttl, capacity);
    gone' := LookHolds(d, history + hits, gone, key, now, ttl, capacity);
    Assoc(history, hits, key);
    Assoc([], misses, key);
    AsSetNext(misses, key);
  }

  lemma {:induction false} LookedAllHolds(
    c: Cache, history: seq<string>, texts: seq<string>, clock: nat -> real, s: Setup)
    returns (gone: set<string>)
    requires IsWellFormed(c, s.capacity) && c.order == Recent(history, s.capacity)
    ensures LookupsHold(LookedAll(c, texts, clock, s), history, Keys(HitTexts(c, texts, clock, s), s),
                        Keys(MissTexts(c, texts, clock, s), s), gone, s.capacity)
  {
    if texts == [] {
      gone := {};
      LastUsedNoRepeats(history);
      NothingGone(c.order, LastUsed(history), s.capacity);
      assert history + Keys([], s) == history;
    } else {
      var n := |texts| - 1;
      var hits, misses := HitTexts(c, texts[..n], clock, s), MissTexts(c, texts[..n], clock, s);
      var before := LookedAllHolds(c, history, texts[..n], clock, s);
      gone := LookupsHoldNext(LookedAll(c, texts[..n], clock, s), history, Keys(hits, s), Keys(misses, s), before,
                              s.keyOf(texts[n]), clock(n), s.ttl, s.capacity);
      KeysNext(hits, texts[n], s);
      KeysNext(misses, texts[n], s);
      Assoc([], hits, texts[n]);
      Assoc([], misses, texts[n]);
      Assoc([], Keys(hits, s), texts[n]);
      Assoc([], Keys(misses, s), texts[n]);
    }
  }

  /** The state of the cache during the stores: those still to be stored may be gone. */
  ghost predicate StoresHold(d: Cache, history: seq<string>, keys: seq<string>, gone: set<string>, capacity: nat) {
    IsWellFormed(d, capacity) && Holds(d.order, LastUsed(history + keys), gone - AsSet(keys), capacity)
  }

  lemma StoresHoldNext(
    d: Cache, history: seq<string>, keys: seq<string>, gone: set<string>, key: string, vector: Vector, now: real,
    capacity: nat)
    requires StoresHold(d, history, keys, gone, capacity)
    ensures StoresHold(Stored(d, key, vector, now, capacity), history, keys + [key], gone, capacity)
  {
    UseHolds(d.order, LastUsed(history + keys), gone - AsSet(keys), capacity, key);
    StoredKeepsLast(d, key, vector, now, capacity);
    Assoc(history, keys, key);
    AsSetNext(keys, key);
    assert gone - (AsSet(keys) + {key}) == gone - AsSet(keys) - {key};
  }

  lemma {:induction false} StoredAllHolds(
    c: Cache, history: seq<string>, gone: set<string>, texts: seq<string>, clock: nat -> real, s: Setup)
    requires StoresHold(c, history, [], gone, s.capacity)
    ensures StoresHold(StoredAll(c, texts, clock, s), history, Keys(texts, s), gone, s.capacity)
  {
    if texts == [] {
      assert Keys(texts, s) == [];
    } else {
      var n := |texts| - 1;
      StoredAllHolds(c, history, gone, texts[..n], clock, s);
      StoresHoldNext(StoredAll(c, texts[..n], clock, s), history, Keys(texts[..n], s), gone, s.keyOf(texts[n]),
                     s.model(texts[n]), clock(n), s.capacity);
      KeysSplit(texts, s);
    }
  }

  lemma KeysSplit(texts: seq<string>, s: Setup)
    requires texts != []
    ensures Keys(texts, s) == Keys(texts[..|texts| - 1], s) + [s.keyOf(texts[|texts| - 1])]
  {
  }

  /** The uses a batch makes: its hits in order, then its misses in order. */
  function Uses(c: Cache, texts: seq<string>, clock: nat -> real, s: Setup): seq<string> {
    Keys(HitTexts(c, texts, clock, s), s) + Keys(MissTexts(c, texts, clock, s), s)
  }

  /** After a batch the cache holds the most recently used keys, the batch counting as its hits in order followed by its
      misses in order, whatever the clock let expire. */
  lemma BatchIsRecent(
    c: Cache, history: seq<string>, texts: seq<string>, clock: nat -> real, later: nat -> real, s: Setup)
    requires IsWellFormed(c, s.capacity) && c.order == Recent(history, s.capacity)
    ensures Encoded(c, texts, clock, later, s).order == Recent(history + Uses(c, texts, clock, s), s.capacity)
  {
    var hits, misses := Keys(HitTexts(c, texts, clock, s), s), Keys(MissTexts(c, texts, clock, s), s);
    var d := LookedAll(c, texts, clock, s);
    var gone := LookedAllHolds(c, history, texts, clock, s);
    StoresBegin(d, history + hits, gone, s.capacity);
    StoredAllHolds(d, history + hits, gone, MissTexts(c, texts, clock, s), later, s);
    Assoc3(history, hits, misses);
    StoresEnd(Encoded(c, texts, clock, later, s), history + hits, misses, gone, s.capacity);
  }

  lemma Assoc3(a: seq<string>, b: seq<string>, c: seq<string>)
    ensures a + (b + c) == a + b + c
  {
  }

  lemma StoresBegin(d: Cache, history: seq<string>, gone: set<string>, capacity: nat)
    requires IsWellFormed(d, capacity) && Holds(d.order, LastUsed(history), gone, capacity)
    ensures StoresHold(d, history, [], gone, capacity)
  {
    assert history + [] == history && gone - AsSet([]) == gone;
  }

  lemma StoresEnd(d: Cache, history: seq<string>, keys: seq<string>, gone: set<string>, capacity: nat)
    requires StoresHold(d, history, keys, gone, capacity) && gone <= AsSet(keys)
    ensures d.order == Recent(history + keys, capacity)
  {
    assert gone - AsSet(keys) == {};
    LastUsedNoRepeats(history + keys);
    NothingGone(d.order, LastUsed(history + keys), capacity);
  }

  // ---- Whole runs ----

  /** An encode with the clock readings it happens to see, or a flush. */
  datatype Op = Batch(texts: seq<string>, clock: nat -> real, later: nat -> real) | Flush

  function RunOps(ops: seq<Op>, s: Setup): Cache {
    if ops == [] then EMPTY
    else
      match ops[|ops| - 1]
      case Batch(texts, clock, later) => Encoded(RunOps(ops[..|ops| - 1], s), texts, clock, later, s)
      case Flush => EMPTY
  }

  /** The uses since the last flush. */
  function History(ops: seq<Op>, s: Setup): seq<string> {
    if ops == [] then []
    else
      match ops[|ops| - 1]
      case Batch(texts, clock, _) => History(ops[..|ops| - 1], s) + Uses(RunOps(ops[..|ops| - 1], s), texts, clock, s)
      case Flush => []
  }

  /** Over any run of encodes and flushes under any clock: the cache is faithful to the model, and its keys are exactly
      the `capacity` most recently used distinct ones, in order of last use. */
  lemma {:induction false} RunsKeepRecency(ops: seq<Op>, s: Setup)
    requires HasInjectiveKeys(s)
    ensures IsSound(RunOps(ops, s), s)
    ensures RunOps(ops, s).order == Recent(History(ops, s), s.capacity)
  {
    if ops != [] {
      var init := ops[..|ops| - 1];
      RunsKeepRecency(init, s);
      match ops[|ops| - 1] {
        case Batch(texts, clock, later) =>
          EncodedIsSound(RunOps(init, s), texts, clock, later, s);
          BatchIsRecent(RunOps(init, s), History(init, s), texts, clock, later, s);
        case Flush =>
      }
    }
  }

  /** A single text is one use of its key, hit, missed or expired. */
  lemma SingleTextUse(c: Cache, text: string, clock: nat -> real, s: Setup)
    ensures Uses(c, [text], clock, s) == [s.keyOf(text)]
  {
    var none: seq<string> := [];
    assert [text][..0] == none;
    assert HitTexts(c, none, clock, s) == none && MissTexts(c, none, clock, s) == none;
    KeysNext(none, text, s);
    assert none + [text] == [text];
    assert HitTexts(c, [text], clock, s) + MissTexts(c, [text], clock, s) == [text];
    assert Keys(none, s) == none;
  }
}
