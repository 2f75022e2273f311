/** The verdict cache: what it remembers, what eviction may forget, and how large it can get. */
module VerdictCache {
  import opened Base

  datatype CacheKey = CacheKey(dev: nat, ino: nat, mtimeSecs: nat, size: nat)

  datatype Verdict = Clean | Infected(signature: string)

  type Cache = map<CacheKey, Verdict>

  const CACHE_RAM_FACTOR_NUM: nat := 3
  const CACHE_RAM_FACTOR_DEN: nat := 2

  function RamEstimate(entries: nat, avgEntryBytes: nat): nat {
    entries * avgEntryBytes * CACHE_RAM_FACTOR_NUM / CACHE_RAM_FACTOR_DEN
  }

  /** Three halves of the bytes the entries take in the file, rounded down. */
  lemma EstimateMeans(n: nat, avg: nat)
    ensures RamEstimate(2 * n, avg) == 3 * (n * avg)
    ensures 2 * RamEstimate(n, avg) <= 3 * (n * avg) <= 2 * RamEstimate(n, avg) + 1
  {
    assert 2 * n * avg == 2 * (n * avg);
  }

  lemma EstimateMonotone(m: nat, n: nat, avg: nat)
    requires m <= n
    ensures RamEstimate(m, avg) <= RamEstimate(n, avg)
  {
    assert m * avg <= n * avg;
  }

  predicate IsInfected(cache: Cache, key: CacheKey) {
    key in cache && cache[key].Infected?
  }

  // ------------------------------------------------------------------
  // Runs of cache writes

  /** `Put` is `cache_put` with the half it chose to evict; `Detect` is a worker's check-and-set. */
  datatype Event =
    | Put(key: CacheKey, verdict: Verdict, victims: set<CacheKey>)
    | Detect(key: CacheKey, signature: string)

  predicate MustEvict(n: nat, budget: nat, avg: nat) {
    n > 0 && RamEstimate(n + 1, avg) > budget
  }

  /** An arbitrary half of the entries, or none when the new entry fits. */
  predicate ChoosesHalf(cache: Cache, victims: set<CacheKey>, budget: nat, avg: nat) {
    if MustEvict(|cache|, budget, avg) then victims <= cache.Keys && |victims| == |cache| / 2 else victims == {}
  }

  ghost predicate Legal(cache: Cache, events: seq<Event>, budget: nat, avg: nat)
    decreases |events|
  {
    events == [] ||
    ((events[0].Put? ==> ChoosesHalf(cache, events[0].victims, budget, avg))
     && Legal(Step(cache, events[0]), events[1..], budget, avg))
  }

  /** Only the first detection of a file version is acted on. */
  predicate Acts(cache: Cache, e: Event) {
    e.Detect? && !IsInfected(cache, e.key)
  }

  function Step(cache: Cache, e: Event): Cache {
    match e
    case Put(key, verdict, victims) => (cache - victims)[key := verdict]
    case Detect(key, signature) => if Acts(cache, e) then cache[key := Infected(signature)] else cache
  }

  function After(cache: Cache, events: seq<Event>): Cache
    decreases |events|
  {
    if events == [] then cache else After(Step(cache, events[0]), events[1..])
  }

  // ------------------------------------------------------------------
  // The cache agrees with history

  /** The last verdict a run records for a key, if it records one. */
  function LastRecorded(cache: Cache, events: seq<Event>, key: CacheKey): Option<Verdict>
    decreases |events|
  {
    if events == [] then None
    else
      var later := LastRecorded(Step(cache, events[0]), events[1..], key);
      if later.Some? then later
      else if events[0].key != key then None
      else
        match events[0]
        case Put(_, verdict, _) => Some(verdict)
        case Detect(_, signature) => if Acts(cache, events[0]) then Some(Infected(signature)) else None
  }

  /** Whatever was evicted in between, an entry that is there carries the last verdict recorded for its key. */
  lemma {:induction false} CacheAgreesWithHistory(cache: Cache, events: seq<Event>, key: CacheKey)
    requires key in After(cache, events)
    ensures match LastRecorded(cache, events, key)
            case Some(verdict) => After(cache, events)[key] == verdict
            case None => key in cache && After(cache, events)[key] == cache[key]
    decreases |events|
  {
    if events != [] {
      CacheAgreesWithHistory(Step(cache, events[0]), events[1..], key);
    }
  }

  // ------------------------------------------------------------------
  // One detection per file version

  function Handled(cache: Cache, events: seq<Event>, key: CacheKey): nat
    decreases |events|
  {
    if events == [] then 0
    else (if events[0].key == key && Acts(cache, events[0]) then 1 else 0)
         + Handled(Step(cache, events[0]), events[1..], key)
  }

  function Evictions(events: seq<Event>, key: CacheKey): nat {
    if events == [] then 0
    else (if events[0].Put? && key in events[0].victims then 1 else 0) + Evictions(events[1..], key)
  }

  /** The engine gives one verdict per file version, to workers and to the exec gate alike. */
  ghost predicate FromEngine(events: seq<Event>, engine: CacheKey -> Verdict) {
    forall i :: 0 <= i < |events| ==>
      match events[i]
      case Put(key, verdict, _) => verdict == engine(key)
      case Detect(key, signature) => engine(key) == Infected(signature)
  }

  lemma {:induction false} HandledAtMost(cache: Cache, events: seq<Event>, engine: CacheKey -> Verdict, key: CacheKey)
    requires FromEngine(events, engine) && engine(key).Infected?
    requires key in cache ==> cache[key] == engine(key)
    ensures Handled(cache, events, key) <= Evictions(events, key) + (if key in cache then 0 else 1)
    decreases |events|
  {
    if events != [] {
      var e := events[0];
      var next := Step(cache, e);
      assert match e
             case Put(k, verdict, _) => verdict == engine(k)
             case Detect(k, signature) => engine(k) == Infected(signature);
      assert forall i :: 0 <= i < |events[1..]| ==> events[1..][i] == events[i + 1];
      HandledAtMost(next, events[1..], engine, key);
    }
  }

  /** From an empty cache, an infected file version is handled at most once more than it is evicted. */
  lemma OneDetectionPerVersion(events: seq<Event>, engine: CacheKey -> Verdict, key: CacheKey)
    requires FromEngine(events, engine) && engine(key).Infected?
    ensures Handled(map[], events, key) <= 1 + Evictions(events, key)
  {
    HandledAtMost(map[], events, engine, key);
  }

  /** Without an eviction, the first detection of the version is handled and no other. */
  lemma {:induction false} FirstOneWins(cache: Cache, events: seq<Event>, engine: CacheKey -> Verdict, key: CacheKey)
    requires FromEngine(events, engine) && engine(key).Infected? && Evictions(events, key) == 0
    requires key !in cache && exists i :: 0 <= i < |events| && events[i].Detect? && events[i].key == key
    requires forall i :: 0 <= i < |events| && events[i].Put? ==> events[i].key != key
    ensures Handled(cache, events, key) == 1
    decreases |events|
  {
    var e := events[0];
    var next := Step(cache, e);
    var rest := events[1..];
    assert forall i :: 0 <= i < |rest| ==> rest[i] == events[i + 1];
    assert FromEngine(rest, engine);
    if e.Detect? && e.key == key {
      assert engine(key) == Infected(e.signature);
      HandledAtMost(next, rest, engine, key);
    } else {
      assert key !in next;
      var i :| 0 <= i < |events| && events[i].Detect? && events[i].key == key;
      assert rest[i - 1] == events[i];
      FirstOneWins(next, rest, engine, key);
    }
  }

  // ------------------------------------------------------------------
  // Size

  lemma SubsetSize(a: set<CacheKey>, b: set<CacheKey>)
    requires a <= b
    ensures |b - a| == |b| - |a|
  {
    assert b == a + (b - a);
  }

  lemma MinusSize(cache: Cache, victims: set<CacheKey>)
    requires victims <= cache.Keys
    ensures |cache - victims| == |cache| - |victims|
  {
    assert (cache - victims).Keys == cache.Keys - victims;
    SubsetSize(victims, cache.Keys);
    assert |cache.Keys| == |cache| && |(cache - victims).Keys| == |cache - victims|;
  }

  lemma InsertSize(cache: Cache, key: CacheKey, verdict: Verdict)
    ensures |cache[key := verdict]| <= |cache| + 1
    ensures key !in cache ==> |cache[key := verdict]| == |cache| + 1
    ensures key in cache ==> |cache[key := verdict]| == |cache|
  {
    assert cache[key := verdict].Keys == cache.Keys + {key};
    assert |cache.Keys| == |cache| && |cache[key := verdict].Keys| == |cache[key := verdict]|;
    if key in cache {
      assert cache.Keys + {key} == cache.Keys;
    }
  }

  /** An eviction only removes entries, and keeps at least half of them. */
  lemma EvictionKeepsHalf(cache: Cache, victims: set<CacheKey>, budget: nat, avg: nat)
    requires ChoosesHalf(cache, victims, budget, avg)
    ensures (cache - victims).Keys <= cache.Keys
    ensures forall k :: k in cache - victims ==> (cache - victims)[k] == cache[k]
    ensures 2 * |cache - victims| >= |cache| && (cache != map[] ==> cache - victims != map[])
  {
    MinusSize(cache, victims);
  }

  /** How many entries the workers' check-and-set adds; these bypass the budget. */
  function Direct(cache: Cache, events: seq<Event>): nat
    decreases |events|
  {
    if events == [] then 0
    else (if events[0].Detect? && events[0].key !in cache then 1 else 0) + Direct(Step(cache, events[0]), events[1..])
  }

  /** The largest number of entries whose estimate is within the budget. */
  ghost predicate IsCap(cap: nat, budget: nat, avg: nat) {
    RamEstimate(cap, avg) <= budget < RamEstimate(cap + 1, avg)
  }

  function Max(a: nat, b: nat): nat {
    if a >= b then a else b
  }

  lemma PutSize(cache: Cache, e: Event, budget: nat, avg: nat, cap: nat, extra: nat)
    requires e.Put? && ChoosesHalf(cache, e.victims, budget, avg) && IsCap(cap, budget, avg)
    requires |cache| <= Max(cap, 2) + extra
    ensures |Step(cache, e)| <= Max(cap, 2) + extra
  {
    MinusSize(cache, e.victims);
    InsertSize(cache - e.victims, e.key, e.verdict);
    if !MustEvict(|cache|, budget, avg) && |cache| + 1 > cap {
      EstimateMonotone(cap + 1, |cache| + 1, avg);
    }
  }

  /** For a fixed average entry size the cache never outgrows its budget by more than the direct inserts;
      the one exception is a budget too small for two entries, where it holds two. */
  lemma {:induction false} SizeBound(cache: Cache, events: seq<Event>, budget: nat, avg: nat, cap: nat, extra: nat)
    requires Legal(cache, events, budget, avg) && IsCap(cap, budget, avg) && |cache| <= Max(cap, 2) + extra
    ensures |After(cache, events)| <= Max(cap, 2) + extra + Direct(cache, events)
    decreases |events|
  {
    if events != [] {
      var e := events[0];
      match e
      case Put(_, _, _) =>
        PutSize(cache, e, budget, avg, cap, extra);
        SizeBound(Step(cache, e), events[1..], budget, avg, cap, extra);
      case Detect(key, signature) =>
        InsertSize(cache, key, Infected(signature));
        SizeBound(Step(cache, e), events[1..], budget, avg, cap, if key in cache then extra else extra + 1);
    }
  }

  ghost predicate OnlyPuts(events: seq<Event>) {
    forall i :: 0 <= i < |events| ==> events[i].Put?
  }

  lemma {:induction false} PutsAddNothingDirectly(cache: Cache, events: seq<Event>)
    requires OnlyPuts(events)
    ensures Direct(cache, events) == 0
    decreases |events|
  {
    if events != [] {
      assert events[0].Put?;
      assert forall i :: 0 <= i < |events[1..]| ==> events[1..][i] == events[i + 1];
      PutsAddNothingDirectly(Step(cache, events[0]), events[1..]);
    }
  }

  ghost predicate StaysWithin(budget: nat, avg: nat) {
    forall events :: Legal(map[], events, budget, avg) && OnlyPuts(events) ==>
                       RamEstimate(|After(map[], events)|, avg) <= budget
  }

  /** `cache_put` alone keeps the cache within its budget on every run if and only if two entries fit:
      evicting half of a single entry evicts nothing. */
  lemma StaysWithinIff(budget: nat, avg: nat, cap: nat)
    requires IsCap(cap, budget, avg)
    ensures StaysWithin(budget, avg) <==> RamEstimate(2, avg) <= budget
  {
    if RamEstimate(2, avg) <= budget {
      if cap < 2 { EstimateMonotone(cap + 1, 2, avg); }
      forall events | Legal(map[], events, budget, avg) && OnlyPuts(events)
        ensures RamEstimate(|After(map[], events)|, avg) <= budget
      {
        SizeBound(map[], events, budget, avg, cap, 0);
        PutsAddNothingDirectly(map[], events);
        EstimateMonotone(|After(map[], events)|, cap, avg);
      }
    } else {
      var events := TwoPuts(budget, avg);
      assert !(RamEstimate(|After(map[], events)|, avg) <= budget);
    }
  }

  lemma TwoPuts(budget: nat, avg: nat) returns (events: seq<Event>)
    requires RamEstimate(2, avg) > budget
    ensures Legal(map[], events, budget, avg) && OnlyPuts(events) && |After(map[], events)| == 2
  {
    var a, b := CacheKey(0, 1, 0, 0), CacheKey(0, 2, 0, 0);
    var e1, e2 := Put(a, Clean, {}), Put(b, Clean, {});
    events := [e1, e2];
    var c0: Cache := map[];
    var c1 := Step(c0, e1);
    assert c0 - {} == c0 && c1 == map[a := Clean] && |c1| == 1;
    var c2 := Step(c1, e2);
    assert c1 - {} == c1;
    InsertSize(c1, b, Clean);
    assert events[1..] == [e2] && [e2][1..] == [];
    assert After(c1, [e2]) == c2;
    assert Legal(c1, [e2], budget, avg);
  }

  // ------------------------------------------------------------------
  // Trimming at start-up

  /** The number of entries after so many rounds of the trim loop. */
  function TrimmedSize(n: nat, rounds: nat): nat
    decreases rounds
  {
    if rounds == 0 then n else TrimmedSize(n - n / 2, rounds - 1)
  }

  /** Every entry is one of the other cache's. */
  ghost predicate Within(cache: Cache, whole: Cache) {
    cache.Keys <= whole.Keys && forall k :: k in cache ==> cache[k] == whole[k]
  }

  lemma WithinSelf(cache: Cache)
    ensures Within(cache, cache)
  {
  }

  lemma WithinLess(cache: Cache, whole: Cache, victims: set<CacheKey>)
    requires Within(cache, whole)
    ensures Within(cache - victims, whole)
  {
  }

  /** Before each of these rounds the entries were still too many. */
  ghost predicate AllNeeded(n: nat, rounds: nat, budget: nat, avg: nat) {
    forall k: nat :: k < rounds ==> RamEstimate(TrimmedSize(n, k), avg) > budget
  }

  predicate TrimStops(n: nat, budget: nat, avg: nat) {
    n == 0 || RamEstimate(n, avg) <= budget
  }

  lemma {:induction false} TrimStaysPositive(n: nat, rounds: nat)
    requires n > 0
    ensures TrimmedSize(n, rounds) > 0
    decreases rounds
  {
    if rounds > 0 {
      TrimStaysPositive(n - n / 2, rounds - 1);
    }
  }

  lemma {:induction false} TrimReachesOne(n: nat) returns (rounds: nat)
    requires n > 0
    ensures TrimmedSize(n, rounds) == 1
  {
    if n == 1 {
      rounds := 0;
    } else {
      var r := TrimReachesOne(n - n / 2);
      rounds := r + 1;
    }
  }

  /** The trim loop terminates if and only if nothing was loaded or the budget has room for one entry. */
  lemma TrimTerminatesIff(n: nat, budget: nat, avg: nat)
    ensures (exists rounds :: TrimStops(TrimmedSize(n, rounds), budget, avg)) <==>
            n == 0 || RamEstimate(1, avg) <= budget
  {
    if rounds :| TrimStops(TrimmedSize(n, rounds), budget, avg) {
      if n > 0 {
        TrimStaysPositive(n, rounds);
        EstimateMonotone(1, TrimmedSize(n, rounds), avg);
      }
    }
    if n == 0 {
      assert TrimStops(TrimmedSize(n, 0), budget, avg);
    } else if RamEstimate(1, avg) <= budget {
      var rounds := TrimReachesOne(n);
      assert TrimStops(TrimmedSize(n, rounds), budget, avg);
    }
  }

  // ------------------------------------------------------------------
  // Saving and loading

  datatype FileEntry = FileEntry(dev: nat, ino: nat, mtimeSecs: nat, size: nat, infected: Option<string>)

  function ToEntry(key: CacheKey, verdict: Verdict): FileEntry {
    FileEntry(key.dev, key.ino, key.mtimeSecs, key.size,
              match verdict case Clean => None case Infected(signature) => Some(signature))
  }

  function KeyOf(e: FileEntry): CacheKey {
    CacheKey(e.dev, e.ino, e.mtimeSecs, e.size)
  }

  function VerdictOf(e: FileEntry): Verdict {
    match e.infected case None => Clean case Some(signature) => Infected(signature)
  }

  /** Collecting into a map: a later entry replaces an earlier one with the same key. */
  function Loaded(entries: seq<FileEntry>): Cache {
    if entries == [] then map[]
    else
      var e := entries[|entries| - 1];
      Loaded(entries[..|entries| - 1])[KeyOf(e) := VerdictOf(e)]
  }

  /** The file lists every entry of the cache once, in some order. */
  ghost predicate Lists(entries: seq<FileEntry>, cache: Cache) {
    ListsBut(entries, cache, {})
  }

  /** And so far every entry but those of the keys that are left. */
  ghost predicate ListsBut(entries: seq<FileEntry>, cache: Cache, left: set<CacheKey>) {
    && (forall i :: 0 <= i < |entries| ==> KeyOf(entries[i]) in cache
                                           && entries[i] == ToEntry(KeyOf(entries[i]), cache[KeyOf(entries[i])]))
    && (forall k :: k in cache && k !in left ==> exists i :: 0 <= i < |entries| && KeyOf(entries[i]) == k)
  }

  lemma ListsNone(cache: Cache)
    ensures ListsBut([], cache, cache.Keys)
  {
  }

  lemma ListsMore(entries: seq<FileEntry>, cache: Cache, left: set<CacheKey>, key: CacheKey)
    requires ListsBut(entries, cache, left) && key in cache
    ensures ListsBut(entries + [ToEntry(key, cache[key])], cache, left - {key})
  {
    var more := entries + [ToEntry(key, cache[key])];
    assert KeyOf(more[|entries|]) == key;
    forall k | k in cache && k !in left - {key}
      ensures exists i :: 0 <= i < |more| && KeyOf(more[i]) == k
    {
      if k != key {
        var i :| 0 <= i < |entries| && KeyOf(entries[i]) == k;
        assert more[i] == entries[i];
      }
    }
  }

  lemma {:induction false} LoadedHas(entries: seq<FileEntry>, key: CacheKey)
    ensures key in Loaded(entries) <==> exists i :: 0 <= i < |entries| && KeyOf(entries[i]) == key
    ensures key in Loaded(entries) ==> exists i :: 0 <= i < |entries| && KeyOf(entries[i]) == key
                                                   && Loaded(entries)[key] == VerdictOf(entries[i])
  {
    if entries != [] {
      var n := |entries| - 1;
      LoadedHas(entries[..n], key);
      assert forall i :: 0 <= i < n ==> entries[..n][i] == entries[i];
    }
  }

  /** Of two entries for one key the later one counts. */
  lemma LaterEntryWins(entries: seq<FileEntry>, e: FileEntry)
    ensures Loaded(entries + [e]) == Loaded(entries)[KeyOf(e) := VerdictOf(e)]
  {
    assert (entries + [e])[..|entries|] == entries;
  }

  /** Whatever order the map was enumerated in, loading the file gives the same cache. */
  lemma LoadAfterSave(entries: seq<FileEntry>, cache: Cache)
    requires Lists(entries, cache)
    ensures Loaded(entries) == cache
  {
    forall k
      ensures k in Loaded(entries) <==> k in cache
      ensures k in cache ==> Loaded(entries)[k] == cache[k]
    {
      LoadedHas(entries, k);
    }
    assert Loaded(entries).Keys == cache.Keys;
  }

  // ------------------------------------------------------------------
  // The object

  class VerdictStore {
    var cache: Cache
    var dirty: bool
    var avgEntryBytes: nat
    const budget: nat

    constructor (loaded: Cache, avg: nat, budget: nat)
      ensures cache == loaded && avgEntryBytes == avg && this.budget == budget && !dirty
    {
      cache, dirty, avgEntryBytes, this.budget := loaded, false, avg, budget;
    }

    method Lookup(key: CacheKey) returns (r: Option<Verdict>)
      ensures r == if key in cache then Some(cache[key]) else None
    {
      r := if key in cache then Some(cache[key]) else None;
    }

    /** `keys().take(n)`: the map's own order decides which. */
    method TakeKeys(n: nat) returns (victims: set<CacheKey>)
      requires n <= |cache|
      ensures victims <= cache.Keys && |victims| == n
    {
      victims := {};
      var left := cache.Keys;
      while |victims| < n
        invariant victims <= cache.Keys && left == cache.Keys - victims && |victims| <= n
        decreases n - |victims|
      {
        SubsetSize(victims, cache.Keys);
        var key :| key in left;
        victims := victims + {key};
        left := left - {key};
      }
    }

    method Put(key: CacheKey, verdict: Verdict) returns (ghost e: Event)
      modifies this
      ensures e.Put? && e.key == key && e.verdict == verdict
      ensures ChoosesHalf(old(cache), e.victims, budget, avgEntryBytes)
      ensures cache == Step(old(cache), e) && dirty && avgEntryBytes == old(avgEntryBytes)
      // In plain terms: the verdict is on record; nothing else is added or changed; entries go only when one
      // more would not fit, and then half of them, rounded down.
      ensures key in cache && cache[key] == verdict
      ensures forall k :: k in cache && k != key ==> k in old(cache) && cache[k] == old(cache)[k]
      ensures RamEstimate(|old(cache)| + 1, avgEntryBytes) <= budget ==> cache == old(cache)[key := verdict]
      ensures |e.victims| ==
              if RamEstimate(|old(cache)| + 1, avgEntryBytes) <= budget then 0 else |old(cache)| / 2
    {
      hide RamEstimate;
      var victims: set<CacheKey> := {};
      if RamEstimate(|cache| + 1, avgEntryBytes) > budget && |cache| > 0 {
        victims := TakeKeys(|cache| / 2);
        cache := cache - victims;
      } else {
        assert cache - victims == cache;
      }
      assert cache == old(cache) - victims && ChoosesHalf(old(cache), victims, budget, avgEntryBytes);
      cache := cache[key := verdict];
      dirty := true;
      e := Event.Put(key, verdict, victims);
    }

    /** A worker's answer to an infected file: true when this is the detection to act on. */
    method CheckAndSet(key: CacheKey, signature: string) returns (first: bool)
      modifies this
      ensures first <==> Acts(old(cache), Detect(key, signature))
      ensures cache == Step(old(cache), Detect(key, signature)) && avgEntryBytes == old(avgEntryBytes)
      ensures first <==> !(key in old(cache) && old(cache)[key].Infected?)
      ensures cache == if first then old(cache)[key := Infected(signature)] else old(cache)
      ensures dirty == (first || old(dirty))
    {
      if key in cache && cache[key].Infected? {
        return false;
      }
      cache := cache[key := Infected(signature)];
      dirty := true;
      return true;
    }

    /** The start-up loop, on the inputs on which it ends. */
    method Trim() returns (ghost rounds: nat)
      requires cache == map[] || RamEstimate(1, avgEntryBytes) <= budget
      modifies this`cache
      ensures Within(cache, old(cache))
      ensures TrimStops(|cache|, budget, avgEntryBytes) && |cache| == TrimmedSize(|old(cache)|, rounds)
      ensures TrimStops(|old(cache)|, budget, avgEntryBytes) ==> cache == old(cache)
      // No round more than needed.
      ensures AllNeeded(|old(cache)|, rounds, budget, avgEntryBytes)
    {
      hide AllNeeded, Within, TrimmedSize;
      rounds := 0;
      NoRound(|cache|, budget, avgEntryBytes);
      WithinSelf(cache);
      while RamEstimate(|cache|, avgEntryBytes) > budget && |cache| > 0
        invariant Within(cache, old(cache))
        invariant |cache| == TrimmedSize(|old(cache)|, rounds)
        invariant TrimStops(|old(cache)|, budget, avgEntryBytes) ==> cache == old(cache)
        invariant AllNeeded(|old(cache)|, rounds, budget, avgEntryBytes)
        decreases |cache|
      {
        var excess := |cache| / 2;
        var victims := TakeKeys(excess);
        MinusSize(cache, victims);
        WithinLess(cache, old(cache), victims);
        OneMoreRound(|old(cache)|, rounds);
        NeededMore(|old(cache)|, rounds, budget, avgEntryBytes);
        cache := cache - victims;
        rounds := rounds + 1;
      }
    }

    /** The entries as they go to the file; `sizes` gives the length of the text written for them, from which
        the average entry size is measured anew. */
    method Save(sizes: seq<FileEntry> -> nat) returns (entries: seq<FileEntry>)
      modifies this`dirty, this`avgEntryBytes
      ensures !dirty && (!old(dirty) ==> entries == []) && (old(dirty) ==> Loaded(entries) == cache)
      ensures old(dirty) && cache != map[] ==> entries != [] && avgEntryBytes == sizes(entries) / |entries|
      ensures !old(dirty) || cache == map[] ==> avgEntryBytes == old(avgEntryBytes)
    {
      hide ListsBut;
      entries := [];
      if !dirty {
        return;
      }
      dirty := false;
      assert ListsBut([], cache, cache.Keys) by { ListsNone(cache); }
      var left := cache.Keys;
      while left != {}
        invariant left <= cache.Keys && ListsBut(entries, cache, left)
        invariant if entries == [] then left == cache.Keys else cache != map[]
        invariant !dirty && avgEntryBytes == old(avgEntryBytes)
        decreases left
      {
        var key :| key in left;
        ListsMore(entries, cache, left, key);
        entries := entries + [ToEntry(key, cache[key])];
        left := left - {key};
      }
      LoadAfterSave(entries, cache);
      if entries != [] {
        avgEntryBytes := sizes(entries) / |entries|;
      }
    }
  }

  lemma NoRound(n: nat, budget: nat, avg: nat)
    ensures TrimmedSize(n, 0) == n && AllNeeded(n, 0, budget, avg)
  {
  }

  lemma NeededMore(n: nat, rounds: nat, budget: nat, avg: nat)
    requires AllNeeded(n, rounds, budget, avg) && RamEstimate(TrimmedSize(n, rounds), avg) > budget
    ensures AllNeeded(n, rounds + 1, budget, avg)
  {
  }

  lemma {:induction false} OneMoreRound(n: nat, rounds: nat)
    ensures var m := TrimmedSize(n, rounds); TrimmedSize(n, rounds + 1) == m - m / 2
    decreases rounds
  {
    if rounds > 0 {
      OneMoreRound(n - n / 2, rounds - 1);
    }
  }
}
