/**
 * The chain of metadata configs and its index by log id
 * (log/impl/InMemoryMetadataStore.cc).
 */
module MetadataStore {
  import opened Options

  /** The open end index that a reconfiguration writes. */
  const MAX_INDEX: int := 0x7fff_ffff_ffff_ffff

  datatype Config = Config(version: int,
                           previous: int,
                           start: int,
                           end: int,
                           previousEnd: int,
                           sequencer: string,
                           replicas: seq<string>)

  const DEFAULT_CONFIG := Config(0, 0, 0, 0, 0, "", [])

  datatype Error = OptimisticConcurrency

  datatype Store = Store(configs: map<int, Config>, byLogId: map<int, Config>)

  // ---- Ordered-map access ----

  predicate IsMax(keys: set<int>, k: int) {
    k in keys && forall j | j in keys :: j <= k
  }

  predicate IsMin(keys: set<int>, k: int) {
    k in keys && forall j | j in keys :: k <= j
  }

  lemma {:induction false} MaxExists(keys: set<int>)
    requires keys != {}
    ensures exists k :: IsMax(keys, k)
  {
    assert (forall x: int :: x !in keys) ==> keys == {};
    var x :| x in keys;
    if keys - {x} == {} {
      assert keys == {x};
      assert IsMax(keys, x);
    } else {
      MaxExists(keys - {x});
      var k :| IsMax(keys - {x}, k);
      assert forall j <- keys :: j == x || j in keys - {x};
      assert IsMax(keys, if k < x then x else k);
    }
  }

  lemma {:induction false} MinExists(keys: set<int>)
    requires keys != {}
    ensures exists k :: IsMin(keys, k)
  {
    assert (forall x: int :: x !in keys) ==> keys == {};
    var x :| x in keys;
    if keys - {x} == {} {
      assert keys == {x};
      assert IsMin(keys, x);
    } else {
      MinExists(keys - {x});
      var k :| IsMin(keys - {x}, k);
      assert forall j <- keys :: j == x || j in keys - {x};
      assert IsMin(keys, if x < k then x else k);
    }
  }

  function MaxKey(keys: set<int>): (k: int)
    requires keys != {}
    ensures IsMax(keys, k)
  {
    MaxExists(keys);
    var k :| k in keys && forall j <- keys :: j <= k;
    k
  }

  function MinKey(keys: set<int>): (k: int)
    requires keys != {}
    ensures IsMin(keys, k)
  {
    MinExists(keys);
    var k :| k in keys && forall j <- keys :: k <= j;
    k
  }

  // ---- Operations on values ----

  function CurrentVersion(s: Store): (version: int)
    ensures s.configs == map[] ==> version == 0
    ensures s.configs != map[] ==> IsMax(s.configs.Keys, version)
  {
    if s.configs == map[] then 0 else MaxKey(s.configs.Keys)
  }

  /** Version 0 always resolves to the default config. */
  function GetConfig(s: Store, version: int): (found: Option<Config>)
    ensures version == 0 ==> found == Some(DEFAULT_CONFIG)
    ensures version != 0 ==> (found.Some? <==> version in s.configs)
    ensures version != 0 && found.Some? ==> found.value == s.configs[version]
  {
    if version == 0 then Some(DEFAULT_CONFIG)
    else if version in s.configs then Some(s.configs[version])
    else None
  }

  /** Appends a config to the chain when it extends the last version, and refuses it otherwise. */
  function CompareAndAppend(s: Store, c: Config): Result<Store, Error> {
    if s.configs == map[] then
      if c.previous != 0 then Err(OptimisticConcurrency)
      else Ok(Store(s.configs[c.version := c], s.byLogId[c.start := c]))
    else
      var last := MaxKey(s.configs.Keys);
      if last == c.previous && last + 1 == c.version then
        Ok(Store(s.configs[last := s.configs[last].(end := c.start)][c.version := c], s.byLogId[c.start := c]))
      else
        Err(OptimisticConcurrency)
  }

  predicate Contains(c: Config, logId: int) {
    c.start <= logId < c.end
  }

  /** The indexed config with the greatest key whose own range contains the id. */
  ghost predicate IsIndexed(s: Store, logId: int, found: Option<Config>) {
    match found
    case None => forall k <- s.byLogId :: !Contains(s.byLogId[k], logId)
    case Some(c) =>
      exists k :: k in s.byLogId && s.byLogId[k] == c && Contains(c, logId)
                  && forall j <- s.byLogId | j > k :: !Contains(s.byLogId[j], logId)
  }

  // ---- The class ----

  class InMemoryMetadataStore {
    var configs: map<int, Config>
    var logIdToConfig: map<int, Config>

    /** The index files each config under its start. */
    ghost predicate Valid()
      reads this
    {
      forall k <- logIdToConfig :: logIdToConfig[k].start == k
    }

    constructor ()
      ensures Valid() && Value() == Store(map[], map[])
    {
      configs, logIdToConfig := map[], map[];
    }

    ghost function Value(): Store
      reads this
    {
      Store(configs, logIdToConfig)
    }

    /** Walks the index down from the first key above the id. */
    method GetConfigUsingLogId(logId: int) returns (found: Option<Config>)
      requires Valid()
      ensures IsIndexed(Value(), logId, found)
    {
      if logIdToConfig == map[] {
        return None;
      }
      var above := set k <- logIdToConfig.Keys | k > logId;
      var itr := if above == {} then MaxKey(logIdToConfig.Keys) else MinKey(above);
      while true
        invariant itr in logIdToConfig
        invariant forall j <- logIdToConfig | j > itr :: !Contains(logIdToConfig[j], logId)
        decreases set k <- logIdToConfig.Keys | k < itr
      {
        if logIdToConfig[itr].start <= logId && logId < logIdToConfig[itr].end {
          return Some(logIdToConfig[itr]);
        }
        var below := set k <- logIdToConfig.Keys | k < itr;
        assert forall k <- logIdToConfig :: k in below || k >= itr;
        if below == {} {
          return None;
        }
        itr := MaxKey(below);
      }
    }

    method GetConfigOf(versionId: int) returns (found: Option<Config>)
      ensures found == GetConfig(Value(), versionId)
    {
      if versionId == 0 {
        return Some(DEFAULT_CONFIG);
      }
      if versionId in configs {
        return Some(configs[versionId]);
      }
      return None;
    }

    method GetCurrentVersionId() returns (version: int)
      ensures version == CurrentVersion(Value())
    {
      if configs == map[] {
        return 0;
      }
      return MaxKey(configs.Keys);
    }

    method CompareAndAppendRange(c: Config) returns (result: Result<(), Error>)
      requires Valid()
      modifies this
      ensures Valid()
      ensures match CompareAndAppend(old(Value()), c)
              case Ok(after) => result.Ok? && Value() == after
              case Err(e) => result == Err(e) && Value() == old(Value())
    {
      var version := c.previous;
      if configs == map[] {
        if version != 0 {
          return Err(OptimisticConcurrency);
        }
        configs := configs[c.version := c];
        logIdToConfig := logIdToConfig[c.start := c];
        return Ok(());
      }
      var last := MaxKey(configs.Keys);
      if last == version && last + 1 == c.version {
        configs := configs[version := configs[version].(end := c.start)];
        configs := configs[c.version := c];
        logIdToConfig := logIdToConfig[c.start := c];
        return Ok(());
      }
      return Err(OptimisticConcurrency);
    }
  }

  // ---- The chain ----

  /** Versions are consecutive, linked, and each closed one ends where the next starts. */
  ghost predicate ChainOk(s: Store) {
    && (forall v, u, w | v in s.configs && w in s.configs && v <= u <= w :: u in s.configs)
    && (forall v <- s.configs :: s.configs[v].version == v)
    && (forall v, w | v in s.configs && w in s.configs && w == v + 1 ::
          s.configs[v].end == s.configs[w].start && s.configs[w].previous == v)
  }

  /** Each start is indexed, under the latest version that has it. */
  ghost predicate IndexOk(s: Store) {
    && (forall v <- s.configs :: s.configs[v].start in s.byLogId)
    && (forall k <- s.byLogId :: IndexedOk(s, k))
  }

  ghost predicate IndexedOk(s: Store, k: int)
    requires k in s.byLogId
  {
    var c := s.byLogId[k];
    && c.start == k
    && c.version in s.configs && s.configs[c.version].(end := c.end) == c
    && forall v <- s.configs | s.configs[v].start == k :: v <= c.version
  }

  ghost predicate NonDecreasing(s: Store) {
    forall v, w | v in s.configs && w in s.configs && v <= w :: s.configs[v].start <= s.configs[w].start
  }

  ghost predicate OpenEnded(s: Store) {
    forall k <- s.byLogId :: s.byLogId[k].end == MAX_INDEX
  }

  /** The version that owns an id: started at or below it, and the next one starts above it. */
  ghost predicate Owns(s: Store, v: int, logId: int) {
    && v in s.configs && s.configs[v].start <= logId
    && (v + 1 in s.configs ==> logId < s.configs[v + 1].start)
  }

  /** `s'` is the chain `s` with `c` as its next version; other starts are as they were. */
  ghost predicate Appended(s: Store, c: Config, s': Store) {
    && s'.configs.Keys == s.configs.Keys + {c.version} && s'.configs[c.version] == c
    && s'.byLogId == s.byLogId[c.start := c]
    && (forall v <- s.configs :: v < c.version && s'.configs[v].(end := s.configs[v].end) == s.configs[v])
    && (forall v <- s.configs | v != c.version - 1 :: s'.configs[v] == s.configs[v])
    && (s.configs != map[] ==>
          c.previous == c.version - 1 && c.previous in s.configs && s'.configs[c.previous].end == c.start)
  }

  lemma AppendShape(s: Store, c: Config)
    requires CompareAndAppend(s, c).Ok?
    ensures Appended(s, c, CompareAndAppend(s, c).value)
    ensures CurrentVersion(CompareAndAppend(s, c).value) == c.version
    ensures s.configs != map[] ==> c.previous == CurrentVersion(s)
  {
    var s' := CompareAndAppend(s, c).value;
    assert c.version in s'.configs;
    assert IsMax(s'.configs.Keys, c.version);
  }

  /** A config is accepted exactly when it extends the last version, or starts the chain from none. */
  lemma AcceptedIff(s: Store, c: Config)
    ensures CompareAndAppend(s, c).Ok? <==>
            if s.configs == map[] then c.previous == 0
            else c.previous in s.configs && (forall v <- s.configs :: v <= c.previous) && c.version == c.previous + 1
  {
  }

  lemma AppendedConsecutive(s: Store, c: Config, s': Store)
    requires ChainOk(s) && Appended(s, c, s')
    ensures forall v, u, w | v in s'.configs && w in s'.configs && v <= u <= w :: u in s'.configs
  {
    forall v, u, w | v in s'.configs && w in s'.configs && v <= u <= w
      ensures u in s'.configs
    {
      if u < w && w == c.version {
        assert v in s.configs && c.previous in s.configs;
        assert u in s.configs;
      } else if u < w {
        assert v in s.configs && w in s.configs;
      }
    }
  }

  lemma AppendedLink(s: Store, c: Config, s': Store, v: int, w: int)
    requires ChainOk(s) && Appended(s, c, s') && v in s'.configs && w in s'.configs && w == v + 1
    ensures s'.configs[v].end == s'.configs[w].start && s'.configs[w].previous == v
  {
    if w != c.version {
      assert v in s.configs && w in s.configs;
    }
  }

  lemma AppendedChain(s: Store, c: Config, s': Store)
    requires ChainOk(s) && Appended(s, c, s')
    ensures ChainOk(s')
  {
    AppendedConsecutive(s, c, s');
    forall v, w | v in s'.configs && w in s'.configs && w == v + 1
      ensures s'.configs[v].end == s'.configs[w].start && s'.configs[w].previous == v
    {
      AppendedLink(s, c, s', v, w);
    }
  }

  lemma AppendedIndex(s: Store, c: Config, s': Store)
    requires IndexOk(s) && Appended(s, c, s')
    ensures IndexOk(s')
  {
    forall k <- s'.byLogId
      ensures IndexedOk(s', k)
    {
      assert k != c.start ==> IndexedOk(s, k);
    }
  }

  lemma AppendedOrder(s: Store, c: Config, s': Store)
    requires NonDecreasing(s) && Appended(s, c, s')
    requires c.previous in s.configs ==> s.configs[c.previous].start <= c.start
    ensures NonDecreasing(s')
  {
  }

  /** Appends keep the chain and its index well formed. */
  lemma AppendKeepsChain(s: Store, c: Config)
    requires ChainOk(s) && IndexOk(s) && CompareAndAppend(s, c).Ok?
    ensures ChainOk(CompareAndAppend(s, c).value) && IndexOk(CompareAndAppend(s, c).value)
  {
    hide ChainOk, IndexOk;
    AppendShape(s, c);
    hide CompareAndAppend, Appended, CurrentVersion;
    AppendedChain(s, c, CompareAndAppend(s, c).value);
    AppendedIndex(s, c, CompareAndAppend(s, c).value);
  }

  /** Starts keep growing when each new one is at or above the last. */
  lemma AppendKeepsOrder(s: Store, c: Config)
    requires NonDecreasing(s) && CompareAndAppend(s, c).Ok?
    requires c.previous in s.configs ==> s.configs[c.previous].start <= c.start
    ensures NonDecreasing(CompareAndAppend(s, c).value)
  {
    AppendShape(s, c);
    AppendedOrder(s, c, CompareAndAppend(s, c).value);
  }

  /** No append changes which version owns an id below its start. */
  lemma OwnerIsStable(s: Store, c: Config, v: int, w: int, logId: int)
    requires ChainOk(s) && IndexOk(s) && NonDecreasing(s) && CompareAndAppend(s, c).Ok? && c.previous in s.configs
    requires s.configs[c.previous].start <= c.start && logId < c.start
    requires Owns(s, v, logId) && Owns(CompareAndAppend(s, c).value, w, logId)
    ensures v == w
  {
    hide ChainOk, IndexOk, NonDecreasing;
    AppendShape(s, c);
    AppendKeepsChain(s, c);
    AppendKeepsOrder(s, c);
    hide CompareAndAppend, CurrentVersion;
    OwnerIsUnique(CompareAndAppend(s, c).value, v, w, logId);
  }

  lemma OwnerIsUnique(s: Store, v: int, w: int, logId: int)
    requires ChainOk(s) && NonDecreasing(s) && Owns(s, v, logId) && Owns(s, w, logId)
    ensures v == w
  {
    assert v < w ==> v + 1 in s.configs;
    assert w < v ==> w + 1 in s.configs;
  }

  /** The index files the owner under its start. */
  lemma OwnerIsIndexed(s: Store, v: int, logId: int)
    requires IndexOk(s) && ChainOk(s) && NonDecreasing(s) && Owns(s, v, logId)
    ensures s.configs[v].start in s.byLogId && s.byLogId[s.configs[v].start].version == v
    ensures forall k <- s.byLogId | k > s.configs[v].start :: k > logId
  {
    forall k <- s.byLogId | k >= s.configs[v].start
      ensures k > logId || s.byLogId[k].version == v
    {
      var w := s.byLogId[k].version;
      assert w > v ==> v + 1 in s.configs && s.configs[v + 1].start <= s.configs[w].start;
    }
  }

  /**
   * Exactly when the index finds the owning version: when the id lies below
   * the end index that version was appended with.
   */
  lemma IndexIsExact(s: Store, v: int, logId: int, found: Option<Config>)
    requires ChainOk(s) && IndexOk(s) && NonDecreasing(s) && Owns(s, v, logId)
    requires IsIndexed(s, logId, found)
    ensures s.configs[v].start in s.byLogId
    ensures found.Some? && found.value.version == v <==> logId < s.byLogId[s.configs[v].start].end
  {
    OwnerIsIndexed(s, v, logId);
    var k := s.configs[v].start;
    if found.Some? {
      var j :| j in s.byLogId && s.byLogId[j] == found.value && Contains(found.value, logId)
               && forall i <- s.byLogId | i > j :: !Contains(s.byLogId[i], logId);
      assert j <= k;
      assert j < k ==> !Contains(s.byLogId[k], logId);
    } else {
      assert !Contains(s.byLogId[k], logId);
    }
  }

  lemma FoundOwns(s: Store, logId: int, c: Config)
    requires IndexOk(s) && NonDecreasing(s) && OpenEnded(s) && logId < MAX_INDEX
    requires IsIndexed(s, logId, Some(c))
    ensures Owns(s, c.version, logId)
  {
    var k :| k in s.byLogId && s.byLogId[k] == c && Contains(c, logId)
             && forall j <- s.byLogId | j > k :: !Contains(s.byLogId[j], logId);
    if c.version + 1 in s.configs {
      var next := s.configs[c.version + 1].start;
      assert next in s.byLogId && c.start <= next && next != k;
      assert !Contains(s.byLogId[next], logId);
    }
  }

  /**
   * With the open ends that a reconfiguration writes and starts that never
   * decrease, the index finds exactly the owning version, also when empty
   * versions share a start; below the first start it finds nothing.
   */
  lemma IndexAgreesWithChain(s: Store, logId: int, found: Option<Config>)
    requires ChainOk(s) && IndexOk(s) && NonDecreasing(s) && OpenEnded(s) && logId < MAX_INDEX
    requires IsIndexed(s, logId, found)
    ensures forall v | Owns(s, v, logId) :: found.Some? && found.value.version == v
    ensures found.Some? ==> Owns(s, found.value.version, logId)
    ensures found.None? ==> forall v <- s.configs :: logId < s.configs[v].start
  {
    forall v | Owns(s, v, logId) ensures found.Some? && found.value.version == v {
      IndexIsExact(s, v, logId, found);
    }
    if found.None? {
      forall v <- s.configs ensures logId < s.configs[v].start {
        assert !Contains(s.byLogId[s.configs[v].start], logId);
      }
    } else {
      FoundOwns(s, logId, found.value);
    }
  }

  const SHORT_CONFIG := Config(1, 0, 0, 10, 0, "", [])
  const EARLY_CONFIG := Config(2, 1, 5, 7, 5, "", [])
  /** The store after appending these two configs to an empty one. */
  const TWO_RANGES := Store(map[1 := SHORT_CONFIG.(end := 5), 2 := EARLY_CONFIG],
                            map[0 := SHORT_CONFIG, 5 := EARLY_CONFIG])

  lemma TwoRangesReached()
    ensures CompareAndAppend(Store(map[], map[]), SHORT_CONFIG).Ok?
    ensures CompareAndAppend(CompareAndAppend(Store(map[], map[]), SHORT_CONFIG).value, EARLY_CONFIG) == Ok(TWO_RANGES)
  {
    var s := CompareAndAppend(Store(map[], map[]), SHORT_CONFIG).value;
    assert s == Store(map[1 := SHORT_CONFIG], map[0 := SHORT_CONFIG]);
    assert s.configs.Keys == {1};
    var s' := CompareAndAppend(s, EARLY_CONFIG).value;
    assert s'.configs == TWO_RANGES.configs && s'.byLogId == TWO_RANGES.byLogId;
  }

  /**
   * The indexed copies keep the end index they were appended with, so with
   * closed ranges the index can name a version that no longer owns the id.
   */
  lemma ClosedRangesMislead()
    ensures CompareAndAppend(Store(map[], map[]), SHORT_CONFIG).Ok?
    ensures CompareAndAppend(CompareAndAppend(Store(map[], map[]), SHORT_CONFIG).value, EARLY_CONFIG) == Ok(TWO_RANGES)
    ensures IsIndexed(TWO_RANGES, 8, Some(SHORT_CONFIG)) && !Owns(TWO_RANGES, 1, 8) && Owns(TWO_RANGES, 2, 8)
  {
    TwoRangesReached();
    assert 0 in TWO_RANGES.byLogId;
  }
}
