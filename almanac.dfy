/** The objects of src/day-05.rs: `Map` owns its list of triples and changes it in
    place (`add` pushes, `complete` sorts and appends, `merge` sorts both operands);
    `Almanac` holds the seeds and the seven stage maps. `part2` is modelled as a
    method on an already parsed almanac. */
module Almanac {
  import opened Wrappers
  import opened Sorting
  import opened RangeMap
  import opened RangeMerge

  class Map {
    var entries: seq<Triple>

    constructor (entries: seq<Triple>)
      ensures this.entries == entries
    {
      this.entries := entries;
    }

    /** `Map::add`: pushes one triple. */
    method Add(destStart: nat, srcStart: nat, rangeLen: nat)
      modifies this
      ensures entries == old(entries) + [Triple(destStart, srcStart, rangeLen)]
    {
      entries := entries + [Triple(destStart, srcStart, rangeLen)];
    }

    /** `Map::get`: scans the triples in order and returns at the first that holds `src`. */
    method Get(src: nat) returns (r: nat)
      ensures r == Lookup(entries, src)
    {
      var i := 0;
      while i < |entries|
        invariant i <= |entries|
        invariant Lookup(entries, src) == Lookup(entries[i..], src)
      {
        var t := entries[i];
        if t.src <= src < t.src + t.len {
          return src - t.src + t.dest;
        }
        assert entries[i..][1..] == entries[i + 1..];
        i := i + 1;
      }
      return src;
    }

    /** `Map::complete`: sorts by source start, collects the fills below the first
        range, between neighbours and above the last range up to MAX, and appends
        them. `ok` is false where the Rust code panics (`first().unwrap()` on an empty
        map); the map is then left as it was. */
    method Complete() returns (ok: bool)
      modifies this
      ensures ok <==> old(entries) != []
      ensures ok ==> entries == Completed(old(entries))
      ensures !ok ==> entries == old(entries)
    {
      if entries == [] {
        return false;
      }
      entries := SortBySrc(entries);
      var additional := Fills(entries);
      entries := entries + additional;
      ok := true;
    }

    /** `Map::merge`: sorts this map by destination start and `other` by source
        start (both in place), then composes them with `_merge`. */
    method Merge(other: Map) returns (m: Map)
      requires other != this
      modifies this, other
      ensures entries == SortByDest(old(entries))
      ensures other.entries == SortBySrc(old(other.entries))
      ensures fresh(m) && m.entries == Merged(old(entries), old(other.entries))
    {
      entries := SortByDest(entries);
      other.entries := SortBySrc(other.entries);
      m := new Map(Walk(entries, other.entries, []));
    }
  }

  /** The `additional` vector of `Map::complete`, built from the sorted list:
      the leading fill, one fill per `windows(2)` gap, and the tail up to MAX. */
  method Fills(v: seq<Triple>) returns (additional: seq<Triple>)
    requires v != []
    ensures additional == Additional(v)
  {
    additional := [];
    var first := v[0].src;
    if first > 0 {
      additional := additional + [Triple(0, 0, first)];
    }
    var i := 0;
    while i + 1 < |v|
      invariant i < |v|
      invariant additional == Leading(v) + GapsBefore(v, i + 1)
    {
      var s1, l1, s2 := v[i].src, v[i].len, v[i + 1].src;
      if s1 + l1 < s2 {
        additional := additional + [Triple(s1 + l1, s1 + l1, s2 - (s1 + l1))];
      }
      i := i + 1;
    }
    var last := v[|v| - 1].src + v[|v| - 1].len;
    if last <= MAX {
      additional := additional + [Triple(last, last, MAX - last + 1)];
    }
  }

  /** Pushes a value through the stages in order, with `get` at each stage. */
  function Chain(stages: seq<seq<Triple>>, x: nat): nat
  {
    if stages == [] then x else Chain(stages[1..], Lookup(stages[0], x))
  }

  lemma {:induction false} ChainLast(stages: seq<seq<Triple>>, x: nat)
    requires stages != []
    ensures Chain(stages, x) == Lookup(stages[|stages| - 1], Chain(stages[..|stages| - 1], x))
  {
    if |stages| > 1 {
      ChainLast(stages[1..], Lookup(stages[0], x));
      assert stages[1..][..|stages| - 2] == stages[..|stages| - 1][1..];
    }
  }

  /** `merge_all`: the stages composed left to right. */
  function MergeChain(stages: seq<seq<Triple>>): seq<Triple>
    requires stages != []
  {
    if |stages| == 1 then stages[0]
    else Merged(MergeChain(stages[..|stages| - 1]), stages[|stages| - 1])
  }

  predicate NonEmptyStages(stages: seq<seq<Triple>>)
  {
    forall k :: 0 <= k < |stages| ==> stages[k] != []
  }

  /** `Almanac::complete` applied to the list of stages. */
  function CompletedStages(stages: seq<seq<Triple>>): (r: seq<seq<Triple>>)
    requires NonEmptyStages(stages)
    ensures |r| == |stages|
  {
    seq(|stages|, k requires 0 <= k < |stages| => Completed(stages[k]))
  }

  /** A stage as the data guarantees it: non-empty, all ranges non-empty, source
      ranges disjoint, and both ranges inside [0, MAX]. */
  predicate GoodStage(m: seq<Triple>)
  {
    m != [] && Positive(m) && SrcDisjoint(m) && SrcBounded(m) && DestBounded(m)
  }

  /** Completing every stage does not change the scalar chain. */
  lemma {:induction false} ChainCompleted(stages: seq<seq<Triple>>, x: nat)
    requires forall k :: 0 <= k < |stages| ==> GoodStage(stages[k])
    ensures NonEmptyStages(stages) && Chain(CompletedStages(stages), x) == Chain(stages, x)
  {
    if stages != [] {
      var c := CompletedStages(stages);
      CompletedFacts(stages[0]);
      assert c[1..] == CompletedStages(stages[1..]);
      ChainCompleted(stages[1..], Lookup(stages[0], x));
    }
  }

  /** The composition of completed stages is defined on all of [0, MAX] and agrees
      there with pushing the value through the stages one by one. */
  lemma {:induction false} MergeChainLookup(stages: seq<seq<Triple>>)
    requires stages != []
    requires forall k :: 0 <= k < |stages| ==>
      Functional(stages[k]) && CoversDomain(stages[k]) && DestBounded(stages[k]) && Positive(stages[k])
    ensures Functional(MergeChain(stages)) && DestBounded(MergeChain(stages)) && Positive(MergeChain(stages))
    ensures forall x: nat :: x <= MAX ==>
      Covered(MergeChain(stages), x) && Lookup(MergeChain(stages), x) == Chain(stages, x)
  {
    var n := |stages|;
    if n == 1 {
      forall x: nat | x <= MAX
        ensures Covered(MergeChain(stages), x) && Lookup(MergeChain(stages), x) == Chain(stages, x)
      {
        assert stages[1..] == [];
      }
    } else {
      var front := stages[..n - 1];
      var last := stages[n - 1];
      MergeChainLookup(front);
      var mf := MergeChain(front);
      MergedWellFormed(mf, last);
      forall x: nat | x <= MAX
        ensures Covered(MergeChain(stages), x) && Lookup(MergeChain(stages), x) == Chain(stages, x)
      {
        LookupInDomain(mf, x);
        MergedLookup(mf, last, x);
        ChainLast(stages, x);
      }
    }
  }

  /** `seeds.chunks(2)` as identity triples (start, start, length); `None` where
      `ch[1]` panics on a trailing single seed. */
  function SeedRanges(seeds: seq<nat>): (r: Option<seq<Triple>>)
    ensures r.Some? <==> |seeds| % 2 == 0
    ensures r.Some? ==> |r.value| == |seeds| / 2
    ensures r.Some? ==>
      forall k :: 0 <= k < |r.value| ==> r.value[k] == Identity(seeds[2 * k], seeds[2 * k + 1])
    decreases |seeds|
  {
    if seeds == [] then Some([])
    else if |seeds| == 1 then None
    else match SeedRanges(seeds[2..])
      case None => None
      case Some(rs) => Some([Identity(seeds[0], seeds[1])] + rs)
  }

  /** What `part2` returns: completes every stage, composes the seed ranges with
      `merge_all`, sorts by destination start and reads the first one. `None` where
      the Rust code panics: an empty stage, an odd seed count, or nothing composed. */
  function Part2Result(seeds: seq<nat>, stages: seq<seq<Triple>>): Option<nat>
    requires stages != []
  {
    if !NonEmptyStages(stages) then None
    else match SeedRanges(seeds)
      case None => None
      case Some(ranges) =>
        var m := SortByDest(Merged(ranges, MergeChain(CompletedStages(stages))));
        if m == [] then None else Some(m[0].dest)
  }

  /** Seed ranges are identity triples, so they form a functional map. */
  lemma IdentitiesFunctional(m: seq<Triple>)
    requires forall t :: t in m ==> t.dest == t.src
    ensures Functional(m)
  {
  }

  /** The composition `part2` builds from well-formed stages is functional, stays
      inside the domain, and sends every x <= MAX to the stage chain of x. */
  lemma CompletedChain(stages: seq<seq<Triple>>)
    requires stages != [] && forall k :: 0 <= k < |stages| ==> GoodStage(stages[k])
    ensures NonEmptyStages(stages)
    ensures Functional(MergeChain(CompletedStages(stages)))
    ensures Positive(MergeChain(CompletedStages(stages)))
    ensures forall x: nat :: x <= MAX ==>
      Covered(MergeChain(CompletedStages(stages)), x) &&
      Lookup(MergeChain(CompletedStages(stages)), x) == Chain(stages, x)
  {
    var cs := CompletedStages(stages);
    forall k | 0 <= k < |stages|
      ensures Functional(cs[k]) && CoversDomain(cs[k]) && DestBounded(cs[k]) && Positive(cs[k])
    {
      CompletedFacts(stages[k]);
    }
    MergeChainLookup(cs);
    forall x: nat | x <= MAX
      ensures Lookup(MergeChain(cs), x) == Chain(stages, x)
    {
      ChainCompleted(stages, x);
    }
  }

  /** The answer of `part2`: under the data's guarantees it is the smallest location
      any seed of any range reaches, and some seed reaches it. */
  lemma Part2Minimum(seeds: seq<nat>, stages: seq<seq<Triple>>)
    requires stages != [] && forall k :: 0 <= k < |stages| ==> GoodStage(stages[k])
    requires |seeds| % 2 == 0 && |seeds| > 0
    requires forall t :: t in SeedRanges(seeds).value ==> t.len > 0 && SrcEnd(t) <= MAX + 1
    ensures Part2Result(seeds, stages).Some?
    ensures forall x: nat :: Covered(SeedRanges(seeds).value, x) ==>
      Part2Result(seeds, stages).value <= Chain(stages, x)
    ensures exists x: nat ::
      Covered(SeedRanges(seeds).value, x) && Chain(stages, x) == Part2Result(seeds, stages).value
  {
    var ranges := SeedRanges(seeds).value;
    CompletedChain(stages);
    var all := MergeChain(CompletedStages(stages));
    IdentitiesFunctional(ranges);
    MergedWellFormed(ranges, all);
    var out := Merged(ranges, all);
    var m := SortByDest(out);
    SeedsReach(ranges, all, stages);
    assert ranges[0] in ranges && InSrc(ranges[0], ranges[0].src);
    assert Covered(out, ranges[0].src);
    assert m != [];
    var r := m[0].dest;
    assert Part2Result(seeds, stages) == Some(r);
    forall x: nat | Covered(ranges, x) ensures r <= Chain(stages, x) {
      FirstIsLeast(out, x);
    }
    FirstIsReached(ranges, all);
  }

  /** Every seed of a range reaches its chain value through the composed map. */
  lemma SeedsReach(ranges: seq<Triple>, all: seq<Triple>, stages: seq<seq<Triple>>)
    requires forall t :: t in ranges ==> t.dest == t.src && SrcEnd(t) <= MAX + 1
    requires Functional(all)
    requires forall x: nat :: x <= MAX ==> Covered(all, x) && Lookup(all, x) == Chain(stages, x)
    ensures forall x: nat :: Covered(ranges, x) ==>
      Covered(Merged(ranges, all), x) && Lookup(Merged(ranges, all), x) == Chain(stages, x)
  {
    IdentitiesFunctional(ranges);
    forall x: nat | Covered(ranges, x)
      ensures Covered(Merged(ranges, all), x) && Lookup(Merged(ranges, all), x) == Chain(stages, x)
    {
      SeedReaches(ranges, all, x);
    }
  }

  lemma SeedReaches(ranges: seq<Triple>, all: seq<Triple>, x: nat)
    requires forall t :: t in ranges ==> t.dest == t.src && SrcEnd(t) <= MAX + 1
    requires Functional(ranges) && Functional(all) && Covered(ranges, x)
    requires x <= MAX ==> Covered(all, x)
    ensures x <= MAX && Covered(Merged(ranges, all), x) && Lookup(Merged(ranges, all), x) == Lookup(all, x)
  {
    var t :| t in ranges && InSrc(t, x);
    LookupCovered(ranges, t, x);
    MergedLookup(ranges, all, x);
  }

  /** On a functional map, the first triple by destination start gives the least
      value any covered point is sent to. */
  lemma FirstIsLeast(out: seq<Triple>, x: nat)
    requires Functional(out) && Covered(out, x)
    ensures SortByDest(out) != [] && SortByDest(out)[0].dest <= Lookup(out, x)
  {
    var m := SortByDest(out);
    SortBySorted(out, DestKey);
    var c :| c in out && InSrc(c, x);
    LookupCovered(out, c, x);
    var j :| 0 <= j < |m| && m[j] == c;
    if j > 0 { assert DestKey(m[0]) <= DestKey(m[j]); }
  }

  /** The first triple by destination start of a composition of seed ranges starts
      at a seed, and that seed is sent to its destination start. */
  lemma FirstIsReached(ranges: seq<Triple>, all: seq<Triple>)
    requires Positive(ranges) && Positive(all) && Functional(ranges) && Functional(all)
    requires SortByDest(Merged(ranges, all)) != []
    ensures exists x: nat ::
      Covered(ranges, x) && Lookup(Merged(ranges, all), x) == SortByDest(Merged(ranges, all))[0].dest
  {
    var out := Merged(ranges, all);
    MergedWellFormed(ranges, all);
    var c0 := SortByDest(out)[0];
    assert c0 in out;
    MergedTriples(ranges, all);
    var t, u :| t in ranges && u in all && Overlaps(t, u) && c0 == Compose(t, u);
    var x0 := c0.src;
    assert InSrc(c0, x0) && InSrc(t, x0);
    LookupCovered(out, c0, x0);
  }

  class Almanac {
    var seeds: seq<nat>
    var seedSoil: Map
    var soilFertilizer: Map
    var fertilizerWater: Map
    var waterLight: Map
    var lightTemperature: Map
    var temperatureHumidity: Map
    var humidityLocation: Map

    /** The seven stage maps are seven distinct objects. */
    ghost predicate Valid()
      reads this
    {
      && seedSoil != soilFertilizer && seedSoil != fertilizerWater && seedSoil != waterLight && seedSoil != lightTemperature && seedSoil != temperatureHumidity && seedSoil != humidityLocation
      && soilFertilizer != fertilizerWater && soilFertilizer != waterLight && soilFertilizer != lightTemperature && soilFertilizer != temperatureHumidity && soilFertilizer != humidityLocation
      && fertilizerWater != waterLight && fertilizerWater != lightTemperature && fertilizerWater != temperatureHumidity && fertilizerWater != humidityLocation
      && waterLight != lightTemperature && waterLight != temperatureHumidity && waterLight != humidityLocation
      && lightTemperature != temperatureHumidity && lightTemperature != humidityLocation
      && temperatureHumidity != humidityLocation
    }

    ghost function Repr(): set<object>
      reads this
    {
      {seedSoil, soilFertilizer, fertilizerWater, waterLight, lightTemperature,
       temperatureHumidity, humidityLocation}
    }

    /** The stage lists in pipeline order: seed-to-soil first, humidity-to-location last. */
    function Stages(): (r: seq<seq<Triple>>)
      reads this, seedSoil, soilFertilizer, fertilizerWater, waterLight, lightTemperature,
        temperatureHumidity, humidityLocation
      ensures |r| == 7
    {
      [seedSoil.entries, soilFertilizer.entries, fertilizerWater.entries, waterLight.entries,
       lightTemperature.entries, temperatureHumidity.entries, humidityLocation.entries]
    }

    constructor (seeds: seq<nat>, maps: seq<seq<Triple>>)
      requires |maps| == 7
      ensures Valid() && fresh(Repr())
      ensures this.seeds == seeds && Stages() == maps
    {
      this.seeds := seeds;
      seedSoil := new Map(maps[0]);
      soilFertilizer := new Map(maps[1]);
      fertilizerWater := new Map(maps[2]);
      waterLight := new Map(maps[3]);
      lightTemperature := new Map(maps[4]);
      temperatureHumidity := new Map(maps[5]);
      humidityLocation := new Map(maps[6]);
    }

    /** `get_lowest_loc`: the smallest location over all seeds, starting from `u64::MAX`. */
    method LowestLocation() returns (r: nat)
      ensures r <= U64_MAX
      ensures forall i :: 0 <= i < |seeds| ==> r <= Chain(Stages(), seeds[i])
      ensures r == U64_MAX || exists i :: 0 <= i < |seeds| && r == Chain(Stages(), seeds[i])
    {
      r := U64_MAX;
      for k := 0 to |seeds|
        invariant r <= U64_MAX
        invariant forall i :: 0 <= i < k ==> r <= Chain(Stages(), seeds[i])
        invariant r == U64_MAX || exists i :: 0 <= i < k && r == Chain(Stages(), seeds[i])
      {
        var soil := seedSoil.Get(seeds[k]);
        var fertilizer := soilFertilizer.Get(soil);
        var water := fertilizerWater.Get(fertilizer);
        var light := waterLight.Get(water);
        var temperature := lightTemperature.Get(light);
        var humidity := temperatureHumidity.Get(temperature);
        var location := humidityLocation.Get(humidity);
        ChainSeven(Stages(), seeds[k]);
        r := Min(r, location);
      }
    }

    /** `Almanac::complete`: completes the seven stages in order; `ok` is false where
        the Rust code panics on an empty stage. */
    method Complete() returns (ok: bool)
      requires Valid()
      modifies seedSoil, soilFertilizer, fertilizerWater, waterLight, lightTemperature,
        temperatureHumidity, humidityLocation
      ensures ok <==> && old(seedSoil.entries) != [] && old(soilFertilizer.entries) != []
                      && old(fertilizerWater.entries) != [] && old(waterLight.entries) != []
                      && old(lightTemperature.entries) != [] && old(temperatureHumidity.entries) != []
                      && old(humidityLocation.entries) != []
      ensures ok ==> seedSoil.entries == Completed(old(seedSoil.entries))
      ensures ok ==> soilFertilizer.entries == Completed(old(soilFertilizer.entries))
      ensures ok ==> fertilizerWater.entries == Completed(old(fertilizerWater.entries))
      ensures ok ==> waterLight.entries == Completed(old(waterLight.entries))
      ensures ok ==> lightTemperature.entries == Completed(old(lightTemperature.entries))
      ensures ok ==> temperatureHumidity.entries == Completed(old(temperatureHumidity.entries))
      ensures ok ==> humidityLocation.entries == Completed(old(humidityLocation.entries))
    {
      ok := seedSoil.Complete();
      if !ok { return; }
      ok := soilFertilizer.Complete();
      if !ok { return; }
      ok := fertilizerWater.Complete();
      if !ok { return; }
      ok := waterLight.Complete();
      if !ok { return; }
      ok := lightTemperature.Complete();
      if !ok { return; }
      ok := temperatureHumidity.Complete();
      if !ok { return; }
      ok := humidityLocation.Complete();
    }

    /** `Complete` stated on the list of stages. */
    method CompleteStages() returns (ok: bool)
      requires Valid()
      modifies seedSoil, soilFertilizer, fertilizerWater, waterLight, lightTemperature,
        temperatureHumidity, humidityLocation
      ensures ok <==> NonEmptyStages(old(Stages()))
      ensures ok ==> Stages() == CompletedStages(old(Stages()))
    {
      ghost var before := Stages();
      SevenNonEmpty(before);
      ok := Complete();
      if ok {
        CompletedSeven(before, seedSoil.entries, soilFertilizer.entries, fertilizerWater.entries,
          waterLight.entries, lightTemperature.entries, temperatureHumidity.entries, humidityLocation.entries);
      }
    }

    /** `Almanac::merge_all`: seed-to-soil merged with each following stage in turn.
        Each merge sorts its operands in place. */
    method MergeAll() returns (m: Map)
      requires Valid()
      modifies seedSoil, soilFertilizer, fertilizerWater, waterLight, lightTemperature,
        temperatureHumidity, humidityLocation
      ensures fresh(m)
      ensures m.entries == MergeChain(old(Stages()))
      ensures seedSoil.entries == SortByDest(old(seedSoil.entries))
      ensures soilFertilizer.entries == SortBySrc(old(soilFertilizer.entries))
      ensures fertilizerWater.entries == SortBySrc(old(fertilizerWater.entries))
      ensures waterLight.entries == SortBySrc(old(waterLight.entries))
      ensures lightTemperature.entries == SortBySrc(old(lightTemperature.entries))
      ensures temperatureHumidity.entries == SortBySrc(old(temperatureHumidity.entries))
      ensures humidityLocation.entries == SortBySrc(old(humidityLocation.entries))
    {
      var m1 := seedSoil.Merge(soilFertilizer);
      var m2 := m1.Merge(fertilizerWater);
      var m3 := m2.Merge(waterLight);
      var m4 := m3.Merge(lightTemperature);
      var m5 := m4.Merge(temperatureHumidity);
      m := m5.Merge(humidityLocation);
      MergeChainSeven(old(Stages()));
    }
  }

  lemma ChainFrom(s: seq<seq<Triple>>, k: nat, x: nat)
    requires k < |s|
    ensures Chain(s[k..], x) == Chain(s[k + 1..], Lookup(s[k], x))
  {
    assert s[k..][1..] == s[k + 1..];
  }

  lemma ChainSeven(s: seq<seq<Triple>>, x: nat)
    requires |s| == 7
    ensures Chain(s, x) == Lookup(s[6], Lookup(s[5], Lookup(s[4], Lookup(s[3],
      Lookup(s[2], Lookup(s[1], Lookup(s[0], x)))))))
  {
    var x1 := Lookup(s[0], x);
    var x2 := Lookup(s[1], x1);
    var x3 := Lookup(s[2], x2);
    var x4 := Lookup(s[3], x3);
    var x5 := Lookup(s[4], x4);
    var x6 := Lookup(s[5], x5);
    assert s[0..] == s;
    ChainFrom(s, 0, x);
    ChainFrom(s, 1, x1);
    ChainFrom(s, 2, x2);
    ChainFrom(s, 3, x3);
    ChainFrom(s, 4, x4);
    ChainFrom(s, 5, x5);
    ChainFrom(s, 6, x6);
    assert s[7..] == [];
  }

  lemma MergeChainStep(s: seq<seq<Triple>>, n: nat)
    requires 2 <= n <= |s|
    ensures MergeChain(s[..n]) == Merged(MergeChain(s[..n - 1]), s[n - 1])
  {
    var t := s[..n];
    assert t[..n - 1] == s[..n - 1];
    assert t[n - 1] == s[n - 1];
  }

  lemma MergeChainSeven(s: seq<seq<Triple>>)
    requires |s| == 7
    ensures MergeChain(s) ==
      Merged(Merged(Merged(Merged(Merged(Merged(s[0], s[1]), s[2]), s[3]), s[4]), s[5]), s[6])
  {
    assert MergeChain(s[..1]) == s[0];
    MergeChainStep(s, 2);
    MergeChainStep(s, 3);
    MergeChainStep(s, 4);
    MergeChainStep(s, 5);
    MergeChainStep(s, 6);
    MergeChainStep(s, 7);
    assert s[..7] == s;
  }

  lemma SevenNonEmpty(s: seq<seq<Triple>>)
    requires |s| == 7
    ensures NonEmptyStages(s) <==>
      s[0] != [] && s[1] != [] && s[2] != [] && s[3] != [] && s[4] != [] && s[5] != [] && s[6] != []
  {
  }

  /** Seven completed lists, one per stage, are the completed stages. */
  lemma CompletedSeven(s: seq<seq<Triple>>, a0: seq<Triple>, a1: seq<Triple>, a2: seq<Triple>,
                       a3: seq<Triple>, a4: seq<Triple>, a5: seq<Triple>, a6: seq<Triple>)
    requires |s| == 7
    requires s[0] != [] && s[1] != [] && s[2] != [] && s[3] != [] && s[4] != [] && s[5] != [] && s[6] != []
    requires a0 == Completed(s[0]) && a1 == Completed(s[1]) && a2 == Completed(s[2])
    requires a3 == Completed(s[3]) && a4 == Completed(s[4]) && a5 == Completed(s[5])
    requires a6 == Completed(s[6])
    ensures NonEmptyStages(s) && CompletedStages(s) == [a0, a1, a2, a3, a4, a5, a6]
  {
  }

  /** `part2` on a parsed almanac. */
  method Part2(almanac: Almanac) returns (r: Option<nat>)
    requires almanac.Valid()
    modifies almanac.seedSoil, almanac.soilFertilizer, almanac.fertilizerWater, almanac.waterLight,
      almanac.lightTemperature, almanac.temperatureHumidity, almanac.humidityLocation
    ensures r == Part2Result(old(almanac.seeds), old(almanac.Stages()))
  {
    ghost var stages := almanac.Stages();
    var ok := almanac.CompleteStages();
    if !ok {
      return None;
    }
    ghost var cs := almanac.Stages();
    var ranges := SeedRanges(almanac.seeds);
    if ranges.None? { return None; }
    var seedMap := new Map(ranges.value);
    var all := almanac.MergeAll();
    var m := seedMap.Merge(all);
    m.entries := SortByDest(m.entries);
    if m.entries == [] { return None; }
    r := Some(m.entries[0].dest);
  }
}
