/**
 * The detector: it keeps the frequency profiles of the known languages and
 * ranks them by their out-of-place measure against the profile of a query.
 * The best match is the profile at the smallest distance; the three best
 * are reported.
 *
 * Reading the training texts and the console session are input and output
 * and are not modelled: the language profiles are given.
 */
module LangDetects {
  import opened Wrappers
  import opened Sorting
  import opened Profiles

  /** How many of the best matches are reported. */
  const ReportedMatches: nat := 3

  /** The largest measure two finalized profiles can have: every n-gram missing. */
  const MaxDistance: nat := MaxOoP * CutOffPos

  /** A language profile with its out-of-place measure against the query. */
  datatype ProfileDistance = ProfileDistance(profile: Profile, outOfPlace: int)

  function DistanceKey(d: ProfileDistance): int {
    d.outOfPlace
  }

  /** A Java `int` is a 32-bit two's complement number: arithmetic wraps around. */
  function Int32(x: int): (r: int)
    ensures -0x8000_0000 <= r < 0x8000_0000
    ensures -0x8000_0000 <= x < 0x8000_0000 ==> r == x
    ensures (r - x) % 0x1_0000_0000 == 0
  {
    (x + 0x8000_0000) % 0x1_0000_0000 - 0x8000_0000
  }

  /** `ProfileDistance.compareTo`: the 32-bit difference of the two measures. */
  function CompareTo(mine: ProfileDistance, theirs: ProfileDistance): int {
    Int32(mine.outOfPlace - theirs.outOfPlace)
  }

  /**
   * Measures of finalized profiles lie in 0..MaxDistance (MeasureInRange),
   * so the difference cannot wrap around: compareTo orders by the measure,
   * which is the key the stable sort uses.
   */
  lemma CompareToOrders(mine: ProfileDistance, theirs: ProfileDistance)
    requires 0 <= mine.outOfPlace <= MaxDistance && 0 <= theirs.outOfPlace <= MaxDistance
    ensures CompareTo(mine, theirs) < 0 <==> DistanceKey(mine) < DistanceKey(theirs)
    ensures CompareTo(mine, theirs) == 0 <==> DistanceKey(mine) == DistanceKey(theirs)
    ensures CompareTo(mine, theirs) > 0 <==> DistanceKey(mine) > DistanceKey(theirs)
  {
  }

  /** The sign of an integer: -1, 0 or 1. */
  function Sign(x: int): int {
    if x < 0 then -1 else if x > 0 then 1 else 0
  }

  /**
   * compareTo subtracts two Java ints.  Its sign is the sign of the
   * difference exactly when the difference fits in 32 bits; otherwise the
   * subtraction wraps around and the sign is reversed.
   */
  lemma CompareToWraps(mine: ProfileDistance, theirs: ProfileDistance)
    requires -0x8000_0000 <= mine.outOfPlace < 0x8000_0000
    requires -0x8000_0000 <= theirs.outOfPlace < 0x8000_0000
    ensures Sign(CompareTo(mine, theirs)) == Sign(mine.outOfPlace - theirs.outOfPlace)
      <==> -0x8000_0000 <= mine.outOfPlace - theirs.outOfPlace < 0x8000_0000
    ensures !(-0x8000_0000 <= mine.outOfPlace - theirs.outOfPlace < 0x8000_0000) ==>
      Sign(CompareTo(mine, theirs)) == -Sign(mine.outOfPlace - theirs.outOfPlace)
  {
    var d := mine.outOfPlace - theirs.outOfPlace;
    if d >= 0x8000_0000 {
      assert Int32(d) == d - 0x1_0000_0000;
    } else if d < -0x8000_0000 {
      assert Int32(d) == d + 0x1_0000_0000;
    }
  }

  /** The out-of-place measure of `query` against `p`. */
  function Measure(query: Profile, p: Profile): int
    reads query, p
  {
    OutOfPlace(query.RankedGrams(), p.RankedGrams())
  }

  /** Every profile of the collection is finalized. */
  predicate AllFinalized(ps: seq<Profile>)
    reads ps
  {
    forall i | 0 <= i < |ps| :: ps[i].finalized
  }

  /** AllFinalized speaks of every member of the collection. */
  lemma AllFinalizedMembers(ps: seq<Profile>)
    requires AllFinalized(ps)
    ensures forall p | p in ps :: p.finalized
  {
    forall p | p in ps ensures p.finalized {
      var j :| 0 <= j < |ps| && ps[j] == p;
    }
  }

  /** Extends the finalized prefix of a collection by one finalized profile. */
  lemma AllFinalizedStep(ps: seq<Profile>, i: nat)
    requires i < |ps| && AllFinalized(ps[..i]) && ps[i].finalized
    ensures AllFinalized(ps[..i + 1])
  {
    assert ps[..i + 1] == ps[..i] + [ps[i]];
  }

  /** One entry per language profile, in the collection's order, with its measure. */
  function Distances(query: Profile, ps: seq<Profile>): (ds: seq<ProfileDistance>)
    reads query, ps
    ensures |ds| == |ps|
    ensures forall i | 0 <= i < |ps| :: ds[i] == ProfileDistance(ps[i], Measure(query, ps[i]))
  {
    if |ps| == 0 then []
    else Distances(query, ps[..|ps| - 1]) + [ProfileDistance(ps[|ps| - 1], Measure(query, ps[|ps| - 1]))]
  }

  /** Extends the distances of a prefix of the collection by one profile. */
  lemma DistancesStep(query: Profile, ps: seq<Profile>, i: nat)
    requires i < |ps|
    ensures Distances(query, ps[..i + 1]) == Distances(query, ps[..i]) + [ProfileDistance(ps[i], Measure(query, ps[i]))]
  {
    assert ps[..i + 1][..i] == ps[..i];
  }

  /** Two finalized profiles are at most MaxDistance apart. */
  lemma MeasureInRange(query: Profile, p: Profile)
    requires query.Valid() && query.finalized && p.Valid() && p.finalized
    ensures 0 <= Measure(query, p) <= MaxDistance
  {
    query.MeasureFacts(p);
  }

  /**
   * On the distances of finalized profiles, `compareTo` orders and ties
   * exactly as the measures do, so sorting by it is sorting by DistanceKey:
   * the ranking is in `compareTo` order.
   */
  lemma CompareToRanks(query: Profile, ps: seq<Profile>)
    requires query.Valid() && query.finalized
    requires forall p | p in ps :: p.Valid() && p.finalized
    ensures forall i, j | 0 <= i < |ps| && 0 <= j < |ps| ::
      && (CompareTo(Distances(query, ps)[i], Distances(query, ps)[j]) < 0 <==> Measure(query, ps[i]) < Measure(query, ps[j]))
      && (CompareTo(Distances(query, ps)[i], Distances(query, ps)[j]) == 0 <==> Measure(query, ps[i]) == Measure(query, ps[j]))
    ensures forall i, j | 0 <= i < j < |Ranked(query, ps)| :: CompareTo(Ranked(query, ps)[i], Ranked(query, ps)[j]) <= 0
  {
    var ds := Distances(query, ps);
    forall i, j | 0 <= i < |ps| && 0 <= j < |ps|
      ensures CompareTo(ds[i], ds[j]) < 0 <==> Measure(query, ps[i]) < Measure(query, ps[j])
      ensures CompareTo(ds[i], ds[j]) == 0 <==> Measure(query, ps[i]) == Measure(query, ps[j])
    {
      MeasureInRange(query, ps[i]);
      MeasureInRange(query, ps[j]);
      CompareToOrders(ds[i], ds[j]);
    }
    var r := Ranked(query, ps);
    RankedFacts(query, ps);
    forall i, j | 0 <= i < j < |r| ensures CompareTo(r[i], r[j]) <= 0 {
      assert r[i] in multiset(ds) && r[j] in multiset(ds);
      var k :| 0 <= k < |ds| && ds[k] == r[i];
      var l :| 0 <= l < |ds| && ds[l] == r[j];
      assert CompareTo(ds[k], ds[l]) <= 0;
    }
  }

  /** `Collections.sort` on the distances: ascending measure, ties in collection order. */
  function Ranked(query: Profile, ps: seq<Profile>): seq<ProfileDistance>
    reads query, ps
  {
    SortBy(Distances(query, ps), DistanceKey)
  }

  /**
   * The ranking has one entry per language profile with its measure, is
   * ordered by non-decreasing measure and keeps profiles at equal distance
   * in collection order.
   */
  lemma RankedFacts(query: Profile, ps: seq<Profile>)
    ensures multiset(Ranked(query, ps)) == multiset(Distances(query, ps))
    ensures SortedBy(Ranked(query, ps), DistanceKey)
    ensures StableFor(Ranked(query, ps), Distances(query, ps), DistanceKey)
  {
    var ds := Distances(query, ps);
    SortByPermutes(ds, DistanceKey);
    SortBySorted(ds, DistanceKey);
    SortByStable(ds, DistanceKey);
  }

  /** The ranking starts with a language profile at the least distance. */
  lemma RankedBest(query: Profile, ps: seq<Profile>)
    requires |ps| != 0
    ensures |Ranked(query, ps)| == |ps|
    ensures Ranked(query, ps)[0].profile in ps
    ensures Ranked(query, ps)[0].outOfPlace == Measure(query, Ranked(query, ps)[0].profile)
    ensures forall p | p in ps :: Ranked(query, ps)[0].outOfPlace <= Measure(query, p)
  {
    var ds := Distances(query, ps);
    SortByHeadIsLeast(ds, DistanceKey);
    var i :| 0 <= i < |ds| && ds[i] == Ranked(query, ps)[0];
    assert ds[i].profile == ps[i];
    forall p | p in ps ensures Ranked(query, ps)[0].outOfPlace <= Measure(query, p) {
      var j :| 0 <= j < |ps| && ps[j] == p;
      assert ds[j] in ds;
    }
  }

  /**
   * A query without n-grams is at distance 0 from every language profile,
   * so every measure ties and the stable sort keeps the collection order:
   * the first language profile is the best match.
   */
  lemma EmptyQueryPicksFirst(query: Profile, ps: seq<Profile>)
    requires |ps| != 0 && |query.nGramList| == 0
    ensures forall p | p in ps :: Measure(query, p) == 0
    ensures Ranked(query, ps)[0] == ProfileDistance(ps[0], 0)
  {
    assert |query.RankedGrams()| == 0;
    var ds := Distances(query, ps);
    assert SortedBy(ds, DistanceKey);
    SortByUnique(ds, ds, DistanceKey);
  }

  class LangDetect {
    /** The frequency profiles of the known languages, never empty. */
    const langProfiles: seq<Profile>

    constructor (profiles: seq<Profile>)
      requires |profiles| != 0
      ensures langProfiles == profiles
    {
      langProfiles := profiles;
    }

    /** Refuses an empty collection of language profiles. */
    static method Create(profiles: seq<Profile>) returns (r: Result<LangDetect>)
      ensures r.Failure? <==> |profiles| == 0
      ensures r.Failure? ==> r.error == NoTrainingData
      ensures r.Success? ==> fresh(r.value) && r.value.langProfiles == profiles
    {
      if |profiles| == 0 {
        return Failure(NoTrainingData);
      }
      var detector := new LangDetect(profiles);
      return Success(detector);
    }

    /**
     * The distance of the query to every language profile, in the
     * collection's order.  Every profile must be finalized.
     */
    method MeasureAll(query: Profile) returns (r: Result<seq<ProfileDistance>>)
      requires query.Valid() && forall p | p in langProfiles :: p.Valid()
      ensures r.Failure? <==> (|langProfiles| != 0 && !query.finalized) || exists p | p in langProfiles :: !p.finalized
      ensures r.Failure? ==> r.error == NotFinalized
      ensures r.Success? ==> r.value == Distances(query, langProfiles)
    {
      var distances: seq<ProfileDistance> := [];
      var i := 0;
      while i < |langProfiles|
        invariant 0 <= i <= |langProfiles|
        invariant distances == Distances(query, langProfiles[..i])
        invariant i > 0 ==> query.finalized
        invariant AllFinalized(langProfiles[..i])
      {
        var p := langProfiles[i];
        var d := query.GetOutOfPlaceMeasure(p);
        if d.Failure? {
          assert !query.finalized || !p.finalized;
          return Failure(d.error);
        }
        assert query.finalized && p.finalized;
        AllFinalizedStep(langProfiles, i);
        DistancesStep(query, langProfiles, i);
        distances := distances + [ProfileDistance(p, d.value)];
        i := i + 1;
      }
      assert langProfiles[..i] == langProfiles;
      AllFinalizedMembers(langProfiles);
      return Success(distances);
    }

    /**
     * Measures the query against every language profile, sorts the
     * distances and returns the closest profile, together with the sorted
     * distances and the best matches that are reported.  Every profile must
     * be finalized.
     */
    method FindBestProfile(query: Profile) returns (r: Result<Profile>, ranking: seq<ProfileDistance>, report: seq<ProfileDistance>)
      requires |langProfiles| != 0
      requires query.Valid() && forall p | p in langProfiles :: p.Valid()
      ensures r.Failure? <==> !query.finalized || exists p | p in langProfiles :: !p.finalized
      ensures r.Failure? ==> r.error == NotFinalized
      ensures r.Success? ==> ranking == Ranked(query, langProfiles) && |ranking| == |langProfiles|
      ensures r.Success? ==> r.value == ranking[0].profile && r.value in langProfiles
      ensures r.Success? ==> forall p | p in langProfiles :: ranking[0].outOfPlace <= Measure(query, p)
      ensures r.Success? ==> report == ranking[..if |langProfiles| < ReportedMatches then |langProfiles| else ReportedMatches]
    {
      var distances := MeasureAll(query);
      if distances.Failure? {
        return Failure(distances.error), [], [];
      }
      ranking := SortBy(distances.value, DistanceKey);
      RankedBest(query, langProfiles);
      var max := if |langProfiles| < ReportedMatches then |langProfiles| else ReportedMatches;
      report := [];
      var k := 0;
      while k < max
        invariant 0 <= k <= max
        invariant report == ranking[..k]
      {
        assert ranking[..k + 1] == ranking[..k] + [ranking[k]];
        report := report + [ranking[k]];
        k := k + 1;
      }
      return Success(ranking[0].profile), ranking, report;
    }
  }
}
