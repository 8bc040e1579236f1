/**
 * The frequency profile of a text.  While accumulating, it counts n-grams
 * in a map; `Finalize` ranks them by descending count, keeps the first
 * CutOffPos of them (with their rank stored in each record) and freezes the
 * profile.  The out-of-place measure compares two finalized profiles.
 *
 * The pure part states the ranking and the measure on values; the class
 * `Profile` is the mutable object, tied to those values by `Valid`,
 * `Counts` and `Entries`.
 */
module Profiles {
  import opened Wrappers
  import opened Sorting
  import opened NGrams

  /** Maximum number of n-grams a finalized profile keeps. */
  const CutOffPos: nat := 300
  /** Out-of-place value of an n-gram missing from the compared profile. */
  const MaxOoP: nat := 300

  function EntryGram(e: Entry): string {
    e.gram
  }

  function Grams(es: seq<Entry>): (gs: seq<string>)
    ensures |gs| == |es| && forall i | 0 <= i < |es| :: gs[i] == es[i].gram
  {
    MapSeq(es, EntryGram)
  }

  /** The retained prefix of a ranking. */
  function CutOff<T>(s: seq<T>): (r: seq<T>)
    ensures |r| == (if |s| > CutOffPos then CutOffPos else |s|)
    ensures r == s[..|r|]
  {
    if |s| > CutOffPos then s[..CutOffPos] else s
  }

  /**
   * `order` lists every entry of `counts` exactly once: one possible
   * iteration order of the count map.
   */
  ghost predicate IsEnumeration(order: seq<Entry>, counts: map<string, int>) {
    && |order| == |counts.Keys|
    && Distinct(Grams(order))
    && (forall i | 0 <= i < |order| :: order[i].gram in counts && counts[order[i].gram] == order[i].count)
    && (forall g | g in counts :: g in Grams(order))
  }

  /** The ranking a profile keeps when its counts are enumerated in `order`. */
  function Ranking(order: seq<Entry>): seq<Entry> {
    CutOff(SortBy(order, ByCount))
  }

  function Abs(x: int): nat {
    if x < 0 then -x else x
  }

  /** The rank of `g` in `ranked`: the index of its first occurrence. */
  function IndexOf(ranked: seq<string>, g: string): (i: int)
    requires g in ranked
    ensures 0 <= i < |ranked| && ranked[i] == g && g !in ranked[..i]
  {
    if ranked[0] == g then 0
    else
      var i := 1 + IndexOf(ranked[1..], g);
      assert ranked[..i] == [ranked[0]] + ranked[1..][..i - 1];
      i
  }

  /** Out-of-place value of the n-gram `g` at rank `r` against the ranking `theirs`. */
  function Penalty(g: string, r: int, theirs: seq<string>): int {
    if g in theirs then Abs(r - IndexOf(theirs, g)) else MaxOoP
  }

  /**
   * The out-of-place measure of the ranking `mine` against `theirs`: the sum,
   * over the n-grams of `mine`, of their rank differences, or MaxOoP for an
   * n-gram that `theirs` lacks.
   */
  function OutOfPlace(mine: seq<string>, theirs: seq<string>): int {
    if |mine| == 0 then 0
    else OutOfPlace(mine[..|mine| - 1], theirs) + Penalty(mine[|mine| - 1], |mine| - 1, theirs)
  }

  lemma {:induction false} OutOfPlaceBounds(mine: seq<string>, theirs: seq<string>)
    requires |mine| <= CutOffPos && |theirs| <= CutOffPos
    ensures 0 <= OutOfPlace(mine, theirs) <= MaxOoP * |mine|
  {
    if |mine| != 0 {
      OutOfPlaceBounds(mine[..|mine| - 1], theirs);
    }
  }

  /** No shared n-gram: every n-gram pays the full penalty. */
  lemma {:induction false} OutOfPlaceDisjoint(mine: seq<string>, theirs: seq<string>)
    requires forall i | 0 <= i < |mine| :: mine[i] !in theirs
    ensures OutOfPlace(mine, theirs) == MaxOoP * |mine|
  {
    if |mine| != 0 {
      OutOfPlaceDisjoint(mine[..|mine| - 1], theirs);
    }
  }

  /** A ranking is at distance 0 from a ranking that starts with it. */
  lemma {:induction false} OutOfPlacePrefix(mine: seq<string>, theirs: seq<string>)
    requires Distinct(theirs) && mine <= theirs
    ensures OutOfPlace(mine, theirs) == 0
  {
    if |mine| != 0 {
      var n := |mine| - 1;
      OutOfPlacePrefix(mine[..n], theirs);
      assert mine[n] == theirs[n];
      assert IndexOf(theirs, mine[n]) == n;
    }
  }

  lemma {:induction false} OutOfPlaceNonNegative(mine: seq<string>, theirs: seq<string>)
    ensures OutOfPlace(mine, theirs) >= 0
  {
    if |mine| != 0 {
      OutOfPlaceNonNegative(mine[..|mine| - 1], theirs);
    }
  }

  /** Conversely, distance 0 means every n-gram sits at its own rank in the other ranking. */
  lemma {:induction false} OutOfPlaceZero(mine: seq<string>, theirs: seq<string>)
    requires OutOfPlace(mine, theirs) == 0
    ensures mine <= theirs
  {
    if |mine| != 0 {
      var n := |mine| - 1;
      OutOfPlaceNonNegative(mine[..n], theirs);
      assert Penalty(mine[n], n, theirs) == 0;
      assert mine[n] in theirs && IndexOf(theirs, mine[n]) == n;
      OutOfPlaceZero(mine[..n], theirs);
      assert mine == mine[..n] + [mine[n]];
    }
  }

  /** Against a ranking without duplicates, distance 0 means exactly being its prefix. */
  lemma OutOfPlaceZeroIff(mine: seq<string>, theirs: seq<string>)
    requires Distinct(theirs)
    ensures OutOfPlace(mine, theirs) == 0 <==> mine <= theirs
  {
    if mine <= theirs {
      OutOfPlacePrefix(mine, theirs);
    }
    if OutOfPlace(mine, theirs) == 0 {
      OutOfPlaceZero(mine, theirs);
    }
  }

  lemma OutOfPlaceSelf(ranked: seq<string>)
    requires Distinct(ranked)
    ensures OutOfPlace(ranked, ranked) == 0
  {
    OutOfPlacePrefix(ranked, ranked);
  }

  /** A record paired with the entry it had when the map's values were copied. */
  datatype Slot = Slot(entry: Entry, ngram: NGram)

  function SlotKey(s: Slot): int {
    ByCount(s.entry)
  }

  function SlotEntry(s: Slot): Entry {
    s.entry
  }

  function SlotGram(s: Slot): string {
    s.entry.gram
  }

  function GramOf(n: NGram): string {
    n.gram
  }

  function SlotRecord(s: Slot): NGram {
    s.ngram
  }

  /**
   * Every slot holds a record of `m` under the record's own gram, with the
   * count `counts` gives that gram.
   */
  ghost predicate SlotsOf(slots: seq<Slot>, m: map<string, NGram>, counts: map<string, int>) {
    forall i | 0 <= i < |slots| ::
      && slots[i].entry.gram in m && m[slots[i].entry.gram] == slots[i].ngram
      && slots[i].ngram.gram == slots[i].entry.gram
      && slots[i].entry.gram in counts && counts[slots[i].entry.gram] == slots[i].entry.count
  }

  function Snapshots(l: seq<NGram>): (es: seq<Entry>)
    reads l
    ensures |es| == |l| && forall i | 0 <= i < |l| :: es[i] == Entry(l[i].gram, l[i].count)
  {
    seq(|l|, i reads l requires 0 <= i < |l| => l[i].Snapshot())
  }

  class Profile {
    const name: string
    var nGramMap: map<string, NGram>
    var nGramList: seq<NGram>
    var finalized: bool

    /**
     * Keys are the records' grams and counts are positive.  Before
     * finalization no record has a rank and the list is empty; afterwards the
     * list holds exactly the map's records, at most CutOffPos of them, each at
     * the index equal to its rank, by non-increasing count.
     */
    ghost predicate Valid()
      reads this, nGramMap.Values, nGramList
    {
      && (forall g | g in nGramMap :: g != "" && nGramMap[g].gram == g && nGramMap[g].count >= 1)
      && (!finalized ==> |nGramList| == 0 && forall g | g in nGramMap :: nGramMap[g].pos == -1)
      && (finalized ==>
            && |nGramList| <= CutOffPos
            && (forall i | 0 <= i < |nGramList| ::
                  nGramList[i].gram in nGramMap && nGramMap[nGramList[i].gram] == nGramList[i] && nGramList[i].pos == i)
            && (forall g | g in nGramMap :: nGramMap[g] in nGramList)
            && (forall i, j | 0 <= i < j < |nGramList| :: nGramList[i].count >= nGramList[j].count))
    }

    /** The count of every n-gram in the map. */
    ghost function Counts(): map<string, int>
      reads this, nGramMap.Values
    {
      map g | g in nGramMap :: nGramMap[g].count
    }

    /** The ranked list as values. */
    ghost function Entries(): seq<Entry>
      reads this, nGramList
    {
      Snapshots(nGramList)
    }

    /** The grams of the ranked list, in rank order. */
    function RankedGrams(): seq<string>
      reads this
    {
      MapSeq(nGramList, GramOf)
    }

    constructor (name: string)
      ensures Valid() && !finalized && this.name == name
      ensures nGramMap == map[] && |nGramList| == 0
    {
      this.name := name;
      nGramMap := map[];
      nGramList := [];
      finalized := false;
    }

    function GetName(): string {
      name
    }

    function IsFinalized(): bool
      reads this
    {
      finalized
    }

    /** In a finalized profile the map is the rank lookup of the ranked list. */
    lemma RankedLookup()
      requires Valid() && finalized
      ensures Distinct(RankedGrams())
      ensures forall g :: g in nGramMap <==> g in RankedGrams()
      ensures forall g | g in nGramMap :: nGramMap[g].pos == IndexOf(RankedGrams(), g)
    {
      var gs := RankedGrams();
      forall i, j | 0 <= i < j < |gs| ensures gs[i] != gs[j] {
        assert nGramMap[gs[i]] == nGramList[i] && nGramMap[gs[j]] == nGramList[j];
      }
      forall g | g in nGramMap ensures g in gs {
        var k :| 0 <= k < |nGramList| && nGramList[k] == nGramMap[g];
        assert gs[k] == g;
      }
      forall g | g in nGramMap ensures nGramMap[g].pos == IndexOf(gs, g) {
        var k := IndexOf(gs, g);
        assert nGramList[k].gram == g;
      }
    }

    /** A finalized profile ranks its entries by non-increasing count. */
    lemma SortedEntries()
      requires Valid() && finalized
      ensures SortedBy(Entries(), ByCount)
    {
    }

    /** The ranked grams are the grams of the ranked entries. */
    /** A finalized profile keeps at most CutOffPos n-grams. */
    lemma Bounded()
      requires Valid() && finalized
      ensures |Counts().Keys| <= CutOffPos
    {
      RankedLookup();
      var gs := RankedGrams();
      assert Counts().Keys <= set g | g in gs;
      SetOfSeqSize(gs);
      SubsetSize(Counts().Keys, set g | g in gs);
    }

    /**
     * Counts one more occurrence of `g`: a new n-gram starts at 1, a known
     * one goes up by one, nothing else changes.  A finalized profile refuses.
     */
    method AddNGram(g: string) returns (r: Result<int>)
      requires Valid()
      modifies this, nGramMap.Values
      ensures Valid()
      ensures finalized == old(finalized) && nGramList == old(nGramList)
      ensures r.Failure? ==> unchanged(this) && unchanged(old(nGramMap.Values))
      ensures forall n | n in nGramMap.Values :: n in old(nGramMap.Values) || fresh(n)
      ensures old(finalized) ==> r == Failure(AlreadyFinalized)
      ensures !old(finalized) && g == "" ==> r == Failure(InvalidGram)
      ensures !old(finalized) && g != "" ==>
        && r == Success(if g in old(Counts()) then old(Counts())[g] + 1 else 1)
        && Counts() == old(Counts())[g := r.value]
    {
      if finalized {
        return Failure(AlreadyFinalized);
      }
      if g in nGramMap {
        var ngram := nGramMap[g];
        var c := ngram.IncCount();
        assert forall k | k in nGramMap && k != g :: nGramMap[k] != ngram;
        r := Success(ngram.GetCount());
      } else {
        var created := NGram.Create(g);
        if created.Failure? {
          return Failure(created.error);
        }
        var ngram := created.value;
        nGramMap := nGramMap[g := ngram];
        r := Success(ngram.GetCount());
      }
    }

    /**
     * Copies the map's records, in an iteration order that nothing fixes,
     * each with the entry it holds.
     */
    method Values() returns (values: seq<Slot>)
      requires Valid()
      ensures |values| == |nGramMap.Keys|
      ensures SlotsOf(values, nGramMap, Counts())
      ensures Distinct(MapSeq(values, SlotGram))
      ensures forall g | g in nGramMap :: g in MapSeq(values, SlotGram)
    {
      values := [];
      var remaining := nGramMap.Keys;
      while remaining != {}
        invariant remaining <= nGramMap.Keys
        invariant |values| + |remaining| == |nGramMap.Keys|
        invariant SlotsOf(values, nGramMap, Counts())
        invariant forall i | 0 <= i < |values| :: values[i].entry.gram !in remaining
        invariant Distinct(MapSeq(values, SlotGram))
        invariant forall g | g in nGramMap :: g in remaining || g in MapSeq(values, SlotGram)
        decreases |remaining|
      {
        var g :| g in remaining;
        var ngram := nGramMap[g];
        ghost var before := MapSeq(values, SlotGram);
        values := values + [Slot(ngram.Snapshot(), ngram)];
        assert MapSeq(values, SlotGram) == before + [g];
        remaining := remaining - {g};
      }
    }

    /**
     * Ranks the n-grams.  The first call sorts the records by descending
     * count (equal counts in the map's iteration order `order`), gives the
     * first CutOffPos of them ranks 0, 1, 2, ..., drops the others from the
     * map and freezes the profile.  Later calls change nothing.
     */
    method Finalize() returns (ghost order: seq<Entry>)
      requires Valid()
      modifies this, nGramMap.Values
      ensures Valid() && finalized
      ensures old(finalized) ==> unchanged(this) && unchanged(old(nGramMap.Values))
      ensures !old(finalized) ==> IsEnumeration(order, old(Counts()))
      ensures !old(finalized) ==> Entries() == Ranking(order)
      ensures !old(finalized) ==> |nGramList| == if |old(Counts()).Keys| > CutOffPos then CutOffPos else |old(Counts()).Keys|
      ensures !old(finalized) ==> forall g | g in Counts() :: g in old(Counts()) && Counts()[g] == old(Counts())[g]
    {
      if finalized {
        order := [];
        return;
      }
      ghost var counts := Counts();
      ghost var oldMap := nGramMap;
      var values := Values();
      order := MapSeq(values, SlotEntry);
      var sorted := SortBy(values, SlotKey);
      PrepareRanking(values, sorted, counts);
      AssignRanks(sorted, counts);
      Freeze(sorted, oldMap, counts);
      SortByPermutes(order, ByCount);
    }

    /** The last step of Finalize: keeps the first CutOffPos records as the ranked list. */
    method Freeze(sorted: seq<Slot>, ghost oldMap: map<string, NGram>, ghost counts: map<string, int>)
      requires SlotsOf(sorted, oldMap, counts) && Distinct(MapSeq(sorted, SlotGram))
      requires SortedBy(MapSeq(sorted, SlotEntry), ByCount)
      requires forall g | g in oldMap :: g != "" && oldMap[g].gram == g && g in counts && oldMap[g].count == counts[g] && counts[g] >= 1
      requires forall g | g in oldMap :: g in MapSeq(sorted, SlotGram)
      requires forall g | g in nGramMap :: g in oldMap && nGramMap[g] == oldMap[g]
      requires forall i | 0 <= i < |sorted| :: sorted[i].ngram.pos == (if i < CutOffPos then i else -1)
      requires forall i | 0 <= i < |sorted| :: (sorted[i].entry.gram in nGramMap <==> i < CutOffPos)
      modifies this
      ensures nGramMap == old(nGramMap) && finalized
      ensures Valid()
      ensures Entries() == CutOff(MapSeq(sorted, SlotEntry))
      ensures forall g | g in Counts() :: g in counts && Counts()[g] == counts[g]
    {
      var list := MapSeq(sorted, SlotRecord);
      if |list| > CutOffPos {
        nGramList := list[..CutOffPos];
      } else {
        nGramList := list;
      }
      finalized := true;
      FinalizedValid(sorted, oldMap, counts);
    }

    /** What Finalize knows about the sorted copies before it ranks them. */
    lemma {:induction false} PrepareRanking(values: seq<Slot>, sorted: seq<Slot>, counts: map<string, int>)
      requires Valid() && !finalized && counts == Counts()
      requires |values| == |nGramMap.Keys|
      requires SlotsOf(values, nGramMap, counts) && Distinct(MapSeq(values, SlotGram))
      requires forall g | g in nGramMap :: g in MapSeq(values, SlotGram)
      requires sorted == SortBy(values, SlotKey)
      ensures IsEnumeration(MapSeq(values, SlotEntry), counts)
      ensures SlotsOf(sorted, nGramMap, counts) && Distinct(MapSeq(sorted, SlotGram))
      ensures forall i, j | 0 <= i < |sorted| && 0 <= j < |sorted| && i != j :: sorted[i].ngram != sorted[j].ngram
      ensures MapSeq(sorted, SlotEntry) == SortBy(MapSeq(values, SlotEntry), ByCount)
      ensures SortedBy(MapSeq(sorted, SlotEntry), ByCount)
      ensures forall i | 0 <= i < |sorted| :: sorted[i].ngram.pos == -1
      ensures forall g | g in nGramMap :: g != "" && nGramMap[g].gram == g && g in counts && nGramMap[g].count == counts[g] && counts[g] >= 1
      ensures forall g | g in nGramMap :: g in MapSeq(sorted, SlotGram)
    {
      var order := MapSeq(values, SlotEntry);
      SortedSlots(values, sorted, nGramMap, counts);
      SlotRecordsDistinct(sorted, nGramMap, counts);
      assert IsEnumeration(order, counts) by {
        assert counts.Keys == nGramMap.Keys;
        assert Grams(order) == MapSeq(values, SlotGram);
        forall i | 0 <= i < |order| ensures order[i].gram in counts && counts[order[i].gram] == order[i].count {
          assert order[i] == values[i].entry;
        }
      }
      SortBySorted(order, ByCount);
      forall g | g in nGramMap ensures g in MapSeq(sorted, SlotGram) {
        var k :| 0 <= k < |values| && MapSeq(values, SlotGram)[k] == g;
      }
    }

    /**
     * The ranking loop of Finalize: the record at index i of `sorted` gets
     * rank i when i < CutOffPos and is removed from the map otherwise.
     */
    method AssignRanks(sorted: seq<Slot>, ghost counts: map<string, int>)
      requires !finalized
      requires SlotsOf(sorted, nGramMap, counts)
      requires forall i, j | 0 <= i < |sorted| && 0 <= j < |sorted| && i != j :: sorted[i].ngram != sorted[j].ngram
      requires forall i | 0 <= i < |sorted| :: sorted[i].ngram.pos == -1
      requires forall g | g in nGramMap :: g in counts && nGramMap[g].count == counts[g]
      modifies this, nGramMap.Values
      ensures nGramList == old(nGramList) && !finalized
      ensures forall g | g in nGramMap :: g in old(nGramMap) && nGramMap[g] == old(nGramMap)[g]
      ensures forall g | g in old(nGramMap) :: old(nGramMap)[g].count == counts[g]
      ensures forall i | 0 <= i < |sorted| :: sorted[i].ngram.pos == (if i < CutOffPos then i else -1)
      ensures forall i | 0 <= i < |sorted| :: (sorted[i].entry.gram in nGramMap <==> i < CutOffPos)
    {
      ghost var oldMap := nGramMap;
      var pos := 0;
      while pos < |sorted|
        invariant 0 <= pos <= |sorted|
        invariant nGramList == old(nGramList) && !finalized
        invariant forall g | g in nGramMap :: g in oldMap && nGramMap[g] == oldMap[g]
        invariant forall g | g in oldMap :: oldMap[g].count == counts[g]
        invariant forall i | 0 <= i < |sorted| ::
          sorted[i].ngram.pos == (if i < pos && i < CutOffPos then i else -1)
        invariant forall i | 0 <= i < |sorted| ::
          (sorted[i].entry.gram in nGramMap <==> (i < CutOffPos || pos <= i))
      {
        var ngram := sorted[pos].ngram;
        if pos < CutOffPos {
          assert ngram == oldMap[sorted[pos].entry.gram];
          ngram.SetPos(pos);
        } else {
          nGramMap := nGramMap - {ngram.GetGram()};
        }
        pos := pos + 1;
      }
    }

    /** The state the ranking loop of Finalize leaves is a valid finalized profile. */
    lemma FinalizedValid(sorted: seq<Slot>, oldMap: map<string, NGram>, counts: map<string, int>)
      requires finalized && nGramList == CutOff(MapSeq(sorted, SlotRecord))
      requires SlotsOf(sorted, oldMap, counts) && Distinct(MapSeq(sorted, SlotGram))
      requires SortedBy(MapSeq(sorted, SlotEntry), ByCount)
      requires forall g | g in oldMap :: g != "" && oldMap[g].gram == g && g in counts && oldMap[g].count == counts[g] && counts[g] >= 1
      requires forall g | g in oldMap :: g in MapSeq(sorted, SlotGram)
      requires forall g | g in nGramMap :: g in oldMap && nGramMap[g] == oldMap[g]
      requires forall i | 0 <= i < |sorted| :: sorted[i].ngram.pos == (if i < CutOffPos then i else -1)
      requires forall i | 0 <= i < |sorted| :: (sorted[i].entry.gram in nGramMap <==> i < CutOffPos)
      ensures Valid()
      ensures Entries() == CutOff(MapSeq(sorted, SlotEntry))
      ensures forall g | g in Counts() :: g in counts && Counts()[g] == counts[g]
    {
      var es := MapSeq(sorted, SlotEntry);
      forall i | 0 <= i < |nGramList|
        ensures nGramList[i].gram in nGramMap && nGramMap[nGramList[i].gram] == nGramList[i] && nGramList[i].pos == i
        ensures Entries()[i] == es[i]
      {
        assert nGramList[i] == sorted[i].ngram;
      }
      assert Entries() == CutOff(es);
      forall g | g in nGramMap ensures nGramMap[g] in nGramList {
        var k := IndexOf(MapSeq(sorted, SlotGram), g);
        assert sorted[k].entry.gram == g;
        assert nGramList[k] == sorted[k].ngram;
      }
      forall i, j | 0 <= i < j < |nGramList| ensures nGramList[i].count >= nGramList[j].count {
        assert es[i] == Entries()[i] && es[j] == Entries()[j];
      }
    }

    /**
     * One step of the measure: the lookup of the i-th ranked n-gram in the
     * other profile's map yields its penalty.
     */
    lemma PenaltyStep(other: Profile, i: int)
      requires Valid() && finalized && other.Valid() && other.finalized
      requires 0 <= i < |nGramList|
      ensures
        var n := nGramList[i];
        OutOfPlace(RankedGrams()[..i + 1], other.RankedGrams())
          == OutOfPlace(RankedGrams()[..i], other.RankedGrams())
            + (if n.gram in other.nGramMap then Abs(n.pos - other.nGramMap[n.gram].pos) else MaxOoP)
    {
      other.RankedLookup();
      var gs := RankedGrams();
      assert gs[..i + 1][..i] == gs[..i];
      assert gs[..i + 1][i] == gs[i] == nGramList[i].gram;
      assert nGramList[i].pos == i;
    }

    /**
     * The measure of two finalized profiles is bounded by 300 per ranked
     * n-gram, and is 0 exactly when this ranking is a prefix of the other.
     */
    lemma MeasureFacts(other: Profile)
      requires Valid() && finalized && other.Valid() && other.finalized
      ensures 0 <= OutOfPlace(RankedGrams(), other.RankedGrams()) <= MaxOoP * |RankedGrams()|
      ensures OutOfPlace(RankedGrams(), other.RankedGrams()) == 0 <==> RankedGrams() <= other.RankedGrams()
    {
      OutOfPlaceBounds(RankedGrams(), other.RankedGrams());
      other.RankedLookup();
      OutOfPlaceZeroIff(RankedGrams(), other.RankedGrams());
    }

    /**
     * The out-of-place measure of this profile against `other`; both must
     * be finalized.
     */
    method GetOutOfPlaceMeasure(other: Profile) returns (r: Result<int>)
      requires Valid() && other.Valid()
      ensures r.Failure? <==> !finalized || !other.finalized
      ensures r.Failure? ==> r.error == NotFinalized
      ensures r.Success? ==> r.value == OutOfPlace(RankedGrams(), other.RankedGrams())
      ensures r.Success? ==> 0 <= r.value <= MaxOoP * |RankedGrams()|
      ensures r.Success? ==> (r.value == 0 <==> RankedGrams() <= other.RankedGrams())
    {
      if !finalized || !other.finalized {
        return Failure(NotFinalized);
      }
      ghost var mine := RankedGrams();
      ghost var theirs := other.RankedGrams();
      var dist := 0;
      var i := 0;
      while i < |nGramList|
        invariant 0 <= i <= |nGramList|
        invariant dist == OutOfPlace(mine[..i], theirs)
      {
        var ngram := nGramList[i];
        PenaltyStep(other, i);
        if ngram.gram in other.nGramMap {
          var oNGram := other.nGramMap[ngram.gram];
          dist := dist + Abs(ngram.pos - oNGram.pos);
        } else {
          dist := dist + MaxOoP;
        }
        i := i + 1;
      }
      assert mine[..i] == mine;
      MeasureFacts(other);
      return Success(dist);
    }
  }

  lemma {:induction false} SetOfSeqSize(s: seq<string>)
    ensures |set g | g in s| <= |s|
  {
    if |s| != 0 {
      SetOfSeqSize(s[1..]);
      assert (set g | g in s) == {s[0]} + set g | g in s[1..];
    }
  }

  lemma {:induction false} SubsetSize<T>(a: set<T>, b: set<T>)
    requires a <= b
    ensures |a| <= |b|
  {
    if a != {} {
      var x :| x in a;
      SubsetSize(a - {x}, b - {x});
    }
  }

  /** What sorting the copied records establishes about them. */
  lemma {:induction false} SortedSlots(values: seq<Slot>, sorted: seq<Slot>, m: map<string, NGram>, counts: map<string, int>)
    requires sorted == SortBy(values, SlotKey)
    requires SlotsOf(values, m, counts)
    requires Distinct(MapSeq(values, SlotGram))
    ensures |sorted| == |values|
    ensures SlotsOf(sorted, m, counts)
    ensures Distinct(MapSeq(sorted, SlotGram))
    ensures MapSeq(sorted, SlotEntry) == SortBy(MapSeq(values, SlotEntry), ByCount)
    ensures forall k | 0 <= k < |values| :: SlotGram(values[k]) in MapSeq(sorted, SlotGram)
  {
    SortByPermutes(values, SlotKey);
    SlotsDistinct(values);
    PermutationKeepsDistinct(values, sorted);
    forall i | 0 <= i < |sorted| ensures sorted[i] in values {
      assert sorted[i] in multiset(sorted);
    }
    DistinctSlotsDistinctGrams(sorted, values);
    SortByProject(values, SlotEntry, SlotKey, ByCount);
    forall k | 0 <= k < |values| ensures SlotGram(values[k]) in MapSeq(sorted, SlotGram) {
      assert values[k] in multiset(sorted);
      assert values[k] in sorted;
      MapSeqHas(sorted, SlotGram, values[k]);
    }
  }

  /** Slots with distinct grams hold distinct records. */
  lemma SlotRecordsDistinct(slots: seq<Slot>, m: map<string, NGram>, counts: map<string, int>)
    requires SlotsOf(slots, m, counts) && Distinct(MapSeq(slots, SlotGram))
    ensures forall i, j | 0 <= i < |slots| && 0 <= j < |slots| && i != j :: slots[i].ngram != slots[j].ngram
  {
    var gs := MapSeq(slots, SlotGram);
    forall i, j | 0 <= i < |slots| && 0 <= j < |slots| && i != j ensures slots[i].ngram != slots[j].ngram {
      assert if i < j then gs[i] != gs[j] else gs[j] != gs[i];
    }
  }

  lemma SlotsDistinct(values: seq<Slot>)
    requires Distinct(MapSeq(values, SlotGram))
    ensures Distinct(values)
  {
    forall i, j | 0 <= i < j < |values| ensures values[i] != values[j] {
      assert MapSeq(values, SlotGram)[i] != MapSeq(values, SlotGram)[j];
    }
  }

  /** Distinct slots drawn from slots with distinct grams have distinct grams. */
  lemma DistinctSlotsDistinctGrams(sorted: seq<Slot>, values: seq<Slot>)
    requires Distinct(sorted)
    requires forall i | 0 <= i < |sorted| :: sorted[i] in values
    requires Distinct(MapSeq(values, SlotGram))
    ensures Distinct(MapSeq(sorted, SlotGram))
  {
    var gs := MapSeq(sorted, SlotGram);
    var vs := MapSeq(values, SlotGram);
    forall i, j | 0 <= i < j < |sorted| ensures gs[i] != gs[j] {
      assert sorted[i] in values && sorted[j] in values;
      var p :| 0 <= p < |values| && values[p] == sorted[i];
      var q :| 0 <= q < |values| && values[q] == sorted[j];
      assert p != q;
      assert vs[p] == gs[i] && vs[q] == gs[j];
      if p < q {
        assert vs[p] != vs[q];
      } else {
        assert vs[q] != vs[p];
      }
    }
  }

  /**
   * Every ranked entry comes from the count map, and the ranking keeps
   * min(300, number of distinct n-grams) of them.
   */
  lemma {:induction false} RankingGrams(order: seq<Entry>, counts: map<string, int>)
    requires IsEnumeration(order, counts)
    ensures forall i | 0 <= i < |Ranking(order)| :: Ranking(order)[i].gram in counts
    ensures |Ranking(order)| == if |counts.Keys| > CutOffPos then CutOffPos else |counts.Keys|
  {
    var sorted := SortBy(order, ByCount);
    SortByPermutes(order, ByCount);
    forall i | 0 <= i < |Ranking(order)| ensures Ranking(order)[i].gram in counts {
      assert Ranking(order)[i] == sorted[i];
      assert sorted[i] in multiset(order);
      var k :| 0 <= k < |order| && order[k] == sorted[i];
    }
  }

  /**
   * Profiles without a common n-gram: every ranked n-gram of the first pays
   * the full penalty, whatever order the counts were enumerated in.
   */
  lemma {:induction false} DisjointDistance(mine: seq<Entry>, theirs: seq<Entry>, cm: map<string, int>, ct: map<string, int>)
    requires IsEnumeration(mine, cm) && IsEnumeration(theirs, ct)
    requires forall g | g in cm :: g !in ct
    ensures OutOfPlace(Grams(Ranking(mine)), Grams(Ranking(theirs))) == MaxOoP * |Ranking(mine)|
    ensures |Ranking(mine)| == if |cm.Keys| > CutOffPos then CutOffPos else |cm.Keys|
  {
    RankingGrams(mine, cm);
    RankingGrams(theirs, ct);
    var gm := Grams(Ranking(mine));
    var gt := Grams(Ranking(theirs));
    forall i | 0 <= i < |gm| ensures gm[i] !in gt {
      forall k | 0 <= k < |gt| ensures gt[k] != gm[i] {
        assert Ranking(theirs)[k].gram in ct;
      }
    }
    OutOfPlaceDisjoint(gm, gt);
  }

  /** An enumeration of three counts lists each of their three entries once. */
  lemma {:induction false} EnumerationOfThree(order: seq<Entry>, x: Entry, y: Entry, z: Entry)
    requires x.gram != y.gram && y.gram != z.gram && x.gram != z.gram
    requires IsEnumeration(order, map[x.gram := x.count, y.gram := y.count, z.gram := z.count])
    ensures |order| == 3 && Distinct(order)
    ensures forall i | 0 <= i < |order| :: order[i] == x || order[i] == y || order[i] == z
  {
    var m := map[x.gram := x.count, y.gram := y.count, z.gram := z.count];
    assert m.Keys == {x.gram, y.gram, z.gram};
    var gs := Grams(order);
    forall i | 0 <= i < |order| ensures order[i] == x || order[i] == y || order[i] == z {
      var g := order[i].gram;
      assert g in m && order[i] == Entry(g, m[g]);
    }
    forall i, j | 0 <= i < j < |order| ensures order[i] != order[j] {
      assert gs[i] != gs[j];
    }
  }

  /** The only sorted arrangement of three entries with distinct keys. */
  lemma {:induction false} SortedOfThree(s: seq<Entry>, x: Entry, y: Entry, z: Entry)
    requires ByCount(x) < ByCount(y) < ByCount(z)
    requires |s| == 3 && Distinct(s) && SortedBy(s, ByCount)
    requires forall i | 0 <= i < |s| :: s[i] == x || s[i] == y || s[i] == z
    ensures s == [x, y, z]
  {
    assert s[0] != s[1] && s[1] != s[2] && s[0] != s[2];
    assert ByCount(s[0]) <= ByCount(s[1]) <= ByCount(s[2]);
    assert s == [s[0], s[1], s[2]];
  }

  /** Three n-grams with distinct counts are ranked alike in every enumeration. */
  lemma {:induction false} RankingOfThree(order: seq<Entry>, x: Entry, y: Entry, z: Entry)
    requires x.count > y.count > z.count
    requires x.gram != y.gram && y.gram != z.gram && x.gram != z.gram
    requires IsEnumeration(order, map[x.gram := x.count, y.gram := y.count, z.gram := z.count])
    ensures Grams(Ranking(order)) == [x.gram, y.gram, z.gram]
  {
    EnumerationOfThree(order, x, y, z);
    var s := SortBy(order, ByCount);
    SortByPermutes(order, ByCount);
    SortBySorted(order, ByCount);
    PermutationKeepsDistinct(order, s);
    forall k | 0 <= k < |s| ensures s[k] == x || s[k] == y || s[k] == z {
      assert s[k] in multiset(order);
    }
    SortedOfThree(s, x, y, z);
    assert Ranking(order) == s;
  }

  /** The distance 4 of a:3, b:2, c:1 against a:1, b:3, c:2. */
  lemma {:induction false} CertainDistance(mine: seq<Entry>, theirs: seq<Entry>)
    requires IsEnumeration(mine, map["a" := 3, "b" := 2, "c" := 1])
    requires IsEnumeration(theirs, map["a" := 1, "b" := 3, "c" := 2])
    ensures OutOfPlace(Grams(Ranking(mine)), Grams(Ranking(theirs))) == 4
  {
    RankingOfThree(mine, Entry("a", 3), Entry("b", 2), Entry("c", 1));
    assert map["a" := 1, "b" := 3, "c" := 2] == map["b" := 3, "c" := 2, "a" := 1];
    RankingOfThree(theirs, Entry("b", 3), Entry("c", 2), Entry("a", 1));
    var gm := ["a", "b", "c"];
    var gt := ["b", "c", "a"];
    assert IndexOf(gt, "a") == 2 && IndexOf(gt, "b") == 0 && IndexOf(gt, "c") == 1;
    assert gm[..2][..1] == ["a"] && gm[..2] == ["a", "b"] && gm[..1][..0] == [];
  }

  /** Three n-grams all missing from a profile holding only d: 3 * MaxOoP. */
  lemma {:induction false} MaxDistance(mine: seq<Entry>, theirs: seq<Entry>)
    requires IsEnumeration(mine, map["a" := 1, "b" := 2, "c" := 1])
    requires IsEnumeration(theirs, map["d" := 1])
    ensures OutOfPlace(Grams(Ranking(mine)), Grams(Ranking(theirs))) == 3 * MaxOoP
  {
    var cm := map["a" := 1, "b" := 2, "c" := 1];
    assert cm.Keys == {"a", "b", "c"};
    DisjointDistance(mine, theirs, cm, map["d" := 1]);
  }

  /** A single shared n-gram: distance 0. */
  lemma {:induction false} ZeroDistance(mine: seq<Entry>, theirs: seq<Entry>)
    requires IsEnumeration(mine, map["a" := 1])
    requires IsEnumeration(theirs, map["a" := 1])
    ensures OutOfPlace(Grams(Ranking(mine)), Grams(Ranking(theirs))) == 0
  {
    assert map["a" := 1].Keys == {"a"};
    assert |mine| == 1 && |theirs| == 1;
    assert mine[0].gram in map["a" := 1] && theirs[0].gram in map["a" := 1];
    assert mine == [Entry("a", 1)] && theirs == mine;
    assert SortBy(mine, ByCount) == [Entry("a", 1)];
    assert Grams(Ranking(mine)) == ["a"];
    OutOfPlaceSelf(Grams(Ranking(mine)));
  }
}
