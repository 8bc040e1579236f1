/**
 * An n-gram record: the characters of the n-gram, how often it occurred in a
 * text, and its rank in the text's frequency profile (-1 until the profile
 * is finalized).
 */
module NGrams {
  import opened Wrappers

  /** The value of an n-gram record as the ranking sees it: characters and count. */
  datatype Entry = Entry(gram: string, count: int)

  /**
   * The comparator of n-grams on their counts: -1 when `mine` is the larger
   * count, 1 when it is the smaller, 0 when both are equal, so that sorting
   * with it puts frequent n-grams first.
   */
  function CompareCounts(mine: int, theirs: int): (r: int)
    ensures r == -1 <==> mine > theirs
    ensures r == 1 <==> mine < theirs
    ensures r == 0 <==> mine == theirs
  {
    var diff := theirs - mine;
    if diff < 0 then -1 else if diff > 0 then 1 else 0
  }

  /** The sort key that orders entries as CompareCounts does: higher counts first. */
  function ByCount(e: Entry): int {
    -e.count
  }

  /** CompareCounts is antisymmetric, a total preorder, and agrees with ByCount. */
  lemma CompareCountsIsTotalPreorder(a: Entry, b: Entry, c: Entry)
    ensures CompareCounts(a.count, b.count) == -CompareCounts(b.count, a.count)
    ensures CompareCounts(a.count, b.count) <= 0 || CompareCounts(b.count, a.count) <= 0
    ensures CompareCounts(a.count, b.count) <= 0 && CompareCounts(b.count, c.count) <= 0 ==> CompareCounts(a.count, c.count) <= 0
    ensures CompareCounts(a.count, b.count) <= 0 <==> ByCount(a) <= ByCount(b)
  {
  }

  class NGram {
    const gram: string
    var count: int
    var pos: int

    /** A new n-gram has been seen once and has no rank yet. */
    constructor (g: string)
      requires g != ""
      ensures gram == g && count == 1 && pos == -1
    {
      gram := g;
      count := 1;
      pos := -1;
    }

    /** The checked construction: an empty gram is rejected. */
    static method Create(g: string) returns (r: Result<NGram>)
      ensures r.Failure? <==> g == ""
      ensures r.Failure? ==> r.error == InvalidGram
      ensures r.Success? ==> fresh(r.value) && r.value.gram == g && r.value.count == 1 && r.value.pos == -1
    {
      if g == "" {
        return Failure(InvalidGram);
      }
      var n := new NGram(g);
      return Success(n);
    }

    function GetGram(): string {
      gram
    }

    function GetCount(): int
      reads this
    {
      count
    }

    function GetPos(): int
      reads this
    {
      pos
    }

    /** The entry this record stands for at this moment. */
    function Snapshot(): Entry
      reads this
    {
      Entry(gram, count)
    }

    method IncCount() returns (c: int)
      modifies this
      ensures count == old(count) + 1 && c == count
      ensures pos == old(pos)
    {
      count := count + 1;
      c := count;
    }

    method SetPos(p: int)
      modifies this
      ensures pos == p && count == old(count)
    {
      pos := p;
    }

    /** Orders by descending count; a missing other n-gram sorts after this one. */
    function CompareTo(o: NGram?): (r: int)
      reads this, o
      ensures o == null ==> r == -1
      ensures o != null ==> (r == -1 <==> count > o.count) && (r == 1 <==> count < o.count) && (r == 0 <==> count == o.count)
    {
      if o == null then -1 else CompareCounts(count, o.count)
    }
  }
}
