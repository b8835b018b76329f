/** Margin::Range of src/terminal/Grid.h: an inclusive range of rows or columns. */
module Margins {

  /**
   * Its operator== compares both ends, which is the datatype's own equality.
   */
  datatype Range = Range(from: int, to: int) {

    /** Number of rows (or columns) the range spans: both ends count. */
    function Length(): (n: int)
      ensures from <= to ==> n == |Members()|
      ensures n <= 0 <==> to < from
    {
      to - from + 1
    }

    /** Whether the inclusive range holds `value`. */
    predicate Contains(value: int)
      ensures Contains(value) ==> from <= to
      ensures Contains(value) <==> value in Span(from, to)
    {
      assert from <= value <= to ==> Span(from, to)[value - from] == value;
      from <= value && value <= to
    }

    /** The values of the range, in ascending order: the partner of Length and Contains. */
    function Members(): (s: seq<int>)
      ensures forall k :: 0 <= k < |s| ==> s[k] == from + k
      ensures forall v :: (v in s <==> Contains(v))
    {
      var s := Span(from, to);
      assert forall v :: Contains(v) ==> s[v - from] == v;
      s
    }
  }

  /** The integers from `lo` to `hi` inclusive, ascending. */
  function Span(lo: int, hi: int): (s: seq<int>)
    ensures |s| == if hi < lo then 0 else hi - lo + 1
    ensures forall k :: 0 <= k < |s| ==> s[k] == lo + k
    decreases hi - lo
  {
    if hi < lo then [] else Span(lo, hi - 1) + [hi]
  }

  /** A range holds exactly Length() values, each at its offset from `from`. */
  lemma ContainsIffOffset(r: Range, v: int)
    requires r.from <= r.to
    ensures r.Contains(v) <==> 0 <= v - r.from < r.Length()
  {
  }
}
