/** A period of whole years, for validation plots. */
module Period {
  import opened Wrappers
  import Strings

  /** The years `beg` through `end`, both included. */
  datatype Period = Period(beg: int, end: int)

  /** `Period.__init__`: the end defaults to the beginning. */
  function NewPeriod(beg: int, end: Option<int>): (p: Period)
    ensures p.beg == beg
    ensures end.None? ==> p.end == beg
    ensures end.Some? ==> p.end == end.value
  {
    Period(beg, end.GetOr(beg))
  }

  /** `Period.str`: the beginning year alone, or both years around `sep`. */
  function Text(p: Period, sep: string): (r: string)
    ensures Strings.StartsWith(r, Strings.IntToString(p.beg))
    ensures p.end != p.beg ==>
              |r| == |Strings.IntToString(p.beg)| + |sep| + |Strings.IntToString(p.end)|
  {
    if p.end == p.beg then Strings.IntToString(p.beg)
    else Strings.IntToString(p.beg) + sep + Strings.IntToString(p.end)
  }

  /** The single year is written exactly for a one-year period, and both
      years read back from the text. */
  lemma TextReadsBack(p: Period, sep: string)
    ensures Text(p, sep) == Strings.IntToString(p.beg) <==> p.end == p.beg
    ensures Strings.ParseInt(Text(p, sep)[..|Strings.IntToString(p.beg)|]) == Some(p.beg)
    ensures p.end != p.beg ==>
              Strings.ParseInt(Text(p, sep)[|Strings.IntToString(p.beg)| + |sep|..]) == Some(p.end)
  {
    var b := Strings.IntToString(p.beg);
    Strings.ParseFormattedInt(p.beg);
    Strings.ParseFormattedInt(p.end);
    if p.end != p.beg {
      var t := Text(p, sep);
      assert t[..|b|] == b;
      assert t[|b| + |sep|..] == Strings.IntToString(p.end);
      assert |t| > |b|;
    } else {
      assert Text(p, sep)[..|b|] == b;
    }
  }

  /** The separator of `Period.__str__`. */
  const DisplaySeparator: string := " - "

  function Display(p: Period): (r: string)
    ensures p.end == p.beg ==> r == Strings.IntToString(p.beg)
    ensures p.end != p.beg ==> |r| > |Strings.IntToString(p.beg)| + |DisplaySeparator|
    ensures p.end != p.beg ==>
              && Strings.ParseInt(r[..|Strings.IntToString(p.beg)|]) == Some(p.beg)
              && r[|Strings.IntToString(p.beg)|..|Strings.IntToString(p.beg)| + |DisplaySeparator|] == DisplaySeparator
              && Strings.ParseInt(r[|Strings.IntToString(p.beg)| + |DisplaySeparator|..]) == Some(p.end)
  {
    TextReadsBack(p, DisplaySeparator);
    var r := Text(p, DisplaySeparator);
    var b := Strings.IntToString(p.beg);
    assert p.end != p.beg ==> r[|b|..|b| + |DisplaySeparator|] == DisplaySeparator;
    r
  }

  /** The period includes year `y`. */
  predicate Covers(p: Period, y: int) {
    p.beg <= y <= p.end
  }

  /** `Period.lim`: the beginning and the exclusive end. */
  function Lim(p: Period): (r: (int, int))
    ensures forall y :: Covers(p, y) <==> r.0 <= y < r.1
  {
    (p.beg, p.end + 1)
  }

  /** The time labels `Period.slice` selects between, both included. */
  function SliceBounds(p: Period): (r: (string, string))
    ensures Strings.EndsWith(r.0, "-01-01") && Strings.EndsWith(r.1, "-12-31")
    ensures Strings.ParseInt(r.0[..|r.0| - 6]) == Some(p.beg)
    ensures Strings.ParseInt(r.1[..|r.1| - 6]) == Some(p.end)
  {
    var first := Strings.IntToString(p.beg) + "-01-01";
    var last := Strings.IntToString(p.end) + "-12-31";
    assert first[..|first| - 6] == Strings.IntToString(p.beg);
    assert last[..|last| - 6] == Strings.IntToString(p.end);
    Strings.ParseFormattedInt(p.beg);
    Strings.ParseFormattedInt(p.end);
    (first, last)
  }
}
