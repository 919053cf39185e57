/** The GraphQL scalar for durations: the rendered duration without its fraction of a
    second. */
module Scalars {
  import opened Strings

  /** `Timedelta.serialize`, applied to the duration as Python renders it: the text before
      the first `.`. */
  function Serialize(rendered: string): (r: string)
    ensures StartsWith(rendered, r)
    ensures '.' !in r
    ensures |r| < |rendered| ==> rendered[|r|] == '.'
  {
    BeforeFirst(rendered, '.')
  }

  /** A rendering without a fraction is returned as it is. */
  lemma SerializeWhole(rendered: string)
    requires '.' !in rendered
    ensures Serialize(rendered) == rendered
  {
  }

  /** Serializing twice changes nothing more. */
  lemma SerializeIdempotent(rendered: string)
    ensures Serialize(Serialize(rendered)) == Serialize(rendered)
  {
    SerializeWhole(Serialize(rendered));
  }

  /** `hh:mm:ss.msecs` loses the fraction: any text with no `.` followed by a `.` and
      anything else comes back as that text. */
  lemma SerializeDropsFraction(whole: string, fraction: string)
    requires '.' !in whole
    ensures Serialize(whole + "." + fraction) == whole
  {
    var s := whole + "." + fraction;
    var r := Serialize(s);
    assert s[..|whole|] == whole && s[|whole|] == '.';
    assert forall k :: 0 <= k < |whole| ==> s[k] == whole[k] && s[k] != '.';
    assert |r| == |whole|;
  }

  /** The example of the scalar's documentation. */
  lemma SerializeExample(rendered: string)
    requires rendered == "hh:mm:ss.msecs"
    ensures Serialize(rendered) == "hh:mm:ss"
  {
    assert '.' !in "hh:mm:ss" by {
      forall i | 0 <= i < 8 ensures "hh:mm:ss"[i] != '.' {}
    }
    assert rendered == "hh:mm:ss" + "." + "msecs";
    SerializeDropsFraction("hh:mm:ss", "msecs");
  }
}
