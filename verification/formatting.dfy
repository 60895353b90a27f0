/** Opening-hours text, rendered identically by both result formatters. */
module Formatting {
  import opened Wrappers
  import opened Text

  const NoHours := "Hours not available"

  const HoursSeparator := ", "

  /** `_format_hours(hours)`: a placeholder for a missing or empty list,
      otherwise the entries joined with ", ". When no entry holds ", " the
      entries can be read back, in order, by splitting at ", ". */
  function FormatHours(hours: Option<seq<string>>): (r: string)
    ensures hours.None? || hours.value == [] ==> r == NoHours
    ensures hours.Some? && |hours.value| == 1 ==> r == hours.value[0]
    ensures hours.Some? && hours.value != [] ==>
      forall k :: 0 <= k < |hours.value| ==> Contains(r, hours.value[k])
    ensures hours.Some? && hours.value != [] && Separable(hours.value) ==>
      Split(r, HoursSeparator) == hours.value
  {
    if hours.None? || hours.value == [] then NoHours
    else
      JoinContains(hours.value, HoursSeparator);
      assert Separable(hours.value) ==>
        Split(Join(hours.value, HoursSeparator), HoursSeparator) == hours.value by {
        if Separable(hours.value) {
          SplitJoin(hours.value);
        }
      }
      Join(hours.value, HoursSeparator)
  }

  /** No entry holds the separator. */
  predicate Separable(parts: seq<string>) {
    forall k :: 0 <= k < |parts| ==> !Contains(parts[k], HoursSeparator)
  }

  /** In `p + ", " + rest`, where `p` holds no ", ", the first ", " is the
      one after `p`: a ", " cannot start at the last character of `p`,
      because the separator's second character is not its first. */
  lemma FirstSeparator(p: string, rest: string)
    requires !Contains(p, HoursSeparator)
    ensures IndexOf(p + HoursSeparator + rest, HoursSeparator) == Some(|p|)
  {
    var s := p + HoursSeparator + rest;
    assert OccursAt(s, HoursSeparator, |p|);
    forall j | 0 <= j < |p|
      ensures !OccursAt(s, HoursSeparator, j)
    {
      if j + 2 <= |p| {
        assert s[j..j + 2] == p[j..j + 2];
        assert !OccursAt(p, HoursSeparator, j);
      } else {
        assert j + 1 == |p| && s[j + 1] == ',';
        assert s[j..j + 2][1] == s[j + 1];
        assert HoursSeparator[1] == ' ';
      }
    }
  }

  /** Splitting the joined entries at ", " gives the entries back, when no
      entry holds ", ". */
  lemma {:induction false} SplitJoin(parts: seq<string>)
    requires parts != [] && Separable(parts)
    ensures Split(Join(parts, HoursSeparator), HoursSeparator) == parts
    decreases |parts|
  {
    if |parts| == 1 {
      SplitFirst(parts[0], HoursSeparator);
    } else {
      var rest := Join(parts[1..], HoursSeparator);
      var s := Join(parts, HoursSeparator);
      assert s == parts[0] + HoursSeparator + rest;
      FirstSeparator(parts[0], rest);
      SplitAt(s, HoursSeparator, |parts[0]|);
      assert s[..|parts[0]|] == parts[0];
      assert s[|parts[0]| + |HoursSeparator|..] == rest;
      SplitJoin(parts[1..]);
    }
  }

  /** Every entry of a list occurs in the joined text, whatever the separator. */
  lemma {:induction false} JoinContains(parts: seq<string>, sep: string)
    ensures forall k :: 0 <= k < |parts| ==> Contains(Join(parts, sep), parts[k])
    decreases |parts|
  {
    if |parts| >= 2 {
      var rest := Join(parts[1..], sep);
      var r := Join(parts, sep);
      JoinContains(parts[1..], sep);
      assert OccursAt(r, parts[0], 0);
      forall k | 1 <= k < |parts|
        ensures Contains(r, parts[k])
      {
        assert parts[1..][k - 1] == parts[k];
        var j := IndexOf(rest, parts[k]).value;
        var off := |parts[0] + sep|;
        assert r[off..] == rest;
        assert r[off + j..off + j + |parts[k]|] == rest[j..j + |parts[k]|];
        assert OccursAt(r, parts[k], off + j);
      }
    } else if |parts| == 1 {
      assert OccursAt(parts[0], parts[0], 0);
    }
  }

  /** Formatting the pieces of a split at ", " gives the text back. */
  lemma HoursRoundTrip(s: string)
    ensures FormatHours(Some(Split(s, HoursSeparator))) == s
  {
    JoinSplit(s, HoursSeparator);
  }
}
