/** Joining fields with a separator and splitting a line at a delimiter. */
module Text {

  /** The parts in order, with `sep` between neighbours: it starts with the first part. */
  function Join(sep: string, parts: seq<string>): (r: string)
    ensures |parts| > 0 ==> |parts[0]| <= |r| && r[..|parts[0]|] == parts[0]
  {
    if |parts| == 0 then ""
    else if |parts| == 1 then parts[0]
    else parts[0] + sep + Join(sep, parts[1..])
  }

  /** The fields of `s` between occurrences of `d`; a string with no `d` is one field. */
  function Split(s: string, d: char): (r: seq<string>)
    ensures |r| >= 1
  {
    if s == [] then [""]
    else
      var t := Split(s[1..], d);
      if s[0] == d then [""] + t else [[s[0]] + t[0]] + t[1..]
  }

  /** A string without the delimiter is one field. */
  lemma {:induction false} SplitWithout(s: string, d: char)
    requires d !in s
    ensures Split(s, d) == [s]
  {
    if s != [] {
      assert d !in s[1..];
      SplitWithout(s[1..], d);
      assert [s[0]] + s[1..] == s;
    }
  }

  /** A leading field without the delimiter is split off intact. */
  lemma {:induction false} SplitAfterField(a: string, b: string, d: char)
    requires d !in a
    ensures Split(a + [d] + b, d) == [a] + Split(b, d)
  {
    if a == [] {
      assert a + [d] + b == [d] + b;
      assert ([d] + b)[1..] == b;
    } else {
      var s := a + [d] + b;
      assert s[0] == a[0] && s[1..] == a[1..] + [d] + b;
      assert d !in a[1..];
      SplitAfterField(a[1..], b, d);
      assert [a[0]] + a[1..] == a;
    }
  }

  /** Joining at least two parts puts the first part and the separator before the join of the rest. */
  lemma JoinCons(sep: string, parts: seq<string>)
    requires |parts| > 1
    ensures Join(sep, parts) == parts[0] + sep + Join(sep, parts[1..])
  {
  }

  /** Dropping the first field keeps the other fields' guarantees and the same last field. */
  lemma TailFields(fields: seq<string>, d: char)
    requires |fields| > 1
    requires forall i :: 0 <= i < |fields| - 1 ==> d !in fields[i]
    ensures forall i :: 0 <= i < |fields[1..]| - 1 ==> d !in fields[1..][i]
    ensures fields[1..][|fields[1..]| - 1] == fields[|fields| - 1]
    ensures [fields[0]] + fields[1..][..|fields[1..]| - 1] == fields[..|fields| - 1]
  {
    forall i | 0 <= i < |fields[1..]| - 1 ensures d !in fields[1..][i] {
      assert fields[1..][i] == fields[i + 1];
    }
  }

  /**
   * Splitting joined fields gives back every field but the last, as long as
   * those contain no delimiter; the last one may split into several.
   */
  lemma {:induction false} SplitJoin(fields: seq<string>, d: char)
    requires |fields| > 0
    requires forall i :: 0 <= i < |fields| - 1 ==> d !in fields[i]
    ensures Split(Join([d], fields), d) == fields[..|fields| - 1] + Split(fields[|fields| - 1], d)
  {
    if |fields| > 1 {
      var first, tail, last := fields[0], fields[1..], fields[|fields| - 1];
      var rest := Join([d], tail);
      TailFields(fields, d);
      SplitJoin(tail, d);
      JoinCons([d], fields);
      SplitAfterField(first, rest, d);
      calc {
        Split(Join([d], fields), d);
        Split(first + [d] + rest, d);
        [first] + Split(rest, d);
        [first] + (tail[..|tail| - 1] + Split(last, d));
        ([first] + tail[..|tail| - 1]) + Split(last, d);
        fields[..|fields| - 1] + Split(last, d);
      }
    }
  }

  /**
   * Joining one-character fields with a two-character separator puts field
   * `i` at position `3i` and the separator right after it.
   */
  lemma {:induction false} JoinSingles(sep: string, parts: seq<string>)
    requires |sep| == 2
    requires |parts| > 0
    requires forall i :: 0 <= i < |parts| ==> |parts[i]| == 1
    ensures |Join(sep, parts)| == 3 * |parts| - 2
    ensures forall i :: 0 <= i < |parts| ==> Join(sep, parts)[3 * i] == parts[i][0]
    ensures forall i :: 0 <= i < |parts| - 1 ==> Join(sep, parts)[3 * i + 1..3 * i + 3] == sep
  {
    if |parts| > 1 {
      var rest := Join(sep, parts[1..]);
      JoinSingles(sep, parts[1..]);
      var j := Join(sep, parts);
      assert j == parts[0] + sep + rest;
      forall i | 1 <= i < |parts| ensures j[3 * i] == parts[i][0] {
        assert j[3 * i] == rest[3 * (i - 1)];
        assert parts[1..][i - 1] == parts[i];
      }
      forall i | 1 <= i < |parts| - 1 ensures j[3 * i + 1..3 * i + 3] == sep {
        assert j[3 * i + 1..3 * i + 3] == rest[3 * (i - 1) + 1..3 * (i - 1) + 3];
      }
      assert j[1..3] == sep;
    }
  }
}
