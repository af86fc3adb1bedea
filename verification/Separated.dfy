/** Strings cut at a separator, as `strings.Split` does for one-byte separators. */
module Separated {

  function Split(s: string, sep: char): (parts: seq<string>)
    ensures |parts| >= 1
    ensures forall i | 0 <= i < |parts| :: sep !in parts[i]
  {
    if s == "" then [""]
    else
      var rest := Split(s[1..], sep);
      if s[0] == sep then [""] + rest else [[s[0]] + rest[0]] + rest[1..]
  }

  function Join(parts: seq<string>, sep: char): string {
    if parts == [] then ""
    else if |parts| == 1 then parts[0]
    else parts[0] + [sep] + Join(parts[1..], sep)
  }

  lemma {:induction false} SplitWhole(s: string, sep: char)
    requires sep !in s
    ensures Split(s, sep) == [s]
  {
    if s != "" {
      SplitWhole(s[1..], sep);
      assert [s[0]] + s[1..] == s;
    }
  }

  /** A separator-free first part is cut off at its separator. */
  lemma {:induction false} SplitFirst(first: string, rest: string, sep: char)
    requires sep !in first
    ensures Split(first + [sep] + rest, sep) == [first] + Split(rest, sep)
  {
    var s := first + [sep] + rest;
    if first == "" {
      assert s[1..] == rest;
    } else {
      assert s[1..] == first[1..] + [sep] + rest;
      SplitFirst(first[1..], rest, sep);
      assert [first[0]] + first[1..] == first;
    }
  }

  /** Splitting loses nothing: joining the parts gives the string back. */
  lemma {:induction false} JoinSplit(s: string, sep: char)
    ensures Join(Split(s, sep), sep) == s
  {
    if s != "" {
      JoinSplit(s[1..], sep);
      var rest := Split(s[1..], sep);
      if s[0] == sep {
        assert ([""] + rest)[1..] == rest;
      } else {
        assert ([[s[0]] + rest[0]] + rest[1..])[1..] == rest[1..];
        assert [s[0]] + s[1..] == s;
      }
    }
  }

  /** Joining separator-free parts and splitting again returns the parts. */
  lemma {:induction false} SplitJoin(parts: seq<string>, sep: char)
    requires |parts| >= 1 && forall i | 0 <= i < |parts| :: sep !in parts[i]
    ensures Split(Join(parts, sep), sep) == parts
  {
    if |parts| == 1 {
      SplitWhole(parts[0], sep);
    } else {
      SplitJoin(parts[1..], sep);
      SplitFirst(parts[0], Join(parts[1..], sep), sep);
    }
  }

  /** The first part is `name` exactly when `s` is `name` or continues it at a separator. */
  lemma {:induction false} FirstPart(s: string, name: string, sep: char)
    requires sep !in name
    ensures Split(s, sep)[0] == name <==> (s == name || name + [sep] <= s)
    ensures name + [sep] <= s ==> Split(s, sep)[1..] == Split(s[|name| + 1..], sep)
  {
    JoinSplit(s, sep);
    var parts := Split(s, sep);
    if |parts| == 1 {
      assert s == parts[0];
    } else {
      assert s == parts[0] + [sep] + Join(parts[1..], sep);
    }
    if s == name {
      SplitWhole(s, sep);
    }
    if name + [sep] <= s {
      assert s == name + [sep] + s[|name| + 1..];
      SplitFirst(name, s[|name| + 1..], sep);
    }
  }
}
