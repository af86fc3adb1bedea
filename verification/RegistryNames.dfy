/** The names of block definitions: which slugs and type names are accepted. */
module RegistryNames {
  import opened Separated
  import opened BlockRegistry

  /** Lower-case kebab: letters and digits, in runs that single hyphens separate, a letter first. */
  predicate Kebab(s: string) {
    && s != "" && 'a' <= s[0] && s[0] <= 'z' && s[|s| - 1] != '-'
    && (forall i | 0 <= i < |s| :: ('a' <= s[i] && s[i] <= 'z') || ('0' <= s[i] && s[i] <= '9') || s[i] == '-')
    && forall i | 0 <= i < |s| - 1 :: !(s[i] == '-' && s[i + 1] == '-')
  }

  /** The same of a text that follows a hyphen or stands at the start. */
  predicate KebabRest(s: string) {
    && s != "" && s[0] != '-' && s[|s| - 1] != '-'
    && (forall i | 0 <= i < |s| :: LowerOrDigit(s[i]) || s[i] == '-')
    && forall i | 0 <= i < |s| - 1 :: !(s[i] == '-' && s[i + 1] == '-')
  }

  predicate GoodParts(parts: seq<string>) {
    forall i | 0 <= i < |parts| :: parts[i] != "" && forall j | 0 <= j < |parts[i]| :: LowerOrDigit(parts[i][j])
  }

  lemma GoodCons(first: string, rest: seq<string>)
    ensures GoodParts([first] + rest) <==>
              first != "" && (forall j | 0 <= j < |first| :: LowerOrDigit(first[j])) && GoodParts(rest)
  {
    var parts := [first] + rest;
    assert forall i | 1 <= i < |parts| :: parts[i] == rest[i - 1];
    assert parts[0] == first;
    if GoodParts(parts) { assert forall i | 0 <= i < |rest| :: rest[i] == parts[i + 1]; }
  }

  /** What one more character in front makes of it. */
  lemma KebabCons(s: string)
    requires |s| > 1
    ensures KebabRest(s) <==>
              && LowerOrDigit(s[0])
              && (if s[1] == '-' then |s| > 2 && KebabRest(s[2..]) else KebabRest(s[1..]))
  {
    var rest := s[1..];
    assert forall i | 0 <= i < |rest| :: rest[i] == s[i + 1];
    if s[1] == '-' {
      var more := s[2..];
      assert forall i | 0 <= i < |more| :: more[i] == s[i + 2];
      if LowerOrDigit(s[0]) && |s| > 2 && KebabRest(more) {
        forall i | 0 <= i < |s| ensures LowerOrDigit(s[i]) || s[i] == '-' { assert i >= 2 ==> s[i] == more[i - 2]; }
        forall i | 0 <= i < |s| - 1 ensures !(s[i] == '-' && s[i + 1] == '-') {
          assert i >= 2 ==> s[i] == more[i - 2] && s[i + 1] == more[i - 1];
        }
      }
    } else if LowerOrDigit(s[0]) && KebabRest(rest) {
      forall i | 0 <= i < |s| ensures LowerOrDigit(s[i]) || s[i] == '-' { assert i >= 1 ==> s[i] == rest[i - 1]; }
      forall i | 0 <= i < |s| - 1 ensures !(s[i] == '-' && s[i + 1] == '-') {
        assert i >= 1 ==> s[i] == rest[i - 1] && s[i + 1] == rest[i];
      }
    }
  }

  lemma {:induction false} PartsAreKebab(s: string)
    ensures GoodParts(Split(s, '-')) <==> KebabRest(s)
    decreases |s|
  {
    hide KebabRest, GoodParts;
    if |s| <= 1 {
      ShortKebab(s);
    } else {
      KebabCons(s);
      var rest := Split(s[1..], '-');
      PartsAreKebab(s[1..]);
      assert rest == [rest[0]] + rest[1..];
      GoodCons(rest[0], rest[1..]);
      if s[0] == '-' {
        GoodCons("", rest);
      } else {
        GoodCons([s[0]] + rest[0], rest[1..]);
        if s[1] == '-' {
          assert s[1..][1..] == s[2..];
          PartsAreKebab(s[2..]);
          GoodCons("", Split(s[2..], '-'));
          assert rest == [""] + Split(s[2..], '-');
          assert [s[0]] + "" == [s[0]];
          NoEmptyKebab();
        } else {
          HeadNonempty(s[1..]);
          assert forall j | 1 <= j < |[s[0]] + rest[0]| :: ([s[0]] + rest[0])[j] == rest[0][j - 1];
          assert ([s[0]] + rest[0])[0] == s[0];
          if (forall j | 0 <= j < |[s[0]] + rest[0]| :: LowerOrDigit(([s[0]] + rest[0])[j])) {
            forall j | 0 <= j < |rest[0]| ensures LowerOrDigit(rest[0][j]) {
              assert rest[0][j] == ([s[0]] + rest[0])[j + 1];
            }
          }
        }
      }
    }
  }

  lemma NoEmptyKebab()
    ensures !KebabRest("")
  {
  }

  lemma HeadNonempty(s: string)
    requires s != "" && s[0] != '-'
    ensures Split(s, '-')[0] != ""
  {
  }

  lemma ShortKebab(s: string)
    requires |s| <= 1
    ensures GoodParts(Split(s, '-')) <==> KebabRest(s)
  {
    hide GoodParts;
    NothingIsGood();
    if |s| == 1 && s[0] != '-' {
      SplitWhole(s, '-');
      GoodCons(s, []);
      assert [s] + [] == [s];
    } else if |s| == 1 {
      assert s[1..] == "" && Split("", '-') == [""];
      GoodCons("", [""]);
      assert Split(s, '-') == [""] + [""];
    } else {
      GoodCons("", []);
      assert Split(s, '-') == [""] + [];
    }
  }

  lemma NothingIsGood()
    ensures GoodParts([])
  {
  }

  lemma {:induction false} HeadStarts(s: string)
    requires s != "" && s[0] != '-'
    ensures Split(s, '-')[0] != "" && Split(s, '-')[0][0] == s[0]
  {
  }

  /** A block slug is lower-case kebab; a type name is a capital letter, letters and digits. */
  lemma NameRules(s: string)
    ensures ValidSlug(s) <==> Kebab(s)
    ensures ValidTypeName(s) <==>
              && s != "" && 'A' <= s[0] && s[0] <= 'Z'
              && forall i | 0 <= i < |s| ::
                   ('a' <= s[i] && s[i] <= 'z') || ('A' <= s[i] && s[i] <= 'Z') || ('0' <= s[i] && s[i] <= '9')
  {
    PartsAreKebab(s);
    if s != "" && s[0] != '-' { HeadStarts(s); }
  }
}
