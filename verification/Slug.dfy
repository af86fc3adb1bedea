/** Slugs: the one-pass normaliser, the simple form it computes, and what slugs look like. */
module Slug {
  import opened Separated

  predicate Whitespace(c: char) {
    c == ' ' || c == '\t' || c == '\n' || c == '\r' || c == 12 as char || c == 11 as char
  }

  predicate Upper(c: char) {
    'A' <= c <= 'Z'
  }

  /** Characters a slug keeps as they are. */
  predicate Plain(c: char) {
    'a' <= c <= 'z' || '0' <= c <= '9' || c == '_'
  }

  predicate Separating(c: char) {
    c == '-' || Whitespace(c)
  }

  /** What one character contributes: itself in lower case, a hyphen, or nothing. */
  function Contribution(c: char): string {
    if Upper(c) then [c + 32 as char]
    else if Plain(c) then [c]
    else if Separating(c) then "-"
    else ""
  }

  function Contributions(s: string): string {
    if s == "" then "" else Contributions(s[..|s| - 1]) + Contribution(s[|s| - 1])
  }

  function NonEmpty(parts: seq<string>): seq<string> {
    if parts == [] then []
    else
      var n := |parts| - 1;
      NonEmpty(parts[..n]) + if parts[n] == "" then [] else [parts[n]]
  }

  /** The words of a text: other characters dropped, cut at separator runs, in lower case. */
  function Words(s: string): seq<string> {
    NonEmpty(Split(Contributions(s), '-'))
  }

  /** The simple form: the words, joined by single hyphens. */
  function Simple(s: string): string {
    Join(Words(s), '-')
  }

  // ----- sequences -----

  /** The parts after one more character. */
  function Grown(parts: seq<string>, c: char): seq<string>
    requires parts != []
  {
    if c == '-' then parts + [""] else parts[..|parts| - 1] + [parts[|parts| - 1] + [c]]
  }

  lemma GrownBehind(first: string, rest: seq<string>, c: char)
    requires rest != []
    ensures Grown([first] + rest, c) == [first] + Grown(rest, c)
  {
    var parts := [first] + rest;
    assert parts[..|parts| - 1] == [first] + rest[..|rest| - 1];
  }

  lemma {:induction false} SplitGrows(s: string, c: char)
    ensures Split(s + [c], '-') == Grown(Split(s, '-'), c)
  {
    hide Grown;
    if s == "" {
      SplitOne(c);
      assert s + [c] == [c];
    } else {
      assert (s + [c])[1..] == s[1..] + [c];
      SplitGrows(s[1..], c);
      var rest := Split(s[1..], '-');
      if s[0] == '-' {
        GrownBehind("", rest, c);
      } else {
        GrownLonger(s[0], rest, c);
      }
    }
  }

  lemma SplitOne(c: char)
    ensures Split([c], '-') == Grown(Split("", '-'), c)
  {
    assert [c][1..] == "" && Split("", '-') == [""];
    assert [""][..0] == [] && [""][1..] == [] && "" + [c] == [c] + "" == [c];
  }

  lemma GrownLonger(first: char, rest: seq<string>, c: char)
    requires rest != []
    ensures var grown := Grown(rest, c);
            grown != [] && Grown([[first] + rest[0]] + rest[1..], c) == [[first] + grown[0]] + grown[1..]
  {
    if |rest| == 1 {
      assert rest[1..] == [];
      assert [first] + rest[0] + [c] == [first] + (rest[0] + [c]);
    } else {
      GrownBehind([first] + rest[0], rest[1..], c);
      GrownBehind(rest[0], rest[1..], c);
      assert [rest[0]] + rest[1..] == rest;
    }
  }

  lemma {:induction false} JoinGrows(parts: seq<string>, last: string)
    ensures Join(parts + [last], '-') == if parts == [] then last else Join(parts, '-') + "-" + last
  {
    if parts != [] {
      assert (parts + [last])[1..] == parts[1..] + [last];
      JoinGrows(parts[1..], last);
    }
  }

  lemma {:induction false} NonEmptyIsNonEmpty(parts: seq<string>)
    ensures forall i | 0 <= i < |NonEmpty(parts)| :: NonEmpty(parts)[i] != "" && NonEmpty(parts)[i] in parts
  {
    if parts != [] { NonEmptyIsNonEmpty(parts[..|parts| - 1]); }
  }

  lemma {:induction false} NonEmptyJoins(a: seq<string>, b: seq<string>)
    ensures NonEmpty(a + b) == NonEmpty(a) + NonEmpty(b)
  {
    if b == [] {
      assert a + b == a;
    } else {
      assert (a + b)[..|a + b| - 1] == a + b[..|b| - 1];
      NonEmptyJoins(a, b[..|b| - 1]);
    }
  }

  lemma {:induction false} NonEmptyKeeps(parts: seq<string>)
    requires forall i | 0 <= i < |parts| :: parts[i] != ""
    ensures NonEmpty(parts) == parts
  {
    if parts != [] { NonEmptyKeeps(parts[..|parts| - 1]); }
  }

  lemma JoinIsEmpty(parts: seq<string>)
    requires forall i | 0 <= i < |parts| :: parts[i] != ""
    ensures Join(parts, '-') == "" <==> parts == []
  {
  }

  // ----- the one-pass form -----

  /** What the pass has after a prefix: the words so far, and whether a separator follows them. */
  predicate Progress(done: string, normalized: string, pending: bool) {
    var parts := Split(Contributions(done), '-');
    normalized == Simple(done) && (pending <==> normalized != "" && parts[|parts| - 1] == "")
  }

  lemma AdvancesByLetter(done: string, c: char, normalized: string, pending: bool)
    requires Progress(done, normalized, pending) && (Upper(c) || Plain(c))
    ensures Progress(done + [c], normalized + (if pending then "-" else "") + Contribution(c), false)
  {
    hide Split, Join, Contributions, NonEmpty;
    var text, letter := Contributions(done), Contribution(c)[0];
    var parts := Split(text, '-');
    ContributionsGrow(done, c);
    SplitGrows(text, letter);
    assert Contribution(c) == [letter] && letter != '-';
    WordGrows(parts, letter);
  }

  lemma WordGrows(parts: seq<string>, letter: char)
    requires parts != [] && letter != '-'
    ensures var before, last, grown := Join(NonEmpty(parts), '-'), parts[|parts| - 1], Grown(parts, letter);
            && grown[|grown| - 1] != ""
            && Join(NonEmpty(grown), '-') == before + (if before != "" && last == "" then "-" else "") + [letter]
  {
    hide Join, NonEmpty;
    var front, last := parts[..|parts| - 1], parts[|parts| - 1];
    assert parts == front + [last];
    WordsOf(front, last);
    WordsOf(front, last + [letter]);
    var joined := Join(NonEmpty(front), '-');
    if last == "" {
      assert "" + [letter] == [letter];
    } else {
      assert joined + "-" + last + "" + [letter] == joined + "-" + (last + [letter]);
    }
  }

  /** The text of the words, by its last part. */
  lemma WordsOf(front: seq<string>, last: string)
    ensures Join(NonEmpty(front + [last]), '-')
            == if last == "" then Join(NonEmpty(front), '-')
               else if Join(NonEmpty(front), '-') == "" then last
               else Join(NonEmpty(front), '-') + "-" + last
    ensures last != "" ==> Join(NonEmpty(front + [last]), '-') != ""
  {
    assert (front + [last])[..|front|] == front;
    NonEmptyIsNonEmpty(front);
    JoinIsEmpty(NonEmpty(front));
    JoinGrows(NonEmpty(front), last);
    if last == "" { assert NonEmpty(front) + [] == NonEmpty(front); }
  }

  lemma ContributionsGrow(done: string, c: char)
    ensures Contributions(done + [c]) == Contributions(done) + Contribution(c)
  {
    assert (done + [c])[..|done|] == done;
  }

  lemma AdvancesBySeparator(done: string, c: char, normalized: string, pending: bool)
    requires Progress(done, normalized, pending) && Separating(c)
    ensures Progress(done + [c], normalized, normalized != "")
  {
    hide Split, Join;
    ContributionsGrow(done, c);
    SplitGrows(Contributions(done), '-');
    WordsOf(Split(Contributions(done), '-'), "");
  }

  lemma AdvancesByNothing(done: string, c: char, normalized: string, pending: bool)
    requires Progress(done, normalized, pending) && !Upper(c) && !Plain(c) && !Separating(c)
    ensures Progress(done + [c], normalized, pending)
  {
    ContributionsGrow(done, c);
    assert Contributions(done) + "" == Contributions(done);
  }

  /** Leading and trailing whitespace contributes no word. */
  method Trim(value: string) returns (trimmed: string)
    ensures Words(trimmed) == Words(value)
  {
    hide Words, Whitespace;
    var first, end := 0, |value|;
    assert value[0..] == value;
    while first < end && Whitespace(value[first])
      invariant 0 <= first <= end == |value| && Words(value[first..]) == Words(value)
    {
      LeadingSeparator(value[first], value[first + 1..]);
      assert value[first..] == [value[first]] + value[first + 1..];
      first := first + 1;
    }
    assert value[first..end] == value[first..];
    while first < end && Whitespace(value[end - 1])
      invariant 0 <= first <= end <= |value| && Words(value[first..end]) == Words(value)
    {
      TrailingSeparator(value[first..end - 1], value[end - 1]);
      assert value[first..end] == value[first..end - 1] + [value[end - 1]];
      end := end - 1;
    }
    trimmed := value[first..end];
  }

  lemma NothingYet()
    ensures Progress("", "", false)
  {
    assert Split("", '-') == [""] && NonEmpty([""]) == [];
  }

  /** Normalising by one pass over the trimmed text, as the simple form says. */
  method NormalizeSlug(value: string) returns (normalized: string)
    ensures normalized == Simple(value)
  {
    hide Progress, Words, Plain, Separating;
    var text := Trim(value);
    normalized := "";
    var pending, i := false, 0;
    NothingYet();
    assert text[..0] == "";
    while i < |text|
      invariant i <= |text| && Progress(text[..i], normalized, pending)
    {
      var c := text[i];
      PendingMeansMore(text[..i], normalized, pending);
      assert text[..i + 1] == text[..i] + [c];
      assert normalized + "" == normalized;
      if Upper(c) {
        AdvancesByLetter(text[..i], c, normalized, pending);
        if pending && |normalized| != 0 { normalized := normalized + "-"; }
        normalized := normalized + [c + 32 as char];
        pending := false;
      } else if Plain(c) {
        AdvancesByLetter(text[..i], c, normalized, pending);
        if pending && |normalized| != 0 { normalized := normalized + "-"; }
        normalized := normalized + [c];
        pending := false;
      } else if Separating(c) {
        AdvancesBySeparator(text[..i], c, normalized, pending);
        pending := |normalized| != 0;
      } else {
        AdvancesByNothing(text[..i], c, normalized, pending);
      }
      i := i + 1;
    }
    assert text[..i] == text;
    PendingMeansMore(text, normalized, pending);
  }

  lemma PendingMeansMore(done: string, normalized: string, pending: bool)
    requires Progress(done, normalized, pending)
    ensures normalized == Simple(done) && (pending ==> normalized != "")
  {
  }

  lemma {:induction false} ContributionsJoin(a: string, b: string)
    ensures Contributions(a + b) == Contributions(a) + Contributions(b)
  {
    if b == "" {
      assert a + b == a;
    } else {
      assert (a + b)[..|a + b| - 1] == a + b[..|b| - 1];
      ContributionsJoin(a, b[..|b| - 1]);
    }
  }

  lemma LeadingSeparator(c: char, rest: string)
    requires Separating(c)
    ensures Words([c] + rest) == Words(rest)
  {
    ContributionsJoin([c], rest);
    assert [c][..0] == "" && Contributions([c]) == "-";
    var text := Contributions(rest);
    assert "" + ['-'] + text == "-" + text;
    SplitFirst("", text, '-');
    NonEmptyJoins([""], Split(text, '-'));
    assert NonEmpty([""]) == [];
  }

  lemma TrailingSeparator(front: string, c: char)
    requires Separating(c)
    ensures Words(front + [c]) == Words(front)
  {
    assert (front + [c])[..|front|] == front;
    SplitGrows(Contributions(front), '-');
    NonEmptyJoins(Split(Contributions(front), '-'), [""]);
    assert NonEmpty([""]) == [];
  }

  // ----- what slugs look like -----

  /** Kept characters and single hyphens between them. */
  predicate IsSlug(s: string) {
    && (forall i | 0 <= i < |s| :: Plain(s[i]) || s[i] == '-')
    && (s != "" ==> s[0] != '-' && s[|s| - 1] != '-')
    && forall i | 0 <= i < |s| - 1 :: !(s[i] == '-' && s[i + 1] == '-')
  }

  lemma {:induction false} SlugContributesItself(s: string)
    requires forall i | 0 <= i < |s| :: Plain(s[i]) || s[i] == '-'
    ensures Contributions(s) == s
  {
    if s != "" {
      var front, c := s[..|s| - 1], s[|s| - 1];
      assert Contribution(c) == [c];
      hide Contribution, Whitespace;
      SlugContributesItself(front);
      assert s == front + [c];
    }
  }

  /** A word is made of kept characters. */
  predicate Word(w: string) {
    w != "" && forall i | 0 <= i < |w| :: Plain(w[i])
  }

  lemma {:induction false} ContributionsAreKept(s: string)
    ensures forall i | 0 <= i < |Contributions(s)| :: Plain(Contributions(s)[i]) || Contributions(s)[i] == '-'
  {
    if s != "" { ContributionsAreKept(s[..|s| - 1]); }
  }

  lemma {:induction false} PartsAreKept(s: string)
    requires forall i | 0 <= i < |s| :: Plain(s[i]) || s[i] == '-'
    ensures forall i | 0 <= i < |Split(s, '-')| :: Split(s, '-')[i] == "" || Word(Split(s, '-')[i])
  {
    if s != "" { PartsAreKept(s[1..]); }
  }

  lemma {:induction false} JoinedWordsAreSlugs(words: seq<string>)
    requires forall i | 0 <= i < |words| :: Word(words[i])
    ensures IsSlug(Join(words, '-')) && (words != [] ==> Join(words, '-') != "")
  {
    if |words| > 1 {
      JoinedWordsAreSlugs(words[1..]);
      var first, rest := words[0], Join(words[1..], '-');
      var s := first + "-" + rest;
      assert Join(words, '-') == s;
      forall i | 0 <= i < |s| ensures Plain(s[i]) || s[i] == '-' {
        assert i > |first| ==> s[i] == rest[i - |first| - 1];
      }
      forall i | 0 <= i < |s| - 1 ensures !(s[i] == '-' && s[i + 1] == '-') {
        assert i > |first| ==> s[i] == rest[i - |first| - 1];
        assert i >= |first| ==> s[i + 1] == rest[i - |first|];
      }
    }
  }

  lemma WordsAreWords(s: string)
    ensures forall i | 0 <= i < |Words(s)| :: Word(Words(s)[i])
  {
    ContributionsAreKept(s);
    PartsAreKept(Contributions(s));
    NonEmptyIsNonEmpty(Split(Contributions(s), '-'));
  }

  /** No slug starts or ends with a hyphen or doubles one. */
  lemma SimpleIsSlug(s: string)
    ensures IsSlug(Simple(s))
  {
    WordsAreWords(s);
    JoinedWordsAreSlugs(Words(s));
  }

  lemma {:induction false} SlugParts(s: string)
    requires s != "" && s[|s| - 1] != '-'
    requires forall i | 0 <= i < |s| - 1 :: !(s[i] == '-' && s[i + 1] == '-')
    ensures forall i | 1 <= i < |Split(s, '-')| :: Split(s, '-')[i] != ""
    ensures s[0] != '-' ==> Split(s, '-')[0] != ""
  {
    if |s| > 1 {
      SlugParts(s[1..]);
    } else {
      assert s[1..] == "" && Split("", '-') == [""];
    }
  }

  /** The slugs are exactly the texts that normalising leaves alone. */
  lemma SlugsAreFixed(s: string)
    ensures IsSlug(s) <==> Simple(s) == s
  {
    SimpleIsSlug(s);
    if IsSlug(s) {
      SlugContributesItself(s);
      if s == "" {
        assert Split("", '-') == [""] && NonEmpty([""]) == [];
      } else {
        SlugParts(s);
        NonEmptyKeeps(Split(s, '-'));
        JoinSplit(s, '-');
      }
    }
  }

  /** Normalising twice is normalising once. */
  lemma Idempotent(s: string)
    ensures Simple(Simple(s)) == Simple(s)
  {
    SimpleIsSlug(s);
    SlugsAreFixed(Simple(s));
  }

  // ----- what becomes of each character -----

  /** The text of one character: letters in lower case, digits and underscores as they are, nothing else. */
  function Kept(c: char): string {
    if 'A' <= c && c <= 'Z' then [c - 'A' + 'a']
    else if ('a' <= c && c <= 'z') || ('0' <= c && c <= '9') || c == '_' then [c]
    else ""
  }

  lemma ContributionOf(c: char)
    ensures Contributions([c]) == Contribution(c)
    ensures Kept(c) != "" ==> Contribution(c) == Kept(c) && '-' !in Kept(c)
    ensures Plain(c) <==> Kept(c) == [c]
  {
    assert [c][..0] == "" && "" + Contribution(c) == Contribution(c);
  }

  /** A character becomes itself, its lower case or nothing; on its own a separator is nothing, too. */
  lemma OneCharacter(c: char)
    ensures Simple([c]) == Kept(c)
  {
    ContributionOf(c);
    var text := Contribution(c);
    if Kept(c) != "" {
      SplitWhole(text, '-');
      NonEmptyKeeps([text]);
    } else if Separating(c) {
      assert text[1..] == "" && Split("", '-') == [""] && Split("-", '-') == [""] + [""];
      NonEmptyJoins([""], [""]);
      assert NonEmpty([""]) == [];
    } else {
      assert Split("", '-') == [""] && NonEmpty([""]) == [];
    }
  }

  lemma DroppedContributes(c: char)
    requires Kept(c) == ""
    ensures Contribution(c) ==
              if c == '-' || c == ' ' || c == '\t' || c == '\n' || c == '\r' || c == 11 as char || c == 12 as char then
                "-"
              else ""
  {
  }

  lemma ThreeContribute(a: char, c: char, b: char)
    ensures Contributions([a, c, b]) == Contribution(a) + Contribution(c) + Contribution(b)
  {
    assert [a, c, b] == [a] + [c] + [b];
    ContributionsJoin([a] + [c], [b]);
    ContributionsJoin([a], [c]);
    ContributionOf(a);
    ContributionOf(b);
    ContributionOf(c);
  }

  lemma TwoWords(x: string, y: string)
    requires x != "" && y != "" && '-' !in x && '-' !in y
    ensures Join(NonEmpty(Split(x + "-" + y, '-')), '-') == x + "-" + y
  {
    SplitFirst(x, y, '-');
    SplitWhole(y, '-');
    hide Split;
    assert x + ['-'] + y == x + "-" + y && [x] + [y] == [x, y];
    NonEmptyKeeps([x, y]);
    hide NonEmpty;
    assert [x, y][1..] == [y];
  }

  lemma OneWord(x: string, y: string)
    requires x != "" && y != "" && '-' !in x && '-' !in y
    ensures Join(NonEmpty(Split(x + "" + y, '-')), '-') == x + y
  {
    assert x + "" + y == x + y;
    SplitWhole(x + y, '-');
    NonEmptyKeeps([x + y]);
    hide Split, NonEmpty;
  }

  /** Between two kept characters a hyphen or white space leaves one hyphen, any other dropped one nothing. */
  lemma BetweenTwo(a: char, c: char, b: char)
    requires Kept(a) != "" && Kept(b) != "" && Kept(c) == ""
    ensures Simple([a, c, b]) ==
              if c == '-' || c == ' ' || c == '\t' || c == '\n' || c == '\r' || c == 11 as char || c == 12 as char then
                Kept(a) + "-" + Kept(b)
              else Kept(a) + Kept(b)
  {
    ThreeContribute(a, c, b);
    ContributionOf(a);
    ContributionOf(b);
    DroppedContributes(c);
    hide Split, Join, NonEmpty, Contributions, Contribution, Kept, Whitespace;
    TwoWords(Kept(a), Kept(b));
    OneWord(Kept(a), Kept(b));
  }
}
