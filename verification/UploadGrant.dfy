/** Signed upload grants: their text form, and the framing of what is signed. */
module UploadGrant {
  import opened Wrappers
  import opened Separated
  import opened Encodings

  const VERSION := "v1"
  const DOMAIN := "ridu-upload-grant-v1"
  const MAXIMUM_LENGTH := 512
  const SIGNATURE_SIZE := 32

  datatype Grant = Grant(sessionID: string, seconds: int, signature: seq<Byte>)

  // ----- session identifiers -----

  predicate HexDigit(c: char) {
    '0' <= c <= '9' || 'a' <= c <= 'f' || 'A' <= c <= 'F'
  }

  function HexDigits(s: string): nat {
    if s == "" then 0 else (if HexDigit(s[|s| - 1]) then 1 else 0) + HexDigits(s[..|s| - 1])
  }

  /** 128 bits in hexadecimal, with or without hyphens. */
  predicate SessionIDShape(id: string) {
    && (forall c | c in id :: HexDigit(c) || c == '-')
    && HexDigits(id) == 32 && |id| <= 36
  }

  method CheckSessionID(id: string) returns (shaped: bool)
    ensures shaped == SessionIDShape(id)
  {
    var digits, i := 0, 0;
    while i < |id|
      invariant i <= |id| && digits == HexDigits(id[..i])
      invariant forall j | 0 <= j < i :: HexDigit(id[j]) || id[j] == '-'
    {
      assert id[..i + 1][..i] == id[..i];
      if HexDigit(id[i]) {
        digits := digits + 1;
      } else if id[i] != '-' {
        assert id[i] in id;
        return false;
      }
      i := i + 1;
    }
    assert id[..i] == id;
    return digits == 32 && |id| <= 36;
  }

  lemma {:induction false} HexDigitsJoin(a: string, b: string)
    ensures HexDigits(a + b) == HexDigits(a) + HexDigits(b)
  {
    if b == "" {
      assert a + b == a;
    } else {
      assert (a + b)[..|a + b| - 1] == a + b[..|b| - 1];
      HexDigitsJoin(a, b[..|b| - 1]);
    }
  }

  lemma {:induction false} AllHexDigits(s: string)
    requires forall c | c in s :: HexDigit(c)
    ensures HexDigits(s) == |s|
  {
    if s != "" { AllHexDigits(s[..|s| - 1]); }
  }

  /** The text form of a version 4 UUID (section 5.4 of RFC 9562), from its 32 hexadecimal digits. */
  function Hyphenated(hex: string): string
    requires |hex| == 32
  {
    hex[0..8] + "-" + hex[8..12] + "-" + hex[12..16] + "-" + hex[16..20] + "-" + hex[20..32]
  }

  /** Every identifier a session is given has the accepted shape, hyphenated or not. */
  lemma IssuedIDsAreShaped(hex: string)
    requires |hex| == 32
    requires forall c | c in hex :: ('0' <= c && c <= '9') || ('a' <= c && c <= 'f') || ('A' <= c && c <= 'F')
    ensures SessionIDShape(hex) && SessionIDShape(Hyphenated(hex))
  {
    var a, b, c, d, e := hex[0..8], hex[8..12], hex[12..16], hex[16..20], hex[20..32];
    AllHexDigits(hex);
    AllHexDigits(a);
    AllHexDigits(b);
    AllHexDigits(c);
    AllHexDigits(d);
    AllHexDigits(e);
    assert HexDigits("-") == 0;
    HexDigitsJoin(a, "-");
    HexDigitsJoin(a + "-", b);
    HexDigitsJoin(a + "-" + b, "-");
    HexDigitsJoin(a + "-" + b + "-", c);
    HexDigitsJoin(a + "-" + b + "-" + c, "-");
    HexDigitsJoin(a + "-" + b + "-" + c + "-", d);
    HexDigitsJoin(a + "-" + b + "-" + c + "-" + d, "-");
    HexDigitsJoin(a + "-" + b + "-" + c + "-" + d + "-", e);
  }

  // ----- the text form -----

  function Parts(g: Grant): seq<string>
    requires g.seconds >= 0
  {
    [VERSION, g.sessionID, Decimal(g.seconds), Encode(g.signature)]
  }

  function Sign(g: Grant): string
    requires g.seconds >= 0
  {
    VERSION + "." + g.sessionID + "." + Decimal(g.seconds) + "." + Encode(g.signature)
  }

  function Parse(text: string): Option<Grant> {
    if |text| > MAXIMUM_LENGTH then None
    else
      var parts := Split(text, '.');
      if |parts| != 4 || parts[0] != VERSION || !SessionIDShape(parts[1]) then None
      else
        var seconds := ParseInt64(parts[2]);
        if seconds.None? || seconds.value <= 0 then None
        else
          var signature := Decode(parts[3]);
          if signature.None? || |signature.value| != SIGNATURE_SIZE then None
          else Some(Grant(parts[1], seconds.value, signature.value))
  }

  /** What a grant must be for its text to be read back. */
  predicate Acceptable(g: Grant) {
    SessionIDShape(g.sessionID) && 0 < g.seconds < 0x8000_0000_0000_0000 && |g.signature| == SIGNATURE_SIZE
  }

  lemma SignIsJoin(g: Grant)
    requires g.seconds >= 0
    ensures Sign(g) == Join(Parts(g), '.')
  {
    var p := Parts(g);
    assert p[1..] == [p[1], p[2], p[3]] && p[1..][1..] == [p[2], p[3]] && p[1..][1..][1..] == [p[3]];
    assert Join([p[3]], '.') == p[3];
    assert Join([p[2], p[3]], '.') == p[2] + "." + p[3];
    assert Join([p[1], p[2], p[3]], '.') == p[1] + "." + (p[2] + "." + p[3]);
    assert Join(p, '.') == p[0] + "." + (p[1] + "." + (p[2] + "." + p[3]));
  }

  lemma PartsHaveNoDots(g: Grant)
    requires Acceptable(g)
    ensures forall i | 0 <= i < 4 :: '.' !in Parts(g)[i]
    ensures |Sign(g)| <= 104
  {
    DecimalIsDigits(g.seconds);
    DecimalFits(g.seconds);
    Base64RoundTrip(g.signature);
  }

  /** Parsing a signed grant gives back its session, its expiry second and its signature. */
  lemma ParseSign(g: Grant)
    requires Acceptable(g)
    ensures Parse(Sign(g)) == Some(g)
  {
    hide Decode, Encode, Decimal, ParseInt64, SessionIDShape, Join, Split, Sign;
    PartsHaveNoDots(g);
    SignIsJoin(g);
    SplitJoin(Parts(g), '.');
    DecimalRoundTrip(g.seconds);
    Base64RoundTrip(g.signature);
  }

  /** What a grant's text is: the version, the session, the expiry and the signature, between dots. */
  lemma SignedText(g: Grant)
    requires g.seconds >= 0
    ensures Sign(g) == "v1." + g.sessionID + "." + Decimal(g.seconds) + "." + Encode(g.signature)
  {
    assert "v1" + "." == "v1.";
  }

  /** Exactly which texts are read: four parts within 512 characters, each as it should be. */
  lemma ReadExactly(text: string)
    ensures Parse(text).Some? <==>
              && |text| <= 512
              && var p := Split(text, '.');
                 && |p| == 4 && p[0] == "v1" && SessionIDShape(p[1])
                 && ParseInt64(p[2]).Some? && ParseInt64(p[2]).value >= 1
                 && Decode(p[3]).Some? && |Decode(p[3]).value| == 32
  {
    hide Split, SessionIDShape, ParseInt64, Decode;
  }

  /** Only such grants are ever read, and a signed text names one of them. */
  lemma ParsedIsAcceptable(text: string, g: Grant, h: Grant)
    ensures Parse(text).Some? ==> Acceptable(Parse(text).value)
    ensures Acceptable(g) && Acceptable(h) && Sign(g) == Sign(h) ==> g == h
  {
    hide Decode, Encode, Decimal, SessionIDShape, Split, Sign;
    if Acceptable(g) && Acceptable(h) && Sign(g) == Sign(h) {
      ParseSign(g);
      ParseSign(h);
    }
  }

  /** A grant's text read back is the text that signing prints, part by part. */
  lemma PartsDecide(text: string)
    requires Parse(text).Some?
    ensures var p, g := Split(text, '.'), Parse(text).value;
            text == Sign(g) <==> p[2] == Decimal(g.seconds) && p[3] == Encode(g.signature)
  {
    hide Decode, Encode, Decimal, ParseInt64, SessionIDShape, Join, Split, Sign;
    var p, g := Split(text, '.'), Parse(text).value;
    ParsedIsAcceptable(text, g, g);
    SignIsJoin(g);
    PartsHaveNoDots(g);
    SplitJoin(Parts(g), '.');
    JoinSplit(text, '.');
    assert p == [p[0], p[1], p[2], p[3]];
  }

  lemma ExpiryIsPrinted(s: string)
    requires ParseInt64(s).Some? && ParseInt64(s).value > 0
    ensures s == Decimal(ParseInt64(s).value) <==> '1' <= s[0] <= '9'
  {
    hide Decimal, DigitsValue;
    var n := ParseInt64(s).value;
    DecimalIsDigits(n);
    if s[0] == '+' {
      assert s[0] !in Decimal(n);
    } else {
      FirstDigit(s);
      DecimalCanonical(s);
      if s == "0" { OneDigit('0'); }
    }
  }

  lemma SignatureLength(s: string)
    requires Decode(s).Some? && |Decode(s).value| == SIGNATURE_SIZE
    ensures var values := SymbolValues(Unbroken(s)).value;
            && |values| == 43
            && ('\r' !in s && '\n' !in s ==>
                  |s| == 43 && SymbolValue(s[42]) == Some(values[42]))
  {
    var values := SymbolValues(Unbroken(s)).value;
    UnbrokenIsWhole(s);
    ValuesSpell(Unbroken(s));
    BytesLength(values);
  }

  /**
   * A text that is accepted is the one that signing prints exactly when its expiry starts with a
   * digit other than zero, its signature holds no line break, and the last symbol of the
   * signature sets neither of the two bits that belong to no byte.
   */
  lemma TextIsCanonicalExactly(text: string)
    requires Parse(text).Some?
    ensures var p := Split(text, '.');
            text == Sign(Parse(text).value) <==>
              && '1' <= p[2][0] <= '9'
              && '\r' !in p[3] && '\n' !in p[3]
              && SymbolValue(p[3][|p[3]| - 1]).Some? && SymbolValue(p[3][|p[3]| - 1]).value as int % 4 == 0
  {
    hide Decode, Encode, Decimal, ParseInt64, SessionIDShape, Split, Sign, SymbolValue;
    var p := Split(text, '.');
    PartsDecide(text);
    ExpiryIsPrinted(p[2]);
    Base64Canonical(p[3]);
    SignatureLength(p[3]);
  }

  /** Such a second text exists for every grant: a plus sign before the expiry. */
  lemma TextIsNotCanonical(g: Grant)
    requires Acceptable(g)
    ensures var other := VERSION + "." + g.sessionID + ".+" + Decimal(g.seconds) + "." + Encode(g.signature);
            other != Sign(g) && Parse(other) == Parse(Sign(g))
  {
    hide Decode, Encode, Decimal, DigitsValue, SessionIDShape, Split;
    var plus := "+" + Decimal(g.seconds);
    var parts := [VERSION, g.sessionID, plus, Encode(g.signature)];
    var other := VERSION + "." + g.sessionID + ".+" + Decimal(g.seconds) + "." + Encode(g.signature);
    PartsHaveNoDots(g);
    ParseSign(g);
    var rest := [parts[1], plus, parts[3]];
    assert parts[1..] == rest && rest[1..] == [plus, parts[3]] && rest[1..][1..] == [parts[3]];
    assert Join([parts[3]], '.') == parts[3];
    assert Join([plus, parts[3]], '.') == plus + "." + parts[3];
    assert Join(rest, '.') == parts[1] + "." + (plus + "." + parts[3]);
    assert other == Join(parts, '.');
    assert '.' !in Parts(g)[1] && '.' !in Parts(g)[2] && '.' !in Parts(g)[3];
    assert forall i | 0 <= i < |parts| :: '.' !in parts[i];
    SplitJoin(parts, '.');
    DecimalIsDigits(g.seconds);
    assert plus[1..] == Decimal(g.seconds);
    Base64RoundTrip(g.signature);
    assert |other| == |Sign(g)| + 1;
  }

  // ----- what is signed -----

  const NUL := '\0'

  function Framed(parts: seq<string>): string {
    if parts == [] then "" else parts[0] + [NUL] + Framed(parts[1..])
  }

  /** The message whose MAC, keyed with the session's token digest, signs a grant. */
  function Message(collection: string, key: string, seconds: nat): string {
    Framed([DOMAIN, collection, key, Decimal(seconds)])
  }

  /** The message names what it is for, and ends each part with NUL. */
  lemma MessageText(collection: string, key: string, seconds: nat)
    ensures Message(collection, key, seconds)
            == "ridu-upload-grant-v1\0" + collection + "\0" + key + "\0" + Decimal(seconds) + "\0"
  {
    var parts := [DOMAIN, collection, key, Decimal(seconds)];
    assert parts[1..] == [collection, key, Decimal(seconds)] && parts[1..][1..] == [key, Decimal(seconds)];
    assert parts[1..][1..][1..] == [Decimal(seconds)] && [Decimal(seconds)][1..] == [];
    assert Framed([Decimal(seconds)]) == Decimal(seconds) + "\0";
    assert Framed([key, Decimal(seconds)]) == key + "\0" + (Decimal(seconds) + "\0");
    assert Framed([collection, key, Decimal(seconds)]) == collection + "\0" + (key + "\0" + (Decimal(seconds) + "\0"));
    assert DOMAIN + "\0" == "ridu-upload-grant-v1\0";
  }

  lemma {:induction false} FramedSplits(parts: seq<string>)
    requires forall i | 0 <= i < |parts| :: NUL !in parts[i]
    ensures Split(Framed(parts), NUL) == parts + [""]
  {
    if parts != [] {
      FramedSplits(parts[1..]);
      SplitFirst(parts[0], Framed(parts[1..]), NUL);
      assert parts + [""] == [parts[0]] + (parts[1..] + [""]);
    }
  }

  /** Different collections, keys or expiries are never signed by the same message. */
  lemma MessageIsInjective(c1: string, k1: string, n1: nat, c2: string, k2: string, n2: nat)
    requires NUL !in c1 && NUL !in k1 && NUL !in c2 && NUL !in k2
    requires Message(c1, k1, n1) == Message(c2, k2, n2)
    ensures c1 == c2 && k1 == k2 && n1 == n2
  {
    hide Framed, Split, Decimal, DigitsValue;
    DecimalIsDigits(n1);
    DecimalIsDigits(n2);
    var a, b := [DOMAIN, c1, k1, Decimal(n1)], [DOMAIN, c2, k2, Decimal(n2)];
    FramedSplits(a);
    FramedSplits(b);
    assert a == (a + [""])[..4] == (b + [""])[..4] == b;
    assert a[1] == b[1] && a[2] == b[2] && a[3] == b[3];
  }
}
