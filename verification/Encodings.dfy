/** Decimal 64-bit integers and unpadded URL-safe base64, as the standard library reads and writes them. */
module Encodings {
  import opened Wrappers

  // ----- decimal integers -----

  function Digit(n: nat): char
    requires n < 10
  {
    '0' + n as char
  }

  function DigitValue(c: char): (r: Option<nat>)
    ensures r.Some? ==> r.value < 10
  {
    if '0' <= c <= '9' then Some((c - '0') as nat) else None
  }

  function Decimal(n: nat): string {
    if n < 10 then [Digit(n)] else Decimal(n / 10) + [Digit(n % 10)]
  }

  /** The value of a nonempty run of digits. */
  function DigitsValue(s: string): Option<nat>
    decreases |s|
  {
    if s == "" then None
    else
      var last := DigitValue(s[|s| - 1]);
      if last.None? then None
      else if |s| == 1 then last
      else
        var front := DigitsValue(s[..|s| - 1]);
        if front.None? then None else Some(10 * front.value + last.value)
  }

  /** A 64-bit signed integer in base ten: an optional sign, then digits, within range. */
  function ParseInt64(s: string): Option<int> {
    if s == "" then None
    else
      var signed := s[0] == '+' || s[0] == '-';
      var digits := DigitsValue(if signed then s[1..] else s);
      if digits.None? then None
      else
        var n := if s[0] == '-' then 0 - digits.value as int else digits.value as int;
        if -0x8000_0000_0000_0000 <= n < 0x8000_0000_0000_0000 then Some(n) else None
  }

  lemma {:induction false} DecimalIsDigits(n: nat)
    ensures forall c | c in Decimal(n) :: '0' <= c <= '9'
    ensures DigitsValue(Decimal(n)) == Some(n)
  {
    if n >= 10 {
      DecimalIsDigits(n / 10);
      var s := Decimal(n);
      assert s[..|s| - 1] == Decimal(n / 10);
    }
  }

  lemma DecimalRoundTrip(n: nat)
    requires n < 0x8000_0000_0000_0000
    ensures ParseInt64(Decimal(n)) == Some(n)
  {
    DecimalIsDigits(n);
    assert Decimal(n)[0] in Decimal(n);
  }

  lemma {:induction false} DecimalLeads(n: nat)
    ensures |Decimal(n)| == 1 || Decimal(n)[0] != '0'
  {
    if n >= 10 { DecimalLeads(n / 10); }
  }

  lemma {:induction false} NonzeroDigits(s: string)
    requires DigitsValue(s).Some? && s[0] != '0'
    ensures DigitsValue(s).value >= 1
    decreases |s|
  {
    if |s| > 1 { NonzeroDigits(s[..|s| - 1]); }
  }

  lemma {:induction false} FirstDigit(s: string)
    requires DigitsValue(s).Some?
    ensures '0' <= s[0] <= '9'
    decreases |s|
  {
    if |s| > 1 { FirstDigit(s[..|s| - 1]); }
  }

  lemma OneDigit(c: char)
    requires '0' <= c <= '9'
    ensures DigitsValue([c]) == DigitValue(c)
  {
  }

  /** Printing what was read gives the digits back exactly when there is no superfluous leading zero. */
  lemma {:induction false} DecimalCanonical(s: string)
    requires DigitsValue(s).Some?
    ensures Decimal(DigitsValue(s).value) == s <==> |s| == 1 || s[0] != '0'
    decreases |s|
  {
    var n := DigitsValue(s).value;
    DecimalLeads(n);
    if |s| > 1 && s[0] != '0' {
      var front := s[..|s| - 1];
      NonzeroDigits(front);
      DecimalCanonical(front);
      assert n / 10 == DigitsValue(front).value;
      assert s == front + [s[|s| - 1]];
    }
  }

  function Pow10(k: nat): nat {
    if k == 0 then 1 else 10 * Pow10(k - 1)
  }

  lemma {:induction false} DecimalLength(n: nat, k: nat)
    requires k >= 1 && n < Pow10(k)
    ensures |Decimal(n)| <= k
  {
    if n >= 10 {
      assert Pow10(k) == 10 * Pow10(k - 1);
      DecimalLength(n / 10, k - 1);
    }
  }

  lemma DecimalFits(n: nat)
    requires n < 0x8000_0000_0000_0000
    ensures |Decimal(n)| <= 19
  {
    assert Pow10(4) == 10_000;
    assert Pow10(8) == 100_000_000;
    assert Pow10(12) == 1_000_000_000_000;
    assert Pow10(16) == 10_000_000_000_000_000;
    assert Pow10(19) == 10_000_000_000_000_000_000;
    DecimalLength(n, 19);
  }

  // ----- base64url without padding (section 5 of RFC 4648) -----

  type Byte = b: int | 0 <= b < 256

  type Sextet = n: int | 0 <= n < 64

  function Symbol(n: Sextet): char {
    if n < 26 then 'A' + n as char
    else if n < 52 then 'a' + (n - 26) as char
    else if n < 62 then '0' + (n - 52) as char
    else if n == 62 then '-' else '_'
  }

  function SymbolValue(c: char): Option<Sextet> {
    if 'A' <= c <= 'Z' then Some((c - 'A') as int)
    else if 'a' <= c <= 'z' then Some((c - 'a') as int + 26)
    else if '0' <= c <= '9' then Some((c - '0') as int + 52)
    else if c == '-' then Some(62)
    else if c == '_' then Some(63)
    else None
  }

  lemma SymbolRoundTrip(n: Sextet)
    ensures SymbolValue(Symbol(n)) == Some(n) && Symbol(n) != '.' && Symbol(n) != '\r' && Symbol(n) != '\n'
  {
  }

  /** The URL-safe alphabet (table 2 of section 5 of RFC 4648): three runs and two symbols. */
  lemma UrlAlphabet(n: Sextet)
    ensures Symbol(0) == 'A' && Symbol(25) == 'Z' && Symbol(26) == 'a' && Symbol(51) == 'z'
    ensures Symbol(52) == '0' && Symbol(61) == '9' && Symbol(62) == '-' && Symbol(63) == '_'
    ensures n < 25 || 26 <= n < 51 || 52 <= n < 61 ==> Symbol(n + 1) as int == Symbol(n) as int + 1
  {
  }

  /** Nothing else has a value, the padding and the symbols of the other alphabet included. */
  lemma OnlyTheAlphabetHasValues(c: char)
    ensures SymbolValue(c).Some? ==> Symbol(SymbolValue(c).value) == c
    ensures SymbolValue(c).Some? <==>
              ('A' <= c && c <= 'Z') || ('a' <= c && c <= 'z') || ('0' <= c && c <= '9') || c == '-' || c == '_'
  {
  }

  // Three bytes are four sextets.
  function Sextet0(a: Byte): Sextet { a / 4 }

  function Sextet1(a: Byte, b: Byte): Sextet { a % 4 * 16 + b / 16 }

  function Sextet2(b: Byte, c: Byte): Sextet { b % 16 * 4 + c / 64 }

  function Sextet3(c: Byte): Sextet { c % 64 }

  function Byte0(w: Sextet, x: Sextet): Byte { w as int * 4 + x as int / 16 }

  function Byte1(x: Sextet, y: Sextet): Byte { x as int % 16 * 16 + y as int / 4 }

  function Byte2(y: Sextet, z: Sextet): Byte { y as int % 4 * 64 + z as int }

  lemma Packed(a: Byte, b: Byte, c: Byte)
    ensures Byte0(Sextet0(a), Sextet1(a, b)) == a
    ensures Byte1(Sextet1(a, b), Sextet2(b, c)) == b
    ensures Byte2(Sextet2(b, c), Sextet3(c)) == c
  {
  }

  /** A short last group is filled up with zero bits. */
  function Encode(bytes: seq<Byte>): string {
    if bytes == [] then ""
    else if |bytes| == 1 then [Symbol(Sextet0(bytes[0])), Symbol(Sextet1(bytes[0], 0))]
    else if |bytes| == 2 then
      [Symbol(Sextet0(bytes[0])), Symbol(Sextet1(bytes[0], bytes[1])), Symbol(Sextet2(bytes[1], 0))]
    else
      [Symbol(Sextet0(bytes[0])), Symbol(Sextet1(bytes[0], bytes[1])),
       Symbol(Sextet2(bytes[1], bytes[2])), Symbol(Sextet3(bytes[2]))] + Encode(bytes[3..])
  }

  /** Line breaks are skipped wherever they stand. */
  function Unbroken(s: string): string {
    if s == "" then ""
    else if s[0] == '\r' || s[0] == '\n' then Unbroken(s[1..])
    else [s[0]] + Unbroken(s[1..])
  }

  function SymbolValues(s: string): Option<seq<Sextet>> {
    if s == "" then Some([])
    else
      var first, rest := SymbolValue(s[0]), SymbolValues(s[1..]);
      if first.None? || rest.None? then None else Some([first.value] + rest.value)
  }

  /** Four symbols make three bytes; the spare bits of a short last group are not looked at. */
  function Bytes(values: seq<Sextet>): Option<seq<Byte>> {
    if values == [] then Some([])
    else if |values| == 1 then None
    else
      var a := Byte0(values[0], values[1]);
      if |values| == 2 then Some([a])
      else
        var b := Byte1(values[1], values[2]);
        if |values| == 3 then Some([a, b])
        else
          var c := Byte2(values[2], values[3]);
          var rest := Bytes(values[4..]);
          if rest.None? then None else Some([a, b, c] + rest.value)
  }

  function Decode(s: string): Option<seq<Byte>> {
    var values := SymbolValues(Unbroken(s));
    if values.None? then None else Bytes(values.value)
  }

  /** The six-bit values an encoding spells. */
  function Sextets(bytes: seq<Byte>): seq<Sextet> {
    if bytes == [] then []
    else if |bytes| == 1 then [Sextet0(bytes[0]), Sextet1(bytes[0], 0)]
    else if |bytes| == 2 then [Sextet0(bytes[0]), Sextet1(bytes[0], bytes[1]), Sextet2(bytes[1], 0)]
    else
      [Sextet0(bytes[0]), Sextet1(bytes[0], bytes[1]), Sextet2(bytes[1], bytes[2]), Sextet3(bytes[2])]
      + Sextets(bytes[3..])
  }

  function Spell(values: seq<Sextet>): string {
    if values == [] then "" else [Symbol(values[0])] + Spell(values[1..])
  }

  lemma {:induction false} SpellJoins(a: seq<Sextet>, b: seq<Sextet>)
    ensures Spell(a + b) == Spell(a) + Spell(b)
  {
    if a == [] {
      assert a + b == b;
    } else {
      assert (a + b)[1..] == a[1..] + b;
      SpellJoins(a[1..], b);
    }
  }

  lemma SpellFour(a: Sextet, b: Sextet, c: Sextet, d: Sextet)
    ensures Spell([a, b, c, d]) == [Symbol(a), Symbol(b), Symbol(c), Symbol(d)]
  {
    assert [a, b, c, d][1..] == [b, c, d] && [b, c, d][1..] == [c, d] && [c, d][1..] == [d] && [d][1..] == [];
    assert Spell([d]) == [Symbol(d)];
    assert Spell([c, d]) == [Symbol(c), Symbol(d)];
    assert Spell([b, c, d]) == [Symbol(b), Symbol(c), Symbol(d)];
  }

  lemma {:induction false} EncodeSpells(bytes: seq<Byte>)
    ensures Encode(bytes) == Spell(Sextets(bytes))
  {
    hide Sextet0, Sextet1, Sextet2, Sextet3, Symbol;
    if |bytes| == 1 {
      var v := Sextets(bytes);
      assert v[1..] == [v[1]] && v[1..][1..] == [];
      assert Spell([v[1]]) == [Symbol(v[1])];
    } else if |bytes| == 2 {
      var v := Sextets(bytes);
      assert v[1..] == [v[1], v[2]] && [v[1], v[2]][1..] == [v[2]] && [v[2]][1..] == [];
      assert Spell([v[2]]) == [Symbol(v[2])];
      assert Spell([v[1], v[2]]) == [Symbol(v[1]), Symbol(v[2])];
    } else if |bytes| >= 3 {
      var a, b := Sextet0(bytes[0]), Sextet1(bytes[0], bytes[1]);
      var c, d := Sextet2(bytes[1], bytes[2]), Sextet3(bytes[2]);
      SpellFour(a, b, c, d);
      SpellJoins([a, b, c, d], Sextets(bytes[3..]));
      EncodeSpells(bytes[3..]);
    }
  }

  /** Spelled values read back, and nothing in a spelling is a line break or a dot. */
  lemma {:induction false} SpellReads(values: seq<Sextet>)
    ensures Unbroken(Spell(values)) == Spell(values) && SymbolValues(Spell(values)) == Some(values)
    ensures |Spell(values)| == |values| && '.' !in Spell(values)
  {
    if values != [] {
      SymbolRoundTrip(values[0]);
      SpellReads(values[1..]);
      assert Spell(values)[1..] == Spell(values[1..]);
      assert values == [values[0]] + values[1..];
    }
  }

  lemma {:induction false} SextetsRoundTrip(bytes: seq<Byte>)
    ensures Bytes(Sextets(bytes)) == Some(bytes)
  {
    hide Sextet0, Sextet1, Sextet2, Sextet3, Byte0, Byte1, Byte2;
    if |bytes| == 1 {
      Packed(bytes[0], 0, 0);
      assert bytes == [bytes[0]];
    } else if |bytes| == 2 {
      Packed(bytes[0], bytes[1], 0);
      assert bytes == [bytes[0], bytes[1]];
    } else if |bytes| >= 3 {
      Packed(bytes[0], bytes[1], bytes[2]);
      SextetsRoundTrip(bytes[3..]);
      assert Sextets(bytes)[4..] == Sextets(bytes[3..]);
      assert bytes == [bytes[0], bytes[1], bytes[2]] + bytes[3..];
    }
  }

  lemma {:induction false} SextetsLength(bytes: seq<Byte>)
    ensures |Sextets(bytes)| == (|bytes| * 4 + 2) / 3
  {
    if |bytes| >= 3 { SextetsLength(bytes[3..]); }
  }

  /** Decoding what was encoded gives the bytes back, for every byte string. */
  lemma Base64RoundTrip(bytes: seq<Byte>)
    ensures Decode(Encode(bytes)) == Some(bytes)
    ensures |Encode(bytes)| == (|bytes| * 4 + 2) / 3 && '.' !in Encode(bytes)
  {
    EncodeSpells(bytes);
    SpellReads(Sextets(bytes));
    SextetsRoundTrip(bytes);
    SextetsLength(bytes);
  }

  /** The bits of a short last group that stand for no byte. */
  predicate SpareBitsClear(values: seq<Sextet>) {
    && (|values| % 4 == 2 ==> values[|values| - 1] as int % 16 == 0)
    && (|values| % 4 == 3 ==> values[|values| - 1] as int % 4 == 0)
  }

  lemma Unpacked(w: Sextet, x: Sextet, y: Sextet, z: Sextet)
    ensures Sextet0(Byte0(w, x)) == w
    ensures Sextet1(Byte0(w, x), Byte1(x, y)) == x
    ensures Sextet1(Byte0(w, x), 0) == x <==> x as int % 16 == 0
    ensures Sextet2(Byte1(x, y), Byte2(y, z)) == y
    ensures Sextet2(Byte1(x, y), 0) == y <==> y as int % 4 == 0
    ensures Sextet3(Byte2(y, z)) == z
  {
  }

  lemma SpareBitsOfRest(values: seq<Sextet>)
    requires |values| >= 4
    ensures SpareBitsClear(values) <==> SpareBitsClear(values[4..])
  {
    assert |values[4..]| % 4 == |values| % 4;
  }

  /** The first three bytes and the first four sextets stand for each other. */
  lemma FirstGroup(values: seq<Sextet>)
    requires |values| >= 4 && Bytes(values).Some?
    ensures Bytes(values[4..]).Some?
    ensures var rest := Bytes(values[4..]).value;
            Sextets(Bytes(values).value) == values[..4] + Sextets(rest)
  {
    hide Sextet0, Sextet1, Sextet2, Sextet3, Byte0, Byte1, Byte2;
    Unpacked(values[0], values[1], values[2], values[3]);
    var bytes, rest := Bytes(values).value, Bytes(values[4..]).value;
    assert bytes[3..] == rest;
    assert values[..4] == [values[0], values[1], values[2], values[3]];
  }

  lemma {:induction false} BytesRoundTrip(values: seq<Sextet>)
    requires Bytes(values).Some?
    ensures Sextets(Bytes(values).value) == values <==> SpareBitsClear(values)
  {
    if |values| >= 4 {
      FirstGroup(values);
      SpareBitsOfRest(values);
      BytesRoundTrip(values[4..]);
      hide Sextets, Bytes, SpareBitsClear;
      var out := Sextets(Bytes(values).value);
      assert values == values[..4] + values[4..];
      assert out[4..] == Sextets(Bytes(values[4..]).value);
    } else {
      ShortRoundTrip(values);
    }
  }

  lemma TwoSextets(w: Sextet, x: Sextet)
    ensures Bytes([w, x]) == Some([Byte0(w, x)])
    ensures Sextets([Byte0(w, x)]) == [w, x] <==> x as int % 16 == 0
  {
    Unpacked(w, x, 0, 0);
    hide Sextet0, Sextet1, Byte0;
    var a := Byte0(w, x);
    assert Sextets([a]) == [w, Sextet1(a, 0)];
    assert [w, Sextet1(a, 0)] == [w, x] <==> Sextet1(a, 0) == x by {
      assert [w, Sextet1(a, 0)][1] == Sextet1(a, 0) && [w, x][1] == x;
    }
  }

  lemma ThreeSextets(w: Sextet, x: Sextet, y: Sextet)
    ensures Bytes([w, x, y]) == Some([Byte0(w, x), Byte1(x, y)])
    ensures Sextets([Byte0(w, x), Byte1(x, y)]) == [w, x, y] <==> y as int % 4 == 0
  {
    Unpacked(w, x, y, 0);
    hide Sextet0, Sextet1, Sextet2, Byte0, Byte1;
    var a, b := Byte0(w, x), Byte1(x, y);
    assert Sextets([a, b]) == [w, x, Sextet2(b, 0)];
    assert [w, x, Sextet2(b, 0)] == [w, x, y] <==> Sextet2(b, 0) == y by {
      assert [w, x, Sextet2(b, 0)][2] == Sextet2(b, 0) && [w, x, y][2] == y;
    }
  }

  lemma ShortRoundTrip(values: seq<Sextet>)
    requires Bytes(values).Some? && |values| < 4
    ensures Sextets(Bytes(values).value) == values <==> SpareBitsClear(values)
  {
    hide Sextets, Byte0, Byte1;
    if |values| == 2 {
      assert values == [values[0], values[1]];
      TwoSextets(values[0], values[1]);
    } else if |values| == 3 {
      assert values == [values[0], values[1], values[2]];
      ThreeSextets(values[0], values[1], values[2]);
    } else {
      assert values == [] && Sextets([]) == [] by { NoSextets(); }
    }
  }

  lemma NoSextets()
    ensures Sextets([]) == []
  {
  }

  lemma {:induction false} ValuesSpell(s: string)
    requires SymbolValues(s).Some?
    ensures Spell(SymbolValues(s).value) == s && |SymbolValues(s).value| == |s|
    ensures forall i | 0 <= i < |s| :: SymbolValue(s[i]) == Some(SymbolValues(s).value[i])
  {
    if s != "" {
      ValuesSpell(s[1..]);
      var rest := SymbolValues(s[1..]).value;
      assert SymbolValues(s).value[1..] == rest;
      assert forall i | 1 <= i < |s| :: s[i] == s[1..][i - 1];
    }
  }

  lemma {:induction false} UnbrokenIsWhole(s: string)
    ensures '\r' !in Unbroken(s) && '\n' !in Unbroken(s)
    ensures '\r' !in s && '\n' !in s ==> Unbroken(s) == s
  {
    if s != "" { UnbrokenIsWhole(s[1..]); }
  }

  /** No line break, and no bit set that stands for no byte. */
  predicate Canonical(s: string)
    requires Decode(s).Some?
  {
    '\r' !in s && '\n' !in s && SpareBitsClear(SymbolValues(Unbroken(s)).value)
  }

  lemma {:induction false} BytesLength(values: seq<Sextet>)
    requires Bytes(values).Some?
    ensures |values| == (|Bytes(values).value| * 4 + 2) / 3
  {
    if |values| >= 4 { BytesLength(values[4..]); }
  }

  /** Encoding what was decoded gives the text back exactly for canonical texts. */
  lemma Base64Canonical(s: string)
    requires Decode(s).Some?
    ensures Encode(Decode(s).value) == s <==> Canonical(s)
  {
    hide Bytes, Sextets, Encode, Spell, SpareBitsClear;
    var text, bytes := Unbroken(s), Decode(s).value;
    var values := SymbolValues(text).value;
    UnbrokenIsWhole(s);
    ValuesSpell(text);
    BytesRoundTrip(values);
    EncodeSpells(bytes);
    SpellReads(Sextets(bytes));
    if Encode(bytes) == s {
      UnbrokenIsWhole(Encode(bytes));
      assert Unbroken(Encode(bytes)) == s;
    }
  }
}
