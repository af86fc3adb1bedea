/** Object keys: their byte order, and the bounded, ordered key sets every reference lookup takes. */
module UploadKeys {
  import opened Wrappers

  /** The largest key set one targeted reference lookup takes. */
  const MAXIMUM_CANDIDATES := 66

  datatype Failure = StorageFailed | StoreFailed

  predicate Less(a: string, b: string) {
    b != "" && (a == "" || a[0] < b[0] || (a[0] == b[0] && Less(a[1..], b[1..])))
  }

  lemma {:induction false} LessTransitive(a: string, b: string, c: string)
    requires Less(a, b) && Less(b, c)
    ensures Less(a, c)
  {
    if a != "" && a[0] == b[0] && b[0] == c[0] {
      LessTransitive(a[1..], b[1..], c[1..]);
    }
  }

  lemma {:induction false} LessTotal(a: string, b: string)
    ensures Less(a, b) || a == b || Less(b, a)
    ensures Less(a, b) ==> a != b && !Less(b, a)
  {
    if a != "" && b != "" {
      LessTotal(a[1..], b[1..]);
      if a[0] == b[0] && a[1..] == b[1..] { assert a == [a[0]] + a[1..] && b == [b[0]] + b[1..]; }
    }
  }

  /** Byte order: a proper prefix comes first, otherwise the first difference decides. */
  lemma {:induction false} LessMeaning(a: string, b: string)
    ensures Less(a, b) <==>
              exists i | 0 <= i < |b| :: i <= |a| && a[..i] == b[..i] && (i == |a| || a[i] < b[i])
  {
    if a != "" && b != "" && a[0] == b[0] {
      LessMeaning(a[1..], b[1..]);
      if Less(a[1..], b[1..]) {
        var i :| 0 <= i < |b[1..]| && i <= |a[1..]| && a[1..][..i] == b[1..][..i]
                 && (i == |a[1..]| || a[1..][i] < b[1..][i]);
        assert a[..i + 1] == [a[0]] + a[1..][..i] && b[..i + 1] == [b[0]] + b[1..][..i];
        assert 0 <= i + 1 < |b| && (i + 1 == |a| || a[i + 1] < b[i + 1]);
      }
      if i :| 0 <= i < |b| && i <= |a| && a[..i] == b[..i] && (i == |a| || a[i] < b[i]) {
        assert i > 0;
        assert a[1..][..i - 1] == a[..i][1..] && b[1..][..i - 1] == b[..i][1..];
        assert 0 <= i - 1 < |b[1..]| && (i - 1 == |a[1..]| || a[1..][i - 1] < b[1..][i - 1]);
      }
    } else if b != "" {
      assert a[..0] == b[..0];
      forall i | 0 < i < |b| && i <= |a| && a[0] != b[0] ensures a[..i] != b[..i] {
        assert a[..i][0] == a[0] && b[..i][0] == b[0];
      }
    }
  }

  predicate Ascending(keys: seq<string>) {
    forall i, j | 0 <= i < j < |keys| :: Less(keys[i], keys[j])
  }

  predicate Distinct(keys: seq<string>) {
    forall i, j | 0 <= i < j < |keys| :: keys[i] != keys[j]
  }

  lemma AscendingIsDistinct(keys: seq<string>)
    requires Ascending(keys)
    ensures Distinct(keys)
  {
    forall i, j | 0 <= i < j < |keys| ensures keys[i] != keys[j] { LessTotal(keys[i], keys[j]); }
  }

  function Elements(keys: seq<string>): set<string> {
    set k | k in keys
  }

  lemma {:induction false} DistinctSize(keys: seq<string>)
    requires Distinct(keys)
    ensures |Elements(keys)| == |keys|
  {
    if keys != [] {
      var n := |keys| - 1;
      assert keys == keys[..n] + [keys[n]];
      assert Elements(keys) == Elements(keys[..n]) + {keys[n]};
      DistinctSize(keys[..n]);
    }
  }

  /** One key put in its place among ascending keys. */
  function Inserted(key: string, keys: seq<string>): seq<string> {
    if keys == [] then [key]
    else if Less(key, keys[0]) then [key] + keys
    else [keys[0]] + Inserted(key, keys[1..])
  }

  lemma {:induction false} InsertedIsAscending(key: string, keys: seq<string>)
    requires Ascending(keys) && key !in keys
    ensures Ascending(Inserted(key, keys))
    ensures Elements(Inserted(key, keys)) == Elements(keys) + {key}
  {
    if keys != [] {
      LessTotal(key, keys[0]);
      assert keys == [keys[0]] + keys[1..];
      if Less(key, keys[0]) {
        forall i | 1 <= i < |keys| ensures Less(key, keys[i]) { LessTransitive(key, keys[0], keys[i]); }
      } else {
        InsertedIsAscending(key, keys[1..]);
        var rest := Inserted(key, keys[1..]);
        forall i | 0 <= i < |rest| ensures Less(keys[0], rest[i]) {
          assert rest[i] in Elements(rest);
        }
      }
    }
  }

  /** The distinct nonempty keys in byte order, refused above the bound. */
  method BoundedKeys(keys: seq<string>) returns (ordered: Result<seq<string>, Failure>)
    ensures ordered.Ok? <==> |Elements(keys) - {""}| <= 66
    ensures ordered.Ok? ==> Ascending(ordered.value) && Elements(ordered.value) == Elements(keys) - {""}
  {
    var unique: set<string> := {};
    var i := 0;
    while i < |keys|
      invariant i <= |keys| && unique == Elements(keys[..i]) - {""}
    {
      if keys[i] != "" { unique := unique + {keys[i]}; }
      i := i + 1;
    }
    assert keys[..i] == keys;
    if |unique| > MAXIMUM_CANDIDATES { return Err(StoreFailed); }
    var sorted: seq<string> := [];
    var remaining := unique;
    while remaining != {}
      invariant remaining <= unique && Ascending(sorted) && Elements(sorted) == unique - remaining
      decreases |remaining|
    {
      var key :| key in remaining;
      assert key !in Elements(sorted);
      InsertedIsAscending(key, sorted);
      sorted, remaining := Inserted(key, sorted), remaining - {key};
    }
    return Ok(sorted);
  }
}
