/** A paged object listing as one flat sequence, and what reconciliation counts in it. */
module UploadListing {
  import opened Wrappers
  import opened UploadKeys

  const MAXIMUM_PAGE := 1000

  /** An object without a modification time is a broken backend. */
  datatype Object = Object(key: string, modifiedAt: Option<int>)

  datatype Page = Page(objects: seq<Object>, next: string)

  /** A backend whose listing is stable while it is read; `owns` is the prefix and namespace test. */
  datatype Bucket = Bucket(list: string -> Result<Page, Failure>, owns: string -> bool)

  /** Every cursor the backend may hand out. */
  ghost predicate Within(b: Bucket, space: set<string>) {
    forall c | b.list(c).Ok? && b.list(c).value.next != "" :: b.list(c).value.next in space
  }

  /** All pages from a cursor on, joined; none when a page fails, is too long or repeats a cursor. */
  ghost function Flat(b: Bucket, cursor: string, seen: set<string>, space: set<string>): Option<seq<Object>>
    requires Within(b, space)
    decreases |space - seen|
  {
    if b.list(cursor).Err? || |b.list(cursor).value.objects| > 1000 then None
    else
      var page := b.list(cursor).value;
      if page.next == "" then Some(page.objects)
      else if page.next in seen then None
      else
        Shrinks(space, seen, page.next);
        match Flat(b, page.next, seen + {page.next}, space)
        case None => None
        case Some(rest) => Some(page.objects + rest)
  }

  lemma Shrinks(space: set<string>, seen: set<string>, cursor: string)
    requires cursor in space && cursor !in seen
    ensures |space - (seen + {cursor})| < |space - seen|
  {
    assert space - seen == (space - (seen + {cursor})) + {cursor};
  }

  /** Keys strictly ascend from `last`. */
  predicate Ordered(objects: seq<Object>, last: string) {
    && (forall i | 0 <= i < |objects| :: Less(last, objects[i].key))
    && (forall i, j | 0 <= i < j < |objects| :: Less(objects[i].key, objects[j].key))
  }

  predicate Dated(objects: seq<Object>, owns: string -> bool) {
    forall i | 0 <= i < |objects| && owns(objects[i].key) :: objects[i].modifiedAt.Some?
  }

  function LastKey(objects: seq<Object>): string {
    if objects == [] then "" else objects[|objects| - 1].key
  }

  /** The objects this application owns. */
  function Owned(objects: seq<Object>, owns: string -> bool): seq<Object> {
    if objects == [] then []
    else
      var n := |objects| - 1;
      Owned(objects[..n], owns) + if owns(objects[n].key) then [objects[n]] else []
  }

  /** Owned, and not modified after the cutoff. */
  predicate Eligible(o: Object, owns: string -> bool, cutoff: int) {
    owns(o.key) && o.modifiedAt.Some? && o.modifiedAt.value <= cutoff
  }

  function EligibleKeys(objects: seq<Object>, owns: string -> bool, cutoff: int): seq<string> {
    if objects == [] then []
    else
      var n := |objects| - 1;
      EligibleKeys(objects[..n], owns, cutoff) + if Eligible(objects[n], owns, cutoff) then [objects[n].key] else []
  }

  function Unreferenced(keys: seq<string>, references: set<string>): seq<string> {
    if keys == [] then []
    else
      var n := |keys| - 1;
      Unreferenced(keys[..n], references) + if keys[n] in references then [] else [keys[n]]
  }

  /** What a reconciliation of these objects should find, as a set. */
  function OrphanKeys(objects: seq<Object>, owns: string -> bool, cutoff: int, references: set<string>): set<string> {
    set o | o in objects && owns(o.key) && o.modifiedAt.Some? && o.modifiedAt.value <= cutoff && o.key !in references
      :: o.key
  }

  lemma {:induction false} UnreferencedJoins(a: seq<string>, b: seq<string>, references: set<string>)
    ensures Unreferenced(a + b, references) == Unreferenced(a, references) + Unreferenced(b, references)
  {
    if b == [] {
      assert a + b == a;
    } else {
      var n := |b| - 1;
      assert (a + b)[..|a| + n] == a + b[..n];
      UnreferencedJoins(a, b[..n], references);
    }
  }

  lemma {:induction false} UnreferencedElements(keys: seq<string>, references: set<string>)
    ensures Elements(Unreferenced(keys, references)) == Elements(keys) - references
    ensures |Unreferenced(keys, references)| <= |keys|
  {
    if keys != [] {
      hide Elements;
      var front, last := keys[..|keys| - 1], keys[|keys| - 1];
      UnreferencedElements(front, references);
      assert keys == front + [last];
      ElementsGrow(front, last);
      var kept := Unreferenced(front, references);
      ElementsGrow(kept, last);
      if last in references {
        assert Unreferenced(keys, references) == kept;
      } else {
        assert Unreferenced(keys, references) == kept + [last];
      }
    }
  }

  lemma {:induction false} UnreferencedAscends(keys: seq<string>, references: set<string>)
    requires Ascending(keys)
    ensures Ascending(Unreferenced(keys, references))
  {
    hide Less, Elements;
    if keys != [] {
      var front, last := keys[..|keys| - 1], keys[|keys| - 1];
      var kept := Unreferenced(front, references);
      UnreferencedAscends(front, references);
      UnreferencedElements(front, references);
      forall i | 0 <= i < |kept| ensures Less(kept[i], last) {
        var j := ElementAt(front, kept, i);
        assert keys[j] == kept[i];
      }
    }
  }

  lemma ElementAt(keys: seq<string>, kept: seq<string>, i: nat) returns (j: nat)
    requires i < |kept| && Elements(kept) <= Elements(keys)
    ensures j < |keys| && keys[j] == kept[i]
  {
    assert kept[i] in Elements(kept);
    j :| 0 <= j < |keys| && keys[j] == kept[i];
  }

  lemma UnreferencedKeeps(keys: seq<string>, references: set<string>)
    requires Ascending(keys)
    ensures Ascending(Unreferenced(keys, references))
    ensures Elements(Unreferenced(keys, references)) == Elements(keys) - references
    ensures |Unreferenced(keys, references)| <= |keys|
  {
    UnreferencedElements(keys, references);
    UnreferencedAscends(keys, references);
  }

  lemma ElementsGrow(keys: seq<string>, last: string)
    ensures Elements(keys + [last]) == Elements(keys) + {last}
  {
  }

  lemma {:induction false} EligibleKeysAscend(objects: seq<Object>, owns: string -> bool, cutoff: int)
    requires Ordered(objects, "")
    ensures var keys := EligibleKeys(objects, owns, cutoff);
            && Ascending(keys) && "" !in keys
            && forall k :: k in keys <==> exists o :: o in objects && Eligible(o, owns, cutoff) && o.key == k
  {
    if objects != [] {
      var n := |objects| - 1;
      EligibleKeysAscend(objects[..n], owns, cutoff);
      var keys := EligibleKeys(objects[..n], owns, cutoff);
      assert objects == objects[..n] + [objects[n]];
      forall i | 0 <= i < |keys| ensures Less(keys[i], objects[n].key) { assert keys[i] in keys; }
    }
  }

  /** For an ordered listing the counts are the size of the set of orphans: no key is counted twice. */
  lemma OrphanCount(objects: seq<Object>, owns: string -> bool, cutoff: int, references: set<string>)
    requires Ordered(objects, "")
    ensures var orphans := Unreferenced(EligibleKeys(objects, owns, cutoff), references);
            && Elements(orphans) == OrphanKeys(objects, owns, cutoff, references)
            && |orphans| == |OrphanKeys(objects, owns, cutoff, references)|
  {
    EligibleKeysAscend(objects, owns, cutoff);
    var keys := EligibleKeys(objects, owns, cutoff);
    UnreferencedKeeps(keys, references);
    var orphans := Unreferenced(keys, references);
    AscendingIsDistinct(orphans);
    DistinctSize(orphans);
    assert Elements(orphans) == OrphanKeys(objects, owns, cutoff, references);
  }
}
