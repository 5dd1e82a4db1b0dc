/**
 Ties: keys that compare as equal keep the order they came in, so the canonical form of a value is
 independent of key order exactly when no object in it has two such keys.
 */
module CanonicalJsonTies {
  import opened Wrappers
  import opened CanonicalJson
  import opened CanonicalJsonLaws

  // ---------------------------------------------------------------- similar objects, key by key

  ghost predicate SameMembers(a: List<Entry>, b: List<Entry>, key: string) {
    Lookup(a, key).Some? == Lookup(b, key).Some?
    && (Lookup(a, key).Some? ==> Similar(Lookup(a, key).value, Lookup(b, key).value))
  }

  lemma {:induction false} CoveredByLookup(part: List<Entry>, all: List<Entry>, b: List<Entry>)
    requires WellFormedEntries(part) && forall key :: SameMembers(all, b, key)
    requires forall key :: Lookup(part, key).Some? ==> Lookup(part, key) == Lookup(all, key)
    ensures Covered(part, b)
  {
    if part.Cons? {
      var e := part.head;
      NoKeyNoMember(part.tail, e.key);
      forall key | Lookup(part.tail, key).Some? ensures Lookup(part.tail, key) == Lookup(all, key) {
        assert Lookup(part, key) == Lookup(part.tail, key);
      }
      CoveredByLookup(part.tail, all, b);
      if !e.value.Undefined? {
        assert Lookup(part, e.key) == Some(e.value);
        assert SameMembers(all, b, e.key);
      }
    }
  }

  lemma {:induction false} KeysByLookup(part: List<Entry>, a: List<Entry>, all: List<Entry>)
    requires forall key :: SameMembers(a, all, key)
    requires forall key :: Lookup(part, key).Some? ==> Lookup(all, key).Some?
    ensures KeysWithin(part, a)
  {
    if part.Cons? {
      forall key | Lookup(part.tail, key).Some? ensures Lookup(all, key).Some? { assert Lookup(part, key).Some?; }
      KeysByLookup(part.tail, a, all);
      if !part.head.value.Undefined? {
        assert Lookup(part, part.head.key).Some?;
        assert SameMembers(a, all, part.head.key);
      }
    }
  }

  lemma SimilarByLookup(a: List<Entry>, b: List<Entry>)
    requires WellFormedEntries(a) && forall key :: SameMembers(a, b, key)
    ensures Similar(Object(a), Object(b))
  {
    CoveredByLookup(a, a, b);
    KeysByLookup(b, a, b);
  }

  /** Every value is similar to itself. */
  lemma {:induction false} SimilarToItself(a: Json)
    requires WellFormed(a)
    ensures Similar(a, a)
    decreases a, 0
  {
    match a
    case Array(items) => ItemsSimilarToThemselves(items);
    case Object(entries) =>
      forall key ensures SameMembers(entries, entries, key) {
        if Lookup(entries, key).Some? {
          FoundIsSmaller(entries, key);
          SimilarToItself(Lookup(entries, key).value);
        }
      }
      SimilarByLookup(entries, entries);
    case _ =>
  }

  lemma {:induction false} ItemsSimilarToThemselves(items: List<Json>)
    requires WellFormedItems(items)
    ensures SimilarItems(items, items)
    decreases items, 1
  {
    if items.Cons? {
      SimilarToItself(items.head);
      ItemsSimilarToThemselves(items.tail);
    }
  }

  // ---------------------------------------------------------------- stability of the sort

  /** `x` stands before `y`. */
  predicate Comes(entries: List<Entry>, x: string, y: string) {
    entries.Cons? &&
    (if entries.head.key == x then HasKey(entries.tail, y) else entries.head.key != y && Comes(entries.tail, x, y))
  }

  lemma {:induction false} OneComesFirst(entries: List<Entry>, x: string, y: string)
    requires HasKey(entries, x) && HasKey(entries, y) && x != y
    ensures Comes(entries, x, y) <==> !Comes(entries, y, x)
  {
    if entries.head.key != x && entries.head.key != y { OneComesFirst(entries.tail, x, y); }
  }

  /** Inserting neither of two tied keys leaves their order, inserting one puts it in front of the other. */
  lemma {:induction false} InsertComes(o: Collation, e: Entry, sorted: List<Entry>, x: string, y: string)
    requires x != y && Leq(o, x, y) && Leq(o, y, x)
    ensures e.key != x && e.key != y ==> (Comes(Insert(o, e, sorted), x, y) <==> Comes(sorted, x, y))
    ensures e.key == x && HasKey(sorted, y) && Sorted(o, sorted) && Preorder(o) ==> Comes(Insert(o, e, sorted), x, y)
    ensures e.key == y && HasKey(sorted, x) && Sorted(o, sorted) && Preorder(o) ==> !Comes(Insert(o, e, sorted), x, y)
  {
    if sorted.Cons? && !Leq(o, e.key, sorted.head.key) {
      InsertComes(o, e, sorted.tail, x, y);
      InsertKeys(o, e, sorted.tail, y);
    }
  }

  lemma {:induction false} SortComes(o: Collation, entries: List<Entry>, x: string, y: string)
    requires Preorder(o) && x != y && Leq(o, x, y) && Leq(o, y, x)
    requires DistinctKeys(entries) && HasKey(entries, x) && HasKey(entries, y)
    ensures Comes(Sort(o, entries), x, y) <==> Comes(entries, x, y)
  {
    var e, rest := entries.head, entries.tail;
    SortSorts(o, rest);
    SortKeeps(o, rest, x);
    SortKeeps(o, rest, y);
    InsertComes(o, e, Sort(o, rest), x, y);
    if e.key != x && e.key != y { SortComes(o, rest, x, y); }
  }

  /** Canonical members stand in the order of the members. */
  lemma {:induction false} CanonicalComes(o: Collation, entries: List<Entry>, x: string, y: string)
    requires WellFormedEntries(entries) && Lookup(entries, x).Some? && Lookup(entries, y).Some? && x != y
    ensures Comes(CanonicalEntries(o, entries), x, y) <==> Comes(entries, x, y)
  {
    var e, rest := entries.head, entries.tail;
    NoKeyNoMember(rest, e.key);
    if e.key != x && e.key != y {
      CanonicalComes(o, rest, x, y);
    } else {
      CanonicalLookup(o, rest, x);
      CanonicalLookup(o, rest, y);
      MemberHasKey(CanonicalEntries(o, rest), x);
      MemberHasKey(CanonicalEntries(o, rest), y);
      if Lookup(rest, y).Some? { KeyOfMember(rest, y); }
    }
  }

  lemma {:induction false} KeyOfMember(entries: List<Entry>, key: string)
    requires Lookup(entries, key).Some?
    ensures HasKey(entries, key)
  {
    if entries.head.key != key { KeyOfMember(entries.tail, key); }
  }

  /** The order of two tied keys shows in the canonical form. */
  lemma FormKeepsTies(o: Collation, entries: List<Entry>, x: string, y: string)
    requires Preorder(o) && x != y && Leq(o, x, y) && Leq(o, y, x)
    requires WellFormedEntries(entries) && Lookup(entries, x).Some? && Lookup(entries, y).Some?
    ensures Comes(Sort(o, CanonicalEntries(o, entries)), x, y) <==> Comes(entries, x, y)
  {
    var members := CanonicalEntries(o, entries);
    CanonicalComes(o, entries, x, y);
    CanonicalLookup(o, entries, x);
    CanonicalLookup(o, entries, y);
    MemberHasKey(members, x);
    MemberHasKey(members, y);
    SortComes(o, members, x, y);
  }

  // ---------------------------------------------------------------- a similar value with another form

  function Without(entries: List<Entry>, key: string): List<Entry> {
    match entries
    case Nil => Nil
    case Cons(e, rest) => if e.key == key then rest else Cons(e, Without(rest, key))
  }

  lemma {:induction false} WithoutKeeps(entries: List<Entry>, key: string, other: string)
    requires WellFormedEntries(entries)
    ensures var rest := Without(entries, key);
      && WellFormedEntries(rest) && !HasKey(rest, key)
      && (other != key ==>
            (HasKey(rest, other) <==> HasKey(entries, other)) && Lookup(rest, other) == Lookup(entries, other))
  {
    if entries.Cons? && entries.head.key != key {
      WithoutKeeps(entries.tail, key, other);
      WithoutKeeps(entries.tail, key, entries.head.key);
    }
  }

  /** The same members with one moved to the front. */
  lemma MovedToFront(entries: List<Entry>, key: string) returns (moved: List<Entry>)
    requires WellFormedEntries(entries) && Lookup(entries, key).Some?
    ensures moved.Cons? && moved.head.key == key && WellFormedEntries(moved)
    ensures forall k :: Lookup(moved, k) == Lookup(entries, k)
    ensures Similar(Object(entries), Object(moved))
  {
    FoundIsSmaller(entries, key);
    FoundIsDefined(entries, key);
    moved := Cons(Entry(key, Lookup(entries, key).value), Without(entries, key));
    WithoutKeeps(entries, key, key);
    forall k ensures Lookup(moved, k) == Lookup(entries, k) { WithoutKeeps(entries, key, k); }
    forall k ensures SameMembers(entries, moved, k) {
      if Lookup(entries, k).Some? {
        FoundIsSmaller(entries, k);
        SimilarToItself(Lookup(entries, k).value);
      }
    }
    SimilarByLookup(entries, moved);
  }

  lemma {:induction false} FoundIsDefined(entries: List<Entry>, key: string)
    requires Lookup(entries, key).Some?
    ensures !Lookup(entries, key).value.Undefined?
  {
    if !(entries.head.key == key && !entries.head.value.Undefined?) { FoundIsDefined(entries.tail, key); }
  }

  /** Two tied keys the other way round. */
  lemma Swapped(o: Collation, entries: List<Entry>) returns (swapped: List<Entry>)
    requires Preorder(o) && WellFormedEntries(entries) && !TieFreeKeys(o, entries)
    ensures WellFormedEntries(swapped) && Similar(Object(entries), Object(swapped))
    ensures Canonicalize(o, Object(entries)) != Canonicalize(o, Object(swapped))
  {
    var x, y :| Lookup(entries, x).Some? && Lookup(entries, y).Some? && Leq(o, x, y) && Leq(o, y, x) && x != y;
    KeyOfMember(entries, x);
    KeyOfMember(entries, y);
    OneComesFirst(entries, x, y);
    var first, second := if Comes(entries, x, y) then x else y, if Comes(entries, x, y) then y else x;
    swapped := MovedToFront(entries, second);
    FormKeepsTies(o, entries, first, second);
    FormKeepsTies(o, swapped, first, second);
  }

  /** A value that stands for another one in an object. */
  function Put(entries: List<Entry>, key: string, value: Json): List<Entry> {
    match entries
    case Nil => Nil
    case Cons(e, rest) => if e.key == key then Cons(Entry(key, value), rest) else Cons(e, Put(rest, key, value))
  }

  lemma {:induction false} PutKeeps(entries: List<Entry>, key: string, value: Json, other: string)
    requires WellFormedEntries(entries) && Lookup(entries, key).Some? && WellFormed(value) && !value.Undefined?
    ensures var put := Put(entries, key, value);
      && WellFormedEntries(put) && (HasKey(put, other) <==> HasKey(entries, other))
      && Lookup(put, other) == if other == key then Some(value) else Lookup(entries, other)
  {
    NoKeyNoMember(entries.tail, entries.head.key);
    if entries.head.key != key {
      PutKeeps(entries.tail, key, value, other);
      PutKeeps(entries.tail, key, value, entries.head.key);
    }
  }

  lemma PutIsSimilar(o: Collation, entries: List<Entry>, key: string, value: Json)
    requires WellFormedEntries(entries) && Lookup(entries, key).Some? && WellFormed(value) && !value.Undefined?
    requires Similar(Lookup(entries, key).value, value)
    requires Canonicalize(o, Lookup(entries, key).value) != Canonicalize(o, value)
    ensures var put := Put(entries, key, value);
      && WellFormedEntries(put) && Similar(Object(entries), Object(put))
      && Canonicalize(o, Object(entries)) != Canonicalize(o, Object(put))
  {
    var put := Put(entries, key, value);
    forall k ensures SameMembers(entries, put, k) {
      PutKeeps(entries, key, value, k);
      if Lookup(entries, k).Some? {
        FoundIsSmaller(entries, k);
        SimilarToItself(Lookup(entries, k).value);
      }
    }
    PutKeeps(entries, key, value, key);
    SimilarByLookup(entries, put);
    ObjectLookup(o, entries, key);
    ObjectLookup(o, put, key);
  }

  /** A value with a tie has a similar one of another form. */
  lemma {:induction false} Untied(o: Collation, a: Json) returns (b: Json)
    requires Preorder(o) && WellFormed(a) && !TieFree(o, a)
    ensures WellFormed(b) && Similar(a, b) && Canonicalize(o, a) != Canonicalize(o, b)
    decreases a, 0
  {
    if a.Array? {
      var items := UntiedItems(o, a.items);
      b := Array(items);
    } else if !TieFreeKeys(o, a.entries) {
      var swapped := Swapped(o, a.entries);
      b := Object(swapped);
    } else {
      var key, value := UntiedMember(o, a.entries);
      PutIsSimilar(o, a.entries, key, value);
      b := Object(Put(a.entries, key, value));
    }
  }

  lemma {:induction false} UntiedItems(o: Collation, items: List<Json>) returns (others: List<Json>)
    requires Preorder(o) && WellFormedItems(items) && !TieFreeItems(o, items)
    ensures WellFormedItems(others) && SimilarItems(items, others)
        && CanonicalItems(o, items) != CanonicalItems(o, others)
    decreases items, 1
  {
    if TieFree(o, items.head) {
      var rest := UntiedItems(o, items.tail);
      SimilarToItself(items.head);
      others := Cons(items.head, rest);
    } else {
      var head := Untied(o, items.head);
      ItemsSimilarToThemselves(items.tail);
      others := Cons(head, items.tail);
    }
  }

  lemma {:induction false} UntiedMember(o: Collation, entries: List<Entry>) returns (key: string, value: Json)
    requires Preorder(o) && WellFormedEntries(entries) && !TieFreeMembers(o, entries)
    ensures Lookup(entries, key).Some? && WellFormed(value) && !value.Undefined?
    ensures Similar(Lookup(entries, key).value, value)
    ensures Canonicalize(o, Lookup(entries, key).value) != Canonicalize(o, value)
    decreases entries, 1
  {
    if TieFree(o, entries.head.value) {
      key, value := UntiedMember(o, entries.tail);
      NoKeyNoMember(entries.tail, entries.head.key);
    } else {
      key := entries.head.key;
      value := Untied(o, entries.head.value);
    }
  }

  /** The canonical form of a value is independent of key order exactly when the value has no ties. */
  lemma OneFormIffTieFree(o: Collation, a: Json)
    requires Preorder(o) && WellFormed(a)
    ensures TieFree(o, a) <==> forall b :: WellFormed(b) && Similar(a, b) ==> Canonicalize(o, a) == Canonicalize(o, b)
  {
    if TieFree(o, a) {
      forall b | WellFormed(b) && Similar(a, b)
        ensures Canonicalize(o, a) == Canonicalize(o, b)
      {
        SameFormIff(o, a, b);
      }
    } else {
      var b := Untied(o, a);
      assert WellFormed(b) && Similar(a, b);
    }
  }

  function Pair(x: string, y: string): Json {
    Object(Cons(Entry(x, Leaf("1")), Cons(Entry(y, Leaf("1")), Nil)))
  }

  /** Two keys that compare as equal keep the order they came in, so the same members give two forms. */
  lemma TieKeepsOrder(o: Collation, x: string, y: string)
    requires Preorder(o) && x != y && Leq(o, x, y) && Leq(o, y, x)
    ensures WellFormed(Pair(x, y)) && WellFormed(Pair(y, x)) && Similar(Pair(x, y), Pair(y, x))
    ensures Canonicalize(o, Pair(x, y)) == Pair(x, y) && Canonicalize(o, Pair(y, x)) == Pair(y, x)
    ensures Pair(x, y) != Pair(y, x)
  {
    var one := Leaf("1");
    var a, b := Cons(Entry(x, one), Cons(Entry(y, one), Nil)), Cons(Entry(y, one), Cons(Entry(x, one), Nil));
    assert CanonicalEntries(o, a.tail) == a.tail && CanonicalEntries(o, b.tail) == b.tail;
    assert CanonicalEntries(o, a) == a && CanonicalEntries(o, b) == b;
    assert Sorted(o, a) && Sorted(o, b);
    SortOfSorted(o, a);
    SortOfSorted(o, b);
    assert Lookup(a, y) == Some(one) && Lookup(b, x) == Some(one);
    assert Covered(a.tail, b) && KeysWithin(b.tail, a);
    assert WellFormedEntries(a.tail) && WellFormedEntries(b.tail);
  }

  /** Over all values the form is independent of key order exactly when the collation never ties. */
  lemma OrderIndependentIff(o: Collation)
    requires Preorder(o)
    ensures NoTies(o) <==> forall a, b :: WellFormed(a) && WellFormed(b) && Similar(a, b) ==>
              Canonicalize(o, a) == Canonicalize(o, b)
  {
    if NoTies(o) {
      forall a, b | WellFormed(a) && WellFormed(b) && Similar(a, b) ensures Canonicalize(o, a) == Canonicalize(o, b) {
        NoTiesAnywhere(o, a);
        SameFormIff(o, a, b);
      }
    } else {
      var x, y :| Leq(o, x, y) && Leq(o, y, x) && x != y;
      TieKeepsOrder(o, x, y);
    }
  }

  lemma {:induction false} NoTiesAnywhere(o: Collation, a: Json)
    requires NoTies(o)
    ensures TieFree(o, a)
    decreases a, 0
  {
    match a
    case Array(items) => NoTiesInItems(o, items);
    case Object(entries) => NoTiesInMembers(o, entries);
    case _ =>
  }

  lemma {:induction false} NoTiesInItems(o: Collation, items: List<Json>)
    requires NoTies(o)
    ensures TieFreeItems(o, items)
    decreases items, 1
  {
    if items.Cons? {
      NoTiesAnywhere(o, items.head);
      NoTiesInItems(o, items.tail);
    }
  }

  lemma {:induction false} NoTiesInMembers(o: Collation, entries: List<Entry>)
    requires NoTies(o)
    ensures TieFreeMembers(o, entries)
    decreases entries, 1
  {
    if entries.Cons? {
      NoTiesAnywhere(o, entries.head.value);
      NoTiesInMembers(o, entries.tail);
    }
  }
}
