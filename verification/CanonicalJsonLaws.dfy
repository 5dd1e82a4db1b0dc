/**
 Canonical forms are stable, and two values have the same one exactly when they are equal up to key order
 and undefined members, as long as no two different keys compare as equal.
 */
module CanonicalJsonLaws {
  import opened Wrappers
  import opened CanonicalJson

  // ---------------------------------------------------------------- sorting

  predicate Sorted(o: Collation, entries: List<Entry>) {
    entries.Nil? || entries.tail.Nil? ||
    (Leq(o, entries.head.key, entries.tail.head.key) && Sorted(o, entries.tail))
  }

  predicate AllDefined(entries: List<Entry>) {
    entries.Nil? || (!entries.head.value.Undefined? && AllDefined(entries.tail))
  }

  lemma {:induction false} InsertSorts(o: Collation, e: Entry, sorted: List<Entry>)
    requires Preorder(o) && Sorted(o, sorted)
    ensures Sorted(o, Insert(o, e, sorted))
  {
    if sorted.Cons? && !Leq(o, e.key, sorted.head.key) { InsertSorts(o, e, sorted.tail); }
  }

  lemma {:induction false} SortSorts(o: Collation, entries: List<Entry>)
    requires Preorder(o)
    ensures Sorted(o, Sort(o, entries))
  {
    if entries.Cons? {
      SortSorts(o, entries.tail);
      InsertSorts(o, entries.head, Sort(o, entries.tail));
    }
  }

  lemma {:induction false} SortOfSorted(o: Collation, entries: List<Entry>)
    requires Sorted(o, entries)
    ensures Sort(o, entries) == entries
  {
    if entries.Cons? { SortOfSorted(o, entries.tail); }
  }

  lemma {:induction false} InsertKeys(o: Collation, e: Entry, sorted: List<Entry>, key: string)
    ensures HasKey(Insert(o, e, sorted), key) <==> e.key == key || HasKey(sorted, key)
    ensures AllDefined(Insert(o, e, sorted)) <==> !e.value.Undefined? && AllDefined(sorted)
  {
    if sorted.Cons? && !Leq(o, e.key, sorted.head.key) { InsertKeys(o, e, sorted.tail, key); }
  }

  predicate DistinctKeys(entries: List<Entry>) {
    entries.Nil? || (!HasKey(entries.tail, entries.head.key) && DistinctKeys(entries.tail))
  }

  lemma {:induction false} InsertDistinct(o: Collation, e: Entry, sorted: List<Entry>)
    requires DistinctKeys(sorted) && !HasKey(sorted, e.key)
    ensures DistinctKeys(Insert(o, e, sorted))
  {
    if sorted.Cons? && !Leq(o, e.key, sorted.head.key) {
      InsertDistinct(o, e, sorted.tail);
      InsertKeys(o, e, sorted.tail, sorted.head.key);
    }
  }

  lemma {:induction false} SortKeeps(o: Collation, entries: List<Entry>, key: string)
    ensures HasKey(Sort(o, entries), key) <==> HasKey(entries, key)
    ensures AllDefined(Sort(o, entries)) <==> AllDefined(entries)
    ensures DistinctKeys(entries) ==> DistinctKeys(Sort(o, entries))
  {
    if entries.Cons? {
      SortKeeps(o, entries.tail, key);
      SortKeeps(o, entries.tail, entries.head.key);
      InsertKeys(o, entries.head, Sort(o, entries.tail), key);
      if DistinctKeys(entries) { InsertDistinct(o, entries.head, Sort(o, entries.tail)); }
    }
  }

  lemma {:induction false} NoKeyNoMember(entries: List<Entry>, key: string)
    requires !HasKey(entries, key)
    ensures Lookup(entries, key) == None
  {
    if entries.Cons? { NoKeyNoMember(entries.tail, key); }
  }

  lemma {:induction false} InsertLookup(o: Collation, e: Entry, sorted: List<Entry>, key: string)
    requires !HasKey(sorted, e.key) && !e.value.Undefined?
    ensures Lookup(Insert(o, e, sorted), key) == if key == e.key then Some(e.value) else Lookup(sorted, key)
  {
    if sorted.Cons? && !Leq(o, e.key, sorted.head.key) { InsertLookup(o, e, sorted.tail, key); }
  }

  lemma {:induction false} SortLookup(o: Collation, entries: List<Entry>, key: string)
    requires DistinctKeys(entries) && AllDefined(entries)
    ensures Lookup(Sort(o, entries), key) == Lookup(entries, key)
  {
    if entries.Cons? {
      SortLookup(o, entries.tail, key);
      SortKeeps(o, entries.tail, entries.head.key);
      InsertLookup(o, entries.head, Sort(o, entries.tail), key);
    }
  }

  // ---------------------------------------------------------------- canonical members

  /** The defined members keep their keys, and their values are made canonical. */
  lemma {:induction false} CanonicalLookup(o: Collation, entries: List<Entry>, key: string)
    requires WellFormedEntries(entries)
    ensures var c := CanonicalEntries(o, entries);
      && AllDefined(c) && DistinctKeys(c)
      && (HasKey(c, key) ==> HasKey(entries, key))
      && Lookup(c, key) == (match Lookup(entries, key) case None => None case Some(v) => Some(Canonicalize(o, v)))
  {
    if entries.Cons? {
      CanonicalLookup(o, entries.tail, key);
      CanonicalLookup(o, entries.tail, entries.head.key);
    }
  }

  /** What an object's canonical form holds under a key. */
  lemma ObjectLookup(o: Collation, entries: List<Entry>, key: string)
    requires WellFormedEntries(entries)
    ensures var c := Sort(o, CanonicalEntries(o, entries));
      && AllDefined(c) && DistinctKeys(c)
      && Lookup(c, key) == (match Lookup(entries, key) case None => None case Some(v) => Some(Canonicalize(o, v)))
  {
    CanonicalLookup(o, entries, key);
    SortKeeps(o, CanonicalEntries(o, entries), key);
    SortLookup(o, CanonicalEntries(o, entries), key);
  }

  // ---------------------------------------------------------------- canonical forms are stable

  /** Canonicalising twice is canonicalising once, ties or not. */
  lemma {:induction false} CanonicalizeTwice(o: Collation, value: Json)
    requires Preorder(o)
    ensures Canonicalize(o, Canonicalize(o, value)) == Canonicalize(o, value)
  {
    match value
    case Array(items) => ItemsTwice(o, items);
    case Object(entries) =>
      var sorted := Sort(o, CanonicalEntries(o, entries));
      EntriesAreCanonical(o, entries);
      SortKeepsCanonical(o, CanonicalEntries(o, entries));
      CanonicalEntriesOfCanonical(o, sorted);
      SortSorts(o, CanonicalEntries(o, entries));
      SortOfSorted(o, sorted);
    case _ =>
  }

  lemma {:induction false} ItemsTwice(o: Collation, items: List<Json>)
    requires Preorder(o)
    ensures CanonicalItems(o, CanonicalItems(o, items)) == CanonicalItems(o, items)
  {
    if items.Cons? {
      CanonicalizeTwice(o, items.head);
      ItemsTwice(o, items.tail);
    }
  }

  predicate AllCanonical(o: Collation, entries: List<Entry>) {
    entries.Nil? ||
    (!entries.head.value.Undefined? && Canonicalize(o, entries.head.value) == entries.head.value
     && AllCanonical(o, entries.tail))
  }

  lemma {:induction false} EntriesAreCanonical(o: Collation, entries: List<Entry>)
    requires Preorder(o)
    ensures AllCanonical(o, CanonicalEntries(o, entries))
  {
    if entries.Cons? {
      CanonicalizeTwice(o, entries.head.value);
      EntriesAreCanonical(o, entries.tail);
    }
  }

  lemma {:induction false} InsertKeepsCanonical(o: Collation, e: Entry, sorted: List<Entry>)
    requires AllCanonical(o, sorted) && !e.value.Undefined? && Canonicalize(o, e.value) == e.value
    ensures AllCanonical(o, Insert(o, e, sorted))
  {
    if sorted.Cons? && !Leq(o, e.key, sorted.head.key) { InsertKeepsCanonical(o, e, sorted.tail); }
  }

  lemma {:induction false} SortKeepsCanonical(o: Collation, entries: List<Entry>)
    requires AllCanonical(o, entries)
    ensures AllCanonical(o, Sort(o, entries))
  {
    if entries.Cons? {
      SortKeepsCanonical(o, entries.tail);
      InsertKeepsCanonical(o, entries.head, Sort(o, entries.tail));
    }
  }

  lemma {:induction false} CanonicalEntriesOfCanonical(o: Collation, entries: List<Entry>)
    requires AllCanonical(o, entries)
    ensures CanonicalEntries(o, entries) == entries
  {
    if entries.Cons? { CanonicalEntriesOfCanonical(o, entries.tail); }
  }

  // ---------------------------------------------------------------- one form for each value

  lemma {:induction false} HeadIsLeast(o: Collation, entries: List<Entry>, key: string)
    requires Preorder(o) && Sorted(o, entries) && HasKey(entries, key)
    ensures Leq(o, entries.head.key, key)
  {
    if entries.head.key != key { HeadIsLeast(o, entries.tail, key); }
  }

  lemma {:induction false} MemberHasKey(entries: List<Entry>, key: string)
    requires AllDefined(entries)
    ensures HasKey(entries, key) <==> Lookup(entries, key).Some?
  {
    if entries.Cons? { MemberHasKey(entries.tail, key); }
  }

  /** No two different defined keys of an object compare as equal ... */
  ghost predicate TieFreeKeys(o: Collation, entries: List<Entry>) {
    forall x, y :: Lookup(entries, x).Some? && Lookup(entries, y).Some? && Leq(o, x, y) && Leq(o, y, x) ==> x == y
  }

  /** ... at any depth of a value. */
  ghost predicate TieFree(o: Collation, value: Json) {
    match value
    case Array(items) => TieFreeItems(o, items)
    case Object(entries) => TieFreeKeys(o, entries) && TieFreeMembers(o, entries)
    case _ => true
  }

  ghost predicate TieFreeItems(o: Collation, items: List<Json>) {
    items.Cons? ==> TieFree(o, items.head) && TieFreeItems(o, items.tail)
  }

  ghost predicate TieFreeMembers(o: Collation, entries: List<Entry>) {
    entries.Cons? ==> TieFree(o, entries.head.value) && TieFreeMembers(o, entries.tail)
  }

  /** Without ties a sorted list of members is determined by what it holds under each key. */
  lemma {:induction false} SortedListsAgree(o: Collation, a: List<Entry>, b: List<Entry>)
    requires Preorder(o) && TieFreeKeys(o, a) && Sorted(o, a) && Sorted(o, b)
    requires AllDefined(a) && AllDefined(b) && DistinctKeys(a) && DistinctKeys(b)
    requires forall key :: Lookup(a, key) == Lookup(b, key)
    ensures a == b
  {
    var probe := if b.Cons? then b.head.key else "";
    assert Lookup(a, probe) == Lookup(b, probe);
    if a.Cons? {
      assert Lookup(a, a.head.key) == Lookup(b, a.head.key);
      MemberHasKey(b, a.head.key);
      MemberHasKey(a, b.head.key);
      assert Lookup(a, b.head.key) == Lookup(b, b.head.key);
      HeadIsLeast(o, a, b.head.key);
      HeadIsLeast(o, b, a.head.key);
      assert a.head == b.head;
      NoKeyNoMember(a.tail, a.head.key);
      NoKeyNoMember(b.tail, b.head.key);
      forall key ensures Lookup(a.tail, key) == Lookup(b.tail, key) {
        assert Lookup(a, key) == Lookup(b, key);
      }
      assert forall key :: Lookup(a.tail, key).Some? ==> Lookup(a, key).Some?;
      SortedListsAgree(o, a.tail, b.tail);
    }
  }

  lemma {:induction false} CoveredMeans(a: List<Entry>, b: List<Entry>, key: string)
    requires Covered(a, b) && Lookup(a, key).Some?
    ensures Lookup(b, key).Some? && Similar(Lookup(a, key).value, Lookup(b, key).value)
  {
    if !(a.head.key == key && !a.head.value.Undefined?) { CoveredMeans(a.tail, b, key); }
  }

  lemma {:induction false} KeysWithinMeans(b: List<Entry>, a: List<Entry>, key: string)
    requires KeysWithin(b, a) && Lookup(b, key).Some?
    ensures Lookup(a, key).Some?
  {
    if !(b.head.key == key && !b.head.value.Undefined?) { KeysWithinMeans(b.tail, a, key); }
  }

  /** The value found under a key is part of the object. */
  lemma {:induction false} FoundIsSmaller(entries: List<Entry>, key: string)
    requires Lookup(entries, key).Some?
    ensures Lookup(entries, key).value < entries
    ensures WellFormedEntries(entries) ==> WellFormed(Lookup(entries, key).value)
    ensures forall o :: TieFreeMembers(o, entries) ==> TieFree(o, Lookup(entries, key).value)
  {
    if !(entries.head.key == key && !entries.head.value.Undefined?) { FoundIsSmaller(entries.tail, key); }
  }

  /** A value without ties has the form of another exactly when they are equal up to key order and undefined
      members. */
  lemma {:induction false} SameFormIff(o: Collation, a: Json, b: Json)
    requires Preorder(o) && TieFree(o, a) && WellFormed(a) && WellFormed(b)
    ensures Canonicalize(o, a) == Canonicalize(o, b) <==> Similar(a, b)
    decreases a, 0
  {
    if a.Array? && b.Array? {
      SameItemsIff(o, a.items, b.items);
    } else if a.Object? && b.Object? {
      if Similar(a, b) {
        SimilarObjects(o, a, b);
      }
      if Canonicalize(o, a) == Canonicalize(o, b) {
        MembersCovered(o, a.entries, b.entries, a.entries);
        KeysCovered(o, b.entries, a.entries, b.entries);
      }
    }
  }

  lemma {:induction false} SameItemsIff(o: Collation, a: List<Json>, b: List<Json>)
    requires Preorder(o) && TieFreeItems(o, a) && WellFormedItems(a) && WellFormedItems(b)
    ensures CanonicalItems(o, a) == CanonicalItems(o, b) <==> SimilarItems(a, b)
    decreases a, 1
  {
    if a.Cons? && b.Cons? {
      SameFormIff(o, a.head, b.head);
      SameItemsIff(o, a.tail, b.tail);
    }
  }

  lemma {:induction false} SimilarObjects(o: Collation, a: Json, b: Json)
    requires Preorder(o) && a.Object? && b.Object? && TieFree(o, a)
    requires WellFormed(a) && WellFormed(b) && Similar(a, b)
    ensures Canonicalize(o, a) == Canonicalize(o, b)
    decreases a.entries, 1
  {
    var ca, cb := Sort(o, CanonicalEntries(o, a.entries)), Sort(o, CanonicalEntries(o, b.entries));
    forall key ensures Lookup(ca, key) == Lookup(cb, key) && (Lookup(ca, key).Some? ==> Lookup(a.entries, key).Some?) {
      ObjectLookup(o, a.entries, key);
      ObjectLookup(o, b.entries, key);
      if Lookup(b.entries, key).Some? { KeysWithinMeans(b.entries, a.entries, key); }
      if Lookup(a.entries, key).Some? {
        CoveredMeans(a.entries, b.entries, key);
        FoundIsSmaller(a.entries, key);
        FoundIsSmaller(b.entries, key);
        SameFormIff(o, Lookup(a.entries, key).value, Lookup(b.entries, key).value);
      }
    }
    ObjectLookup(o, a.entries, "");
    ObjectLookup(o, b.entries, "");
    SortSorts(o, CanonicalEntries(o, a.entries));
    SortSorts(o, CanonicalEntries(o, b.entries));
    SortedListsAgree(o, ca, cb);
  }

  /** Members of `all`, whose canonical form is that of `b`, have similar members in `b`. */
  lemma {:induction false} MembersCovered(o: Collation, part: List<Entry>, b: List<Entry>, all: List<Entry>)
    requires Preorder(o) && WellFormedEntries(all) && WellFormedEntries(b)
    requires Sort(o, CanonicalEntries(o, all)) == Sort(o, CanonicalEntries(o, b))
    requires WellFormedEntries(part) && TieFreeMembers(o, part)
    requires forall key :: Lookup(part, key).Some? ==> Lookup(part, key) == Lookup(all, key)
    ensures Covered(part, b)
    decreases part, 2
  {
    if part.Cons? {
      var e := part.head;
      NoKeyNoMember(part.tail, e.key);
      forall key | Lookup(part.tail, key).Some? ensures Lookup(part.tail, key) == Lookup(all, key) {
        assert Lookup(part, key) == Lookup(part.tail, key);
      }
      MembersCovered(o, part.tail, b, all);
      if !e.value.Undefined? {
        assert Lookup(part, e.key) == Some(e.value);
        ObjectLookup(o, all, e.key);
        ObjectLookup(o, b, e.key);
        FoundIsSmaller(b, e.key);
        SameFormIff(o, e.value, Lookup(b, e.key).value);
      }
    }
  }

  lemma {:induction false} KeysCovered(o: Collation, part: List<Entry>, a: List<Entry>, all: List<Entry>)
    requires WellFormedEntries(all) && WellFormedEntries(a)
    requires Sort(o, CanonicalEntries(o, a)) == Sort(o, CanonicalEntries(o, all))
    requires forall key :: Lookup(part, key).Some? ==> Lookup(all, key).Some?
    ensures KeysWithin(part, a)
  {
    if part.Cons? {
      var e := part.head;
      forall key | Lookup(part.tail, key).Some? ensures Lookup(all, key).Some? { assert Lookup(part, key).Some?; }
      KeysCovered(o, part.tail, a, all);
      if !e.value.Undefined? {
        assert Lookup(part, e.key).Some?;
        ObjectLookup(o, all, e.key);
        ObjectLookup(o, a, e.key);
      }
    }
  }
}
