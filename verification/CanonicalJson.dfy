/**
 The canonical form of a request: object members sorted by key, undefined members left out, at every depth.
 */
module CanonicalJson {
  import opened Wrappers

  datatype List<T> = Nil | Cons(head: T, tail: List<T>)

  datatype Entry = Entry(key: string, value: Json)

  /** `Leaf` stands for null, booleans, numbers and strings. Members are in enumeration order. */
  datatype Json = Undefined | Leaf(text: string) | Array(items: List<Json>) | Object(entries: List<Entry>)

  /** How keys compare: `before(a, b)` when a does not come after b. */
  datatype Collation = Collation(before: (string, string) -> bool)

  predicate Leq(o: Collation, a: string, b: string) {
    o.before(a, b)
  }

  ghost predicate Preorder(o: Collation) {
    && (forall a, b :: Leq(o, a, b) || Leq(o, b, a))
    && (forall a, b, c :: Leq(o, a, b) && Leq(o, b, c) ==> Leq(o, a, c))
  }

  /** Different keys never compare as equal. */
  ghost predicate NoTies(o: Collation) {
    forall a, b :: Leq(o, a, b) && Leq(o, b, a) ==> a == b
  }

  // ---------------------------------------------------------------- the canonical form

  function Insert(o: Collation, e: Entry, sorted: List<Entry>): List<Entry> {
    if sorted.Nil? || Leq(o, e.key, sorted.head.key) then Cons(e, sorted)
    else Cons(sorted.head, Insert(o, e, sorted.tail))
  }

  /** A stable sort by key. */
  function Sort(o: Collation, entries: List<Entry>): List<Entry> {
    if entries.Nil? then Nil else Insert(o, entries.head, Sort(o, entries.tail))
  }

  function Canonicalize(o: Collation, value: Json): Json {
    match value
    case Array(items) => Array(CanonicalItems(o, items))
    case Object(entries) => Object(Sort(o, CanonicalEntries(o, entries)))
    case _ => value
  }

  function CanonicalItems(o: Collation, items: List<Json>): List<Json> {
    match items
    case Nil => Nil
    case Cons(item, rest) => Cons(Canonicalize(o, item), CanonicalItems(o, rest))
  }

  /** The defined members, each in canonical form. */
  function CanonicalEntries(o: Collation, entries: List<Entry>): List<Entry> {
    match entries
    case Nil => Nil
    case Cons(Entry(key, value), rest) =>
      if value.Undefined? then CanonicalEntries(o, rest)
      else Cons(Entry(key, Canonicalize(o, value)), CanonicalEntries(o, rest))
  }

  // ---------------------------------------------------------------- equality up to order and undefined members

  /** The defined member under a key. */
  function Lookup(entries: List<Entry>, key: string): Option<Json> {
    match entries
    case Nil => None
    case Cons(e, rest) => if e.key == key && !e.value.Undefined? then Some(e.value) else Lookup(rest, key)
  }

  predicate Similar(a: Json, b: Json) {
    match a
    case Array(items) => b.Array? && SimilarItems(items, b.items)
    case Object(entries) => b.Object? && Covered(entries, b.entries) && KeysWithin(b.entries, entries)
    case _ => a == b
  }

  predicate SimilarItems(a: List<Json>, b: List<Json>) {
    match a
    case Nil => b.Nil?
    case Cons(item, rest) => b.Cons? && Similar(item, b.head) && SimilarItems(rest, b.tail)
  }

  /** Every defined member of `a` has a similar one in `b`. */
  predicate Covered(a: List<Entry>, b: List<Entry>) {
    match a
    case Nil => true
    case Cons(Entry(key, value), rest) =>
      && (value.Undefined? || (Lookup(b, key).Some? && Similar(value, Lookup(b, key).value)))
      && Covered(rest, b)
  }

  predicate KeysWithin(b: List<Entry>, a: List<Entry>) {
    match b
    case Nil => true
    case Cons(e, rest) => (e.value.Undefined? || Lookup(a, e.key).Some?) && KeysWithin(rest, a)
  }

  // ---------------------------------------------------------------- values as they can occur

  predicate HasKey(entries: List<Entry>, key: string) {
    entries.Cons? && (entries.head.key == key || HasKey(entries.tail, key))
  }

  /** No object has a key twice. */
  predicate WellFormed(value: Json) {
    match value
    case Array(items) => WellFormedItems(items)
    case Object(entries) => WellFormedEntries(entries)
    case _ => true
  }

  predicate WellFormedItems(items: List<Json>) {
    items.Cons? ==> WellFormed(items.head) && WellFormedItems(items.tail)
  }

  predicate WellFormedEntries(entries: List<Entry>) {
    entries.Cons? ==>
      && WellFormed(entries.head.value) && !HasKey(entries.tail, entries.head.key) && WellFormedEntries(entries.tail)
  }
}
