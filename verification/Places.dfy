/** Places in a list of lists, in reading order. */
module Places {
  /** The list, and the index in it. */
  type Place = (nat, nat)

  ghost predicate Before(a: Place, b: Place) {
    a.0 < b.0 || (a.0 == b.0 && a.1 < b.1)
  }

  ghost predicate Ordered(at: seq<Place>) {
    forall i, j :: 0 <= i < j < |at| ==> Before(at[i], at[j])
  }

  ghost predicate Ascending(slots: seq<nat>) {
    forall i, j :: 0 <= i < j < |slots| ==> slots[i] < slots[j]
  }

  /** The first `n` slots. */
  ghost function Slots(n: nat): (slots: seq<nat>)
    ensures |slots| == n && forall k :: 0 <= k < n ==> slots[k] == k
  {
    seq(n, k => k)
  }

  /** All slots in one list. */
  ghost function Placed(list: nat, slots: seq<nat>): (at: seq<Place>)
    ensures |at| == |slots| && forall k :: 0 <= k < |slots| ==> at[k] == (list, slots[k])
    ensures Ascending(slots) ==> Ordered(at)
  {
    seq(|slots|, k requires 0 <= k < |slots| => (list, slots[k]))
  }

  /** The same places when one more list comes first. */
  ghost function Behind(at: seq<Place>): (later: seq<Place>)
    ensures |later| == |at| && forall k :: 0 <= k < |at| ==> later[k] == (at[k].0 + 1, at[k].1)
    ensures Ordered(at) ==> Ordered(later)
  {
    seq(|at|, k requires 0 <= k < |at| => (at[k].0 + 1, at[k].1))
  }

  lemma OrderedAppend(a: seq<Place>, b: seq<Place>, list: nat)
    requires Ordered(a) && Ordered(b)
    requires (forall k :: 0 <= k < |a| ==> a[k].0 < list) && forall k :: 0 <= k < |b| ==> b[k].0 >= list
    ensures Ordered(a + b)
  {
  }
}
