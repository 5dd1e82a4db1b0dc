/**
 Saves and deletes never close a fallback cycle, so a run's walk never meets one.
 */
module ModelFallbackRuns {
  import opened Wrappers
  import opened Whitespace
  import opened ModelFallback

  predicate Link(t: Table, a: string, b: string) {
    a in t && Trimmed(t[a]) == Some(b)
  }

  /** Each profile names the next one. */
  predicate IsChain(t: Table, p: seq<string>) {
    |p| <= 1 || (Link(t, p[0], p[1]) && IsChain(t, p[1..]))
  }

  predicate IsCycle(t: Table, p: seq<string>) {
    p != [] && IsChain(t, p) && Link(t, p[|p| - 1], p[0])
  }

  ghost predicate Acyclic(t: Table) {
    forall p :: !IsCycle(t, p)
  }

  // ---------------------------------------------------------------- chains

  lemma {:induction false} ChainAppend(t: Table, p: seq<string>, b: string)
    requires p != [] && IsChain(t, p) && Link(t, p[|p| - 1], b)
    ensures IsChain(t, p + [b])
  {
    if |p| > 1 {
      ChainAppend(t, p[1..], b);
      assert (p + [b])[1..] == p[1..] + [b];
    }
  }

  /** A cycle can be read from any of its profiles. */
  lemma {:induction false} CycleFrom(t: Table, p: seq<string>, k: nat)
    requires IsCycle(t, p) && k < |p|
    ensures exists q :: IsCycle(t, q) && q[0] == p[k]
    decreases k
  {
    if k > 0 {
      var q := p[1..] + [p[0]];
      ChainAppend(t, p[1..], p[0]);
      assert q[k - 1] == p[k];
      CycleFrom(t, q, k - 1);
    }
  }

  /** A walk that reports no cycle never passes a profile that was visited before. */
  lemma {:induction false} WalkAvoids(t: Table, visited: set<string>, p: seq<string>, k: nat)
    requires p != [] && IsChain(t, p) && k < |p| && !Walk(t, visited, Some(p[0])).Cycle?
    ensures p[k] !in visited
    decreases |p|
  {
    if k > 0 { WalkAvoids(t, visited + {p[0]}, p[1..], k - 1); }
  }

  /** A walk that reports a cycle has gone round one. */
  lemma VisitedWith(visited: set<string>, p: seq<string>, next: string)
    requires forall x :: x in visited <==> x in p
    ensures forall x :: x in visited + {next} <==> x in p + [next]
  {
  }

  lemma {:induction false} CycleFound(t: Table, visited: set<string>, p: seq<string>, next: string)
    requires p != [] && IsChain(t, p) && Link(t, p[|p| - 1], next) && (forall x :: x in visited <==> x in p)
    requires Walk(t, visited, Some(next)).Cycle?
    ensures !Acyclic(t)
    decreases |t.Keys - visited|
  {
    if next in visited {
      ClosedChain(t, p, next);
    } else {
      Shrinks(t, visited, next);
      ChainAppend(t, p, next);
      VisitedWith(visited, p, next);
      CycleFound(t, visited + {next}, p + [next], Trimmed(t[next]).value);
    }
  }

  lemma {:induction false} ChainSuffix(t: Table, p: seq<string>, k: nat)
    requires IsChain(t, p) && k <= |p|
    ensures IsChain(t, p[k..])
  {
    if k > 0 && |p| > 1 {
      ChainSuffix(t, p[1..], k - 1);
      assert p[1..][k - 1..] == p[k..];
    }
  }

  /** What a visited profile stores does not matter to the walk. */
  lemma {:induction false} WalkIgnoresVisited(t: Table, visited: set<string>, id: string, raw: Option<string>,
                                              next: Option<string>)
    requires id in visited
    ensures Walk(t[id := raw], visited, next) == Walk(t, visited, next)
    decreases |t.Keys - visited|
  {
    if next.Some? && next.value !in visited && next.value in t {
      Shrinks(t, visited, next.value);
      WalkIgnoresVisited(t, visited + {next.value}, id, raw, Trimmed(t[next.value]));
    }
  }

  // ---------------------------------------------------------------- one step

  /** Links that lie outside the saved profile were there before. */
  lemma {:induction false} ChainWithout(t: Table, id: string, raw: Option<string>, p: seq<string>)
    requires IsChain(t[id := raw], p) && id !in p
    ensures IsChain(t, p)
  {
    if |p| > 1 {
      assert p[0] != id;
      ChainWithout(t, id, raw, p[1..]);
    }
  }

  /** A cycle through the saved profile is one that the validator finds. */
  lemma WayBackIsFound(t: Table, id: string, raw: Option<string>, q: seq<string>)
    requires IsCycle(t[id := raw], q) && q[0] == id
    ensures Validate(t, id, raw).Cycle?
  {
    var after := t[id := raw];
    var way := q[1..] + [id];
    ChainAppend(after, q, id);
    assert way == (q + [id])[1..];
    WalkIgnoresVisited(t, {id}, id, raw, Some(way[0]));
    if !Validate(t, id, raw).Cycle? { WalkAvoids(after, {id}, way, |way| - 1); }
  }

  /** A save that closes no cycle by the validator's account closes none. */
  lemma SaveKeeps(t: Table, id: string, raw: Option<string>)
    requires Acyclic(t) && !Validate(t, id, raw).Cycle?
    ensures Acyclic(t[id := raw])
  {
    var after := t[id := raw];
    forall p ensures !IsCycle(after, p) {
      if IsCycle(after, p) {
        if id in p {
          var k :| 0 <= k < |p| && p[k] == id;
          CycleFrom(after, p, k);
          var q :| IsCycle(after, q) && q[0] == id;
          WayBackIsFound(t, id, raw, q);
        } else {
          ChainWithout(t, id, raw, p);
          assert p[|p| - 1] in p && p[0] in p;
          assert IsCycle(t, p);
        }
      }
    }
  }

  /** A cycle is reported exactly when saving would close one. */
  lemma RejectedIffCycle(t: Table, id: string, raw: Option<string>)
    requires Acyclic(t)
    ensures Validate(t, id, raw).Cycle? <==> !Acyclic(t[id := raw])
  {
    if Validate(t, id, raw).Cycle? {
      WalkIgnoresVisited(t, {id}, id, raw, Trimmed(raw));
      CycleFound(t[id := raw], {id}, [id], Trimmed(raw).value);
    } else {
      SaveKeeps(t, id, raw);
    }
  }

  lemma {:induction false} ChainBeforeDelete(t: Table, id: string, p: seq<string>)
    requires IsChain(t - {id}, p)
    ensures IsChain(t, p)
  {
    if |p| > 1 { ChainBeforeDelete(t, id, p[1..]); }
  }

  lemma DeleteKeeps(t: Table, id: string)
    requires Acyclic(t)
    ensures Acyclic(t - {id})
  {
    forall p ensures !IsCycle(t - {id}, p) {
      if IsCycle(t - {id}, p) {
        ChainBeforeDelete(t, id, p);
        assert IsCycle(t, p);
      }
    }
  }

  // ---------------------------------------------------------------- every sequence of saves and deletes

  /** Names given to profiles are trimmed before they are stored. */
  predicate TrimmedNames(steps: seq<Step>) {
    forall i | 0 <= i < |steps| && steps[i].Save? :: Trim(steps[i].id) == steps[i].id
  }

  /** Whatever is saved and deleted, dangling names and re-created profiles included: no cycle. */
  lemma {:induction false} EveryTableIsAcyclic(steps: seq<Step>)
    ensures Acyclic(Run(steps))
    ensures TrimmedNames(steps) ==> forall id :: id in Run(steps) ==> Trim(id) == id
  {
    if steps == [] {
      forall p ensures !IsCycle(map[], p) { }
    } else {
      var front, step := steps[..|steps| - 1], steps[|steps| - 1];
      EveryTableIsAcyclic(front);
      if TrimmedNames(steps) {
        assert forall i | 0 <= i < |front| && front[i].Save? :: front[i] == steps[i];
        assert TrimmedNames(front);
      }
      var t := Run(front);
      match step
      case Save(id, change) =>
        if Validate(t, id, Merged(t, id, change)).Accepted? { SaveKeeps(t, id, Merged(t, id, change)); }
      case Delete(id) => DeleteKeeps(t, id);
    }
  }

  // ---------------------------------------------------------------- a run's walk

  /** A profile whose stored fallback has blanks around it. */
  predicate Padded(raw: Option<string>) {
    Trimmed(raw).Some? && Trimmed(raw) != raw
  }

  /** A name that is found as it stands is the trimmed one. */
  lemma FoundIsTrimmed(t: Table, a: string, b: string)
    requires (forall id :: id in t ==> Trim(id) == id) && a in t && b in t && Unblank(t[a]) == Some(b)
    ensures Link(t, a, b)
  {
  }

  lemma ClosedChain(t: Table, ids: seq<string>, current: string)
    requires ids != [] && IsChain(t, ids) && Link(t, ids[|ids| - 1], current) && current in ids
    ensures !Acyclic(t)
  {
    var k :| 0 <= k < |ids| && ids[k] == current;
    ChainSuffix(t, ids, k);
    assert IsCycle(t, ids[k..]);
  }

  /** A run that meets a cycle has followed trimmed names round one. */
  lemma CycleLater(t: Table, usable: string -> bool, ids: seq<string>, visited: set<string>, current: string)
    requires current !in visited && Resolve(t, usable, ids, visited, Some(current)).FallbackCycle?
    ensures current in t && Unblank(t[current]).Some?
    ensures Resolve(t, usable, ids + [current], visited + {current}, Unblank(t[current])).FallbackCycle?
  {
  }

  /** The ids resolved so far form a chain of stored profiles. */
  ghost predicate OnChain(t: Table, ids: seq<string>, visited: set<string>) {
    ids != [] && IsChain(t, ids) && (forall x :: x in visited <==> x in ids) && visited <= t.Keys
  }

  lemma OnChainGrows(t: Table, ids: seq<string>, visited: set<string>, current: string)
    requires OnChain(t, ids, visited) && Link(t, ids[|ids| - 1], current) && current in t
    ensures OnChain(t, ids + [current], visited + {current})
  {
    ChainAppend(t, ids, current);
    VisitedWith(visited, ids, current);
  }

  lemma {:induction false} ResolvedCycleIsCycle(t: Table, usable: string -> bool, ids: seq<string>,
                                                visited: set<string>, current: string)
    requires forall id :: id in t ==> Trim(id) == id
    requires OnChain(t, ids, visited) && Unblank(t[ids[|ids| - 1]]) == Some(current)
    requires Resolve(t, usable, ids, visited, Some(current)).FallbackCycle?
    ensures !Acyclic(t)
    decreases |t.Keys - visited|, 1
  {
    FoundIsTrimmed(t, ids[|ids| - 1], current);
    if current in visited {
      ClosedChain(t, ids, current);
    } else {
      ResolvedCycleLater(t, usable, ids, visited, current);
    }
  }

  lemma {:induction false} ResolvedCycleLater(t: Table, usable: string -> bool, ids: seq<string>,
                                              visited: set<string>, current: string)
    requires forall id :: id in t ==> Trim(id) == id
    requires OnChain(t, ids, visited) && Link(t, ids[|ids| - 1], current) && current !in visited
    requires Resolve(t, usable, ids, visited, Some(current)).FallbackCycle?
    ensures !Acyclic(t)
    decreases |t.Keys - visited|, 0
  {
    CycleLater(t, usable, ids, visited, current);
    Shrinks(t, visited, current);
    OnChainGrows(t, ids, visited, current);
    ResolvedCycleIsCycle(t, usable, ids + [current], visited + {current}, Unblank(t[current]).value);
  }

  /** The resolver's cycle error is unreachable. */
  lemma ResolverNeverMeetsCycle(steps: seq<Step>, usable: string -> bool, profileId: string)
    requires TrimmedNames(steps)
    ensures !Resolve(Run(steps), usable, [], {}, Some(profileId)).FallbackCycle?
  {
    EveryTableIsAcyclic(steps);
    var t := Run(steps);
    if Resolve(t, usable, [], {}, Some(profileId)).FallbackCycle? {
      var ids: seq<string>, visited: set<string> := [], {};
      assert ids + [profileId] == [profileId] && visited + {profileId} == {profileId};
      assert Resolve(t, usable, [profileId], {profileId}, Unblank(t[profileId])).FallbackCycle?;
      ResolvedCycleIsCycle(t, usable, [profileId], {profileId}, Unblank(t[profileId]).value);
    }
  }

  /** Is a fallback on the way from `next` padded? */
  predicate PaddedOnTheWay(t: Table, visited: set<string>, next: Option<string>)
    decreases |t.Keys - visited|
  {
    && next.Some? && next.value !in visited && next.value in t
    && (Padded(t[next.value])
        || (Shrinks(t, visited, next.value);
            PaddedOnTheWay(t, visited + {next.value}, Trimmed(t[next.value]))))
  }

  /** A chain the validator accepts is resolved exactly when no fallback on it is padded: the run looks a
      padded name up as it stands and does not find it. */
  lemma {:induction false} ResolvesIffUnpadded(t: Table, ids: seq<string>, visited: set<string>, next: Option<string>)
    requires forall id :: id in t ==> Trim(id) == id
    requires visited <= t.Keys && Walk(t, visited, next).Accepted?
    ensures var r := Resolve(t, _ => true, ids, visited, next);
      (r.Resolved? <==> !PaddedOnTheWay(t, visited, next)) && (PaddedOnTheWay(t, visited, next) ==> r.Missing?)
    decreases |t.Keys - visited|
  {
    if next.Some? {
      Shrinks(t, visited, next.value);
      var raw := t[next.value];
      if Padded(raw) {
        TrimTwice(raw.value);
        assert raw.value !in t;
      } else {
        assert Unblank(raw) == Trimmed(raw);
        ResolvesIffUnpadded(t, ids + [next.value], visited + {next.value}, Trimmed(raw));
      }
    }
  }

  /** Saving a padded name is accepted, and the run that follows it fails. */
  lemma PaddedFallbackIsLost()
    ensures var t := Apply(map["b" := None], Save("a", Set(Some(" b"))));
      t == map["a" := Some(" b"), "b" := None]
      && Resolve(t, _ => true, [], {}, Some("a")) == Missing(" b")
  {
    assert TrimStart(" b") == TrimStart("b") by { assert " b"[1..] == "b"; }
    assert Trim(" b") == "b";
    var t: Table := map["b" := None];
    assert Walk(t, {"a", "b"}, None).Accepted?;
    assert {"a"} + {"b"} == {"a", "b"};
    assert Validate(t, "a", Some(" b")).Accepted?;
  }

  /** Only saves and deletes are safe: writing a profile back as it was read some time ago can close a
      cycle that no save would. */
  lemma StaleWriteClosesCycle()
    ensures var t: Table := map["a" := Some("b"), "b" := None]; Acyclic(t) && !Acyclic(t["b" := Some("a")])
  {
    var none, one: Table := map[], map["b" := None];
    var t := one["a" := Some("b")];
    assert Trim("a") == "a" && Trim("b") == "b";
    assert none["b" := None] == one;
    SaveKeeps(none, "b", None);
    assert {"a"} + {"b"} == {"a", "b"} && Walk(one, {"a", "b"}, None).Accepted?;
    SaveKeeps(one, "a", Some("b"));
    assert t == map["a" := Some("b"), "b" := None];
    assert IsCycle(t["b" := Some("a")], ["a", "b"]) by {
      assert ["a", "b"][1..] == ["b"];
    }
  }
}
