/**
 Resolution of a session's lineage: on any branch table it terminates and reports a cycle exactly
 when the parent chain comes back; on every table the store can reach it yields the one path from
 the root.
 */
module SessionLineage {
  import opened Wrappers
  import opened SessionBranching

  /** The n-th parent, as far as the tables tell. */
  ghost function Ancestor(store: Store, session: Id, n: nat): Option<Id> {
    if n == 0 then Some(session)
    else match Ancestor(store, session, n - 1)
      case None => None
      case Some(a) => if a in store.sessions && a in store.branches then Some(store.branches[a].parent) else None
  }

  ghost predicate Revisits(store: Store, session: Id) {
    exists i: nat, j: nat :: i < j && Ancestor(store, session, i).Some?
      && Ancestor(store, session, i) == Ancestor(store, session, j)
  }

  ghost predicate Dangles(store: Store, session: Id) {
    exists n: nat :: Ancestor(store, session, n).Some? && Ancestor(store, session, n).value !in store.sessions
  }

  lemma {:induction false} AncestorOfParent(store: Store, session: Id, n: nat)
    requires session in store.sessions && session in store.branches
    ensures Ancestor(store, session, n + 1) == Ancestor(store, store.branches[session].parent, n)
  {
    if n == 0 {
      assert Ancestor(store, session, 0) == Some(session);
    } else {
      AncestorOfParent(store, session, n - 1);
    }
  }

  /** The chain of a session ends for good once it has ended. */
  lemma {:induction false} ChainStaysEnded(store: Store, session: Id, n: nat, m: nat)
    requires Ancestor(store, session, n).None? && n <= m
    ensures Ancestor(store, session, m).None?
  {
    if n < m {
      ChainStaysEnded(store, session, n, m - 1);
    }
  }

  /** The n-th ancestor was met before. */
  ghost predicate Repeats(store: Store, session: Id, seen: set<Id>, n: nat)
    requires Ancestor(store, session, n).Some?
  {
    var last := Ancestor(store, session, n);
    last.value in seen || exists i: nat :: i < n && Ancestor(store, session, i) == last
  }

  /** Before the n-th ancestor there are only existing sessions, each for the first time. */
  ghost predicate Walked(store: Store, session: Id, seen: set<Id>, n: nat) {
    && Ancestor(store, session, n).Some?
    && (forall i: nat :: i < n ==>
          && Ancestor(store, session, i).Some?
          && Ancestor(store, session, i).value in store.sessions
          && Ancestor(store, session, i).value !in seen)
    && (forall i: nat, j: nat :: i < j < n ==> Ancestor(store, session, i) != Ancestor(store, session, j))
  }

  /** What a result of the resolution says about the chain walked so far. */
  ghost predicate Explains(store: Store, session: Id, seen: set<Id>, r: Result<Lineage, Error>, n: nat) {
    && Walked(store, session, seen, n)
    && var last := Ancestor(store, session, n).value;
       match r
       case Success(lineage) =>
         && last in store.sessions && last !in store.branches && last !in seen
         && (forall i: nat :: i < n ==> Ancestor(store, session, i) != Some(last))
         && |lineage.segments| == n + 1
         && (forall i: nat :: i <= n ==> Ancestor(store, session, i) == Some(lineage.segments[n - i].session))
         && lineage.segments[n] == Segment(session, None)
       case Failure(BranchCycle(x)) =>
         x == last && Repeats(store, session, seen, n)
       case Failure(SessionNotFound(x)) =>
         && x == last && last !in store.sessions && last !in seen
       case Failure(_) => false
  }

  lemma {:induction false} FindUnique(segments: seq<Segment>, session: Id, k: nat)
    requires k < |segments| && segments[k].session == session
    requires forall i :: 0 <= i < k ==> segments[i].session != session
    ensures FindSession(segments, session) == Some(k)
  {
    if k > 0 {
      FindUnique(segments[1..], session, k - 1);
    }
  }

  lemma {:induction false} ResolutionExplained(store: Store, session: Id, seen: set<Id>) returns (n: nat)
    ensures Explains(store, session, seen, ResolveInner(store, session, seen), n)
    decreases store.sessions.Keys - seen
  {
    var r := ResolveInner(store, session, seen);
    if session in seen || session !in store.sessions || session !in store.branches {
      n := 0;
    } else {
      var parent := store.branches[session].parent;
      var m := ResolutionExplained(store, parent, seen + {session});
      n := m + 1;
      WalkedFromChild(store, session, seen, m);
      if ResolveInner(store, parent, seen + {session}).Success? {
        SuccessFromChild(store, session, seen, m);
      } else {
        FailureFromChild(store, session, seen, m);
      }
    }
  }

  lemma WalkedFromChild(store: Store, session: Id, seen: set<Id>, m: nat)
    requires session in store.sessions && session in store.branches && session !in seen
    requires Walked(store, store.branches[session].parent, seen + {session}, m)
    ensures Walked(store, session, seen, m + 1)
  {
    AncestorsOfChild(store, session, m);
  }

  lemma SuccessFromChild(store: Store, session: Id, seen: set<Id>, m: nat)
    requires session in store.sessions && session in store.branches && session !in seen
    requires Walked(store, session, seen, m + 1)
    requires var parent := store.branches[session].parent;
      var r := ResolveInner(store, parent, seen + {session});
      r.Success? && Explains(store, parent, seen + {session}, r, m)
    ensures Explains(store, session, seen, ResolveInner(store, session, seen), m + 1)
  {
    var parent := store.branches[session].parent;
    AncestorsOfChild(store, session, m);
    ParentFoundLast(store, parent, seen + {session}, ResolveInner(store, parent, seen + {session}), m);
  }

  lemma FailureFromChild(store: Store, session: Id, seen: set<Id>, m: nat)
    requires session in store.sessions && session in store.branches && session !in seen
    requires Walked(store, session, seen, m + 1)
    requires var parent := store.branches[session].parent;
      var r := ResolveInner(store, parent, seen + {session});
      r.Failure? && Explains(store, parent, seen + {session}, r, m)
    ensures Explains(store, session, seen, ResolveInner(store, session, seen), m + 1)
  {
    AncestorsOfChild(store, session, m);
    if ResolveInner(store, session, seen).error.BranchCycle? { CycleMetFromChild(store, session, seen, m); }
  }

  lemma {:induction false} AncestorsOfChild(store: Store, session: Id, m: nat)
    requires session in store.sessions && session in store.branches
    ensures forall i: nat :: i <= m + 1 ==>
              Ancestor(store, session, i) ==
                if i == 0 then Some(session) else Ancestor(store, store.branches[session].parent, i - 1)
  {
    forall i: nat | i <= m + 1
      ensures Ancestor(store, session, i) ==
                if i == 0 then Some(session) else Ancestor(store, store.branches[session].parent, i - 1)
    {
      if i > 0 { AncestorOfParent(store, session, i - 1); }
    }
  }

  lemma ParentFoundLast(store: Store, parent: Id, seen: set<Id>, r: Result<Lineage, Error>, m: nat)
    requires r.Success? && Explains(store, parent, seen, r, m)
    ensures FindSession(r.value.segments, parent) == Some(m)
  {
    var segments := r.value.segments;
    forall i | 0 <= i < m
      ensures segments[i].session != parent
    {
      assert Ancestor(store, parent, m - i) == Some(segments[i].session);
      assert Ancestor(store, parent, 0) == Some(parent);
    }
    FindUnique(segments, parent, m);
  }

  /** A chain that runs into itself behind the parent does so from the child, which may be where it ends. */
  lemma CycleMetFromChild(store: Store, session: Id, seen: set<Id>, m: nat)
    requires session in store.sessions && session in store.branches
    requires Ancestor(store, store.branches[session].parent, m).Some?
    requires Repeats(store, store.branches[session].parent, seen + {session}, m)
    ensures Ancestor(store, session, m + 1).Some? && Repeats(store, session, seen, m + 1)
  {
    var parent := store.branches[session].parent;
    AncestorsOfChild(store, session, m);
    var last := Ancestor(store, parent, m);
    assert Ancestor(store, session, m + 1) == last;
    if last.value == session {
      assert Ancestor(store, session, 0) == last;
    } else if last.value !in seen {
      var i: nat :| i < m && Ancestor(store, parent, i) == last;
      assert Ancestor(store, session, i + 1) == last;
    }
  }

  lemma FiniteChainIsPlain(store: Store, session: Id, r: Result<Lineage, Error>, n: nat)
    requires Explains(store, session, {}, r, n)
    requires r.Success? || r.error.SessionNotFound?
    ensures !Revisits(store, session)
    ensures r.Success? ==> !Dangles(store, session)
  {
    assert Ancestor(store, session, n + 1).None?;
    forall i: nat | n < i
      ensures Ancestor(store, session, i).None?
    {
      ChainStaysEnded(store, session, n + 1, i);
    }
    if r.Failure? {
      forall i: nat | i < n
        ensures Ancestor(store, session, i) != Ancestor(store, session, n)
      {
      }
    }
  }

  /** On any branch table: exactly one of the three outcomes, told apart by the parent chain alone. */
  lemma ResolutionOutcome(store: Store, session: Id)
    ensures Resolve(store, session).Success? <==> !Revisits(store, session) && !Dangles(store, session)
    ensures Resolve(store, session).Failure? ==>
              Resolve(store, session).error.BranchCycle? || Resolve(store, session).error.SessionNotFound?
    ensures (Resolve(store, session).Failure? && Resolve(store, session).error.BranchCycle?) <==>
        Revisits(store, session)
  {
    var r := Resolve(store, session);
    var n := ResolutionExplained(store, session, {});
    if r.Success? || r.error.SessionNotFound? {
      FiniteChainIsPlain(store, session, r, n);
      if r.Failure? {
        assert Dangles(store, session);
      }
    } else {
      var i: nat :| i < n && Ancestor(store, session, i) == Ancestor(store, session, n);
      assert Revisits(store, session);
    }
  }

  /** A resolved lineage is the parent chain read from the root down, without repetition. */
  lemma LineageIsPath(store: Store, session: Id)
    requires Resolve(store, session).Success?
    ensures var segments := Resolve(store, session).value.segments;
            && segments != []
            && segments[0].session !in store.branches
            && segments[|segments| - 1] == Segment(session, None)
            && (forall i: nat :: i < |segments| ==>
                  Ancestor(store, session, i) == Some(segments[|segments| - 1 - i].session))
            && (forall i, j :: 0 <= i < j < |segments| ==> segments[i].session != segments[j].session)
  {
    var n := ResolutionExplained(store, session, {});
    var segments := Resolve(store, session).value.segments;
    forall i, j | 0 <= i < j < |segments|
      ensures segments[i].session != segments[j].session
    {
      assert Ancestor(store, session, n - i) == Some(segments[i].session);
      assert Ancestor(store, session, n - j) == Some(segments[j].session);
    }
  }
}
