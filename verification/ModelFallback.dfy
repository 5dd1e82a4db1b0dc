/**
 Model profiles that name a fallback profile: a functional graph changed by saves and deletes, and the two
 walks along it. A save trims the fallback's name before it looks it up, a run does not.
 */
module ModelFallback {
  import opened Wrappers
  import opened Whitespace

  /** The stored fallback of each profile, as it was written; `None` when it is absent or no string. */
  type Table = map<string, Option<string>>

  /** The name the validator follows. */
  function Trimmed(raw: Option<string>): Option<string> {
    if raw.Some? && Trim(raw.value) != "" then Some(Trim(raw.value)) else None
  }

  /** The name a run follows. */
  function Unblank(raw: Option<string>): Option<string> {
    if raw.Some? && Trim(raw.value) != "" then raw else None
  }

  // ---------------------------------------------------------------- the validator's walk

  datatype Verdict = Accepted | Cycle(id: string) | NotFound(id: string)

  /** From `next` on, given the profiles already visited. */
  function Walk(t: Table, visited: set<string>, next: Option<string>): Verdict
    decreases |t.Keys - visited|
  {
    if next.None? then Accepted
    else if next.value in visited then Cycle(next.value)
    else if next.value !in t then NotFound(next.value)
    else
      Shrinks(t, visited, next.value);
      Walk(t, visited + {next.value}, Trimmed(t[next.value]))
  }

  lemma Shrinks(t: Table, visited: set<string>, id: string)
    requires id in t && id !in visited
    ensures |t.Keys - (visited + {id})| < |t.Keys - visited|
  {
    assert t.Keys - visited == (t.Keys - (visited + {id})) + {id};
  }

  function Validate(t: Table, id: string, fallback: Option<string>): Verdict {
    Walk(t, {id}, Trimmed(fallback))
  }

  method ValidateModelFallback(t: Table, profileId: string, fallback: Option<string>) returns (verdict: Verdict)
    ensures verdict == Validate(t, profileId, fallback)
  {
    var visited := {profileId};
    var fallbackId := Trimmed(fallback);
    while fallbackId.Some?
      invariant Validate(t, profileId, fallback) == Walk(t, visited, fallbackId)
      decreases |t.Keys - visited|, if fallbackId.Some? then 1 else 0
    {
      if fallbackId.value in visited {
        return Cycle(fallbackId.value);
      }
      visited := visited + {fallbackId.value};
      if fallbackId.value !in t {
        return NotFound(fallbackId.value);
      }
      Shrinks(t, visited - {fallbackId.value}, fallbackId.value);
      assert visited - {fallbackId.value} + {fallbackId.value} == visited;
      fallbackId := Trimmed(t[fallbackId.value]);
    }
    verdict := Accepted;
  }

  // ---------------------------------------------------------------- saves and deletes

  /** A save may leave the fallback out, and then keeps the stored one. */
  datatype Change = Keep | Set(raw: Option<string>)

  datatype Step = Save(id: string, change: Change) | Delete(id: string)

  function Merged(t: Table, id: string, change: Change): Option<string> {
    match change
    case Keep => if id in t then t[id] else None
    case Set(raw) => raw
  }

  /** A save that the validator rejects changes nothing. */
  function Apply(t: Table, step: Step): Table {
    match step
    case Save(id, change) =>
      if Validate(t, id, Merged(t, id, change)).Accepted? then t[id := Merged(t, id, change)] else t
    case Delete(id) => t - {id}
  }

  function Run(steps: seq<Step>): Table {
    if steps == [] then map[] else Apply(Run(steps[..|steps| - 1]), steps[|steps| - 1])
  }

  // ---------------------------------------------------------------- a run's walk

  datatype Resolution =
    | Resolved(ids: seq<string>)
    | FallbackCycle(id: string)
    | Missing(id: string)
    | Unusable(id: string)

  /** `usable` says whether a provider can be made from a profile. */
  function Resolve(t: Table, usable: string -> bool, ids: seq<string>, visited: set<string>,
                   current: Option<string>): Resolution
    decreases |t.Keys - visited|
  {
    if current.None? then Resolved(ids)
    else if current.value in visited then FallbackCycle(current.value)
    else if current.value !in t then Missing(current.value)
    else if !usable(current.value) then Unusable(current.value)
    else
      Shrinks(t, visited, current.value);
      Resolve(t, usable, ids + [current.value], visited + {current.value}, Unblank(t[current.value]))
  }

  method ResolveRunModelProvider(t: Table, usable: string -> bool, profileId: string) returns (result: Resolution)
    ensures result == Resolve(t, usable, [], {}, Some(profileId))
  {
    var profileIds: seq<string>, visited: set<string> := [], {};
    var currentId := Some(profileId);
    while currentId.Some?
      invariant Resolve(t, usable, [], {}, Some(profileId)) == Resolve(t, usable, profileIds, visited, currentId)
      decreases |t.Keys - visited|, if currentId.Some? then 1 else 0
    {
      var id := currentId.value;
      if id in visited {
        return FallbackCycle(id);
      }
      if id !in t {
        return Missing(id);
      }
      if !usable(id) {
        return Unusable(id);
      }
      Shrinks(t, visited, id);
      visited, profileIds := visited + {id}, profileIds + [id];
      currentId := Unblank(t[id]);
    }
    result := Resolved(profileIds);
  }

  /** The revisions recorded for a run: the same profiles, but a cycle ends the walk without an error. */
  method ResolveProfileRevisions(t: Table, profileId: string) returns (result: Result<seq<string>, string>)
    ensures var r := Resolve(t, _ => true, [], {}, Some(profileId));
      match r
      case Resolved(ids) => result == Success(ids)
      case Missing(id) => result == Failure(id)
      case FallbackCycle(_) => result.Success?
      case Unusable(_) => false
  {
    var ids: seq<string>, visited: set<string> := [], {};
    var next := Some(profileId);
    while next.Some? && next.value !in visited
      invariant Resolve(t, _ => true, [], {}, Some(profileId)) == Resolve(t, _ => true, ids, visited, next)
      decreases |t.Keys - visited|, if next.Some? then 1 else 0
    {
      if next.value !in t {
        return Failure(next.value);
      }
      Shrinks(t, visited, next.value);
      visited, ids := visited + {next.value}, ids + [next.value];
      next := Unblank(t[next.value]);
    }
    result := Success(ids);
  }
}
