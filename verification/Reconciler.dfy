/** Standing assignments: how an AssignmentSet changes what runs. */
module Reconciler {
  import opened GoInts
  import opened Messages

  /** What this agent can run: the advertised check types, and the parameters each accepts. */
  datatype Capabilities = Capabilities(checkTypes: seq<GoString>, valid: (GoString, seq<byte>) -> bool) {
    predicate Runnable(a: Assignment) {
      a.checkType in checkTypes && valid(a.checkType, a.parameters)
    }
  }

  /** An assignment under its own context; contexts are numbered as they are created. */
  datatype Running = Running(a: Assignment, ctx: nat)

  /**
   The assigner as a value: whether it is bound to a process, the last version,
   what is running, the assignment each context was created for, and the
   contexts that were cancelled.
   */
  datatype State = State(
    bound: bool,
    version: int64,
    running: map<GoString, Running>,
    started: seq<Assignment>,
    cancelled: set<nat>)

  const EMPTY := State(false, 0, map[], [], {})

  function Cancelled(s: State, id: GoString): State {
    if id in s.running then s.(running := s.running - {id}, cancelled := s.cancelled + {s.running[id].ctx}) else s
  }

  function Launched(s: State, a: Assignment): State {
    s.(running := s.running[a.assignmentId := Running(a, |s.started|)], started := s.started + [a])
  }

  function Upserted(caps: Capabilities, s: State, a: Assignment): State {
    if a.assignmentId in s.running && s.running[a.assignmentId].a == a then s
    else
      var s' := Cancelled(s, a.assignmentId);
      if caps.Runnable(a) then Launched(s', a) else s'
  }

  function UpsertedAll(caps: Capabilities, s: State, ups: seq<Assignment>): State {
    if ups == [] then s
    else Upserted(caps, UpsertedAll(caps, s, ups[..|ups| - 1]), ups[|ups| - 1])
  }

  function Stopped(s: State, ids: set<GoString>): State {
    s.(running := s.running - ids,
       cancelled := s.cancelled + set id | id in s.running && id in ids :: s.running[id].ctx)
  }

  function Elements(ids: seq<GoString>): set<GoString> {
    set id | id in ids
  }

  function UpsertIds(ups: seq<Assignment>): set<GoString> {
    set i | 0 <= i < |ups| :: ups[i].assignmentId
  }

  function Stops(s: State, change: AssignmentSet): set<GoString> {
    if change.full then s.running.Keys - UpsertIds(change.upserts) else Elements(change.removes)
  }

  function Applied(caps: Capabilities, s: State, change: AssignmentSet): State {
    if !s.bound then s
    else
      var s' := UpsertedAll(caps, s.(version := change.version), change.upserts);
      Stopped(s', Stops(s', change))
  }

  /** One uncancelled context per running assignment, carrying exactly it, and all of them runnable. */
  ghost predicate Sound(caps: Capabilities, s: State) {
    && (forall c :: c in s.cancelled ==> c < |s.started|)
    && (forall id :: id in s.running ==>
          var r := s.running[id];
          && r.ctx < |s.started| && r.ctx !in s.cancelled
          && s.started[r.ctx] == r.a && r.a.assignmentId == id && caps.Runnable(r.a))
    && (forall c :: 0 <= c < |s.started| && c !in s.cancelled ==>
          s.started[c].assignmentId in s.running && s.running[s.started[c].assignmentId].ctx == c)
  }

  class Assigner {
    const caps: Capabilities
    var bound: bool
    var version: int64
    var running: map<GoString, Running>
    var started: seq<Assignment>
    var cancelled: set<nat>

    ghost function Value(): State
      reads this
    {
      State(bound, version, running, started, cancelled)
    }

    constructor (caps: Capabilities)
      ensures this.caps == caps && Value() == EMPTY
    {
      this.caps := caps;
      bound, version, running, started, cancelled := false, 0, map[], [], {};
    }

    method Start()
      modifies this`bound
      ensures Value() == old(Value()).(bound := true)
    {
      bound := true;
    }

    /** A context is cancelled at most once. */
    method Cancel(ctx: nat)
      requires ctx < |started| && ctx !in cancelled
      modifies this`cancelled
      ensures cancelled == old(cancelled) + {ctx}
    {
      cancelled := cancelled + {ctx};
    }

    method Upsert(a: Assignment)
      requires Sound(caps, Value())
      modifies this`running, this`started, this`cancelled
      ensures Value() == Upserted(caps, old(Value()), a) && Sound(caps, Value())
    {
      UpsertedSound(caps, Value(), a);
      if a.assignmentId in running {
        if running[a.assignmentId].a == a {
          return;
        }
        Cancel(running[a.assignmentId].ctx);
        running := running - {a.assignmentId};
      }
      if a.checkType !in caps.checkTypes {
        return;
      }
      if !caps.valid(a.checkType, a.parameters) {
        return;
      }
      running := running[a.assignmentId := Running(a, |started|)];
      started := started + [a];
    }

    /** The body of the loop below: nothing happens to an id that is not running. */
    method Stop(id: GoString)
      requires Sound(caps, Value())
      modifies this`running, this`cancelled
      ensures Value() == Cancelled(old(Value()), id) && Sound(caps, Value())
    {
      CancelledSound(caps, Value(), id);
      if id in running {
        Cancel(running[id].ctx);
        running := running - {id};
      }
    }

    method StopAll(stop: seq<GoString>)
      requires Sound(caps, Value())
      modifies this`running, this`cancelled
      ensures Value() == Stopped(old(Value()), Elements(stop)) && Sound(caps, Value())
    {
      ghost var s := Value();
      StoppedSound(caps, s, {});
      for i := 0 to |stop|
        invariant Value() == Stopped(s, Elements(stop[..i])) && Sound(caps, Value())
      {
        var id := stop[i];
        StopNext(s, stop, i);
        Stop(id);
      }
      assert stop[..|stop|] == stop;
    }

    /** The ids a full set leaves out, in whatever order the map yields them. */
    method LeftOut(keep: set<GoString>) returns (stop: seq<GoString>)
      ensures forall id :: id in stop <==> id in running && id !in keep
    {
      stop := [];
      var todo := running.Keys;
      while todo != {}
        invariant todo <= running.Keys
        invariant forall id :: id in stop <==> id in running && id !in todo && id !in keep
      {
        var id :| id in todo;
        todo := todo - {id};
        if id !in keep {
          stop := stop + [id];
        }
      }
    }

    method Apply(change: AssignmentSet)
      requires Sound(caps, Value())
      modifies this
      ensures Value() == Applied(caps, old(Value()), change) && Sound(caps, Value())
    {
      if !bound {
        return;
      }
      version := change.version;
      ghost var s := Value();
      var keep: set<GoString> := {};
      for i := 0 to |change.upserts|
        invariant Sound(caps, Value()) && Value() == UpsertedAll(caps, s, change.upserts[..i])
        invariant keep == UpsertIds(change.upserts[..i])
      {
        var a := change.upserts[i];
        assert change.upserts[..i + 1][..i] == change.upserts[..i];
        UpsertIdsNext(change.upserts, i);
        keep := keep + {a.assignmentId};
        Upsert(a);
      }
      assert change.upserts[..|change.upserts|] == change.upserts;
      var stop := change.removes;
      if change.full {
        stop := LeftOut(keep);
      }
      assert Elements(stop) == Stops(Value(), change);
      StopAll(stop);
    }
  }

  lemma UpsertIdsNext(ups: seq<Assignment>, i: nat)
    requires i < |ups|
    ensures UpsertIds(ups[..i + 1]) == UpsertIds(ups[..i]) + {ups[i].assignmentId}
  {
  }

  lemma CancelledSound(caps: Capabilities, s: State, id: GoString)
    requires Sound(caps, s)
    ensures Sound(caps, Cancelled(s, id)) && id !in Cancelled(s, id).running
  {
  }

  lemma LaunchedSound(caps: Capabilities, s: State, a: Assignment)
    requires Sound(caps, s) && a.assignmentId !in s.running && caps.Runnable(a)
    ensures Sound(caps, Launched(s, a))
  {
  }

  lemma UpsertedSound(caps: Capabilities, s: State, a: Assignment)
    requires Sound(caps, s)
    ensures Sound(caps, Upserted(caps, s, a))
  {
    var s' := Cancelled(s, a.assignmentId);
    CancelledSound(caps, s, a.assignmentId);
    if caps.Runnable(a) {
      LaunchedSound(caps, s', a);
    }
  }

  lemma StoppedSound(caps: Capabilities, s: State, ids: set<GoString>)
    requires Sound(caps, s)
    ensures Sound(caps, Stopped(s, ids))
    ensures Stopped(s, {}) == s
  {
  }

  lemma StopNext(s: State, stop: seq<GoString>, i: nat)
    requires i < |stop|
    ensures Stopped(s, Elements(stop[..i + 1])) == Cancelled(Stopped(s, Elements(stop[..i])), stop[i])
  {
    assert Elements(stop[..i + 1]) == Elements(stop[..i]) + {stop[i]};
  }
}
