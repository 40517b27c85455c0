/** What applying assignment sets promises. */
module ReconcilerTheorems {
  import opened GoInts
  import opened Messages
  import opened Options
  import opened Reconciler

  /** The last upsert of an id wins. */
  function LastUpsert(ups: seq<Assignment>, id: GoString): Option<Assignment> {
    if ups == [] then None
    else if ups[|ups| - 1].assignmentId == id then Some(ups[|ups| - 1])
    else LastUpsert(ups[..|ups| - 1], id)
  }

  lemma {:induction false} LastUpsertIds(ups: seq<Assignment>, id: GoString)
    ensures LastUpsert(ups, id).Some? <==> id in UpsertIds(ups)
    ensures LastUpsert(ups, id).Some? ==> LastUpsert(ups, id).value.assignmentId == id && LastUpsert(ups, id).value in ups
  {
    if ups != [] {
      var n := |ups| - 1;
      LastUpsertIds(ups[..n], id);
      UpsertIdsNext(ups, n);
      assert ups[..n + 1] == ups;
    }
  }

  /** What upserts make of the assignment running under one id. */
  function Wanted(caps: Capabilities, ups: seq<Assignment>, id: GoString, before: Option<Assignment>): Option<Assignment> {
    match LastUpsert(ups, id)
    case None => before
    case Some(a) => if caps.Runnable(a) then Some(a) else None
  }

  function RunningAs(s: State, id: GoString): Option<Assignment> {
    if id in s.running then Some(s.running[id].a) else None
  }

  lemma {:induction false} UpsertsWin(caps: Capabilities, s: State, ups: seq<Assignment>, id: GoString)
    requires Sound(caps, s)
    ensures Sound(caps, UpsertedAll(caps, s, ups))
    ensures RunningAs(UpsertedAll(caps, s, ups), id) == Wanted(caps, ups, id, RunningAs(s, id))
  {
    if ups != [] {
      var n := |ups| - 1;
      UpsertsWin(caps, s, ups[..n], id);
      UpsertWins(caps, UpsertedAll(caps, s, ups[..n]), ups[n], id);
    }
  }

  lemma UpsertWins(caps: Capabilities, s: State, a: Assignment, id: GoString)
    requires Sound(caps, s)
    ensures Sound(caps, Upserted(caps, s, a))
    ensures RunningAs(Upserted(caps, s, a), id) ==
            if a.assignmentId != id then RunningAs(s, id) else if caps.Runnable(a) then Some(a) else None
  {
    UpsertedSound(caps, s, a);
  }

  lemma VersionSound(caps: Capabilities, s: State, v: int64)
    requires Sound(caps, s)
    ensures Sound(caps, s.(version := v))
  {
  }

  /** The contract of apply: whatever ran before, a full set leaves exactly its own runnable last upserts. */
  lemma FullSet(caps: Capabilities, s: State, change: AssignmentSet, id: GoString)
    requires Sound(caps, s) && s.bound && change.full
    ensures RunningAs(Applied(caps, s, change), id) == Wanted(caps, change.upserts, id, None)
  {
    VersionSound(caps, s, change.version);
    UpsertsWin(caps, s.(version := change.version), change.upserts, id);
    LastUpsertIds(change.upserts, id);
  }

  /** A delta overrides by last upsert, then removes. */
  lemma DeltaSet(caps: Capabilities, s: State, change: AssignmentSet, id: GoString)
    requires Sound(caps, s) && s.bound && !change.full
    ensures RunningAs(Applied(caps, s, change), id) ==
            if id in change.removes then None else Wanted(caps, change.upserts, id, RunningAs(s, id))
  {
    VersionSound(caps, s, change.version);
    UpsertsWin(caps, s.(version := change.version), change.upserts, id);
  }

  lemma AppliedSound(caps: Capabilities, s: State, change: AssignmentSet)
    requires Sound(caps, s)
    ensures Sound(caps, Applied(caps, s, change))
  {
    if s.bound {
      VersionSound(caps, s, change.version);
      var s' := UpsertedAll(caps, s.(version := change.version), change.upserts);
      UpsertsWin(caps, s.(version := change.version), change.upserts, []);
      StoppedSound(caps, s', Stops(s', change));
    }
  }

  // Every run.

  function AppliedAll(caps: Capabilities, s: State, changes: seq<AssignmentSet>): State {
    if changes == [] then s
    else Applied(caps, AppliedAll(caps, s, changes[..|changes| - 1]), changes[|changes| - 1])
  }

  /** From a fresh process on, contexts and running assignments correspond one to one. */
  lemma {:induction false} RunSound(caps: Capabilities, bound: bool, changes: seq<AssignmentSet>)
    ensures var s := AppliedAll(caps, EMPTY.(bound := bound), changes);
            Sound(caps, s) && s.bound == bound
  {
    if changes != [] {
      var n := |changes| - 1;
      RunSound(caps, bound, changes[..n]);
      var s := AppliedAll(caps, EMPTY.(bound := bound), changes[..n]);
      AppliedSound(caps, s, changes[n]);
      StaysBound(caps, s, changes[n]);
    }
  }

  lemma {:induction false} UpsertsStayBound(caps: Capabilities, s: State, ups: seq<Assignment>)
    ensures UpsertedAll(caps, s, ups).bound == s.bound
    ensures |UpsertedAll(caps, s, ups).started| >= |s.started|
  {
    if ups != [] {
      UpsertsStayBound(caps, s, ups[..|ups| - 1]);
    }
  }

  lemma StaysBound(caps: Capabilities, s: State, change: AssignmentSet)
    ensures Applied(caps, s, change).bound == s.bound
  {
    UpsertsStayBound(caps, s.(version := change.version), change.upserts);
  }

  /** In every reachable state the contexts alive are those of the running assignments, each its own. */
  lemma LiveContexts(caps: Capabilities, bound: bool, changes: seq<AssignmentSet>)
    ensures var s := AppliedAll(caps, EMPTY.(bound := bound), changes);
            && (set c | 0 <= c < |s.started| && c !in s.cancelled) == (set id | id in s.running :: s.running[id].ctx)
            && (forall i, j :: i in s.running && j in s.running && s.running[i].ctx == s.running[j].ctx ==> i == j)
            && (forall id :: id in s.running ==> s.running[id].ctx < |s.started| && s.started[s.running[id].ctx] == s.running[id].a)
  {
    RunSound(caps, bound, changes);
  }

  // What runs after every history, in terms of the sets alone.

  /** The last of the upserts for id is the one at j. */
  ghost predicate LastFor(ups: seq<Assignment>, id: GoString, j: nat) {
    j < |ups| && ups[j].assignmentId == id && forall k :: j < k < |ups| ==> ups[k].assignmentId != id
  }

  ghost predicate LastIs(ups: seq<Assignment>, id: GoString, a: Assignment) {
    exists j: nat :: LastFor(ups, id, j) && ups[j] == a
  }

  ghost predicate Mentions(ups: seq<Assignment>, id: GoString) {
    exists j :: 0 <= j < |ups| && ups[j].assignmentId == id
  }

  lemma {:induction false} LastUpsertAt(ups: seq<Assignment>, id: GoString, a: Assignment)
    ensures LastUpsert(ups, id) == Some(a) <==> LastIs(ups, id, a)
    ensures LastUpsert(ups, id).Some? <==> Mentions(ups, id)
  {
    if ups != [] {
      var n := |ups| - 1;
      var init := ups[..n];
      LastUpsertAt(init, id, a);
      assert forall j :: 0 <= j < n ==> init[j] == ups[j];
      if ups[n].assignmentId == id {
        assert LastFor(ups, id, n);
      } else {
        assert forall j: nat :: LastFor(ups, id, j) <==> LastFor(init, id, j);
      }
    }
  }

  /** Reachable: what a process has after these sets. */
  function Reached(caps: Capabilities, changes: seq<AssignmentSet>): State {
    AppliedAll(caps, EMPTY.(bound := true), changes)
  }

  lemma ReachedNext(caps: Capabilities, changes: seq<AssignmentSet>, change: AssignmentSet)
    ensures Reached(caps, changes + [change]) == Applied(caps, Reached(caps, changes), change)
    ensures Sound(caps, Reached(caps, changes)) && Reached(caps, changes).bound
  {
    assert (changes + [change])[..|changes|] == changes;
    RunSound(caps, true, changes);
  }

  /** Everything that ever runs has an advertised check type and valid parameters. */
  lemma RunningCanRun(caps: Capabilities, changes: seq<AssignmentSet>, id: GoString)
    requires id in Reached(caps, changes).running
    ensures var a := Reached(caps, changes).running[id].a;
            a.assignmentId == id && a.checkType in caps.checkTypes && caps.valid(a.checkType, a.parameters)
  {
    RunSound(caps, true, changes);
  }

  /** After a full set, whatever came before, exactly those last upserts run that have an advertised type and valid parameters. */
  lemma FullSetExactly(caps: Capabilities, changes: seq<AssignmentSet>, change: AssignmentSet, id: GoString, a: Assignment)
    requires change.full
    ensures var s := Reached(caps, changes + [change]);
            (id in s.running && s.running[id].a == a)
            <==> LastIs(change.upserts, id, a) && a.checkType in caps.checkTypes && caps.valid(a.checkType, a.parameters)
  {
    ReachedNext(caps, changes, change);
    FullSet(caps, Reached(caps, changes), change, id);
    LastUpsertAt(change.upserts, id, a);
    assert RunningAs(Reached(caps, changes + [change]), id) == Wanted(caps, change.upserts, id, None);
  }

  /** After a delta: the last upsert if it can run, what ran before if there is none, and nothing that is removed. */
  lemma DeltaSetExactly(caps: Capabilities, changes: seq<AssignmentSet>, change: AssignmentSet, id: GoString, a: Assignment)
    requires !change.full
    ensures var s, s' := Reached(caps, changes), Reached(caps, changes + [change]);
            (id in s'.running && s'.running[id].a == a)
            <==> id !in change.removes
                 && if Mentions(change.upserts, id)
                    then LastIs(change.upserts, id, a) && a.checkType in caps.checkTypes && caps.valid(a.checkType, a.parameters)
                    else id in s.running && s.running[id].a == a
  {
    ReachedNext(caps, changes, change);
    DeltaSet(caps, Reached(caps, changes), change, id);
    LastUpsertAt(change.upserts, id, a);
  }

  /** The version is that of the last set; before the process is bound, sets change nothing. */
  lemma VersionFollows(caps: Capabilities, bound: bool, changes: seq<AssignmentSet>, change: AssignmentSet)
    ensures var s := AppliedAll(caps, EMPTY.(bound := bound), changes + [change]);
            if bound then s.version == change.version else s == EMPTY
  {
    assert (changes + [change])[..|changes|] == changes;
    RunSound(caps, bound, changes);
    var s := AppliedAll(caps, EMPTY.(bound := bound), changes);
    if bound {
      UpsertsVersion(caps, s.(version := change.version), change.upserts);
    } else {
      Unbound(caps, changes);
    }
  }

  lemma {:induction false} Unbound(caps: Capabilities, changes: seq<AssignmentSet>)
    ensures AppliedAll(caps, EMPTY, changes) == EMPTY
  {
    if changes != [] {
      Unbound(caps, changes[..|changes| - 1]);
    }
  }

  /** A full set makes everything before it irrelevant: two histories that end with it run the same assignments. */
  lemma FullSetForgets(caps: Capabilities, before: seq<AssignmentSet>, before': seq<AssignmentSet>, change: AssignmentSet, id: GoString)
    requires change.full
    ensures RunningAs(AppliedAll(caps, EMPTY.(bound := true), before + [change]), id)
            == RunningAs(AppliedAll(caps, EMPTY.(bound := true), before' + [change]), id)
  {
    assert (before + [change])[..|before|] == before;
    assert (before' + [change])[..|before'|] == before';
    RunSound(caps, true, before);
    RunSound(caps, true, before');
    FullSet(caps, AppliedAll(caps, EMPTY.(bound := true), before), change, id);
    FullSet(caps, AppliedAll(caps, EMPTY.(bound := true), before'), change, id);
  }

  // Loops kept.

  ghost predicate AllEqual(ups: seq<Assignment>, id: GoString, a: Assignment) {
    forall i :: 0 <= i < |ups| && ups[i].assignmentId == id ==> ups[i] == a
  }

  /** Assignment id runs under context c. */
  ghost predicate Under(s: State, id: GoString, c: nat) {
    id in s.running && s.running[id].ctx == c
  }

  lemma UpsertKeeps(caps: Capabilities, s: State, a: Assignment, id: GoString, c: nat)
    requires Sound(caps, s) && c < |s.started|
    ensures Under(Upserted(caps, s, a), id, c) <==> Under(s, id, c) && (a.assignmentId == id ==> s.started[c] == a)
  {
  }

  /** A loop survives the upserts if and only if none of them changes its assignment. */
  lemma {:induction false} UpsertsKeep(caps: Capabilities, s: State, ups: seq<Assignment>, id: GoString)
    requires Sound(caps, s) && id in s.running
    ensures Under(UpsertedAll(caps, s, ups), id, s.running[id].ctx) <==> AllEqual(ups, id, s.running[id].a)
  {
    if ups != [] {
      var n := |ups| - 1;
      var c := s.running[id].ctx;
      UpsertsKeep(caps, s, ups[..n], id);
      UpsertsWin(caps, s, ups[..n], id);
      UpsertsHistory(caps, s, ups[..n]);
      UpsertKeeps(caps, UpsertedAll(caps, s, ups[..n]), ups[n], id, c);
      AllEqualNext(ups, id, s.running[id].a);
    }
  }

  lemma AllEqualNext(ups: seq<Assignment>, id: GoString, a: Assignment)
    requires ups != []
    ensures var n := |ups| - 1;
            AllEqual(ups, id, a) <==> AllEqual(ups[..n], id, a) && (ups[n].assignmentId == id ==> ups[n] == a)
  {
    assert forall i :: 0 <= i < |ups| - 1 ==> ups[i] == ups[..|ups| - 1][i];
  }

  /**
   A firing loop goes on under the same context if and only if every upsert of
   its id repeats its assignment and the set does not stop it.
   */
  lemma LoopKept(caps: Capabilities, s: State, change: AssignmentSet, id: GoString)
    requires Sound(caps, s) && s.bound && id in s.running
    ensures var s' := Applied(caps, s, change);
            (id in s'.running && s'.running[id] == s.running[id]) <==>
            && AllEqual(change.upserts, id, s.running[id].a)
            && (if change.full then id in UpsertIds(change.upserts) else id !in change.removes)
  {
    var s0 := s.(version := change.version);
    VersionSound(caps, s, change.version);
    UpsertsKeep(caps, s0, change.upserts, id);
    UpsertsWin(caps, s0, change.upserts, id);
    AppliedSound(caps, s, change);
    var s1 := UpsertedAll(caps, s0, change.upserts);
    assert id in s1.running && s1.running[id].ctx == s.running[id].ctx ==> s1.running[id] == s.running[id] by {
      UpsertsHistory(caps, s0, change.upserts);
    }
  }

  lemma {:induction false} UpsertsHistory(caps: Capabilities, s: State, ups: seq<Assignment>)
    ensures s.started <= UpsertedAll(caps, s, ups).started
  {
    if ups != [] {
      UpsertsHistory(caps, s, ups[..|ups| - 1]);
    }
  }

  // Applying a full set twice.

  /** If the upserts start nothing, each id goes on as it was or stops for good. */
  lemma {:induction false} NothingStarted(caps: Capabilities, s: State, ups: seq<Assignment>, id: GoString)
    requires Sound(caps, s) && |UpsertedAll(caps, s, ups).started| == |s.started|
    ensures id in UpsertedAll(caps, s, ups).running ==> id in s.running && AllEqual(ups, id, s.running[id].a)
    ensures forall i :: 0 <= i < |ups| && ups[i].assignmentId == id && caps.Runnable(ups[i]) ==>
              id in s.running && s.running[id].a == ups[i]
  {
    if ups != [] {
      var n := |ups| - 1;
      var s1 := UpsertedAll(caps, s, ups[..n]);
      UpsertsStayBound(caps, s, ups[..n]);
      assert |s1.started| == |s.started|;
      NothingStarted(caps, s, ups[..n], id);
      UpsertsWin(caps, s, ups[..n], id);
      if id in s1.running {
        UpsertsKeep(caps, s, ups[..n], id);
        UpsertsHistory(caps, s, ups[..n]);
        assert s1.running[id].a == s.running[id].a;
        AllEqualNext(ups, id, s.running[id].a);
      }
      assert forall i :: 0 <= i < n ==> ups[i] == ups[..n][i];
    }
  }

  lemma {:induction false} NothingToDo(caps: Capabilities, s: State, ups: seq<Assignment>)
    requires forall i :: 0 <= i < |ups| ==> Upserted(caps, s, ups[i]) == s
    ensures UpsertedAll(caps, s, ups) == s
  {
    if ups != [] {
      NothingToDo(caps, s, ups[..|ups| - 1]);
    }
  }

  /** Two different upserts of one id can only be there if neither can run. */
  ghost predicate Consistent(caps: Capabilities, ups: seq<Assignment>) {
    forall i, j :: 0 <= i < |ups| && 0 <= j < |ups| && ups[i].assignmentId == ups[j].assignmentId && ups[i] != ups[j] ==>
      !caps.Runnable(ups[i])
  }

  lemma SettledUpsert(caps: Capabilities, s: State, ups: seq<Assignment>, i: nat)
    requires i < |ups| && Consistent(caps, ups)
    requires RunningAs(s, ups[i].assignmentId) == Wanted(caps, ups, ups[i].assignmentId, None)
    ensures Upserted(caps, s, ups[i]) == s
  {
    var id := ups[i].assignmentId;
    LastUpsertIds(ups, id);
    assert id in UpsertIds(ups);
    var last := LastUpsert(ups, id).value;
    var j :| 0 <= j < |ups| && ups[j] == last;
    assert ups[j].assignmentId == ups[i].assignmentId;
  }

  /** Sending a full set again cancels and starts nothing, if and only if its upserts are consistent. */
  lemma ReapplyFullSet(caps: Capabilities, s: State, change: AssignmentSet)
    requires Sound(caps, s) && s.bound && change.full
    ensures var t := Applied(caps, s, change);
            Applied(caps, t, change) == t <==> Consistent(caps, change.upserts)
  {
    var ups := change.upserts;
    var t := Applied(caps, s, change);
    AppliedSound(caps, s, change);
    StaysBound(caps, s, change);
    assert t.version == change.version by {
      UpsertsVersion(caps, s.(version := change.version), ups);
    }
    var u := UpsertedAll(caps, t, ups);
    if Consistent(caps, ups) {
      forall i | 0 <= i < |ups|
        ensures Upserted(caps, t, ups[i]) == t
      {
        FullSet(caps, s, change, ups[i].assignmentId);
        SettledUpsert(caps, t, ups, i);
      }
      NothingToDo(caps, t, ups);
      forall id | id in t.running
        ensures id in UpsertIds(ups)
      {
        FullSet(caps, s, change, id);
        LastUpsertIds(ups, id);
      }
      assert Stops(t, change) == {};
      StoppedSound(caps, t, {});
    } else if Applied(caps, t, change) == t {
      var i, j :| 0 <= i < |ups| && 0 <= j < |ups| && ups[i].assignmentId == ups[j].assignmentId && ups[i] != ups[j] && caps.Runnable(ups[i]);
      NothingStarted(caps, t, ups, ups[i].assignmentId);
    }
  }

  lemma {:induction false} UpsertsVersion(caps: Capabilities, s: State, ups: seq<Assignment>)
    ensures UpsertedAll(caps, s, ups).version == s.version
  {
    if ups != [] {
      UpsertsVersion(caps, s, ups[..|ups| - 1]);
    }
  }
}
