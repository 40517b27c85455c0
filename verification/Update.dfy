/** Self-update: which offers are acted on, and which versions can follow one another. */
module Update {
  import opened Version

  const RETRY_COOLDOWN_MS := 6 * 60 * 60 * 1000

  /** The persisted attempt marker. */
  datatype Marker = NoMarker | Marker(target: string, ms: int)

  /** What becomes of the marker's file: a write that fails may leave it as it was, or leave anything else. */
  datatype Marking = Written | NotWritten(left: Marker)

  /** What one attempt meets outside the agent: its configuration, the host and the release server. */
  datatype World = World(
    autoUpdate: bool,
    hasReleaseKey: bool,
    executableFound: bool,
    writable: bool,
    marking: Marking,
    manifest: Manifest,
    artifactOk: bool,
    reported: Reported,
    renamed: bool)

  /** The signed manifest, if it could be fetched, verified and parsed. */
  datatype Manifest = NoManifest | Manifest(version: string, hasArtifact: bool)

  /** What the staged binary printed for --version, trimmed, if it ran. */
  datatype Reported = DidNotRun | Reported(version: string)

  datatype Gate =
    | Disabled | DevBuild | NotNewer | NoExecutable | NotWritable | CoolingDown
    | BadManifest | WrongManifest | NoArtifact | BadArtifact | SelfTest | WrongBinary | NotSwapped

  datatype Outcome = Refused(gate: Gate) | Installed

  predicate RecentlyFailed(m: Marker, target: string, now: int) {
    m.Marker? && m.target == target && now - m.ms < RETRY_COOLDOWN_MS
  }

  /** What an attempt takes before anything is downloaded, the cooldown aside. */
  ghost predicate Eligible(current: string, target: string, w: World, max: MaxInt) {
    && w.autoUpdate && w.hasReleaseKey && w.executableFound && w.writable
    && Older(current, target, max)
  }

  ghost predicate Attemptable(current: string, target: string, w: World, m: Marker, now: int, max: MaxInt) {
    Eligible(current, target, w, max) && !RecentlyFailed(m, target, now)
  }

  /** The marker an attempt leaves. */
  function Marked(target: string, w: World, now: int): Marker {
    match w.marking
    case Written => Marker(target, now)
    case NotWritten(left) => left
  }

  /** Everything an installation takes, in no order. */
  ghost predicate Admissible(current: string, target: string, w: World, m: Marker, now: int, max: MaxInt) {
    && Attemptable(current, target, w, m, now, max)
    && w.manifest == Manifest(target, true) && w.artifactOk
    && w.reported == Reported(target)
    && w.renamed
  }

  /** A node: the version its process runs, the guard of that process, and the marker on disk. */
  datatype Node = Node(version: string, attempted: string, marker: Marker)

  datatype Offer = Offer(target: string, w: World, now: int)

  /** The offer passes the guard and every gate before the download. */
  ghost predicate Attempts(n: Node, o: Offer, max: MaxInt) {
    n.attempted != o.target && Attemptable(n.version, o.target, o.w, n.marker, o.now, max)
  }

  /** What one offer makes of a node. An installation ends the process, and the installed version starts afresh. */
  ghost function Handled(n: Node, o: Offer, max: MaxInt): Node {
    if n.attempted == o.target then n
    else if !Attempts(n, o, max) then n.(attempted := o.target)
    else if Admissible(n.version, o.target, o.w, n.marker, o.now, max) then Node(o.target, "", Marked(o.target, o.w, o.now))
    else Node(n.version, o.target, Marked(o.target, o.w, o.now))
  }

  /** The agent process and what it keeps on disk. */
  class Updater {
    const agentVersion: string
    const max: MaxInt
    var updateActive: bool
    var attemptedVersion: string
    var marker: Marker
    var binary: string // the version of the binary that the next start runs

    /** The node, with the process that follows if this one has replaced its binary. */
    ghost function Value(): Node
      reads this
    {
      if binary == agentVersion then Node(agentVersion, attemptedVersion, marker) else Node(binary, "", marker)
    }

    constructor (agentVersion: string, max: MaxInt, marker: Marker)
      ensures this.agentVersion == agentVersion && this.max == max && this.marker == marker
      ensures !updateActive && attemptedVersion == "" && binary == agentVersion
    {
      this.agentVersion := agentVersion;
      this.max := max;
      this.marker := marker;
      updateActive := false;
      attemptedVersion := "";
      binary := agentVersion;
    }

    /** The locked opening of handleUpdate. */
    method Admit(target: string) returns (act: bool)
      modifies this`updateActive, this`attemptedVersion
      ensures act <==> !old(updateActive) && old(attemptedVersion) != target
      ensures updateActive == (old(updateActive) || act)
      ensures attemptedVersion == if act then target else old(attemptedVersion)
    {
      if updateActive || attemptedVersion == target {
        return false;
      }
      updateActive := true;
      attemptedVersion := target;
      return true;
    }

    /** applyUpdate, gate by gate. */
    method Apply(target: string, w: World, now: int) returns (out: Outcome)
      requires binary == agentVersion
      modifies this`marker, this`binary
      ensures out == Installed <==> Admissible(agentVersion, target, w, old(marker), now, max)
      // A refusal leaves the binary alone; an attempt is recorded whether or not it succeeds.
      ensures binary == if out == Installed then target else agentVersion
      ensures marker == if Attemptable(agentVersion, target, w, old(marker), now, max) then Marked(target, w, now) else old(marker)
    {
      if !w.autoUpdate {
        return Refused(Disabled);
      }
      if !w.hasReleaseKey {
        return Refused(DevBuild);
      }
      var newer := Less(agentVersion, target, max);
      if !newer {
        return Refused(NotNewer);
      }
      if !w.executableFound {
        return Refused(NoExecutable);
      }
      if !w.writable {
        return Refused(NotWritable);
      }
      if RecentlyFailed(marker, target, now) {
        return Refused(CoolingDown);
      }
      match w.marking {
        case Written =>
          marker := Marker(target, now);
        case NotWritten(left) =>
          marker := left;
      }
      match w.manifest
      case NoManifest =>
        return Refused(BadManifest);
      case Manifest(version, hasArtifact) =>
        if version != target {
          return Refused(WrongManifest);
        }
        if !hasArtifact {
          return Refused(NoArtifact);
        }
      if !w.artifactOk {
        return Refused(BadArtifact);
      }
      match w.reported
      case DidNotRun =>
        return Refused(SelfTest);
      case Reported(version) =>
        if version != target {
          return Refused(WrongBinary);
        }
      if !w.renamed {
        return Refused(NotSwapped);
      }
      binary := target;
      return Installed;
    }

    /** One offer from start to finish. */
    method HandleUpdate(o: Offer) returns (act: bool)
      requires !updateActive && binary == agentVersion
      modifies this
      ensures !updateActive && Value() == Handled(old(Value()), o, max)
      ensures attemptedVersion == o.target && (act <==> old(attemptedVersion) != o.target)
      ensures binary != agentVersion <==> act && Admissible(agentVersion, o.target, o.w, old(marker), o.now, max)
    {
      act := Admit(o.target);
      if act {
        var out := Apply(o.target, o.w, o.now);
        updateActive := false;
        NotItself(agentVersion, o, old(marker), max);
      }
    }
  }

  lemma NotItself(version: string, o: Offer, m: Marker, max: MaxInt)
    ensures Admissible(version, o.target, o.w, m, o.now, max) ==> version != o.target
  {
    StrictWeakOrder(version, version, version, max);
  }

  function Targets(offers: seq<Offer>): (ts: seq<string>)
    ensures |ts| == |offers|
  {
    seq(|offers|, i requires 0 <= i < |offers| => offers[i].target)
  }

  ghost function HandledAll(n: Node, offers: seq<Offer>, max: MaxInt): Node {
    if offers == [] then n else Handled(HandledAll(n, offers[..|offers| - 1], max), offers[|offers| - 1], max)
  }

  lemma OfferNext(max: MaxInt, start: Node, offers: seq<Offer>, n: nat)
    requires n < |offers|
    ensures HandledAll(start, offers[..n + 1], max) == Handled(HandledAll(start, offers[..n], max), offers[n], max)
    ensures var before, t := Attempted(Targets(offers[..n])), offers[n].target;
            Attempted(Targets(offers[..n + 1])) == if LastOf(before) == t then before else before + [t]
  {
    assert offers[..n + 1][..n] == offers[..n];
    assert Targets(offers[..n + 1])[..n] == Targets(offers[..n]);
  }

  /** A new process that finishes each offer before the next arrives, until one replaces it. */
  method HandleOffers(u: Updater, offers: seq<Offer>) returns (acted: seq<string>, n: nat)
    requires !u.updateActive && u.attemptedVersion == "" && u.binary == u.agentVersion
    modifies u
    ensures n <= |offers| && (n < |offers| ==> u.binary != u.agentVersion)
    ensures acted == Attempted(Targets(offers[..n]))
    ensures u.Value() == HandledAll(old(u.Value()), offers[..n], u.max)
  {
    acted, n := [], 0;
    while n < |offers| && u.binary == u.agentVersion
      invariant n <= |offers| && !u.updateActive && u.attemptedVersion == LastOf(acted)
      invariant acted == Attempted(Targets(offers[..n]))
      invariant u.Value() == HandledAll(old(u.Value()), offers[..n], u.max)
    {
      var o := offers[n];
      OfferNext(u.max, old(u.Value()), offers, n);
      var act := u.HandleUpdate(o);
      if act {
        acted := acted + [o.target];
      }
      n := n + 1;
    }
  }

  // Repeated offers within one process.

  function LastOf(attempts: seq<string>): string {
    if attempts == [] then "" else attempts[|attempts| - 1]
  }

  /** The offers acted on when each is finished before the next arrives. */
  function Attempted(offers: seq<string>): seq<string> {
    if offers == [] then []
    else
      var n := |offers| - 1;
      var before := Attempted(offers[..n]);
      if LastOf(before) == offers[n] then before else before + [offers[n]]
  }

  /** t was offered again after something else had been offered in between. */
  ghost predicate Interrupted(offers: seq<string>, t: string) {
    exists i, k, j :: 0 <= i < k < j < |offers| && offers[i] == t && offers[k] != t && offers[j] == t
  }

  ghost predicate Repeated(attempts: seq<string>, t: string) {
    exists i, j :: 0 <= i < j < |attempts| && attempts[i] == t && attempts[j] == t
  }

  lemma {:induction false} LastAttempt(offers: seq<string>)
    ensures offers != [] ==> LastOf(Attempted(offers)) == offers[|offers| - 1]
    ensures forall t :: t != "" ==> (t in Attempted(offers) <==> t in offers)
  {
    if offers != [] {
      var n := |offers| - 1;
      LastAttempt(offers[..n]);
      assert offers == offers[..n] + [offers[n]];
      var before := Attempted(offers[..n]);
      assert LastOf(before) != "" ==> LastOf(before) in before;
    }
  }

  /**
   A target is acted on more than once in a process if and only if it is
   offered, then another, then it again: the guard remembers one target only.
   */
  lemma {:induction false} AttemptedTwice(offers: seq<string>, t: string)
    requires t != ""
    ensures Repeated(Attempted(offers), t) <==> Interrupted(offers, t)
  {
    if offers != [] {
      var n := |offers| - 1;
      var before := Attempted(offers[..n]);
      AttemptedTwice(offers[..n], t);
      LastAttempt(offers[..n]);
      if Interrupted(offers[..n], t) {
        RepeatedGrows(before, Attempted(offers), t);
        InterruptedGrows(offers, t);
      } else if offers[n] == t && LastOf(before) != t && t in before {
        var i :| 0 <= i < |before| && before[i] == t;
        assert Attempted(offers)[|before|] == t && Attempted(offers)[i] == t;
        var o :| 0 <= o < n && offers[..n][o] == t;
        assert offers[o] == t && offers[n - 1] != t && offers[n] == t;
      } else {
        NotInterrupted(offers, t);
        if LastOf(before) != offers[n] {
          NotRepeated(before, offers[n], t);
        }
      }
    }
  }

  lemma RepeatedGrows(before: seq<string>, after: seq<string>, t: string)
    requires before <= after && Repeated(before, t)
    ensures Repeated(after, t)
  {
    var i, j :| 0 <= i < j < |before| && before[i] == t && before[j] == t;
    assert after[i] == t && after[j] == t;
  }

  lemma InterruptedGrows(offers: seq<string>, t: string)
    requires offers != [] && Interrupted(offers[..|offers| - 1], t)
    ensures Interrupted(offers, t)
  {
    var o := offers[..|offers| - 1];
    var i, k, j :| 0 <= i < k < j < |o| && o[i] == t && o[k] != t && o[j] == t;
    assert offers[i] == t && offers[k] != t && offers[j] == t;
  }

  lemma NotRepeated(before: seq<string>, x: string, t: string)
    requires !Repeated(before, t) && (x != t || t !in before)
    ensures !Repeated(before + [x], t)
  {
  }

  lemma NotInterrupted(offers: seq<string>, t: string)
    requires offers != [] && !Interrupted(offers[..|offers| - 1], t)
    requires var n := |offers| - 1;
             offers[n] != t || t !in offers[..n] || offers[n - 1] == t
    ensures !Interrupted(offers, t)
  {
    var n := |offers| - 1;
    var o := offers[..n];
    forall i, k, j | 0 <= i < k < j < |offers| && offers[i] == t && offers[k] != t
      ensures offers[j] != t
    {
      assert o[i] == t && o[k] != t;
      if j < n {
        assert o[j] == offers[j];
      } else if k < n - 1 {
        assert o[n - 1] != t;
      }
    }
  }

  // Runs across restarts.

  /** A restart for any other reason than an update only resets the guard. */
  datatype Event = Offered(o: Offer) | Restarted

  ghost function After(n: Node, e: Event, max: MaxInt): Node {
    match e
    case Offered(o) => Handled(n, o, max)
    case Restarted => n.(attempted := "")
  }

  ghost function Run(n: Node, events: seq<Event>, max: MaxInt): Node {
    if events == [] then n else After(Run(n, events[..|events| - 1], max), events[|events| - 1], max)
  }

  /** Something was downloaded, or tried to be; whether the marker could be written. */
  datatype Attempt = Attempt(target: string, now: int, written: bool)

  ghost function Attempting(n: Node, e: Event, max: MaxInt): seq<Attempt> {
    if e.Offered? && Attempts(n, e.o, max) then [Attempt(e.o.target, e.o.now, e.o.w.marking.Written?)] else []
  }

  ghost function AttemptsOf(n: Node, events: seq<Event>, max: MaxInt): seq<Attempt> {
    if events == [] then []
    else
      var before := events[..|events| - 1];
      AttemptsOf(n, before, max) + Attempting(Run(n, before, max), events[|events| - 1], max)
  }

  /** The versions that run, one after the other. */
  ghost function Versions(n: Node, events: seq<Event>, max: MaxInt): (vs: seq<string>)
    ensures vs != []
  {
    if events == [] then [n.version]
    else
      Listed(Versions(n, events[..|events| - 1], max), Run(n, events, max).version)
  }

  lemma {:induction false} LastVersion(n: Node, events: seq<Event>, max: MaxInt)
    ensures var vs := Versions(n, events, max);
            vs[|vs| - 1] == Run(n, events, max).version
  {
    if events != [] {
      LastVersion(n, events[..|events| - 1], max);
    }
  }

  /** A node from one start of its agent on, through updates and other restarts. */
  method Live(version: string, marker: Marker, events: seq<Event>, max: MaxInt) returns (u: Updater, versions: seq<string>)
    ensures u.Value() == Run(Node(version, "", marker), events, max)
    ensures versions == Versions(Node(version, "", marker), events, max)
  {
    ghost var n := Node(version, "", marker);
    u := new Updater(version, max, marker);
    versions := [version];
    for i := 0 to |events|
      invariant fresh(u) && u.max == max && !u.updateActive && u.binary == u.agentVersion
      invariant u.Value() == Run(n, events[..i], max) && versions == Versions(n, events[..i], max)
      invariant versions[|versions| - 1] == u.agentVersion
    {
      assert events[..i + 1][..i] == events[..i];
      match events[i] {
        case Restarted =>
          u := new Updater(u.agentVersion, max, u.marker);
        case Offered(o) =>
          var act := u.HandleUpdate(o);
          if u.binary != u.agentVersion {
            versions := versions + [u.binary];
            u := new Updater(u.binary, max, u.marker);
          }
      }
    }
    assert events[..|events|] == events;
  }

  // The cooldown.

  /** What one event does to the marker: an attempt is out of the cooldown, and is marked; nothing else changes it. */
  lemma MarkedNext(n: Node, e: Event, max: MaxInt)
    ensures var atts, n' := Attempting(n, e, max), After(n, e, max);
            && |atts| <= 1
            && (atts == [] ==> n'.marker == n.marker)
            && (atts != [] ==> !RecentlyFailed(n.marker, atts[0].target, atts[0].now))
            && (atts != [] && atts[0].written ==> n'.marker == Marker(atts[0].target, atts[0].now))
  {
  }

  ghost predicate SpacedAt(atts: seq<Attempt>, i: nat)
    requires i + 1 < |atts|
  {
    atts[i].written && atts[i].target == atts[i + 1].target ==> atts[i + 1].now - atts[i].now >= RETRY_COOLDOWN_MS
  }

  /** Two attempts in a row at the same target are a cooldown apart, if the first could be marked. */
  ghost predicate Spaced(atts: seq<Attempt>) {
    forall i :: 0 <= i < |atts| - 1 ==> SpacedAt(atts, i)
  }

  /** The marker is about the last attempt, if that could be marked. */
  ghost predicate Remembered(m: Marker, atts: seq<Attempt>) {
    atts != [] && atts[|atts| - 1].written ==> m == Marker(atts[|atts| - 1].target, atts[|atts| - 1].now)
  }

  lemma SpacedNext(m: Marker, atts: seq<Attempt>, a: Attempt)
    requires Spaced(atts) && Remembered(m, atts) && !RecentlyFailed(m, a.target, a.now)
    ensures Spaced(atts + [a])
  {
    forall i | 0 <= i < |atts + [a]| - 1
      ensures SpacedAt(atts + [a], i)
    {
      assert i < |atts| - 1 ==> SpacedAt(atts, i);
    }
  }

  lemma KeptNext(n: Node, e: Event, atts: seq<Attempt>, max: MaxInt)
    requires Spaced(atts) && Remembered(n.marker, atts)
    ensures var all := atts + Attempting(n, e, max);
            Spaced(all) && Remembered(After(n, e, max).marker, all)
  {
    MarkedNext(n, e, max);
    if Attempting(n, e, max) == [] {
      assert atts + Attempting(n, e, max) == atts;
    } else {
      var a := Attempting(n, e, max)[0];
      assert Attempting(n, e, max) == [a];
      SpacedNext(n.marker, atts, a);
    }
  }

  lemma {:induction false} CooldownKept(n: Node, events: seq<Event>, max: MaxInt)
    ensures Spaced(AttemptsOf(n, events, max)) && Remembered(Run(n, events, max).marker, AttemptsOf(n, events, max))
  {
    if events != [] {
      var before, e := events[..|events| - 1], events[|events| - 1];
      CooldownKept(n, before, max);
      var m, atts := Run(n, before, max), AttemptsOf(n, before, max);
      KeptNext(m, e, atts, max);
    }
  }

  /** Between attempts i and j another target was attempted than at i. */
  ghost predicate OtherBetween(atts: seq<Attempt>, i: nat, j: nat)
    requires i < j <= |atts|
  {
    exists k :: i < k < j && atts[k].target != atts[i].target
  }

  lemma {:induction false} SameTargetApart(atts: seq<Attempt>, i: nat, j: nat)
    requires Spaced(atts) && i < j < |atts|
    requires forall k :: i <= k < j ==> atts[k].written
    requires !OtherBetween(atts, i, j) && atts[j].target == atts[i].target
    ensures atts[j].now - atts[i].now >= RETRY_COOLDOWN_MS
  {
    assert SpacedAt(atts, j - 1) && atts[j - 1].written && atts[j - 1].target == atts[j].target;
    if i < j - 1 {
      SameTargetApart(atts, i, j - 1);
    }
  }

  /**
   Across any restarts, and whatever the clock does: two attempts at a target
   less than a cooldown apart have an attempt at another target between them.
   */
  lemma AttemptedAgain(n: Node, events: seq<Event>, i: nat, j: nat, max: MaxInt)
    requires i < j < |AttemptsOf(n, events, max)|
    requires var atts := AttemptsOf(n, events, max);
             && atts[i].target == atts[j].target && atts[j].now - atts[i].now < 21_600_000
             && forall k :: i <= k < j ==> atts[k].written
    ensures OtherBetween(AttemptsOf(n, events, max), i, j)
  {
    CooldownKept(n, events, max);
    var atts := AttemptsOf(n, events, max);
    if !OtherBetween(atts, i, j) {
      SameTargetApart(atts, i, j);
    }
  }

  lemma MarkerForgets(m: Marker, atts: seq<Attempt>, o: Offer, i: nat)
    requires Remembered(m, atts) && CoolingFor(atts, o, i)
    ensures RecentlyFailed(m, o.target, o.now) <==> !OtherBetween(atts, i, |atts|)
  {
    if i < |atts| - 1 {
      assert atts[|atts| - 1].target != atts[i].target;
    }
  }

  /** The attempts up to now are such that the last one at the target of o was less than a cooldown ago. */
  ghost predicate CoolingFor(atts: seq<Attempt>, o: Offer, i: nat) {
    && i < |atts| && atts[i].target == o.target && o.now - atts[i].now < 21_600_000
    && (forall k :: i < k < |atts| ==> atts[k].target != o.target)
    && atts[|atts| - 1].written
  }

  /**
   An eligible offer, within the cooldown of the last attempt at its target, is
   attempted if and only if another target was attempted since: the marker
   remembers one target only.
   */
  lemma CooldownRefuses(n: Node, events: seq<Event>, o: Offer, i: nat, max: MaxInt)
    requires var m := Run(n, events, max);
             m.attempted != o.target && Eligible(m.version, o.target, o.w, max)
    requires CoolingFor(AttemptsOf(n, events, max), o, i)
    ensures Attempts(Run(n, events, max), o, max) <==> OtherBetween(AttemptsOf(n, events, max), i, |AttemptsOf(n, events, max)|)
  {
    CooldownKept(n, events, max);
    MarkerForgets(Run(n, events, max).marker, AttemptsOf(n, events, max), o, i);
  }

  /** Configuration, build and host allow an update, and this one is newer. */
  ghost predicate Allowed(n: Node, o: Offer, max: MaxInt) {
    o.w.autoUpdate && o.w.hasReleaseKey && o.w.executableFound && o.w.writable && Older(n.version, o.target, max)
  }

  /** The target and time of the last attempt are these, and could be marked. */
  ghost predicate LastAt(atts: seq<Attempt>, target: string, now: int) {
    atts != [] && atts[|atts| - 1] == Attempt(target, now, true)
  }

  /**
   The cooldown ends, and holds for its target only: over any run, an offer
   that is allowed and passes the guard is attempted if and only if the last
   attempt was at another target, or six hours ago or more.
   */
  lemma CooldownEnds(n: Node, events: seq<Event>, o: Offer, target: string, now: int, max: MaxInt)
    requires LastAt(AttemptsOf(n, events, max), target, now)
    ensures var m := Run(n, events, max);
            AttemptsOf(n, events + [Offered(o)], max) != AttemptsOf(n, events, max)
            <==> m.attempted != o.target && Allowed(m, o, max) && (target != o.target || o.now - now >= 21_600_000)
  {
    CooldownKept(n, events, max);
    OneMoreEvent(n, events, Offered(o), max);
  }

  /** Before any attempt, the marker found at the start decides. */
  lemma FirstAttempt(n: Node, events: seq<Event>, o: Offer, max: MaxInt)
    requires AttemptsOf(n, events, max) == []
    ensures var m := Run(n, events, max);
            AttemptsOf(n, events + [Offered(o)], max) != []
            <==> m.attempted != o.target && Allowed(m, o, max)
                 && (n.marker == NoMarker || n.marker.target != o.target || o.now - n.marker.ms >= 21_600_000)
  {
    MarkerUntouched(n, events, max);
    OneMoreEvent(n, events, Offered(o), max);
  }

  lemma OneMoreEvent(n: Node, events: seq<Event>, e: Event, max: MaxInt)
    ensures AttemptsOf(n, events + [e], max) == AttemptsOf(n, events, max) + Attempting(Run(n, events, max), e, max)
    ensures Run(n, events + [e], max) == After(Run(n, events, max), e, max)
  {
    assert (events + [e])[..|events|] == events;
  }

  lemma {:induction false} MarkerUntouched(n: Node, events: seq<Event>, max: MaxInt)
    requires AttemptsOf(n, events, max) == []
    ensures Run(n, events, max).marker == n.marker
  {
    if events != [] {
      var before := events[..|events| - 1];
      MarkerUntouched(n, before, max);
      MarkedNext(Run(n, before, max), events[|events| - 1], max);
    }
  }

  /** A node comes to run another version at an offer if and only if that is attempted, and every later gate holds as well. */
  lemma InstalledExactly(n: Node, events: seq<Event>, o: Offer, max: MaxInt)
    ensures var m, m' := Run(n, events, max), Run(n, events + [Offered(o)], max);
            m'.version != m.version
            <==> && AttemptsOf(n, events + [Offered(o)], max) != AttemptsOf(n, events, max)
                 && o.w.manifest == Manifest(o.target, true) && o.w.artifactOk
                 && o.w.reported == Reported(o.target) && o.w.renamed
    ensures var m, m' := Run(n, events, max), Run(n, events + [Offered(o)], max);
            m'.version != m.version ==> m'.version == o.target && m'.attempted == ""
  {
    OneMoreEvent(n, events, Offered(o), max);
    NotItself(Run(n, events, max).version, o, Run(n, events, max).marker, max);
  }

  // Two targets offered in turn are attempted every time.

  const SERVER_DOWN := World(true, true, true, true, Written, NoManifest, false, DidNotRun, false)

  function InTurn(k: int): string {
    if k % 2 == 0 then "2" else "3"
  }

  function Alternating(k: nat): (events: seq<Event>)
    ensures |events| == k
  {
    seq(k, i => Offered(Offer(InTurn(i), SERVER_DOWN, i)))
  }

  function InTurnAttempts(k: nat): (atts: seq<Attempt>)
    ensures |atts| == k
  {
    seq(k, i => Attempt(InTurn(i), i, true))
  }

  /** "2" and "3", offered in turn every millisecond, are attempted every time: neither is ever refused for the cooldown. */
  lemma {:induction false} AlternatingAttempted(k: nat, max: MaxInt)
    ensures AttemptsOf(Node("1", "", NoMarker), Alternating(k), max) == InTurnAttempts(k)
    ensures Run(Node("1", "", NoMarker), Alternating(k), max) == AfterTurn(k)
  {
    if k > 0 {
      AlternatingAttempted(k - 1, max);
      NextInTurn(AfterTurn(k - 1), k - 1, max);
      InTurnNext(k);
    }
  }

  lemma InTurnNext(k: nat)
    requires k > 0
    ensures InTurnAttempts(k) == InTurnAttempts(k - 1) + [Attempt(InTurn(k - 1), k - 1, true)]
    ensures Alternating(k)[..k - 1] == Alternating(k - 1)
  {
  }

  function AfterTurn(k: nat): Node {
    if k == 0 then Node("1", "", NoMarker) else Node("1", InTurn(k - 1), Marker(InTurn(k - 1), k - 1))
  }

  lemma NextInTurn(m: Node, i: nat, max: MaxInt)
    requires m == AfterTurn(i)
    ensures var e := Offered(Offer(InTurn(i), SERVER_DOWN, i));
            && Attempting(m, e, max) == [Attempt(InTurn(i), i, true)]
            && After(m, e, max) == AfterTurn(i + 1)
  {
    OneDigit(max);
    OtherTurn(i);
    assert Eligible("1", InTurn(i), SERVER_DOWN, max);
    assert Attempts(m, Offer(InTurn(i), SERVER_DOWN, i), max);
  }

  lemma OtherTurn(i: nat)
    ensures AfterTurn(i).attempted != InTurn(i) && InTurn(i) in {"2", "3"}
    ensures !RecentlyFailed(AfterTurn(i).marker, InTurn(i), i)
  {
    assert "2"[0] != "3"[0];
    assert |""| == 0;
  }

  lemma OneDigit(max: MaxInt)
    ensures Older("1", "2", max) && Older("1", "3", max)
  {
    assert Decimal(1) == "1" && Decimal(2) == "2" && Decimal(3) == "3";
    assert Render([1]) == "1" && Render([2]) == "2" && Render([3]) == "3";
    ParsedRender([1], max);
    ParsedRender([2], max);
    ParsedRender([3], max);
    assert LessBy(Parsed("1", max), Parsed("2", max), 0) && LessBy(Parsed("1", max), Parsed("3", max), 0);
  }

  // Versions across restarts.

  /** Some circumstances let version a install version b. */
  ghost predicate Installs(a: string, b: string, max: MaxInt) {
    exists w, m, now :: Admissible(a, b, w, m, now, max)
  }

  ghost predicate Succeeds(versions: seq<string>, i: nat, max: MaxInt)
    requires 0 < i < |versions|
  {
    Installs(versions[i - 1], versions[i], max)
  }

  /** Versions each of which was installed by the one before it. */
  ghost predicate Chain(versions: seq<string>, max: MaxInt) {
    forall i :: 0 < i < |versions| ==> Succeeds(versions, i, max)
  }

  lemma InstallsNewer(a: string, b: string, max: MaxInt)
    requires Installs(a, b, max)
    ensures Older(a, b, max)
  {
    var w, m, now :| Admissible(a, b, w, m, now, max);
  }

  lemma OlderTransitive(a: string, b: string, c: string, max: MaxInt)
    requires Older(a, b, max)
    ensures a != b
    ensures Older(b, c, max) ==> Older(a, c, max)
  {
    StrictWeakOrder(a, b, c, max);
  }

  /** Installed versions strictly increase for ever, so no version comes back. */
  lemma {:induction false} ChainIncreases(versions: seq<string>, i: nat, j: nat, max: MaxInt)
    requires Chain(versions, max) && i < j < |versions|
    ensures Older(versions[i], versions[j], max) && versions[i] != versions[j]
  {
    assert Succeeds(versions, j, max);
    InstallsNewer(versions[j - 1], versions[j], max);
    if i < j - 1 {
      ChainIncreases(versions, i, j - 1, max);
      OlderTransitive(versions[i], versions[j - 1], versions[j], max);
    }
    OlderTransitive(versions[i], versions[j], versions[j], max);
  }

  lemma ChainNext(versions: seq<string>, v: string, max: MaxInt)
    requires versions != [] && Chain(versions, max) && Installs(versions[|versions| - 1], v, max)
    ensures Chain(versions + [v], max)
  {
    forall i | 0 < i < |versions + [v]|
      ensures Succeeds(versions + [v], i, max)
    {
      assert i < |versions| ==> Succeeds(versions, i, max);
    }
  }

  lemma ChangedByInstallation(n: Node, e: Event, max: MaxInt)
    requires After(n, e, max).version != n.version
    ensures Installs(n.version, After(n, e, max).version, max)
  {
    assert Admissible(n.version, e.o.target, e.o.w, n.marker, e.o.now, max);
  }

  function Listed(versions: seq<string>, v: string): seq<string>
    requires versions != []
  {
    if v == versions[|versions| - 1] then versions else versions + [v]
  }

  lemma ListedChain(versions: seq<string>, n: Node, e: Event, max: MaxInt)
    requires versions != [] && Chain(versions, max) && versions[|versions| - 1] == n.version
    ensures Chain(Listed(versions, After(n, e, max).version), max)
  {
    if After(n, e, max).version != n.version {
      ChangedByInstallation(n, e, max);
      ChainNext(versions, After(n, e, max).version, max);
    }
  }

  lemma {:induction false} VersionsChain(n: Node, events: seq<Event>, max: MaxInt)
    ensures Chain(Versions(n, events, max), max)
  {
    if events == [] {
      assert Versions(n, events, max) == [n.version];
    } else {
      var before, e := events[..|events| - 1], events[|events| - 1];
      VersionsChain(n, before, max);
      LastVersion(n, before, max);
      ListedChain(Versions(n, before, max), Run(n, before, max), e, max);
      assert Versions(n, events, max) == Listed(Versions(n, before, max), After(Run(n, before, max), e, max).version);
    }
  }

  /** Of all the versions a node ever runs, each is newer than those before it, and none comes back. */
  lemma VersionsIncrease(n: Node, events: seq<Event>, i: nat, j: nat, max: MaxInt)
    requires i < j < |Versions(n, events, max)|
    ensures var vs := Versions(n, events, max);
            Older(vs[i], vs[j], max) && vs[i] != vs[j]
  {
    VersionsChain(n, events, max);
    ChainIncreases(Versions(n, events, max), i, j, max);
  }
}
