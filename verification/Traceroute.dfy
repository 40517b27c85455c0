/** The traceroute behind a ping Check, against any stream of replies. */
module Traceroute {
  import opened GoInts
  import opened Options
  import opened Sequences
  import Rtt

  const TRACE_PROBES := 3
  const TRACE_MAX_TTL := 30

  /**
   A message read while waiting on a hop, with the time since its probe was
   sent: an ICMP error from a router, or a datagram that may be an echo reply.
   */
  datatype Msg =
    | Err(ip: string, number: int, rtt: int64)
    | Echo(ip: string, number: int, isReply: bool, rtt: int64)

  /** One turn of the waiting loop. A ready socket yields what its two queues hold until drained. */
  datatype Poll =
    | Expired
    | Interrupted
    | PollFailed
    | Silent
    | Ready(errors: seq<Msg>, replies: seq<Msg>)
  {
    predicate Valid() {
      Ready? ==> (forall m :: m in errors ==> m.Err?) && (forall m :: m in replies ==> m.Echo?)
    }

    predicate Ends() {
      Expired? || PollFailed? || Silent?
    }

    function Messages(): seq<Msg> {
      if Ready? then errors + replies else []
    }
  }

  datatype Hop = Hop(ttl: int, ip: string, rttMs: seq<real>, target: bool)

  // What a hop heard.

  /** Everything read before the wait ended. */
  function Heard(polls: seq<Poll>): seq<Msg> {
    HeardFrom(polls, 0)
  }

  function HeardFrom(polls: seq<Poll>, i: nat): seq<Msg>
    requires i <= |polls|
    decreases |polls| - i
  {
    if i == |polls| || polls[i].Ends() then [] else polls[i].Messages() + HeardFrom(polls, i + 1)
  }

  /** A wait hears the errors before the replies, goes on after an interruption, and ends when time is up, polling fails or nothing comes. */
  lemma HeardBy(errors: seq<Msg>, replies: seq<Msg>, polls: seq<Poll>)
    ensures Heard([]) == []
    ensures Heard([Ready(errors, replies)] + polls) == errors + replies + Heard(polls)
    ensures Heard([Interrupted] + polls) == Heard(polls)
    ensures Heard([Expired] + polls) == Heard([PollFailed] + polls) == Heard([Silent] + polls) == []
  {
    HeardShifted([Ready(errors, replies)], polls, 0);
    HeardShifted([Interrupted], polls, 0);
  }

  lemma {:induction false} HeardShifted(first: seq<Poll>, polls: seq<Poll>, i: nat)
    requires |first| == 1 && i <= |polls|
    ensures HeardFrom(first + polls, i + 1) == HeardFrom(polls, i)
    decreases |polls| - i
  {
    if i < |polls| {
      HeardShifted(first, polls, i + 1);
    }
  }

  /** m answers probe s: a router's error about it, or the target's reply to it. */
  predicate Answers(m: Msg, s: int) {
    m.number == s && (m.Echo? ==> m.isReply)
  }

  /** The first answer to probe s; later and duplicate ones do not matter. */
  function FirstAnswer(msgs: seq<Msg>, s: int): Option<Msg> {
    if msgs == [] then None
    else
      var n := |msgs| - 1;
      var before := FirstAnswer(msgs[..n], s);
      if before.Some? then before else if Answers(msgs[n], s) then Some(msgs[n]) else None
  }

  /** No message before i answers probe s: router errors and replies of the target do, other datagrams do not. */
  ghost predicate Unanswered(msgs: seq<Msg>, i: nat, s: int)
    requires i <= |msgs|
  {
    forall j :: 0 <= j < i ==> !(msgs[j].number == s && (msgs[j].Err? || msgs[j].isReply))
  }

  /** The answer to a probe is the first message that answers it. */
  lemma {:induction false} FirstAnswerAt(msgs: seq<Msg>, s: int)
    ensures FirstAnswer(msgs, s).None? <==> Unanswered(msgs, |msgs|, s)
    ensures FirstAnswer(msgs, s).Some? ==>
              exists i: nat :: i < |msgs| && msgs[i] == FirstAnswer(msgs, s).value && Unanswered(msgs, i, s)
                          && msgs[i].number == s && (msgs[i].Err? || msgs[i].isReply)
  {
    if msgs != [] {
      var n := |msgs| - 1;
      var init := msgs[..n];
      FirstAnswerAt(init, s);
      assert forall i: nat :: i <= n && Unanswered(init, i, s) ==> Unanswered(msgs, i, s);
      if FirstAnswer(init, s).Some? {
        var i: nat :| i < n && init[i] == FirstAnswer(init, s).value && Unanswered(init, i, s);
        assert msgs[i] == init[i];
      }
    }
  }

  function Answered(msgs: seq<Msg>, probes: set<int>): set<int> {
    set s | s in probes && FirstAnswer(msgs, s).Some?
  }

  /** The probes whose first answer came from the target itself. */
  function Arrived(msgs: seq<Msg>, probes: set<int>): set<int> {
    set s | s in probes && FirstAnswer(msgs, s).Some? && FirstAnswer(msgs, s).value.Echo?
  }

  /** The first answers to the probes, in the order they were read. */
  function Accepted(msgs: seq<Msg>, probes: set<int>): seq<Msg> {
    if msgs == [] then []
    else
      var n := |msgs| - 1;
      var m := msgs[n];
      Accepted(msgs[..n], probes)
      + if m.number in probes && Answers(m, m.number) && FirstAnswer(msgs[..n], m.number).None? then [m] else []
  }

  /** The message at i is the first answer to one of the probes. */
  ghost predicate FirstHere(msgs: seq<Msg>, probes: set<int>, i: nat) {
    && i < |msgs| && msgs[i].number in probes && (msgs[i].Err? || msgs[i].isReply)
    && Unanswered(msgs, i, msgs[i].number)
  }

  lemma FirstHereInit(msgs: seq<Msg>, probes: set<int>)
    requires msgs != []
    ensures var init := msgs[..|msgs| - 1];
            forall i: nat :: i < |init| ==> (FirstHere(init, probes, i) <==> FirstHere(msgs, probes, i))
  {
  }

  lemma FirstHereLast(msgs: seq<Msg>, probes: set<int>)
    requires msgs != []
    ensures var n := |msgs| - 1;
            Accepted(msgs, probes) == Accepted(msgs[..n], probes) + if FirstHere(msgs, probes, n) then [msgs[n]] else []
  {
    var n := |msgs| - 1;
    FirstAnswerAt(msgs[..n], msgs[n].number);
    assert Unanswered(msgs[..n], n, msgs[n].number) <==> Unanswered(msgs, n, msgs[n].number);
  }

  /** What is accepted, in the order it was read: the first answer to each of the probes. */
  lemma {:induction false} AcceptedAt(msgs: seq<Msg>, probes: set<int>) returns (at: seq<nat>)
    ensures |at| == |Accepted(msgs, probes)| && forall k :: 0 <= k < |at| ==> at[k] < |msgs| && msgs[at[k]] == Accepted(msgs, probes)[k]
    ensures forall j, k :: 0 <= j < k < |at| ==> at[j] < at[k]
    ensures forall i: nat :: i in at <==> FirstHere(msgs, probes, i)
  {
    at := [];
    if msgs != [] {
      var n := |msgs| - 1;
      at := AcceptedAt(msgs[..n], probes);
      FirstHereInit(msgs, probes);
      FirstHereLast(msgs, probes);
      if FirstHere(msgs, probes, n) {
        OnePlaceMore(at, n);
        at := at + [n];
      }
    }
  }

  function RttMs(ms: seq<Msg>): seq<real> {
    seq(|ms|, i requires 0 <= i < |ms| => Rtt.MsOf(ms[i].rtt))
  }

  function TargetRtts(ms: seq<Msg>): seq<int64> {
    if ms == [] then []
    else TargetRtts(ms[..|ms| - 1]) + if ms[|ms| - 1].Echo? then [ms[|ms| - 1].rtt] else []
  }

  /** The first address that was not empty. */
  function FirstIp(ms: seq<Msg>): string {
    if ms == [] then ""
    else if FirstIp(ms[..|ms| - 1]) != "" then FirstIp(ms[..|ms| - 1]) else ms[|ms| - 1].ip
  }

  /** What the hop and the final round-trip times record of the accepted answers. */
  ghost predicate Keeps(hop: Hop, finalRtts: seq<int64>, prior: seq<int64>, ms: seq<Msg>) {
    hop.rttMs == RttMs(ms) && hop.ip == FirstIp(ms) && finalRtts == prior + TargetRtts(ms)
  }

  lemma KeepsNext(hop: Hop, finalRtts: seq<int64>, prior: seq<int64>, ms: seq<Msg>, m: Msg)
    requires Keeps(hop, finalRtts, prior, ms)
    ensures Keeps(hop.(ip := if hop.ip == "" then m.ip else hop.ip, rttMs := hop.rttMs + [Rtt.MsOf(m.rtt)]),
                  if m.Echo? then finalRtts + [m.rtt] else finalRtts, prior, ms + [m])
  {
    assert (ms + [m])[..|ms|] == ms;
  }

  /** The state of a hop while it waits. */
  datatype Tally = Tally(hop: Hop, pending: set<int>, finalRtts: seq<int64>, reached: bool)

  /**
   The tally accounts for exactly the first answers among the messages, on top of
   the final round-trip times there were before.
   */
  ghost predicate Accounts(t: Tally, prior: seq<int64>, ttl: int, probes: set<int>, msgs: seq<Msg>) {
    && t.hop.ttl == ttl && !t.hop.target
    && Keeps(t.hop, t.finalRtts, prior, Accepted(msgs, probes))
    && t.pending == probes - Answered(msgs, probes)
    && |t.hop.rttMs| == |Answered(msgs, probes)|
    && |t.finalRtts| == |prior| + |Arrived(msgs, probes)|
    && (t.reached <==> Arrived(msgs, probes) != {})
  }

  lemma AnswerNext(msgs: seq<Msg>, m: Msg, probes: set<int>)
    ensures var s := m.number;
            var first := Answers(m, s) && s in probes - Answered(msgs, probes);
            && Answered(msgs + [m], probes) == (if first then Answered(msgs, probes) + {s} else Answered(msgs, probes))
            && Arrived(msgs + [m], probes) == (if first && m.Echo? then Arrived(msgs, probes) + {s} else Arrived(msgs, probes))
            && Arrived(msgs, probes) <= Answered(msgs, probes)
            && Accepted(msgs + [m], probes) == (if first then Accepted(msgs, probes) + [m] else Accepted(msgs, probes))
  {
    assert (msgs + [m])[..|msgs|] == msgs;
  }

  /** Takes in the first answer to one of this hop's probes. */
  function Taken(t: Tally, m: Msg): Tally {
    Tally(t.hop.(ip := if t.hop.ip == "" then m.ip else t.hop.ip, rttMs := t.hop.rttMs + [Rtt.MsOf(m.rtt)]),
          t.pending - {m.number},
          if m.Echo? then t.finalRtts + [m.rtt] else t.finalRtts,
          t.reached || m.Echo?)
  }

  lemma TakenAccounts(t: Tally, m: Msg, prior: seq<int64>, ttl: int, probes: set<int>, msgs: seq<Msg>)
    requires Accounts(t, prior, ttl, probes, msgs)
    requires Answers(m, m.number) && m.number in t.pending
    ensures Accounts(Taken(t, m), prior, ttl, probes, msgs + [m])
  {
    AnswerNext(msgs, m, probes);
    KeepsNext(t.hop, t.finalRtts, prior, Accepted(msgs, probes), m);
    OneFewer(probes, Answered(msgs, probes), m.number);
    assert m.number !in Arrived(msgs, probes);
  }

  lemma OneFewer(probes: set<int>, answered: set<int>, s: int)
    requires s in probes - answered
    ensures probes - answered - {s} == probes - (answered + {s})
    ensures |answered + {s}| == |answered| + 1
  {
  }

  /** Reads one message: anything but the first answer to one of this hop's probes is passed over. */
  method Read(t: Tally, m: Msg, ghost prior: seq<int64>, ghost ttl: int, ghost probes: set<int>, ghost msgs: seq<Msg>) returns (t': Tally)
    requires Accounts(t, prior, ttl, probes, msgs)
    ensures Accounts(t', prior, ttl, probes, msgs + [m])
  {
    t' := t;
    if (m.Echo? && !m.isReply) || m.number !in t.pending {
      AnswerNext(msgs, m, probes);
      return;
    }
    TakenAccounts(t, m, prior, ttl, probes, msgs);
    if t'.hop.ip == "" {
      t' := t'.(hop := t'.hop.(ip := m.ip));
    }
    t' := t'.(hop := t'.hop.(rttMs := t'.hop.rttMs + [Rtt.MsOf(m.rtt)]));
    if m.Echo? {
      t' := t'.(finalRtts := t'.finalRtts + [m.rtt], reached := true);
    }
    t' := t'.(pending := t'.pending - {m.number});
  }

  lemma OneMore<T>(a: seq<T>, b: seq<T>, i: nat)
    requires i < |b|
    ensures a + b[..i + 1] == a + b[..i] + [b[i]]
  {
  }

  method Drain(t: Tally, queue: seq<Msg>, ghost prior: seq<int64>, ghost ttl: int, ghost probes: set<int>, ghost msgs: seq<Msg>) returns (t': Tally)
    requires Accounts(t, prior, ttl, probes, msgs)
    ensures Accounts(t', prior, ttl, probes, msgs + queue)
  {
    t' := t;
    assert msgs + queue[..0] == msgs;
    for i := 0 to |queue|
      invariant Accounts(t', prior, ttl, probes, msgs + queue[..i])
    {
      t' := Read(t', queue[i], prior, ttl, probes, msgs + queue[..i]);
      OneMore(msgs, queue, i);
    }
    assert queue[..|queue|] == queue;
  }

  /** Once every probe is answered, what follows changes nothing. */
  lemma {:induction false} AllAnswered(msgs: seq<Msg>, more: seq<Msg>, probes: set<int>)
    requires Answered(msgs, probes) == probes
    ensures Answered(msgs + more, probes) == probes && Arrived(msgs + more, probes) == Arrived(msgs, probes)
    ensures Accepted(msgs + more, probes) == Accepted(msgs, probes)
  {
    if more == [] {
      assert msgs + more == msgs;
    } else {
      var n := |more| - 1;
      AllAnswered(msgs, more[..n], probes);
      assert msgs + more == msgs + more[..n] + [more[n]];
      AnswerNext(msgs + more[..n], more[n], probes);
    }
  }

  lemma NothingPending(t: Tally, prior: seq<int64>, ttl: int, probes: set<int>, msgs: seq<Msg>, more: seq<Msg>)
    requires Accounts(t, prior, ttl, probes, msgs) && t.pending == {}
    ensures Accounts(t, prior, ttl, probes, msgs + more)
  {
    assert Answered(msgs, probes) == probes;
    AllAnswered(msgs, more, probes);
  }

  /** One turn of the waiting loop: the error queue first, then the replies. */
  method TakeTurn(t: Tally, p: Poll, ghost prior: seq<int64>, ghost ttl: int, ghost probes: set<int>, ghost msgs: seq<Msg>) returns (t': Tally)
    requires Accounts(t, prior, ttl, probes, msgs)
    ensures Accounts(t', prior, ttl, probes, msgs + p.Messages())
  {
    if p.Ready? {
      t' := Drain(t, p.errors, prior, ttl, probes, msgs);
      t' := Drain(t', p.replies, prior, ttl, probes, msgs + p.errors);
      assert msgs + p.Messages() == msgs + p.errors + p.replies;
    } else {
      t' := t;
      assert msgs + p.Messages() == msgs;
    }
  }

  /** The messages read before turn i. */
  ghost predicate HeardBefore(msgs: seq<Msg>, polls: seq<Poll>, i: nat)
    requires i <= |polls|
  {
    Heard(polls) == msgs + HeardFrom(polls, i)
  }

  lemma HeardNext(msgs: seq<Msg>, polls: seq<Poll>, i: nat)
    requires i <= |polls| && HeardBefore(msgs, polls, i)
    ensures i == |polls| || polls[i].Ends() ==> Heard(polls) == msgs
    ensures i < |polls| && !polls[i].Ends() ==> HeardBefore(msgs + polls[i].Messages(), polls, i + 1)
  {
  }

  /** When the wait is over, or nothing is pending any more, everything heard has been accounted for. */
  lemma WaitOver(t: Tally, prior: seq<int64>, ttl: int, probes: set<int>, msgs: seq<Msg>, polls: seq<Poll>, i: nat)
    requires i <= |polls| && HeardBefore(msgs, polls, i) && Accounts(t, prior, ttl, probes, msgs)
    requires i == |polls| || polls[i].Ends() || t.pending == {}
    ensures Accounts(t, prior, ttl, probes, Heard(polls))
  {
    if t.pending == {} {
      NothingPending(t, prior, ttl, probes, msgs, HeardFrom(polls, i));
    } else {
      HeardNext(msgs, polls, i);
    }
  }

  lemma NothingHeard(prior: seq<int64>, ttl: int, probes: set<int>, polls: seq<Poll>)
    ensures Accounts(Tally(Hop(ttl, "", [], false), probes, prior, false), prior, ttl, probes, [])
    ensures HeardBefore([], polls, 0)
  {
    NoAnswers(probes);
    assert [] + HeardFrom(polls, 0) == HeardFrom(polls, 0);
  }

  /** TakeTurn, on turn i of the wait. */
  method NextTurn(t: Tally, polls: seq<Poll>, i: nat, ghost prior: seq<int64>, ghost ttl: int, ghost probes: set<int>, ghost msgs: seq<Msg>)
      returns (t': Tally, ghost msgs': seq<Msg>)
    requires i < |polls| && !polls[i].Ends() && HeardBefore(msgs, polls, i)
    requires Accounts(t, prior, ttl, probes, msgs)
    ensures Accounts(t', prior, ttl, probes, msgs') && HeardBefore(msgs', polls, i + 1)
  {
    HeardNext(msgs, polls, i);
    t' := TakeTurn(t, polls[i], prior, ttl, probes, msgs);
    msgs' := msgs + polls[i].Messages();
  }

  /** Waits on one hop until its probes are accounted for or the wait ends. */
  method CollectHop(prior: seq<int64>, ttl: int, probes: set<int>, polls: seq<Poll>) returns (t: Tally)
    requires forall p :: p in polls ==> p.Valid()
    ensures Accounts(t, prior, ttl, probes, Heard(polls))
  {
    t := Tally(Hop(ttl, "", [], false), probes, prior, false);
    var i := 0;
    ghost var msgs: seq<Msg> := [];
    NothingHeard(prior, ttl, probes, polls);
    while i < |polls| && t.pending != {}
      invariant i <= |polls|
      invariant Accounts(t, prior, ttl, probes, msgs)
      invariant HeardBefore(msgs, polls, i)
    {
      if polls[i].Ends() {
        WaitOver(t, prior, ttl, probes, msgs, polls, i);
        return;
      }
      t, msgs := NextTurn(t, polls, i, prior, ttl, probes, msgs);
      i := i + 1;
    }
    WaitOver(t, prior, ttl, probes, msgs, polls, i);
  }

  lemma NoAnswers(probes: set<int>)
    ensures Answered([], probes) == {} && Arrived([], probes) == {} && Accepted([], probes) == []
  {
  }

  // The route.

  /** What one TTL meets: whether the run is cut short before it, the TTL option refused, each probe sent, and the wait. */
  datatype Turn = Turn(cut: bool, refused: bool, sent: seq<bool>, polls: seq<Poll>) {
    predicate Valid() {
      |sent| == TRACE_PROBES && forall p :: p in polls ==> p.Valid()
    }
  }

  /** Probes are numbered on across hops, whether or not they could be sent. */
  function Probes(turn: Turn, ttl: int): set<int>
    requires turn.Valid()
  {
    set i | 0 <= i < TRACE_PROBES && turn.sent[i] :: TRACE_PROBES * (ttl - 1) + i + 1
  }

  /** The target's reply to one of this TTL's own probes comes before any router's error about it. */
  ghost predicate Reaches(turn: Turn, ttl: int)
    requires turn.Valid()
  {
    Arrived(Heard(turn.polls), Probes(turn, ttl)) != {}
  }

  datatype Trace = Trace(hops: seq<Hop>, finalSent: nat, finalRtts: seq<int64>, reached: bool)

  /** The shape of every route, complete or not. */
  ghost predicate Sane(tr: Trace) {
    && (forall i, j :: 0 <= i < j < |tr.hops| ==> tr.hops[i].ttl < tr.hops[j].ttl)
    && (forall i :: 0 <= i < |tr.hops| ==> 1 <= tr.hops[i].ttl <= TRACE_MAX_TTL && |tr.hops[i].rttMs| <= TRACE_PROBES)
    && (forall i :: 0 <= i < |tr.hops| ==> (tr.hops[i].target <==> tr.reached && i == |tr.hops| - 1))
    && (if tr.reached then tr.hops != [] && 1 <= |tr.finalRtts| <= tr.finalSent <= TRACE_PROBES
        else tr.finalRtts == [] && tr.finalSent == 0)
  }

  method SendProbes(turn: Turn, ttl: int, start: int) returns (pending: set<int>, number: int)
    requires turn.Valid() && start == TRACE_PROBES * (ttl - 1)
    ensures pending == Probes(turn, ttl)
    // The next three numbers, but for the probes that could not be sent.
    ensures forall s :: s in pending <==> start < s <= start + 3 && turn.sent[s - start - 1]
    ensures number == start + 3
  {
    pending, number := {}, start;
    for i := 0 to TRACE_PROBES
      invariant number == start + i
      invariant pending == set j | 0 <= j < i && turn.sent[j] :: TRACE_PROBES * (ttl - 1) + j + 1
    {
      number := number + 1;
      if turn.sent[i] {
        pending := pending + {number};
      }
    }
  }

  /** The probes of one TTL, by number. */
  lemma ProbeNumbers(turn: Turn, ttl: int)
    requires turn.Valid()
    ensures forall s :: s in Probes(turn, ttl) <==> 3 * (ttl - 1) < s <= 3 * ttl && turn.sent[s - 3 * (ttl - 1) - 1]
  {
    forall s
      ensures s in Probes(turn, ttl) <==> 3 * (ttl - 1) < s <= 3 * ttl && turn.sent[s - 3 * (ttl - 1) - 1]
    {
      if 3 * (ttl - 1) < s <= 3 * ttl && turn.sent[s - 3 * (ttl - 1) - 1] {
        var i := s - 3 * (ttl - 1) - 1;
        assert 0 <= i < TRACE_PROBES && turn.sent[i] && TRACE_PROBES * (ttl - 1) + i + 1 == s;
      }
    }
  }

  /** No number belongs to two TTLs, so a late answer to a probe of one hop is never recorded at another. */
  lemma NeverAtAnotherHop(turn: Turn, ttl: int, turn': Turn, ttl': int, m: Msg)
    requires turn.Valid() && turn'.Valid() && ttl != ttl'
    ensures Probes(turn, ttl) !! Probes(turn', ttl')
    ensures m.number in Probes(turn, ttl) ==> m !in Accepted(Heard(turn'.polls), Probes(turn', ttl'))
  {
    ProbeNumbers(turn, ttl);
    ProbeNumbers(turn', ttl');
    var msgs, probes := Heard(turn'.polls), Probes(turn', ttl');
    var at := AcceptedAt(msgs, probes);
    forall k | 0 <= k < |at|
      ensures Accepted(msgs, probes)[k].number in probes
    {
      assert at[k] in at && FirstHere(msgs, probes, at[k]);
    }
  }

  /** Where the route ends: the first TTL not probed, refused by the socket, or answered by the target. */
  function EndsAt(turns: seq<Turn>, k: nat): (end: nat)
    requires k <= |turns| && forall t :: t in turns ==> t.Valid()
    ensures k <= end <= |turns|
    decreases |turns| - k
  {
    if k == |turns| || turns[k].cut || turns[k].refused || Arrived(Heard(turns[k].polls), Probes(turns[k], k + 1)) != {} then k
    else EndsAt(turns, k + 1)
  }

  /** The route ends at the first TTL that is cut short, refused, or answered by the target. */
  lemma EndsAtFirst(turns: seq<Turn>, k: nat)
    requires k <= |turns| && forall t :: t in turns ==> t.Valid()
    ensures var end := EndsAt(turns, k);
            && (forall j :: k <= j < end ==> !turns[j].cut && !turns[j].refused && !ReachedAt(turns, j))
            && (end < |turns| ==> turns[end].cut || turns[end].refused || ReachedAt(turns, end))
    decreases |turns| - k
  {
    if EndsAt(turns, k) > k {
      EndsAtFirst(turns, k + 1);
    }
  }

  ghost predicate ReachedAt(turns: seq<Turn>, k: nat)
    requires forall t :: t in turns ==> t.Valid()
  {
    k < |turns| && !turns[k].cut && !turns[k].refused && Reaches(turns[k], k + 1)
  }

  /** The hop recorded for a TTL: one round-trip time for each probe answered, in order. */
  ghost predicate Records(hop: Hop, turns: seq<Turn>)
    requires forall t :: t in turns ==> t.Valid()
  {
    && 1 <= hop.ttl <= |turns|
    && var turn := turns[hop.ttl - 1];
       var probes := Probes(turn, hop.ttl);
       var ms := Accepted(Heard(turn.polls), probes);
       && probes != {} && hop.rttMs == RttMs(ms) && hop.ip == FirstIp(ms)
       && |hop.rttMs| == |Answered(Heard(turn.polls), probes)| <= |probes| <= TRACE_PROBES
  }

  lemma HopSizes(turn: Turn, ttl: int, msgs: seq<Msg>)
    requires turn.Valid()
    ensures var probes := Probes(turn, ttl);
            |Arrived(msgs, probes)| <= |Answered(msgs, probes)| <= |probes| <= TRACE_PROBES
  {
    var probes := Probes(turn, ttl);
    var start := TRACE_PROBES * (ttl - 1);
    SubsetSize(Arrived(msgs, probes), Answered(msgs, probes));
    SubsetSize(Answered(msgs, probes), probes);
    SubsetSize(probes, {start + 1, start + 2, start + 3});
  }

  lemma {:induction false} SubsetSize<T>(a: set<T>, b: set<T>)
    requires a <= b
    ensures |a| <= |b|
  {
    if a != {} {
      var x :| x in a;
      SubsetSize(a - {x}, b - {x});
    }
  }

  ghost predicate Lists(hops: seq<Hop>, ttl: int) {
    exists i :: 0 <= i < |hops| && hops[i].ttl == ttl
  }

  /** Every TTL up to k at which a probe could be sent has its hop. */
  ghost predicate Complete(hops: seq<Hop>, turns: seq<Turn>, k: nat)
    requires k <= |turns| && forall t :: t in turns ==> t.Valid()
  {
    forall j :: 0 <= j < k && Probes(turns[j], j + 1) != {} ==> Lists(hops, j + 1)
  }

  lemma ListsMore(hops: seq<Hop>, hop: Hop, turns: seq<Turn>, k: nat)
    requires k < |turns| && (forall t :: t in turns ==> t.Valid())
    requires Complete(hops, turns, k) && hop.ttl == k + 1
    ensures Complete(hops + [hop], turns, k + 1)
  {
    assert (hops + [hop])[|hops|].ttl == k + 1;
    forall j | 0 <= j < k && Probes(turns[j], j + 1) != {}
      ensures Lists(hops + [hop], j + 1)
    {
      assert Lists(hops, j + 1);
      var i :| 0 <= i < |hops| && hops[i].ttl == j + 1;
      assert (hops + [hop])[i].ttl == j + 1;
    }
  }

  /** The route so far, before TTL k + 1 is probed. */
  ghost predicate Underway(tr: Trace, turns: seq<Turn>, k: nat)
    requires k <= |turns| && forall t :: t in turns ==> t.Valid()
  {
    && Complete(tr.hops, turns, k)
    && !tr.reached && tr.finalRtts == [] && tr.finalSent == 0
    && (forall i, j :: 0 <= i < j < |tr.hops| ==> tr.hops[i].ttl < tr.hops[j].ttl)
    && (forall i :: 0 <= i < |tr.hops| ==> tr.hops[i].ttl <= k && !tr.hops[i].target && Records(tr.hops[i], turns))
  }

  /** The route once the target has answered at TTL k + 1. */
  ghost predicate Arrives(tr: Trace, turns: seq<Turn>, k: nat)
    requires k < |turns| && forall t :: t in turns ==> t.Valid()
  {
    && tr.reached && Complete(tr.hops, turns, k + 1)
    && (forall i, j :: 0 <= i < j < |tr.hops| ==> tr.hops[i].ttl < tr.hops[j].ttl)
    && (forall i :: 0 <= i < |tr.hops| ==> (tr.hops[i].target <==> i == |tr.hops| - 1) && Records(tr.hops[i], turns))
    && tr.hops != [] && tr.hops[|tr.hops| - 1].ttl == k + 1
    && tr.finalSent == |Probes(turns[k], k + 1)| <= TRACE_PROBES
    && tr.finalRtts == TargetRtts(Accepted(Heard(turns[k].polls), Probes(turns[k], k + 1)))
    && 1 <= |tr.finalRtts| == |Arrived(Heard(turns[k].polls), Probes(turns[k], k + 1))| <= tr.finalSent
  }

  /** What a hop's tally says about the hop at TTL k + 1. */
  lemma TallyRecords(prior: seq<int64>, t: Tally, hop: Hop, turns: seq<Turn>, k: nat)
    requires k < |turns| && (forall u :: u in turns ==> u.Valid()) && Probes(turns[k], k + 1) != {}
    requires Accounts(t, prior, k + 1, Probes(turns[k], k + 1), Heard(turns[k].polls))
    requires hop.ttl == t.hop.ttl && hop.rttMs == t.hop.rttMs && hop.ip == t.hop.ip
    ensures Records(hop, turns)
    ensures |t.finalRtts| - |prior| <= |Probes(turns[k], k + 1)| <= TRACE_PROBES
    ensures t.reached <==> |t.finalRtts| > |prior|
    ensures !t.reached ==> t.finalRtts == prior
  {
    HopSizes(turns[k], k + 1, Heard(turns[k].polls));
    assert |Arrived(Heard(turns[k].polls), Probes(turns[k], k + 1))| == 0 <==> !t.reached;
  }

  /** A hop added behind the others keeps the TTLs increasing and only itself possibly the target. */
  lemma HopsGrow(tr: Trace, hop: Hop, turns: seq<Turn>, k: nat)
    requires k < |turns| && (forall t :: t in turns ==> t.Valid()) && Underway(tr, turns, k)
    requires hop.ttl == k + 1 && Records(hop, turns)
    ensures var hops := tr.hops + [hop];
            && (forall i, j :: 0 <= i < j < |hops| ==> hops[i].ttl < hops[j].ttl)
            && (forall i :: 0 <= i < |hops| ==> hops[i].ttl <= k + 1 && Records(hops[i], turns))
            && (forall i :: 0 <= i < |tr.hops| ==> hops[i] == tr.hops[i] && !hops[i].target)
  {
  }

  /** Adds a hop to the route, and closes the route if the target answered. */
  method AddHop(tr: Trace, t: Tally, probesSent: nat, ghost turns: seq<Turn>, ghost k: nat) returns (tr': Trace)
    requires k < |turns| && (forall t :: t in turns ==> t.Valid()) && Underway(tr, turns, k)
    requires var probes := Probes(turns[k], k + 1);
             probes != {} && probesSent == |probes| && Accounts(t, tr.finalRtts, k + 1, probes, Heard(turns[k].polls))
    ensures if t.reached then Arrives(tr', turns, k) else Underway(tr', turns, k + 1)
  {
    var hop := if t.reached then t.hop.(target := true) else t.hop;
    TallyRecords(tr.finalRtts, t, hop, turns, k);
    ListsMore(tr.hops, hop, turns, k);
    HopsGrow(tr, hop, turns, k);
    var hops := tr.hops + [hop];
    if t.reached {
      tr' := Trace(hops, probesSent, t.finalRtts, true);
    } else {
      tr' := tr.(hops := hops, finalRtts := t.finalRtts);
    }
  }

  method Traceroute(turns: seq<Turn>) returns (tr: Trace, failed: bool)
    requires |turns| == TRACE_MAX_TTL && forall t :: t in turns ==> t.Valid()
    ensures var k := EndsAt(turns, 0);
            && (if ReachedAt(turns, k) then Arrives(tr, turns, k) else Underway(tr, turns, k))
            && (failed <==> k < |turns| && !turns[k].cut && turns[k].refused)
    ensures Sane(tr)
  {
    tr := Trace([], 0, [], false);
    failed := false;
    var number := 0;
    for k := 0 to TRACE_MAX_TTL
      invariant Underway(tr, turns, k) && !failed
      invariant number == TRACE_PROBES * k
      invariant EndsAt(turns, 0) == EndsAt(turns, k)
    {
      if turns[k].cut {
        return;
      }
      if turns[k].refused {
        return tr, true;
      }
      var pending: set<int>;
      pending, number := SendProbes(turns[k], k + 1, number);
      if pending == {} {
        NoProbes(tr, turns, k);
        continue;
      }
      var t := CollectHop(tr.finalRtts, k + 1, pending, turns[k].polls);
      tr := AddHop(tr, t, |pending|, turns, k);
      if t.reached {
        return;
      }
    }
  }

  lemma NoProbes(tr: Trace, turns: seq<Turn>, k: nat)
    requires k < |turns| && (forall t :: t in turns ==> t.Valid()) && Underway(tr, turns, k)
    requires Probes(turns[k], k + 1) == {}
    ensures Underway(tr, turns, k + 1)
  {
  }

  // The ping measurement made from the route.

  datatype Outcome = Pass | Fail | Timeout

  datatype Measurement = Measurement(sent: nat, received: nat, lossPct: real, stats: Option<Rtt.Stats>, outcome: Outcome)

  predicate IsLoss(pct: real, sent: nat, received: nat) {
    if sent == 0 then pct == 0.0 else pct * sent as real == (sent as real - received as real) * 100.0
  }

  method Loss(sent: nat, received: nat) returns (loss: real)
    requires received <= sent
    ensures 0.0 <= loss <= 100.0
    ensures IsLoss(loss, sent, received)
  {
    loss := 0.0;
    if sent > 0 {
      loss := (sent as real - received as real) / sent as real * 100.0;
      LossPercent(received as real, sent as real);
    }
  }

  lemma LossPercent(received: real, sent: real)
    requires 0.0 <= received <= sent && sent > 0.0
    ensures 0.0 <= (sent - received) / sent * 100.0 <= 100.0
    ensures (sent - received) / sent * 100.0 * sent == (sent - received) * 100.0
  {
    var q := (sent - received) / sent;
    assert q * sent == sent - received;
    Rtt.Scale(0.0, q, sent);
    Rtt.Scale(q, 1.0, sent);
  }

  /** The part of runPing that follows the traceroute; `late` says whether time has run out by then. */
  method Measure(tr: Trace, late: bool, sqrt: real -> real) returns (m: Measurement)
    requires Sane(tr)
    ensures m.received == |tr.finalRtts| <= m.sent == tr.finalSent <= TRACE_PROBES
    ensures 0.0 <= m.lossPct <= 100.0
    ensures IsLoss(m.lossPct, m.sent, m.received)
    // A route that reached its target always has round-trip times to report, and no other has.
    ensures m.outcome == Pass <==> tr.reached
    ensures m.stats.Some? <==> tr.reached
    ensures m.outcome == Timeout <==> !tr.reached && late
    ensures m.stats.Some? ==> var s := m.stats.value;
                              var xs := Rtt.Samples(tr.finalRtts);
                              && Rtt.Extremes(xs, s.lo, s.hi)
                              && Rtt.Describes(Rtt.SumsOf(xs, s.avg), s.avg, s.variance)
                              && s.stddev == sqrt(s.variance)
  {
    var sent, received := tr.finalSent, |tr.finalRtts|;
    var loss := Loss(sent, received);
    var stats := None;
    if received > 0 {
      var s := Rtt.RttStats(tr.finalRtts, sqrt);
      stats := Some(s);
    }
    var outcome := Fail;
    if tr.reached && received > 0 {
      outcome := Pass;
    } else if !tr.reached && late {
      outcome := Timeout;
    }
    m := Measurement(sent, received, loss, stats, outcome);
  }
}
