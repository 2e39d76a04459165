/** RPC failover: requests share an active endpoint and a health flag, each read and written
    atomically (internal/chain/fallback.go). */
module Failover {
  import opened Modular
  import opened Records

  type Payload = string

  const MAX_PAYLOAD: nat := 1024 * 1024

  /** Where a request stands; the steps between are single atomic operations, probes or sends. */
  datatype Pc =
    | Begin
    | SawHealthy                                        // healthy was true; active not read yet
    | Fast(index: nat)                                  // about to send without probing
    | FastFailed                                        // healthy is still to be cleared
    | Starting(skip: nat)                               // active is still to be read
    | Probing(start: nat, skip: nat, offset: nat)
    | Sending(start: nat, skip: nat, offset: nat)
    | Publishing(start: nat, index: nat)
    | Healing
    | Done

  datatype Request = Request(payload: Payload, pc: Pc)

  datatype Sent = Sent(request: nat, endpoint: nat, payload: Payload)

  /** `targets`, `active` and `healthy` are the transport's; `probed` holds the endpoints that ever
      passed the chain-ID probe, `written` whether active was ever written, `sends` every payload
      transmitted. */
  datatype World = World(
    targets: nat, active: nat, healthy: bool, requests: seq<Request>,
    probed: set<nat>, written: bool, sends: seq<Sent>)

  datatype Answer = Good | Bad | Cancelled

  datatype Event =
    | Arrive(payload: Payload)
    | Step(request: nat, answer: Answer)

  function Target(n: nat, start: nat, skip: nat, offset: nat): (i: nat)
    requires n > 0
    ensures i < n
  {
    (start + skip + offset) % n
  }

  function At(w: World, r: nat, pc: Pc): World
    requires r < |w.requests|
  {
    w.(requests := w.requests[r := w.requests[r].(pc := pc)])
  }

  function Transmit(w: World, r: nat, endpoint: nat): World
    requires r < |w.requests|
  {
    w.(sends := w.sends + [Sent(r, endpoint, w.requests[r].payload)])
  }

  function StepRequest(w: World, r: nat, answer: Answer): World
    requires r < |w.requests| && w.targets > 0
  {
    match w.requests[r].pc
    case Begin => At(w, r, if w.healthy then SawHealthy else Starting(0))
    case SawHealthy => At(w, r, Fast(w.active % w.targets))
    case Fast(index) =>
      if answer == Cancelled then At(w, r, Done)
      else At(Transmit(w, r, index), r, if answer == Good then Done else FastFailed)
    case FastFailed => if answer == Cancelled then At(w, r, Done) else At(w.(healthy := false), r, Starting(1))
    case Starting(skip) => At(w, r, Probing(w.active, skip, 0))
    case Probing(start, skip, offset) =>
      var index := Target(w.targets, start, skip, offset);
      if answer == Cancelled || offset >= w.targets then At(w, r, Done)
      else if answer == Good then At(w.(probed := w.probed + {index}), r, Sending(start, skip, offset))
      else At(w, r, Probing(start, skip, offset + 1))
    case Sending(start, skip, offset) =>
      var index := Target(w.targets, start, skip, offset);
      At(Transmit(w, r, index), r, if answer == Good then Publishing(start, index) else Probing(start, skip, offset + 1))
    case Publishing(start, index) =>
      if index == start || w.active == start then At(w.(active := index, written := true), r, Healing)
      else At(w, r, Healing)
    case Healing => At(w.(healthy := true), r, Done)
    case Done => w
  }

  function Next(w: World, e: Event): World {
    match e
    case Arrive(payload) =>
      w.(requests := w.requests + [Request(payload, if |payload| > MAX_PAYLOAD then Done else Begin)])
    case Step(r, answer) => if r < |w.requests| && w.targets > 0 then StepRequest(w, r, answer) else w
  }

  function Run(w: World, events: seq<Event>): World {
    if events == [] then w else Next(Run(w, events[..|events|-1]), events[|events|-1])
  }

  function Start(targets: nat): World {
    World(targets, 0, false, [], {}, false, [])
  }

  // ---------------------------------------------------------------- invariant

  /** Active points at the first target until it is written, and from then on at a probed one; only
      then can healthy have been true. */
  predicate ActiveOk(w: World) {
    && (w.written ==> w.active in w.probed)
    && (!w.written ==> w.active == 0)
    && (w.healthy ==> w.written)
    && (forall i :: i in w.probed ==> i < w.targets)
  }

  predicate RequestOk(w: World, pc: Pc) {
    match pc
    case SawHealthy => w.written
    case Fast(index) => index in w.probed
    case Starting(skip) => skip <= 1
    case Probing(start, skip, offset) => skip <= 1 && offset <= w.targets && (!w.written ==> start == 0)
    case Sending(start, skip, offset) =>
      && skip <= 1 && offset < w.targets && (!w.written ==> start == 0)
      && Target(w.targets, start, skip, offset) in w.probed
    case Publishing(start, index) => index in w.probed && (!w.written ==> start == 0)
    case Healing => w.written
    case _ => true
  }

  function Count(sends: seq<Sent>, r: nat): nat {
    if sends == [] then 0
    else Count(sends[..|sends|-1], r) + (if sends[|sends|-1].request == r then 1 else 0)
  }

  /** How many sends a request may have made by now. */
  function Allowed(targets: nat, pc: Pc): nat {
    match pc
    case Begin => 0
    case SawHealthy => 0
    case Fast(_) => 0
    case FastFailed => 1
    case Starting(skip) => skip
    case Probing(_, skip, offset) => skip + offset
    case Sending(_, skip, offset) => skip + offset
    case _ => targets + 1
  }

  predicate SendsOk(w: World) {
    forall s :: s in w.sends ==>
      s.endpoint in w.probed && s.request < |w.requests| && s.payload == w.requests[s.request].payload
  }

  predicate Inv(w: World) {
    && ActiveOk(w)
    && (forall r :: 0 <= r < |w.requests| ==> RequestOk(w, w.requests[r].pc))
    && SendsOk(w)
    && (forall r :: 0 <= r < |w.requests| ==> Count(w.sends, r) <= Allowed(w.targets, w.requests[r].pc))
  }

  lemma CountSnoc(sends: seq<Sent>, s: Sent)
    ensures forall r :: Count(sends + [s], r) == Count(sends, r) + (if s.request == r then 1 else 0)
  {
    assert (sends + [s])[..|sends + [s]|-1] == sends;
  }

  lemma {:induction false} CountNone(sends: seq<Sent>, r: nat)
    requires forall s :: s in sends ==> s.request != r
    ensures Count(sends, r) == 0
  {
    if sends != [] {
      CountNone(sends[..|sends|-1], r);
    }
  }

  /** What no step takes back. */
  predicate Grows(w: World, w': World) {
    w'.targets == w.targets && w.probed <= w'.probed && (w.written ==> w'.written)
  }

  lemma RequestGrows(w: World, w': World, pc: Pc)
    requires Grows(w, w') && RequestOk(w, pc)
    ensures RequestOk(w', pc)
  {
  }

  /** One request moves on, possibly after one send. */
  lemma Advance(w: World, w': World, r: nat, pc: Pc, sent: seq<Sent>)
    requires Inv(w) && r < |w.requests| && Grows(w, w') && ActiveOk(w') && RequestOk(w', pc)
    requires w'.requests == w.requests[r := w.requests[r].(pc := pc)]
    requires w'.sends == w.sends + sent
    requires sent == [] || (|sent| == 1 && sent[0].request == r && sent[0].endpoint in w'.probed
      && sent[0].payload == w.requests[r].payload)
    requires Allowed(w.targets, w.requests[r].pc) + |sent| <= Allowed(w.targets, pc)
    ensures Inv(w')
  {
    hide Count, RequestOk, ActiveOk, Allowed;
    forall k | 0 <= k < |w'.requests| ensures RequestOk(w', w'.requests[k].pc) {
      if k != r {
        RequestGrows(w, w', w.requests[k].pc);
      }
    }
    if sent == [] {
      assert w'.sends == w.sends;
    } else {
      CountSnoc(w.sends, sent[0]);
      assert sent == [sent[0]];
    }
  }

  lemma StepInv(w: World, r: nat, answer: Answer)
    requires Inv(w) && r < |w.requests| && w.targets > 0
    ensures Inv(StepRequest(w, r, answer))
  {
    hide Count, Target;
    var pc, w' := w.requests[r].pc, StepRequest(w, r, answer);
    assert RequestOk(w, pc);
    if pc != Done {
      StepRequestOk(w, r, answer);
      var sent := if pc.Sending? then [Sent(r, Target(w.targets, pc.start, pc.skip, pc.offset), w.requests[r].payload)]
        else if pc.Fast? && answer != Cancelled then [Sent(r, pc.index, w.requests[r].payload)] else [];
      assert w.sends + [] == w.sends;
      Advance(w, w', r, w'.requests[r].pc, sent);
    }
  }

  lemma StepRequestOk(w: World, r: nat, answer: Answer)
    requires r < |w.requests| && w.targets > 0 && ActiveOk(w) && RequestOk(w, w.requests[r].pc)
    ensures var w' := StepRequest(w, r, answer);
      Grows(w, w') && ActiveOk(w') && RequestOk(w', w'.requests[r].pc)
  {
    hide Target, SendsOk;
    match w.requests[r].pc
    case SawHealthy => InRange(w.active, w.targets);
    case Probing(start, skip, offset) =>
    case Sending(start, skip, offset) =>
    case Publishing(start, index) =>
    case _ =>
  }

  lemma InRange(active: nat, n: nat)
    requires active < n
    ensures active % n == active
  {
  }

  lemma NextInv(w: World, e: Event)
    requires Inv(w)
    ensures Inv(Next(w, e))
  {
    match e {
      case Arrive(payload) =>
        CountNone(w.sends, |w.requests|);
      case Step(r, answer) =>
        if r < |w.requests| && w.targets > 0 {
          StepInv(w, r, answer);
        }
    }
  }

  lemma {:induction false} RunInv(targets: nat, events: seq<Event>)
    ensures Inv(Run(Start(targets), events))
    ensures Run(Start(targets), events).targets == targets
  {
    if events != [] {
      RunInv(targets, events[..|events|-1]);
      NextInv(Run(Start(targets), events[..|events|-1]), events[|events|-1]);
    }
  }

  /** In every interleaving of any number of requests: a payload goes only to an endpoint that passed
      the probe before, as the request brought it, and at most once per target plus once. */
  lemma PayloadsGoToProbedEndpoints(targets: nat, events: seq<Event>, e: Event)
    ensures var w, after := Run(Start(targets), events), Next(Run(Start(targets), events), e);
      && w.sends <= after.sends
      && forall s :: s in after.sends[|w.sends|..] ==>
        s.endpoint in w.probed && s.request < |w.requests| && s.payload == w.requests[s.request].payload
    ensures var w := Run(Start(targets), events);
      forall r :: 0 <= r < |w.requests| ==> Count(w.sends, r) <= targets + 1
  {
    hide Count, Run;
    RunInv(targets, events);
    var w := Run(Start(targets), events);
    forall r | 0 <= r < |w.requests| ensures Count(w.sends, r) <= targets + 1 {
      assert RequestOk(w, w.requests[r].pc);
    }
  }

  /** The k-th event of this run is a probe of this endpoint that passes, made by a request whose turn it is. */
  predicate PassesProbe(w0: World, events: seq<Event>, k: nat, endpoint: nat) {
    && k < |events| && events[k].Step? && events[k].answer == Good
    && var w, r := Run(w0, events[..k]), events[k].request;
       && r < |w.requests| && w.targets > 0 && w.requests[r].pc.Probing? && w.requests[r].pc.offset < w.targets
       && Target(w.targets, w.requests[r].pc.start, w.requests[r].pc.skip, w.requests[r].pc.offset) == endpoint
  }

  /** What counts as probed is what passed a probe, and only that. */
  lemma {:induction false} ProbedMeans(targets: nat, events: seq<Event>)
    ensures forall i :: i in Run(Start(targets), events).probed <==> exists k :: PassesProbe(Start(targets), events, k, i)
  {
    var w0 := Start(targets);
    if events != [] {
      var front, n := events[..|events|-1], |events| - 1;
      ProbedMeans(targets, front);
      ProbesBefore(w0, events);
      ProbedNext(w0, events);
      forall i ensures i in Run(w0, events).probed <==> exists k :: PassesProbe(w0, events, k, i) {
        if i in Run(w0, front).probed {
          var k :| PassesProbe(w0, front, k, i);
          assert PassesProbe(w0, events, k, i);
        }
        if exists k :: PassesProbe(w0, events, k, i) {
          var k :| PassesProbe(w0, events, k, i);
          assert k == n || PassesProbe(w0, front, k, i);
        }
      }
    }
  }

  lemma ProbesBefore(w0: World, events: seq<Event>)
    requires events != []
    ensures forall k, i :: 0 <= k < |events| - 1 ==>
      (PassesProbe(w0, events[..|events|-1], k, i) <==> PassesProbe(w0, events, k, i))
  {
    hide Run, Target;
    assert forall k :: 0 <= k < |events| - 1 ==> events[..|events|-1][..k] == events[..k];
  }

  lemma ProbedNext(w0: World, events: seq<Event>)
    requires events != []
    ensures forall i :: i in Run(w0, events).probed <==>
      i in Run(w0, events[..|events|-1]).probed || PassesProbe(w0, events, |events| - 1, i)
  {
    hide Target, Next;
    var w, e := Run(w0, events[..|events|-1]), events[|events|-1];
    assert Run(w0, events) == Next(w, e);
    hide Run;
    ProbedStep(w, e);
  }

  lemma ProbedStep(w: World, e: Event)
    ensures Next(w, e).probed == w.probed
      + if e.Step? && e.answer == Good && e.request < |w.requests| && w.targets > 0 && w.requests[e.request].pc.Probing?
           && w.requests[e.request].pc.offset < w.targets
        then var pc := w.requests[e.request].pc; {Target(w.targets, pc.start, pc.skip, pc.offset)} else {}
  {
    hide Target;
  }

  /** Once healthy has been true, active points at a probed endpoint. */
  lemma ActiveStaysProbed(targets: nat, events: seq<Event>, later: seq<Event>)
    requires Run(Start(targets), events).healthy
    ensures Run(Start(targets), events + later).active in Run(Start(targets), events + later).probed
  {
    RunInv(targets, events);
    RunInv(targets, events + later);
    hide Run, Inv, SendsOk, RequestOk, Count;
    assert Run(Start(targets), events).written by {
      HealthyWritten(Run(Start(targets), events));
    }
    HealthyWritten(Run(Start(targets), events + later));
    WrittenStays(Start(targets), events, later);
  }

  lemma HealthyWritten(w: World)
    ensures Inv(w) && w.healthy ==> w.written
    ensures Inv(w) && w.written ==> w.active in w.probed
  {
  }

  lemma {:induction false} WrittenStays(w: World, events: seq<Event>, later: seq<Event>)
    requires Run(w, events).written
    ensures Run(w, events + later).written
  {
    if later == [] {
      assert events + later == events;
    } else {
      assert (events + later)[..|events + later|-1] == events + later[..|later|-1];
      WrittenStays(w, events, later[..|later|-1]);
    }
  }

  // ---------------------------------------------------------------- the order of the tries

  /** How many endpoints after `from` this one comes up, going around. */
  function Distance(n: nat, from: nat, to: nat): (d: nat)
    requires from < n && to < n
    ensures d < n
  {
    if from <= to then to - from else to + n - from
  }

  /** Where a search begins: at the active endpoint, or just after it if that one has failed. */
  function First(n: nat, active: nat, failed: bool): (i: nat)
    requires active < n
    ensures i < n
  {
    if !failed then active else if active + 1 == n then 0 else active + 1
  }

  lemma TargetAt(n: nat, active: nat, failed: bool, k: nat)
    requires active < n && k < n
    ensures Distance(n, First(n, active, failed), Target(n, active, if failed then 1 else 0, k)) == k
  {
    var skip := if failed then 1 else 0;
    Around(n, active, skip % n);
    RemainderIs(n, 0, active);
    if active + skip == n {
      RemainderIs(n, 1, k);
    } else {
      Around(n, active + skip, k);
      RemainderIs(n, 0, active + skip);
    }
  }

  function Targets(n: nat, active: nat, skip: nat): set<nat>
    requires n > 0
  {
    set k | 0 <= k < n :: Target(n, active, skip, k)
  }

  /** The tries of a search are all different, and there is one at every endpoint. */
  lemma EveryTargetOnce(n: nat, active: nat, failed: bool)
    requires active < n
    ensures var skip := if failed then 1 else 0;
      && (forall j, k :: 0 <= j < k < n ==> Target(n, active, skip, j) != Target(n, active, skip, k))
      && (forall e :: 0 <= e < n ==> e in Targets(n, active, skip))
  {
    hide Target, Distance, First;
    var skip, first := if failed then 1 else 0, First(n, active, failed);
    forall j, k | 0 <= j < k < n ensures Target(n, active, skip, j) != Target(n, active, skip, k) {
      TargetAt(n, active, failed, j);
      TargetAt(n, active, failed, k);
    }
    forall e | 0 <= e < n ensures e in Targets(n, active, skip) {
      var k := Distance(n, first, e);
      TargetAt(n, active, failed, k);
      SameDistance(n, first, Target(n, active, skip, k), e);
    }
  }

  lemma SameDistance(n: nat, from: nat, a: nat, b: nat)
    requires from < n && a < n && b < n && Distance(n, from, a) == Distance(n, from, b)
    ensures a == b
  {
  }

  /** The endpoint is passed over: its probe fails, or the send after it. */
  predicate Fails(probe: nat -> Answer, send: nat -> bool, e: nat) {
    probe(e) == Bad || (probe(e) == Good && !send(e))
  }

  /** All the endpoints that come up in the first k turns are passed over. */
  predicate FailUpTo(n: nat, first: nat, k: nat, probe: nat -> Answer, send: nat -> bool)
    requires first < n
  {
    forall e :: 0 <= e < n && Distance(n, first, e) < k ==> Fails(probe, send, e)
  }

  /** A search is served by the first endpoint in turn that is not passed over; by none if there is no
      such endpoint, or if the request is found cancelled before. */
  ghost predicate SearchEnds(n: nat, first: nat, probe: nat -> Answer, send: nat -> bool, served: Option<nat>)
    requires first < n
  {
    match served
    case Some(e) => e < n && probe(e) == Good && send(e) && FailUpTo(n, first, Distance(n, first, e), probe, send)
    case None =>
      || (forall e :: 0 <= e < n ==> Fails(probe, send, e))
      || exists e :: 0 <= e < n && probe(e) == Cancelled && FailUpTo(n, first, Distance(n, first, e), probe, send)
  }

  lemma FailOneMore(n: nat, first: nat, index: nat, probe: nat -> Answer, send: nat -> bool)
    requires first < n && index < n && FailUpTo(n, first, Distance(n, first, index), probe, send)
    requires Fails(probe, send, index)
    ensures FailUpTo(n, first, Distance(n, first, index) + 1, probe, send)
  {
    hide Fails, Distance;
    forall e | 0 <= e < n && Distance(n, first, e) <= Distance(n, first, index) ensures Fails(probe, send, e) {
      if Distance(n, first, e) == Distance(n, first, index) {
        SameDistance(n, first, e, index);
      }
    }
  }

  lemma AllFail(n: nat, first: nat, probe: nat -> Answer, send: nat -> bool)
    requires first < n && FailUpTo(n, first, n, probe, send)
    ensures SearchEnds(n, first, probe, send, None)
  {
  }

  lemma FoundCancelled(n: nat, first: nat, e: nat, probe: nat -> Answer, send: nat -> bool)
    requires first < n && e < n && probe(e) == Cancelled && FailUpTo(n, first, Distance(n, first, e), probe, send)
    ensures SearchEnds(n, first, probe, send, None)
  {
    hide FailUpTo;
  }

  lemma FoundServing(n: nat, first: nat, e: nat, probe: nat -> Answer, send: nat -> bool)
    requires first < n && e < n && probe(e) == Good && send(e) && FailUpTo(n, first, Distance(n, first, e), probe, send)
    ensures SearchEnds(n, first, probe, send, Some(e))
  {
    hide FailUpTo;
  }

  lemma NoneYet(n: nat, first: nat, probe: nat -> Answer, send: nat -> bool)
    requires first < n
    ensures FailUpTo(n, first, 0, probe, send)
  {
  }

  // ---------------------------------------------------------------- one request undisturbed

  lemma RunSnoc(w: World, events: seq<Event>, e: Event)
    ensures Run(w, events + [e]) == Next(Run(w, events), e)
  {
    assert (events + [e])[..|events + [e]|-1] == events;
  }

  lemma RunNone(w: World)
    ensures Run(w, []) == w
  {
  }

  class FallbackTransport {
    const targets: nat
    var active: nat
    var healthy: bool
    var requests: nat
    var failures: nat
    var failovers: nat

    // what happened so far
    ghost var log: seq<Request>
    ghost var probed: set<nat>
    ghost var written: bool
    ghost var sends: seq<Sent>

    ghost function View(): World
      reads this
    {
      World(targets, active, healthy, log, probed, written, sends)
    }

    constructor (targets: nat)
      ensures View() == Start(targets) && requests == failures == failovers == 0
    {
      this.targets, active, healthy, requests, failures, failovers := targets, 0, false, 0, 0, 0;
      log, probed, written, sends := [], {}, false, [];
    }

    /** One atomic operation of request r, on the record of what happened. */
    ghost method Record(r: nat, answer: Answer, w0: World, events: seq<Event>) returns (more: seq<Event>)
      requires targets > 0 && r < |log| && View() == Run(w0, events)
      modifies this`log, this`probed, this`written, this`sends
      ensures var w := StepRequest(old(View()), r, answer);
        log == w.requests && probed == w.probed && written == w.written && sends == w.sends
      ensures more == events + [Step(r, answer)]
      ensures Run(w0, more) == StepRequest(old(View()), r, answer)
    {
      RunSnoc(w0, events, Step(r, answer));
      more := events + [Step(r, answer)];
      var w := StepRequest(View(), r, answer);
      log, probed, written, sends := w.requests, w.probed, w.written, w.sends;
    }

    /** `fast` is how the send to the active endpoint goes without a probe, `cancelled` whether the
        request is found cancelled when that has failed; `probe(e)` is how endpoint e takes the probe
        when its turn comes, or that the request is found cancelled then, and `send(e)` the send after
        it. The answer is the endpoint that served the request. */
    method RoundTrip(payload: Payload, fast: Answer, cancelled: bool, probe: nat -> Answer, send: nat -> bool)
      returns (served: Option<nat>, ghost events: seq<Event>)
      requires targets > 0 && Inv(View())
      modifies this
      ensures View() == Run(old(View()), events) && old(active) < targets
      ensures served.Some? ==> healthy && served.value == active && sends != [] && sends[|sends|-1].endpoint == active
      ensures served.None? ==> active == old(active)
      ensures |payload| > MAX_PAYLOAD ==> served == None && healthy == old(healthy) && sends == old(sends)
      ensures |payload| <= MAX_PAYLOAD && old(healthy) && fast == Good ==> served == Some(old(active))
      ensures |payload| <= MAX_PAYLOAD && old(healthy) && (fast == Cancelled || (fast == Bad && cancelled)) ==>
        served == None && healthy
      ensures |payload| <= MAX_PAYLOAD && (old(healthy) ==> fast == Bad && !cancelled) ==>
        && SearchEnds(targets, First(targets, old(active), old(healthy)), probe, send, served)
        && healthy == served.Some?
      ensures failovers == old(failovers) + (if active != old(active) then 1 else 0)
      ensures requests == old(requests) + 1 && failures == old(failures) + (if served.None? then 1 else 0)
    {
      hide Run, StepRequest, SearchEnds;
      ghost var w0, r := View(), |log|;
      requests := requests + 1;
      events := [];
      RunNone(w0);
      RunSnoc(w0, [], Arrive(payload));
      events := events + [Arrive(payload)];
      log := Next(w0, Arrive(payload)).requests;
      if |payload| > MAX_PAYLOAD {
        failures := failures + 1;
        return None, events;
      }
      var skip := 0;
      var wasHealthy := healthy;
      Looks(View(), r, healthy);
      events := Record(r, Good, w0, events);
      if wasHealthy {
        InRange(active, targets);
        var ended;
        ended, served, events := TryActive(r, payload, fast, cancelled, w0, events);
        if ended {
          return served, events;
        }
        skip := 1;
      }
      served, events := Search(r, payload, skip, probe, send, w0, events);
    }

    /** Sends to the active endpoint without probing it again. */
    method TryActive(ghost r: nat, payload: Payload, fast: Answer, cancelled: bool, ghost w0: World, ghost before: seq<Event>)
      returns (ended: bool, served: Option<nat>, ghost events: seq<Event>)
      requires targets > 0 && active < targets && healthy && r < |log| && log[r] == Request(payload, SawHealthy)
      requires View() == Run(w0, before)
      modifies this
      ensures View() == Run(w0, events) && ended == (fast != Bad || cancelled)
      ensures active == old(active) && failovers == old(failovers) && requests == old(requests)
      ensures served == if fast == Good then Some(active) else None
      ensures served.Some? ==> healthy && sends != [] && sends[|sends|-1].endpoint == active
      ensures failures == old(failures) + (if ended && fast != Good then 1 else 0)
      ensures !ended ==> |log| == |old(log)| && log[r] == Request(payload, Starting(1))
      ensures healthy == ended
    {
      hide Run, Next, Inv;
      InRange(active, targets);
      var index := active % targets;
      events := Record(r, Good, w0, before);
      events := Record(r, fast, w0, events);
      if fast == Good {
        return true, Some(index), events;
      }
      if fast == Cancelled {
        failures := failures + 1;
        return true, None, events;
      }
      events := Record(r, if cancelled then Cancelled else Bad, w0, events);
      if cancelled {
        failures := failures + 1;
        return true, None, events;
      }
      healthy := false;
      ended, served := false, None;
    }

    /** Probes the targets in turn, and serves from the first that answers. */
    method Search(ghost r: nat, payload: Payload, skip: nat, probe: nat -> Answer, send: nat -> bool,
      ghost w0: World, ghost before: seq<Event>) returns (served: Option<nat>, ghost events: seq<Event>)
      requires targets > 0 && active < targets && r < |log| && log[r] == Request(payload, Starting(skip))
      requires View() == Run(w0, before) && skip <= 1 && !healthy
      modifies this
      ensures View() == Run(w0, events)
      ensures SearchEnds(targets, First(targets, old(active), skip == 1), probe, send, served) && healthy == served.Some?
      ensures served.Some? ==> served.value == active && sends != [] && sends[|sends|-1].endpoint == active
      ensures served.None? ==> active == old(active)
      ensures failovers == old(failovers) + (if active != old(active) then 1 else 0)
      ensures requests == old(requests) && failures == old(failures) + (if served.None? then 1 else 0)
    {
      hide Run, Next, Inv, Target, StepRequest, SearchEnds, FailUpTo, First, Distance;
      var start := active;
      ghost var first := First(targets, start, skip == 1);
      NoneYet(targets, first, probe, send);
      Starts(View(), r, skip);
      events := Record(r, Good, w0, before);
      for offset := 0 to targets
        invariant View() == Run(w0, events)
        invariant r < |log| && log[r] == Request(payload, Probing(start, skip, offset))
        invariant active == start == old(active) && healthy == old(healthy)
        invariant failovers == old(failovers) && requests == old(requests) && failures == old(failures)
        invariant FailUpTo(targets, first, offset, probe, send)
      {
        var index := Target(targets, start, skip, offset);
        TargetAt(targets, start, skip == 1, offset);
        var answer := probe(index);
        if answer == Cancelled {
          FoundCancelled(targets, first, index, probe, send);
          Stops(View(), r, answer);
          events := Record(r, answer, w0, events);
          failures := failures + 1;
          return None, events;
        }
        var tried;
        tried, events := Try(r, payload, start, skip, offset, answer == Good, send(index), w0, events);
        if tried {
          FoundServing(targets, first, index, probe, send);
          return Some(active), events;
        }
        FailOneMore(targets, first, index, probe, send);
      }
      AllFail(targets, first, probe, send);
      Stops(View(), r, Bad);
      events := Record(r, Bad, w0, events);
      failures := failures + 1;
      served := None;
    }

    /** One turn of the loop: probe, send, and make the endpoint the active one. */
    method Try(ghost r: nat, payload: Payload, start: nat, skip: nat, offset: nat, probeOk: bool, sendOk: bool,
      ghost w0: World, ghost before: seq<Event>) returns (ok: bool, ghost events: seq<Event>)
      requires targets > 0 && active == start && offset < targets
      requires r < |log| && log[r] == Request(payload, Probing(start, skip, offset))
      requires View() == Run(w0, before)
      modifies this
      ensures View() == Run(w0, events) && ok == (probeOk && sendOk)
      ensures requests == old(requests) && failures == old(failures) && |log| == |old(log)|
      ensures ok ==> healthy && sends != [] && sends[|sends|-1].endpoint == active
      ensures ok ==> active == Target(targets, start, skip, offset)
      ensures ok ==> failovers == old(failovers) + (if active != start then 1 else 0)
      ensures !ok ==> active == start && healthy == old(healthy) && failovers == old(failovers)
      ensures !ok ==> log[r] == Request(payload, Probing(start, skip, offset + 1))
    {
      hide Run, Next, Inv, Target;
      var index := Target(targets, start, skip, offset);
      events := Record(r, if probeOk then Good else Bad, w0, before);
      if !probeOk {
        return false, events;
      }
      events := Record(r, if sendOk then Good else Bad, w0, events);
      if !sendOk {
        return false, events;
      }
      events := Publish(r, payload, start, index, w0, events);
      ok := true;
    }

    method Publish(ghost r: nat, payload: Payload, start: nat, index: nat, ghost w0: World, ghost before: seq<Event>)
      returns (ghost events: seq<Event>)
      requires targets > 0 && active == start && r < |log| && log[r] == Request(payload, Publishing(start, index))
      requires View() == Run(w0, before)
      modifies this
      ensures View() == Run(w0, events) && active == index && healthy
      ensures failovers == old(failovers) + (if index != start then 1 else 0)
      ensures requests == old(requests) && failures == old(failures) && |log| == |old(log)| && sends == old(sends)
    {
      hide Run, Next, Inv;
      events := Record(r, Good, w0, before);
      if index != start {
        failovers := failovers + 1;
      }
      active := index;
      events := Record(r, Good, w0, events);
      healthy := true;
    }
  }

  lemma Looks(w: World, r: nat, healthy: bool)
    requires r < |w.requests| && w.targets > 0 && w.requests[r].pc == Begin && w.healthy == healthy
    ensures StepRequest(w, r, Good) == At(w, r, if healthy then SawHealthy else Starting(0))
  {
  }

  lemma Starts(w: World, r: nat, skip: nat)
    requires r < |w.requests| && w.targets > 0 && w.requests[r].pc == Starting(skip)
    ensures StepRequest(w, r, Good) == At(w, r, Probing(w.active, skip, 0))
  {
  }

  lemma Stops(w: World, r: nat, answer: Answer)
    requires r < |w.requests| && w.targets > 0 && w.requests[r].pc.Probing?
    requires answer == Cancelled || w.requests[r].pc.offset >= w.targets
    ensures StepRequest(w, r, answer) == At(w, r, Done)
  {
  }
}
