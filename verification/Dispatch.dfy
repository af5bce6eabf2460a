/** Events on their way to Redis from any number of concurrent requests and processes. An event's
    listeners run concurrently, one for each registration, so the copies of different events may
    alternate in Redis's order, and a listener may fail, which loses its copy. */
module Dispatch {
  import opened Events
  import opened Publisher
  import opened Connections
  import opened Relay
  import FanOut

  /** One published event, and what has become of its copies so far. */
  datatype Publication = Publication(event: Event, registrations: nat, sent: nat, lost: nat)

  datatype Outbox = Outbox(publications: seq<Publication>, log: seq<Payload>)

  datatype Step =
    | Raise(event: Event, registrations: nat)   // a process publishes; how often it has the listener
    | SendCopy(i: nat)                          // one listener of publication i reaches Redis
    | LoseCopy(i: nat)                          // one listener of publication i raises

  predicate Underway(outbox: Outbox, i: nat) {
    i < |outbox.publications|
    && outbox.publications[i].sent + outbox.publications[i].lost < outbox.publications[i].registrations
  }

  /** One step; a listener that has run does not run again. */
  function Do(outbox: Outbox, step: Step): Outbox {
    var publications := outbox.publications;
    match step
    case Raise(e, n) => outbox.(publications := publications + [Publication(e, n, 0, 0)])
    case SendCopy(i) =>
      if !Underway(outbox, i) then outbox else
      var p := publications[i];
      Outbox(publications[i := p.(sent := p.sent + 1)], outbox.log + [Decoded(EnvelopeFor(p.event))])
    case LoseCopy(i) =>
      if !Underway(outbox, i) then outbox else
      outbox.(publications := publications[i := publications[i].(lost := publications[i].lost + 1)])
  }

  /** What any interleaving of publications and listeners leaves in Redis. */
  function Dispatched(steps: seq<Step>): Outbox {
    if steps == [] then Outbox([], []) else Do(Dispatched(steps[..|steps| - 1]), steps[|steps| - 1])
  }

  /** Every listener of every publication has run. */
  ghost predicate Settled(outbox: Outbox) {
    forall i :: 0 <= i < |outbox.publications| ==> !Underway(outbox, i)
  }

  /** A figure of the publications of one event, summed. */
  function SumOf(publications: seq<Publication>, e: Event, figure: Publication -> int): int {
    if publications == [] then 0 else
    var p := publications[|publications| - 1];
    SumOf(publications[..|publications| - 1], e, figure) + (if p.event == e then figure(p) else 0)
  }

  function Registrations(): Publication -> int { (p: Publication) => p.registrations }

  function CopiesSent(): Publication -> int { (p: Publication) => p.sent }

  function CopiesLost(): Publication -> int { (p: Publication) => p.lost }

  function Arrivals(log: seq<Payload>, e: Event): nat {
    multiset(log)[Decoded(EnvelopeFor(e))]
  }

  /** All of the log comes from listeners: nothing malformed, every message on its event's channels. */
  ghost predicate FromListeners(log: seq<Payload>) {
    forall i :: 0 <= i < |log| ==> log[i].Decoded? && log[i].envelope == EnvelopeFor(log[i].envelope.message)
  }

  lemma {:induction false} SumUpdate(publications: seq<Publication>, i: nat, p: Publication, e: Event,
                                     figure: Publication -> int)
    requires i < |publications| && p.event == publications[i].event
    ensures SumOf(publications[i := p], e, figure) == SumOf(publications, e, figure)
            + (if p.event == e then figure(p) - figure(publications[i]) else 0)
  {
    var n := |publications| - 1;
    if i == n {
      assert publications[i := p][..n] == publications[..n];
    } else {
      assert publications[i := p][..n] == publications[..n][i := p];
      SumUpdate(publications[..n], i, p, e, figure);
    }
  }

  lemma SumSnoc(publications: seq<Publication>, p: Publication, e: Event, figure: Publication -> int)
    ensures SumOf(publications + [p], e, figure)
            == SumOf(publications, e, figure) + (if p.event == e then figure(p) else 0)
  {
    assert (publications + [p])[..|publications|] == publications;
  }

  /** One step adds to the log what it adds to the copies sent. */
  lemma StepCounts(outbox: Outbox, step: Step, e: Event)
    requires FromListeners(outbox.log)
    ensures var next := Do(outbox, step);
      && FromListeners(next.log)
      && Arrivals(next.log, e) - Arrivals(outbox.log, e)
         == SumOf(next.publications, e, CopiesSent()) - SumOf(outbox.publications, e, CopiesSent())
  {
    hide SumOf, ChannelsFor;
    match step
    case Raise(f, n) => SumSnoc(outbox.publications, Publication(f, n, 0, 0), e, CopiesSent());
    case SendCopy(i) =>
      if Underway(outbox, i) {
        var p := outbox.publications[i];
        SumUpdate(outbox.publications, i, p.(sent := p.sent + 1), e, CopiesSent());
      }
    case LoseCopy(i) =>
      if Underway(outbox, i) {
        var p := outbox.publications[i];
        SumUpdate(outbox.publications, i, p.(lost := p.lost + 1), e, CopiesSent());
      }
  }

  /** Whatever the interleaving, Redis has as many copies of an event as were sent. */
  lemma {:induction false} LogCounts(steps: seq<Step>, e: Event)
    ensures var outbox := Dispatched(steps);
      FromListeners(outbox.log) && Arrivals(outbox.log, e) == SumOf(outbox.publications, e, CopiesSent())
  {
    hide Do, Arrivals;
    if steps == [] {
      NothingArrived(e);
    } else {
      LogCounts(steps[..|steps| - 1], e);
      StepCounts(Dispatched(steps[..|steps| - 1]), steps[|steps| - 1], e);
    }
  }

  lemma NothingArrived(e: Event)
    ensures Arrivals([], e) == 0
  {
  }

  ghost predicate NoneTwice(outbox: Outbox) {
    forall i :: 0 <= i < |outbox.publications| ==>
      outbox.publications[i].sent + outbox.publications[i].lost <= outbox.publications[i].registrations
  }

  lemma {:induction false} ListenersRunOnce(steps: seq<Step>)
    ensures NoneTwice(Dispatched(steps))
  {
    if steps != [] {
      ListenersRunOnce(steps[..|steps| - 1]);
    }
  }

  lemma {:induction false} SettledCounts(publications: seq<Publication>, e: Event)
    requires forall i :: 0 <= i < |publications| ==>
               publications[i].sent + publications[i].lost == publications[i].registrations
    ensures SumOf(publications, e, CopiesSent())
            == SumOf(publications, e, Registrations()) - SumOf(publications, e, CopiesLost())
  {
    if publications != [] {
      SettledCounts(publications[..|publications| - 1], e);
    }
  }

  /** When all listeners have run, every copy is in the log but for those lost. */
  lemma SettledLog(steps: seq<Step>, e: Event)
    requires Settled(Dispatched(steps))
    ensures var outbox := Dispatched(steps);
      && FromListeners(outbox.log)
      && Arrivals(outbox.log, e)
         == SumOf(outbox.publications, e, Registrations()) - SumOf(outbox.publications, e, CopiesLost())
  {
    hide Dispatched, Arrivals;
    LogCounts(steps, e);
    ListenersRunOnce(steps);
    var outbox := Dispatched(steps);
    forall i | 0 <= i < |outbox.publications|
      ensures outbox.publications[i].sent + outbox.publications[i].lost == outbox.publications[i].registrations
    {
      assert !Underway(outbox, i);
    }
    SettledCounts(outbox.publications, e);
  }

  /** The copies of an event that were asked for: one for each registration at each publication. */
  function RaisedIn(steps: seq<Step>, e: Event): nat {
    if steps == [] then 0 else
    var step := steps[|steps| - 1];
    RaisedIn(steps[..|steps| - 1], e) + (if step.Raise? && step.event == e then step.registrations else 0)
  }

  lemma RaiseCounts(outbox: Outbox, step: Step, e: Event)
    ensures SumOf(Do(outbox, step).publications, e, Registrations())
            == SumOf(outbox.publications, e, Registrations())
               + (if step.Raise? && step.event == e then step.registrations else 0)
    ensures !step.LoseCopy? ==> SumOf(Do(outbox, step).publications, e, CopiesLost())
                                == SumOf(outbox.publications, e, CopiesLost())
    ensures step.LoseCopy? && Underway(outbox, step.i) && outbox.publications[step.i].event == e ==>
              SumOf(Do(outbox, step).publications, e, CopiesLost())
              == SumOf(outbox.publications, e, CopiesLost()) + 1
  {
    hide SumOf;
    var publications := outbox.publications;
    match step
    case Raise(f, n) =>
      SumSnoc(publications, Publication(f, n, 0, 0), e, Registrations());
      SumSnoc(publications, Publication(f, n, 0, 0), e, CopiesLost());
    case SendCopy(i) =>
      if Underway(outbox, i) {
        SumUpdate(publications, i, publications[i].(sent := publications[i].sent + 1), e, Registrations());
        SumUpdate(publications, i, publications[i].(sent := publications[i].sent + 1), e, CopiesLost());
      }
    case LoseCopy(i) =>
      if Underway(outbox, i) {
        SumUpdate(publications, i, publications[i].(lost := publications[i].lost + 1), e, Registrations());
        SumUpdate(publications, i, publications[i].(lost := publications[i].lost + 1), e, CopiesLost());
      }
  }

  /** The publications are those raised, and no copy is lost unless a listener fails. */
  lemma {:induction false} PublicationsAreRaised(steps: seq<Step>, e: Event)
    ensures var publications := Dispatched(steps).publications;
      && SumOf(publications, e, Registrations()) == RaisedIn(steps, e)
      && ((forall step :: step in steps ==> !step.LoseCopy?) ==> SumOf(publications, e, CopiesLost()) == 0)
  {
    hide Do;
    if steps != [] {
      assert steps[|steps| - 1] in steps;
      PublicationsAreRaised(steps[..|steps| - 1], e);
      RaiseCounts(Dispatched(steps[..|steps| - 1]), steps[|steps| - 1], e);
    }
  }

  function StillToRun(publications: seq<Publication>): nat {
    if publications == [] then 0 else
    var p := publications[|publications| - 1];
    StillToRun(publications[..|publications| - 1])
    + (if p.sent + p.lost < p.registrations then p.registrations - p.sent - p.lost else 0)
  }

  lemma {:induction false} OneLess(publications: seq<Publication>, i: nat)
    requires i < |publications|
    requires publications[i].sent + publications[i].lost < publications[i].registrations
    ensures StillToRun(publications[i := publications[i].(sent := publications[i].sent + 1)])
            < StillToRun(publications)
  {
    var n, p := |publications| - 1, publications[i].(sent := publications[i].sent + 1);
    if i == n {
      assert publications[i := p][..n] == publications[..n];
    } else {
      assert publications[i := p][..n] == publications[..n][i := p];
      OneLess(publications[..n], i);
    }
  }

  lemma OneMoreSent(steps: seq<Step>, i: nat)
    requires Underway(Dispatched(steps), i)
    ensures StillToRun(Dispatched(steps + [SendCopy(i)]).publications) < StillToRun(Dispatched(steps).publications)
  {
    hide StillToRun;
    assert (steps + [SendCopy(i)])[..|steps|] == steps;
    OneLess(Dispatched(steps).publications, i);
  }

  /** Whatever has happened so far, letting the remaining listeners run settles everything. */
  lemma {:induction false} CanSettle(steps: seq<Step>) returns (more: seq<Step>)
    ensures Settled(Dispatched(steps + more)) && forall step :: step in more ==> step.SendCopy?
    decreases StillToRun(Dispatched(steps).publications)
  {
    hide Dispatched, StillToRun;
    if Settled(Dispatched(steps)) {
      more := [];
      assert steps + more == steps;
    } else {
      var i :| 0 <= i < |Dispatched(steps).publications| && Underway(Dispatched(steps), i);
      OneMoreSent(steps, i);
      var rest := CanSettle(steps + [SendCopy(i)]);
      more := [SendCopy(i)] + rest;
      assert steps + more == steps + [SendCopy(i)] + rest;
    }
  }

  lemma HeardCounts(payload: Payload, channel: string, e: Event)
    requires FromListeners([payload])
    ensures multiset(Heard(payload, channel))[e]
            == if Hears(channel, ChannelsFor(e)) && payload == Decoded(EnvelopeFor(e)) then 1 else 0
  {
    hide ChannelsFor, Hears;
    assert [payload][0] == payload;
  }

  /** A channel hears all arrivals of an event that concerns it and none of any other. */
  lemma {:induction false} RelevantCounts(log: seq<Payload>, channel: string, e: Event)
    requires FromListeners(log)
    ensures multiset(Relevant(log, channel))[e] == if Hears(channel, ChannelsFor(e)) then Arrivals(log, e) else 0
  {
    hide ChannelsFor, Hears, Heard, EnvelopeFor;
    if log != [] {
      var n := |log| - 1;
      assert forall i | 0 <= i < n :: log[..n][i] == log[i];
      RelevantCounts(log[..n], channel, e);
      HeardCounts(log[n], channel, e);
      assert log == log[..n] + [log[n]];
      assert multiset(Relevant(log, channel))
          == multiset(Relevant(log[..n], channel)) + multiset(Heard(log[n], channel));
    }
  }

  /** From domain events to a client, in any interleaving and with any failures: once all
      listeners have run and its process has caught up, a client has got as many copies of each
      event that concerns its channel as there were registrations, but for those lost, and no copy
      of any other event. The processes need not have the listener registered equally often. */
  lemma EveryCopyArrives(run: seq<FanOut.Action>, c: Conn, steps: seq<Step>, e: Event)
    requires FanOut.CaughtUp(FanOut.Exec(FanOut.START, run), c) && Settled(Dispatched(steps))
    requires var net := FanOut.Exec(FanOut.START, run);
      net.clients[c].joined <= |net.log| && net.log[net.clients[c].joined..] == Dispatched(steps).log
    ensures var net, publications := FanOut.Exec(FanOut.START, run), Dispatched(steps).publications;
      multiset(Activities(FanOut.InboxOf(net, c)))[e]
      == if Hears(net.clients[c].channel, ChannelsFor(e))
         then RaisedIn(steps, e) - SumOf(publications, e, CopiesLost()) else 0
  {
    hide FanOut.Exec, Dispatched, Activities, Relevant, Hears, ChannelsFor, Arrivals, SumOf, RaisedIn;
    PublicationsAreRaised(steps, e);
    FanOut.DeliveryComplete(run, c);
    SettledLog(steps, e);
    RelevantCounts(Dispatched(steps).log, FanOut.Exec(FanOut.START, run).clients[c].channel, e);
  }
}
