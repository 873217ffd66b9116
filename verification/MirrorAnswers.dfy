/** The transactions of a failover client, started while it is passive, active, or changing between the two. */
module MirrorAnswers {
  import opened Modbus
  import opened Mirror
  import Failover
  import RtuClient

  lemma {:induction false} RunSnoc(settings: Failover.Settings, s: State, events: seq<Event>, e: Event)
    ensures Run(settings, s, events + [e]) == Step(settings, Run(settings, s, events), e)
    decreases |events|
  {
    if events == [] {
      assert (events + [e])[1..] == [];
    } else {
      assert (events + [e])[1..] == events[1..] + [e];
      RunSnoc(settings, Step(settings, s, events[0]), events[1..], e);
    }
  }

  /** The channels of the transactions started, in order. */
  function Starts(events: seq<Event>): seq<RtuClient.Channel> {
    if events == [] then []
    else Starts(events[..|events| - 1]) + if events[|events| - 1].Start? then [events[|events| - 1].channel] else []
  }

  /** The channels answered, in order. */
  function Answered(answers: seq<Answer>): seq<RtuClient.Channel> {
    seq(|answers|, i requires 0 <= i < |answers| => answers[i].channel)
  }

  lemma AnsweredAdd(answers: seq<Answer>, a: Answer)
    ensures Answered(answers + [a]) == Answered(answers) + [a.channel]
  {}

  /** What a step makes of the transaction under way, or of the one it starts: still pending, answered, or lost. */
  predicate Concerns(before: State, after: State, channels: seq<RtuClient.Channel>) {
    match after.phase
    case Waiting(act) => Answered(after.answers) == Answered(before.answers) && channels == [act.channel]
    case Idle => Answered(after.answers) == Answered(before.answers) + channels
    case Stopped(_) => true
  }

  lemma BeginAnswers(settings: Failover.Settings, s: State, e: Event)
    requires s.phase.Idle? && e.Start?
    ensures var s' := Begin(settings, s, e);
            && Concerns(s, s', [e.channel])
            && (s'.phase.Stopped? ==> Answered(s'.answers) == Answered(s.answers) + [e.channel])
  {
    var s' := Begin(settings, s, e);
    if |s'.answers| > |s.answers| { AnsweredAdd(s.answers, s'.answers[|s.answers|]); }
  }

  lemma ReceiveAnswers(settings: Failover.Settings, s: State, e: Event)
    requires e.Heard? && !s.phase.Stopped?
    ensures var s' := Receive(settings, s, e.packet, e.taken, e.at);
            && Concerns(s, s', if s.phase.Waiting? then [s.phase.act.channel] else [])
            && (s'.phase.Stopped? ==> s'.answers == s.answers)
  {
    var s' := Receive(settings, s, e.packet, e.taken, e.at);
    if |s'.answers| > |s.answers| { AnsweredAdd(s.answers, s'.answers[|s.answers|]); }
  }

  lemma StepAnswers(settings: Failover.Settings, s: State, e: Event)
    requires !s.phase.Stopped?
    ensures var s', pending := Step(settings, s, e), if s.phase.Waiting? then [s.phase.act.channel] else [];
            && Concerns(s, s', if s.phase.Idle? && e.Start? then [e.channel] else pending)
            && (s'.phase.Stopped? ==>
                 Answered(s'.answers) == Answered(s.answers) + if e.Start? then (if s.phase.Idle? then [e.channel] else pending) else [])
            && (s.phase.Waiting? && e.Start? ==> s'.phase.Stopped?)
  {
    if e.Heard? {
      ReceiveAnswers(settings, s, e);
    } else if e.Start? && s.phase.Idle? {
      BeginAnswers(settings, s, e);
    } else if s.phase.Waiting? {
      AnsweredAdd(s.answers, Answer(s.phase.act.channel, Err(Other)));
    }
  }

  ghost predicate InOrder(events: seq<Event>, s: State) {
    match s.phase
    case Idle => Answered(s.answers) == Starts(events)
    case Waiting(act) => Answered(s.answers) + [act.channel] == Starts(events)
    case Stopped(_) => Answered(s.answers) <= Starts(events)
  }

  predicate IsFresh(s: State) { s.phase.Idle? && s.answers == [] }

  lemma StepInOrder(settings: Failover.Settings, events: seq<Event>, s: State, e: Event)
    requires InOrder(events, s)
    ensures InOrder(events + [e], Step(settings, s, e))
  {
    assert (events + [e])[..|events|] == events;
    if !s.phase.Stopped? { StepAnswers(settings, s, e); }
  }

  /**
   On every sequence of events, whatever the connection does meanwhile: whenever the loop is idle, each transaction started has
   been answered exactly once, in order; while it waits, exactly the last one has not; and after it ended, what was answered is
   still the beginning of what was started.
   */
  lemma {:induction false} AnsweredInOrder(settings: Failover.Settings, s: State, events: seq<Event>)
    requires IsFresh(s)
    ensures InOrder(events, Run(settings, s, events))
    decreases |events|
  {
    if events == [] {
      assert Answered([]) == [];
    } else {
      var n := |events| - 1;
      assert events == events[..n] + [events[n]];
      AnsweredInOrder(settings, s, events[..n]);
      StepInOrder(settings, events[..n], Run(settings, s, events[..n]), events[n]);
      RunSnoc(settings, s, events[..n], events[n]);
    }
  }

  /**
   When the loop ends: every transaction started has been answered exactly if it was idle. Otherwise one never is: the new one
   if it was started while another was pending, and the pending one if a read failed or brought a bad packet.
   */
  lemma EndsUnanswered(settings: Failover.Settings, s: State, events: seq<Event>, e: Event)
    requires IsFresh(s) && !Run(settings, s, events).phase.Stopped? && Run(settings, s, events + [e]).phase.Stopped?
    ensures var before, after := Run(settings, s, events), Run(settings, s, events + [e]);
            && (Answered(after.answers) == Starts(events + [e]) <==> before.phase.Idle?)
            && (before.phase.Waiting? ==>
                 Starts(events + [e]) == Answered(after.answers) + [if e.Start? then e.channel else before.phase.act.channel])
  {
    AnsweredInOrder(settings, s, events);
    RunSnoc(settings, s, events, e);
    StepAnswers(settings, Run(settings, s, events), e);
    assert (events + [e])[..|events|] == events;
  }
}
