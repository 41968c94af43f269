/** The show sequencer of the current server generation
    (`server/src/sequencer/mod.rs`, with the shapes of
    `sequence_parser.rs`). It holds the remaining steps of the show in
    order, plays the next step when asked, runs on through steps that carry
    a duration, and can replay the step last triggered by hand. Each action
    goes to the one service that performs it. */
module Sequencer {
  import opened Wrappers
  import opened LamarrsUtils
  import opened ActionMessages
  import opened ExchangeMessages
  import opened Services

  /** One step of the show. A step with a duration hands over to the next
      step once the duration has passed; the duration itself (a wait) is
      not modelled, only whether there is one. */
  datatype SequenceStep = SequenceStep(
    name: string,
    action: DeclaredAction,
    targetLocation: Option<RelativeLocation>,
    duration: Option<nat>)

  /** A show as loaded from its file. */
  datatype Sequence = Sequence(version: U8, sequence: seq<SequenceStep>)

  /** The sequencer's state: the steps still to play and the step last
      triggered by hand. */
  datatype SequencerState = SequencerState(queue: seq<SequenceStep>, lastPlayed: Option<SequenceStep>)

  /** `Sequencer::new` with the loaded show: nothing played yet. */
  function Start(show: Sequence): (s: SequencerState)
    ensures s.queue == show.sequence && s.lastPlayed.None?
  {
    SequencerState(show.sequence, None)
  }

  /** A message to one of the services. */
  datatype Dispatched = Dispatched(service: ServiceKind, event: InternalEventMessageServer)

  /** `dispatch_action_to_perform`: the step's action and target location
      go, unchanged, to the service of the action's kind. */
  function Dispatch(step: SequenceStep): (d: Dispatched)
    ensures d.event == InternalEventMessageServer.PerformAction(step.action, step.targetLocation)
    ensures forall k :: ActionIsAllowed(k, step.action) <==> k == d.service
    ensures d.service != MidiService
  {
    match step.action
    case ShowNewSubtitles(_) => Dispatched(SubtitleService, InternalEventMessageServer.PerformAction(step.action, step.targetLocation))
    case ChangeColour(_) => Dispatched(ColourService, InternalEventMessageServer.PerformAction(step.action, step.targetLocation))
    case PlayAudio(_) => Dispatched(PlaybackService, InternalEventMessageServer.PerformAction(step.action, step.targetLocation))
  }

  /** The dispatch of each step, in order. */
  function DispatchAll(steps: seq<SequenceStep>): (r: seq<Dispatched>)
    ensures |r| == |steps|
    ensures forall i :: 0 <= i < |steps| ==> r[i] == Dispatch(steps[i])
  {
    seq(|steps|, i requires 0 <= i < |steps| => Dispatch(steps[i]))
  }

  /** The steps played from one `NextScene`, and the queue left after. */
  datatype Played = Played(dispatched: seq<SequenceStep>, rest: seq<SequenceStep>)

  /** The chain of steps one `NextScene` plays, as evidently intended:
      starting from `step`, each step with a duration is followed by the
      next one in the queue, until a step without a duration, or until the
      queue runs out, ends the chain. Every step is played exactly once. */
  function PlayChain(step: SequenceStep, queue: seq<SequenceStep>): (r: Played)
    ensures |r.dispatched| >= 1 && r.dispatched[0] == step
    ensures r.dispatched + r.rest == [step] + queue
    ensures forall i :: 0 <= i < |r.dispatched| - 1 ==> r.dispatched[i].duration.Some?
    ensures Last(r.dispatched).duration.None? || r.rest == []
    decreases |queue|
  {
    if step.duration.None? || queue == [] then Played([step], queue)
    else
      var next := PlayChain(queue[0], queue[1..]);
      assert [queue[0]] + queue[1..] == queue;
      Played([step] + next.dispatched, next.rest)
  }

  function Last<T>(s: seq<T>): T
    requires |s| > 0
  {
    s[|s| - 1]
  }

  /** The chain is determined by where the first step without a duration
      sits: it is every step up to and including that one. */
  lemma {:induction false} PlayChainUpToUntimed(step: SequenceStep, queue: seq<SequenceStep>, n: nat)
    requires n < |[step] + queue|
    requires ([step] + queue)[n].duration.None?
    requires forall i :: 0 <= i < n ==> ([step] + queue)[i].duration.Some?
    ensures PlayChain(step, queue).dispatched == ([step] + queue)[..n + 1]
    ensures PlayChain(step, queue).rest == ([step] + queue)[n + 1..]
    decreases |queue|
  {
    var all := [step] + queue;
    if n == 0 {
      assert all[0] == step;
      assert all[..1] == [step] && all[1..] == queue;
    } else {
      assert all[0] == step && step.duration.Some?;
      assert queue != [];
      var tail := [queue[0]] + queue[1..];
      assert tail == queue == all[1..];
      forall i | 0 <= i < n - 1
        ensures tail[i].duration.Some?
      {
        assert tail[i] == all[i + 1];
      }
      assert tail[n - 1] == all[n];
      PlayChainUpToUntimed(queue[0], queue[1..], n - 1);
      assert all[..n + 1] == [step] + tail[..n];
      assert all[n + 1..] == tail[n..];
    }
  }

  /** What the sequencer emits for one message. */
  datatype SequencerStepped = SequencerStepped(state: SequencerState, out: seq<Dispatched>)

  /** One message of `Sequencer::run`. `NextScene` takes the front step,
      records it as the step last triggered by hand and plays its chain;
      on an empty queue nothing happens. `RetriggerScene` replays the
      recorded step, if any. Every other message is discarded. */
  function SequencerStep(s: SequencerState, m: ExchangeMessage): (r: SequencerStepped)
    ensures m.NextScene? && s.queue == [] ==> r == SequencerStepped(s, [])
    ensures m.NextScene? && s.queue != [] ==>
      && r.state.lastPlayed == Some(s.queue[0])
      && |r.out| >= 1 && r.out[0] == Dispatch(s.queue[0])
      && |r.out| + |r.state.queue| == |s.queue|
      && r.state.queue == s.queue[|r.out|..]
      && r.out == DispatchAll(s.queue[..|r.out|])
    ensures m.RetriggerScene? ==>
      && r.state == s
      && r.out == (if s.lastPlayed.Some? then [Dispatch(s.lastPlayed.value)] else [])
    ensures !m.NextScene? && !m.RetriggerScene? ==> r == SequencerStepped(s, [])
  {
    match m
    case NextScene =>
      if s.queue == [] then SequencerStepped(s, [])
      else
        var step := s.queue[0];
        var played := PlayChain(step, s.queue[1..]);
        assert [step] + s.queue[1..] == s.queue;
        assert played.dispatched == s.queue[..|played.dispatched|];
        SequencerStepped(SequencerState(played.rest, Some(step)), DispatchAll(played.dispatched))
    case RetriggerScene =>
      SequencerStepped(s, if s.lastPlayed.Some? then [Dispatch(s.lastPlayed.value)] else [])
    case _ => SequencerStepped(s, [])
  }

  /** A step without a duration at the front of the queue is played alone,
      exactly once. */
  lemma UntimedStepPlaysOnce(s: SequencerState)
    requires s.queue != [] && s.queue[0].duration.None?
    ensures SequencerStep(s, NextScene).out == [Dispatch(s.queue[0])]
    ensures SequencerStep(s, NextScene).state.queue == s.queue[1..]
  {
  }

  /** Timed steps run on in queue order up to the first step without a
      duration, which is played last; the queue keeps what follows. */
  lemma NextScenePlaysUpToUntimed(s: SequencerState, n: nat)
    requires n < |s.queue| && s.queue[n].duration.None?
    requires forall i :: 0 <= i < n ==> s.queue[i].duration.Some?
    ensures SequencerStep(s, NextScene).out == DispatchAll(s.queue[..n + 1])
    ensures SequencerStep(s, NextScene).state.queue == s.queue[n + 1..]
  {
    assert [s.queue[0]] + s.queue[1..] == s.queue;
    PlayChainUpToUntimed(s.queue[0], s.queue[1..], n);
  }

  /** After `NextScene`, `RetriggerScene` replays the step triggered by
      hand, not the last step of its chain. */
  lemma RetriggerReplaysTriggeredStep(s: SequencerState)
    requires s.queue != []
    ensures var after := SequencerStep(s, NextScene).state;
            SequencerStep(after, RetriggerScene).out == [Dispatch(s.queue[0])]
  {
  }

  /** The chain of one `NextScene` as the loop is written: while the
      current step has a duration it is dispatched and the next step is
      taken from the queue, but when the queue is empty the current step
      stays, still with its duration, and is dispatched again on the next
      turn. `fuel` bounds the number of turns; `finished` says whether the
      loop ended within it. */
  datatype Looped = Looped(dispatched: seq<SequenceStep>, rest: seq<SequenceStep>, finished: bool)

  function PlayChainAsWritten(step: SequenceStep, queue: seq<SequenceStep>, fuel: nat): (r: Looped)
    ensures r.finished ==> |r.dispatched| >= 1 && Last(r.dispatched).duration.None?
    decreases fuel
  {
    if step.duration.None? then Looped([step], queue, true)
    else if fuel == 0 then Looped([], queue, false)
    else
      var next := if queue == [] then PlayChainAsWritten(step, [], fuel - 1)
                  else PlayChainAsWritten(queue[0], queue[1..], fuel - 1);
      Looped([step] + next.dispatched, next.rest, next.finished)
  }

  /** When the queue runs out under a step with a duration, the loop never
      ends: however many turns it is given, it is still dispatching that
      same step. */
  lemma {:induction false} TimedLastStepRepeatsForever(step: SequenceStep, fuel: nat)
    requires step.duration.Some?
    ensures !PlayChainAsWritten(step, [], fuel).finished
    ensures PlayChainAsWritten(step, [], fuel).dispatched == seq(fuel, _ => step)
    decreases fuel
  {
    if fuel > 0 {
      TimedLastStepRepeatsForever(step, fuel - 1);
    }
  }

  /** A show of one step with a duration: the first `NextScene` takes it
      off the queue, and its chain never ends. */
  lemma TimedLastStepCounterexample()
    ensures var last := SequenceStep("end", ShowNewSubtitles(Subtitles("")), None, Some(5));
            forall fuel: nat :: !PlayChainAsWritten(last, [], fuel).finished
  {
    var last := SequenceStep("end", ShowNewSubtitles(Subtitles("")), None, Some(5));
    forall fuel: nat
      ensures !PlayChainAsWritten(last, [], fuel).finished
    {
      TimedLastStepRepeatsForever(last, fuel);
    }
  }

  /** Where the queue holds a step without a duration, the loop as written
      ends and plays the same chain as the intended one. */
  lemma {:induction false} AsWrittenAgreesWhenUntimedFollows(step: SequenceStep, queue: seq<SequenceStep>, fuel: nat)
    requires step.duration.None? || exists i :: 0 <= i < |queue| && queue[i].duration.None?
    requires fuel >= |queue|
    ensures var w := PlayChainAsWritten(step, queue, fuel);
            w.finished && w.dispatched == PlayChain(step, queue).dispatched && w.rest == PlayChain(step, queue).rest
    decreases |queue|
  {
    if step.duration.Some? {
      var i :| 0 <= i < |queue| && queue[i].duration.None?;
      assert queue != [];
      if queue[0].duration.Some? {
        assert i > 0 && queue[1..][i - 1] == queue[i];
      }
      AsWrittenAgreesWhenUntimedFollows(queue[0], queue[1..], fuel - 1);
    }
  }
}
