/** The push button of the Pico W client
    (`rp-client/src/async_gpio_input_handler.rs`). The handler waits for
    the pin to go low, notes the time, waits for it to go high again, and
    classifies the press by how long it lasted: a short press asks the
    server for the next scene, a long one for the current scene again.
    The pin is modelled as the sequence of levels it is seen at, each with
    the time in milliseconds at which it is seen. */
module GpioInput {
  datatype GpioInputEvent = NextTrigger | Retrigger

  /** The longest press, in milliseconds, that still counts as short. */
  const SHORT_PRESS_MS: nat := 1500

  /** How a press of the given length is classified. */
  function Classify(durationMs: nat): (e: GpioInputEvent)
  {
    if durationMs <= SHORT_PRESS_MS then NextTrigger else Retrigger
  }

  /** Classification only depends on which side of the threshold the press
      falls: every press at most as long as a short one is short, and every
      press at least as long as a long one is long. */
  lemma ClassifyIsMonotone(shorter: nat, longer: nat)
    requires shorter <= longer
    ensures Classify(longer) == NextTrigger ==> Classify(shorter) == NextTrigger
    ensures Classify(shorter) == Retrigger ==> Classify(longer) == Retrigger
  {
  }

  /** The threshold itself is a short press, and one millisecond more is a
      long one. */
  lemma ClassifyBoundary()
    ensures Classify(0) == NextTrigger
    ensures Classify(SHORT_PRESS_MS) == NextTrigger
    ensures Classify(SHORT_PRESS_MS + 1) == Retrigger
  {
  }

  /** The pin seen at one instant: high is released, low is pressed. */
  datatype Sample = Sample(high: bool, at: nat)

  /** The clock never goes back. */
  predicate Monotone(samples: seq<Sample>)
  {
    forall i, j :: 0 <= i < j < |samples| ==> samples[i].at <= samples[j].at
  }

  /** Where the handler stands: waiting for a press, or holding the instant
      a press started and waiting for its release. */
  datatype Waiting = ForLow | ForHigh(pressedAt: nat)

  /** The durations of the completed presses in what is left of the pin's
      history, given where the handler stands. */
  function Presses(samples: seq<Sample>, w: Waiting): (ds: seq<nat>)
    decreases |samples|
  {
    if samples == [] then []
    else
      var s := samples[0];
      match w
      case ForLow => if s.high then Presses(samples[1..], ForLow) else Presses(samples[1..], ForHigh(s.at))
      case ForHigh(start) =>
        if s.high then [if s.at >= start then s.at - start else 0] + Presses(samples[1..], ForLow)
        else Presses(samples[1..], w)
  }

  /** The event for each duration, in order. */
  function ClassifyAll(ds: seq<nat>): (es: seq<GpioInputEvent>)
    ensures |es| == |ds|
    ensures forall i :: 0 <= i < |ds| ==> es[i] == Classify(ds[i])
  {
    seq(|ds|, i requires 0 <= i < |ds| => Classify(ds[i]))
  }

  lemma ClassifyAllConcat(a: seq<nat>, b: seq<nat>)
    ensures ClassifyAll(a + b) == ClassifyAll(a) + ClassifyAll(b)
  {
  }

  /** The handler's loop over the pin's history: the events it sends, one
      for each press that was both started and released. */
  method InputHandler(samples: seq<Sample>) returns (events: seq<GpioInputEvent>)
    requires Monotone(samples)
    ensures events == ClassifyAll(Presses(samples, ForLow))
  {
    events := [];
    var w := ForLow;
    var i := 0;
    while i < |samples|
      invariant 0 <= i <= |samples|
      invariant events + ClassifyAll(Presses(samples[i..], w)) == ClassifyAll(Presses(samples, ForLow))
      invariant w.ForHigh? ==> forall j :: i <= j < |samples| ==> w.pressedAt <= samples[j].at
    {
      var s := samples[i];
      assert samples[i..][1..] == samples[i + 1..];
      match w {
        case ForLow =>
          if !s.high {
            w := ForHigh(s.at);
          }
        case ForHigh(start) =>
          if s.high {
            var duration := s.at - start;
            ClassifyAllConcat([duration], Presses(samples[i + 1..], ForLow));
            events := events + [Classify(duration)];
            w := ForLow;
          }
      }
      i := i + 1;
    }
  }

  /** Idle samples, with the button released, send nothing. */
  lemma {:induction false} ReleasedSendsNothing(samples: seq<Sample>, rest: seq<Sample>)
    requires forall i :: 0 <= i < |samples| ==> samples[i].high
    ensures Presses(samples + rest, ForLow) == Presses(rest, ForLow)
    decreases |samples|
  {
    if samples != [] {
      assert (samples + rest)[0] == samples[0] && (samples + rest)[1..] == samples[1..] + rest;
      ReleasedSendsNothing(samples[1..], rest);
    } else {
      assert samples + rest == rest;
    }
  }

  /** Holding the button down sends nothing until it is released. */
  lemma {:induction false} HoldingSendsNothing(samples: seq<Sample>, start: nat, rest: seq<Sample>)
    requires forall i :: 0 <= i < |samples| ==> !samples[i].high
    ensures Presses(samples + rest, ForHigh(start)) == Presses(rest, ForHigh(start))
    decreases |samples|
  {
    if samples != [] {
      assert (samples + rest)[0] == samples[0] && (samples + rest)[1..] == samples[1..] + rest;
      HoldingSendsNothing(samples[1..], start, rest);
    } else {
      assert samples + rest == rest;
    }
  }

  /** The history of one press: released for a while, pressed at `down`,
      held, and released at `up`. */
  function PressHistory(idle: nat, down: nat, held: nat, up: nat): (h: seq<Sample>)
    requires down <= up
    ensures |h| == idle + 1 + held + 1
    ensures Monotone(h)
  {
    seq(idle, _ => Sample(true, 0)) + [Sample(false, down)] + seq(held, _ => Sample(false, down))
      + [Sample(true, up)]
  }

  /** Each press sends exactly one event, classified by how long the button
      was down, whatever comes after it. */
  lemma OnePressOneEvent(idle: nat, down: nat, held: nat, up: nat, rest: seq<Sample>)
    requires down <= up
    ensures Presses(PressHistory(idle, down, held, up) + rest, ForLow) == [up - down] + Presses(rest, ForLow)
    ensures ClassifyAll(Presses(PressHistory(idle, down, held, up) + rest, ForLow))
            == [Classify(up - down)] + ClassifyAll(Presses(rest, ForLow))
  {
    var idles := seq(idle, _ => Sample(true, 0));
    var holds := seq(held, _ => Sample(false, down));
    var afterIdle := [Sample(false, down)] + holds + [Sample(true, up)] + rest;
    assert PressHistory(idle, down, held, up) + rest == idles + afterIdle;
    ReleasedSendsNothing(idles, afterIdle);
    assert afterIdle[1..] == holds + ([Sample(true, up)] + rest);
    HoldingSendsNothing(holds, down, [Sample(true, up)] + rest);
    assert ([Sample(true, up)] + rest)[1..] == rest;
    ClassifyAllConcat([up - down], Presses(rest, ForLow));
  }
}
