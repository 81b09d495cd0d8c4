/**
 The stair-lighting controller: start-up, and one pass of the polling loop
 that samples the light sensor and the two motion sensors and, when it is
 dark and motion is seen, wipes the strip on in WHITE, holds, and wipes it
 off again in the same direction.

 Everything the hardware would show is recorded as an event: a sensor sample,
 a push of the buffer to the strip, or a hold of some seconds.
 */
module Controller {
  import opened Pixels
  import opened Wipe

  /** Number of pixels in the strip. */
  const PIXEL_COUNT: nat := 300

  /** How long the stairs stay lit, in minutes. */
  const LIGHT_MINUTES: nat := 3

  /** How long the stairs stay lit, in seconds. */
  const SHINE_TIME: nat := 60 * LIGHT_MINUTES

  /** The three digital inputs: light sensor, bottom and top motion detectors. */
  datatype Sensor = Dark | Down | Up

  /** What the controller does that the outside world can observe. */
  datatype Event =
    | Sample(sensor: Sensor)
    | Write(snapshot: Strip)
    | Hold(seconds: nat)

  /** The buffer after some work, and the events that work produced, in order. */
  datatype Tick = Tick(strip: Strip, events: seq<Event>)

  /** The sensor values one pass of the loop would read. */
  datatype Reading = Reading(dark: bool, down: bool, up: bool)

  /** Which way a wipe travels: from pixel 0 (top) down, or from the last pixel (bottom) up. */
  datatype Direction = TopDown | BottomUp

  /** What one pass of the loop decides to do. */
  datatype Branch = Idle | Lit(direction: Direction)

  /** No push and no hold: the events are sensor samples only. */
  predicate Quiet(events: seq<Event>)
  {
    forall i :: 0 <= i < |events| ==> events[i].Sample?
  }

  /** No sensor is sampled once a push or a hold has happened. */
  predicate SamplesFirst(events: seq<Event>)
  {
    forall i, j :: 0 <= i < j < |events| && !events[i].Sample? ==> !events[j].Sample?
  }

  /** One Write event per snapshot, in push order. */
  function Pushes(writes: seq<Strip>): seq<Event>
  {
    seq(|writes|, k requires 0 <= k < |writes| => Write(writes[k]))
  }

  /** Start-up: set every pixel OFF, then push once. */
  function Startup(buffer: Strip): (t: Tick)
    ensures |t.strip| == |buffer| && AllOf(t.strip, OFF)
    ensures t.events == [Write(t.strip)]
  {
    var s := Painted(buffer, 0, |buffer|, OFF);
    Tick(s, [Write(s)])
  }

  /** The branch one pass takes: nothing unless dark; the bottom detector
      wins over the top one. */
  function Choose(dark: bool, down: bool, up: bool): (b: Branch)
    ensures b == Lit(TopDown) <==> dark && down
    ensures b == Lit(BottomUp) <==> dark && !down && up
    ensures b == Idle <==> !dark || (!down && !up)
  {
    if !dark then Idle
    else if down then Lit(TopDown)
    else if up then Lit(BottomUp)
    else Idle
  }

  /** The sensors one pass samples, in order: the top detector is read only
      when it is dark and the bottom one saw nothing. */
  function Samples(dark: bool, down: bool): (ev: seq<Event>)
    ensures Quiet(ev)
    ensures |ev| == 1 + (if dark then 1 else 0) + (if dark && !down then 1 else 0)
    ensures ev[0] == Sample(Dark)
    ensures dark ==> ev[1] == Sample(Down)
    ensures dark && !down ==> ev[2] == Sample(Up)
    ensures Sample(Down) in ev <==> dark
    ensures Sample(Up) in ev <==> dark && !down
  {
    [Sample(Dark)] + (if !dark then [] else [Sample(Down)] + (if down then [] else [Sample(Up)]))
  }

  /** A fill of the whole strip in direction `d`. */
  function FillIn(d: Direction, strip: Strip, c: Color): Fill
  {
    match d
    case TopDown => Forward(strip, PIXEL_COUNT, c)
    case BottomUp => Backward(strip, PIXEL_COUNT, c)
  }

  /** On the strip of PIXEL_COUNT pixels a whole-strip fill never raises. */
  lemma FillCompletes(d: Direction, strip: Strip, c: Color)
    requires |strip| == PIXEL_COUNT
    ensures FillIn(d, strip, c).status == Completed
  {
  }

  /** A lighting sequence: fill WHITE, hold SHINE_TIME, fill OFF, both fills in direction `d`. */
  function Sequence(d: Direction, strip: Strip): (t: Tick)
    requires |strip| == PIXEL_COUNT
    ensures |t.strip| == PIXEL_COUNT && AllOf(t.strip, OFF)
    ensures |t.events| == 2 * PIXEL_COUNT + 1
    ensures t.events[PIXEL_COUNT] == Hold(180)
    ensures forall i :: 0 <= i < |t.events| && i != PIXEL_COUNT ==> t.events[i].Write?
    ensures t.events[PIXEL_COUNT - 1] == Write(Solid(PIXEL_COUNT, WHITE))
    ensures t.events[2 * PIXEL_COUNT] == Write(t.strip)
  {
    var on := FillIn(d, strip, WHITE);
    var off := FillIn(d, on.strip, OFF);
    Tick(off.strip, Pushes(on.writes) + [Hold(SHINE_TIME)] + Pushes(off.writes))
  }

  /** What the k-th push of a whole-strip wipe in direction `d` shows: the
      first k + 1 pixels met in that direction changed to `c`, the rest as in `s`. */
  function Wiped(d: Direction, s: Strip, k: int, c: Color): Strip
  {
    match d
    case TopDown => Painted(s, 0, k + 1, c)
    case BottomUp => Painted(s, PIXEL_COUNT - 1 - k, PIXEL_COUNT, c)
  }

  /** Both wipes of a lighting sequence run in its direction `d`: the first
      wipes the strip it found to WHITE, the second wipes the all-WHITE strip
      to OFF, pixel by pixel in the same order. */
  lemma SequenceOrder(d: Direction, strip: Strip)
    requires |strip| == PIXEL_COUNT
    ensures var t := Sequence(d, strip);
            forall k :: 0 <= k < PIXEL_COUNT ==> t.events[k] == Write(Wiped(d, strip, k, WHITE))
    ensures var t := Sequence(d, strip);
            forall k :: 0 <= k < PIXEL_COUNT ==>
              t.events[PIXEL_COUNT + 1 + k] == Write(Wiped(d, Solid(PIXEL_COUNT, WHITE), k, OFF))
  {
  }

  /** One pass of the polling loop. */
  function Step(strip: Strip, dark: bool, down: bool, up: bool): (t: Tick)
    requires |strip| == PIXEL_COUNT
    ensures |t.strip| == PIXEL_COUNT
    ensures Quiet(t.events) <==> Choose(dark, down, up) == Idle
    ensures Quiet(t.events) ==> t.strip == strip
    ensures !Quiet(t.events) ==> AllOf(t.strip, OFF)
    ensures SamplesFirst(t.events)
  {
    var sampled := Samples(dark, down);
    match Choose(dark, down, up)
    case Idle => Tick(strip, sampled)
    case Lit(d) =>
      var lit := Sequence(d, strip);
      var events := sampled + lit.events;
      assert events[|sampled|] == lit.events[0] && !lit.events[0].Sample?;
      Tick(lit.strip, events)
  }

  /** A pass is its sensor samples, followed, when `Choose` picks a direction,
      by the whole lighting sequence in that direction. */
  lemma StepEvents(strip: Strip, dark: bool, down: bool, up: bool)
    requires |strip| == PIXEL_COUNT
    ensures Choose(dark, down, up) == Idle ==>
              Step(strip, dark, down, up) == Tick(strip, Samples(dark, down))
    ensures Choose(dark, down, up).Lit? ==>
              var lit := Sequence(Choose(dark, down, up).direction, strip);
              Step(strip, dark, down, up) == Tick(lit.strip, Samples(dark, down) + lit.events)
  {
  }

  /** When it is not dark, a pass samples the light sensor only, pushes
      nothing, holds nothing and leaves the buffer alone, whatever the motion
      detectors would say. */
  lemma DarkGate(strip: Strip, down: bool, up: bool)
    requires |strip| == PIXEL_COUNT
    ensures Step(strip, false, down, up) == Tick(strip, [Sample(Dark)])
  {
  }

  /** With motion at the bottom, the top detector is neither read nor
      heeded: the pass lights the strip from pixel 0 downwards. */
  lemma BottomPriority(strip: Strip, up: bool)
    requires |strip| == PIXEL_COUNT
    ensures Step(strip, true, true, up) == Step(strip, true, true, false)
    ensures Sample(Up) !in Step(strip, true, true, up).events
    ensures Step(strip, true, true, up).events[2] == Write(strip[0 := WHITE])
    ensures Step(strip, true, true, up).events
            == [Sample(Dark), Sample(Down)] + Sequence(TopDown, strip).events
  {
  }

  /** Motion at the top alone, in the dark, lights the strip from the last
      pixel upwards. */
  lemma TopOnly(strip: Strip)
    requires |strip| == PIXEL_COUNT
    ensures Step(strip, true, false, true).events[3] == Write(strip[PIXEL_COUNT - 1 := WHITE])
    ensures Step(strip, true, false, true).events
            == [Sample(Dark), Sample(Down), Sample(Up)] + Sequence(BottomUp, strip).events
  {
  }

  /** The shape of a lit pass: its samples, then PIXEL_COUNT pushes
      ending in a fully WHITE strip, one hold of 180 seconds, and PIXEL_COUNT
      pushes ending in the fully OFF strip the pass leaves behind. */
  lemma LitShape(strip: Strip, dark: bool, down: bool, up: bool)
    requires |strip| == PIXEL_COUNT
    requires dark && (down || up)
    ensures var t := Step(strip, dark, down, up);
            var h := |Samples(dark, down)|;
            && |t.events| == h + 2 * PIXEL_COUNT + 1
            && t.events[..h] == Samples(dark, down)
            && t.events[h + PIXEL_COUNT] == Hold(180)
            && (forall i :: h <= i < |t.events| && i != h + PIXEL_COUNT ==> t.events[i].Write?)
            && t.events[h + PIXEL_COUNT - 1] == Write(Solid(PIXEL_COUNT, WHITE))
            && t.events[|t.events| - 1] == Write(Solid(PIXEL_COUNT, OFF))
            && t.strip == Solid(PIXEL_COUNT, OFF)
  {
  }

  /** A bounded run of the loop, one pass per reading, from buffer `strip`. */
  function Run(strip: Strip, readings: seq<Reading>): (t: Tick)
    requires |strip| == PIXEL_COUNT
    ensures |t.strip| == PIXEL_COUNT
    decreases |readings|
  {
    if readings == [] then Tick(strip, [])
    else
      var r := readings[0];
      var first := Step(strip, r.dark, r.down, r.up);
      var rest := Run(first.strip, readings[1..]);
      Tick(rest.strip, first.events + rest.events)
  }

  /** A run of one reading is the pass for that reading's own sensor values. */
  lemma RunOne(strip: Strip, r: Reading)
    requires |strip| == PIXEL_COUNT
    ensures Run(strip, [r]) == Step(strip, r.dark, r.down, r.up)
  {
  }

  /** Running two lists of readings one after the other is the run of the
      joined list: passes happen, and their events appear, in reading order. */
  lemma {:induction false} RunAppend(strip: Strip, a: seq<Reading>, b: seq<Reading>)
    requires |strip| == PIXEL_COUNT
    ensures var ra := Run(strip, a);
            var rb := Run(ra.strip, b);
            Run(strip, a + b) == Tick(rb.strip, ra.events + rb.events)
    decreases |a|
  {
    if a == [] {
      assert a + b == b;
    } else {
      var r := a[0];
      var first := Step(strip, r.dark, r.down, r.up);
      assert (a + b)[0] == r && (a + b)[1..] == a[1..] + b;
      RunAppend(first.strip, a[1..], b);
      var ra' := Run(first.strip, a[1..]);
      var rb := Run(ra'.strip, b);
      assert first.events + (ra'.events + rb.events) == (first.events + ra'.events) + rb.events;
    }
  }

  /** A strip that is all OFF stays all OFF between passes. */
  lemma {:induction false} RunKeepsOff(strip: Strip, readings: seq<Reading>)
    requires |strip| == PIXEL_COUNT && AllOf(strip, OFF)
    ensures AllOf(Run(strip, readings).strip, OFF)
    decreases |readings|
  {
    if readings != [] {
      var r := readings[0];
      RunKeepsOff(Step(strip, r.dark, r.down, r.up).strip, readings[1..]);
    }
  }

  /** The program from power-on: start-up, then one pass per reading. */
  function Boot(buffer: Strip, readings: seq<Reading>): (t: Tick)
    requires |buffer| == PIXEL_COUNT
    ensures |t.strip| == PIXEL_COUNT && AllOf(t.strip, OFF)
    ensures |t.events| >= 1 && t.events[0] == Write(Solid(PIXEL_COUNT, OFF))
  {
    var start := Startup(buffer);
    assert start.strip == Solid(PIXEL_COUNT, OFF);
    RunKeepsOff(start.strip, readings);
    var run := Run(start.strip, readings);
    Tick(run.strip, start.events + run.events)
  }

  /** From power-on the loop starts from the all-OFF strip, whatever the
      buffer held, and the program's events are the start-up push followed by
      the run of the readings. */
  lemma BootRun(buffer: Strip, readings: seq<Reading>)
    requires |buffer| == PIXEL_COUNT
    ensures var run := Run(Solid(PIXEL_COUNT, OFF), readings);
            Boot(buffer, readings) == Tick(run.strip, [Write(Solid(PIXEL_COUNT, OFF))] + run.events)
  {
  }

  /** Number of pushes among `events`. */
  function Pushed(events: seq<Event>): nat
  {
    if events == [] then 0 else (if events[0].Write? then 1 else 0) + Pushed(events[1..])
  }

  /** Total seconds held among `events`. */
  function Held(events: seq<Event>): nat
  {
    if events == [] then 0 else (if events[0].Hold? then events[0].seconds else 0) + Held(events[1..])
  }

  /** Number of readings that make a pass light the strip. */
  function LitCount(readings: seq<Reading>): nat
  {
    if readings == [] then 0
    else (if Choose(readings[0].dark, readings[0].down, readings[0].up).Lit? then 1 else 0)
         + LitCount(readings[1..])
  }

  lemma {:induction false} TallyAppend(a: seq<Event>, b: seq<Event>)
    ensures Pushed(a + b) == Pushed(a) + Pushed(b)
    ensures Held(a + b) == Held(a) + Held(b)
  {
    if a == [] {
      assert a + b == b;
    } else {
      assert (a + b)[1..] == a[1..] + b;
      TallyAppend(a[1..], b);
    }
  }

  lemma {:induction false} TallyWrites(events: seq<Event>)
    requires forall i :: 0 <= i < |events| ==> events[i].Write?
    ensures Pushed(events) == |events| && Held(events) == 0
  {
    if events != [] {
      TallyWrites(events[1..]);
    }
  }

  lemma {:induction false} TallyQuiet(events: seq<Event>)
    requires Quiet(events)
    ensures Pushed(events) == 0 && Held(events) == 0
  {
    if events != [] {
      TallyQuiet(events[1..]);
    }
  }

  /** A pass pushes 2 * PIXEL_COUNT times and holds SHINE_TIME seconds when
      it lights the strip, and does neither otherwise. */
  lemma StepTally(strip: Strip, dark: bool, down: bool, up: bool)
    requires |strip| == PIXEL_COUNT
    ensures var t := Step(strip, dark, down, up);
            var lit := Choose(dark, down, up).Lit?;
            && Pushed(t.events) == (if lit then 2 * PIXEL_COUNT else 0)
            && Held(t.events) == (if lit then SHINE_TIME else 0)
  {
    var sampled := Samples(dark, down);
    TallyQuiet(sampled);
    if Choose(dark, down, up).Lit? {
      var lit := Sequence(Choose(dark, down, up).direction, strip);
      var ev := lit.events;
      assert ev == ev[..PIXEL_COUNT] + [ev[PIXEL_COUNT]] + ev[PIXEL_COUNT + 1..];
      TallyWrites(ev[..PIXEL_COUNT]);
      TallyWrites(ev[PIXEL_COUNT + 1..]);
      TallyAppend(ev[..PIXEL_COUNT], [ev[PIXEL_COUNT]]);
      TallyAppend(ev[..PIXEL_COUNT] + [ev[PIXEL_COUNT]], ev[PIXEL_COUNT + 1..]);
      TallyAppend(sampled, ev);
    }
  }

  /** Over a bounded run, every lighting pass costs exactly 2 * PIXEL_COUNT
      pushes and one SHINE_TIME hold, and nothing else pushes or holds. */
  lemma {:induction false} RunTally(strip: Strip, readings: seq<Reading>)
    requires |strip| == PIXEL_COUNT
    ensures Pushed(Run(strip, readings).events) == 2 * PIXEL_COUNT * LitCount(readings)
    ensures Held(Run(strip, readings).events) == SHINE_TIME * LitCount(readings)
    decreases |readings|
  {
    if readings != [] {
      var r := readings[0];
      var first := Step(strip, r.dark, r.down, r.up);
      var rest := Run(first.strip, readings[1..]);
      var lit := if Choose(r.dark, r.down, r.up).Lit? then 1 else 0;
      assert Run(strip, readings) == Tick(rest.strip, first.events + rest.events);
      assert LitCount(readings) == lit + LitCount(readings[1..]);
      StepTally(strip, r.dark, r.down, r.up);
      RunTally(first.strip, readings[1..]);
      TallyAppend(first.events, rest.events);
      assert 2 * PIXEL_COUNT * LitCount(readings)
          == 2 * PIXEL_COUNT * lit + 2 * PIXEL_COUNT * LitCount(readings[1..]);
      assert SHINE_TIME * LitCount(readings)
          == SHINE_TIME * lit + SHINE_TIME * LitCount(readings[1..]);
    }
  }

}
