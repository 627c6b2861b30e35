/** What the injection coroutines emit, with the sleeps between commands
    abstracted away: the ordered trace of commands they run, and whether
    they ran to their end or stopped with an exception. A coroutine is
    specified by its plan, the steps it attempts in order. */
module Schedule {
  import opened Wrappers
  import opened Args

  /** One command an injector ran, and whether it enabled or disabled the
      fault. `None` is a node injector's logged no-op. */
  datatype Event = Event(enable: bool, command: Option<string>)

  /** One step of a coroutine: run these commands in order, or raise. */
  datatype Step = Exec(enable: bool, commands: seq<Option<string>>) | Raise(error: Error)

  /** The events emitted so far and how the coroutine ended. */
  datatype Run = Run(events: seq<Event>, outcome: Outcome<Error>)

  function StepEvents(enable: bool, commands: seq<Option<string>>): seq<Event> {
    seq(|commands|, i requires 0 <= i < |commands| => Event(enable, commands[i]))
  }

  /** What one step emits and whether it raised. */
  function Perform(step: Step): Run {
    match step
    case Exec(enable, commands) => Run(StepEvents(enable, commands), Pass)
    case Raise(e) => Run([], Fail(e))
  }

  /** Performs the steps in order; the first one that raises ends the run. */
  function Play(steps: seq<Step>): Run
    decreases |steps|
  {
    if steps == [] then Run([], Pass)
    else
      var before := Play(steps[..|steps| - 1]);
      if before.outcome.Fail? then before
      else
        var last := Perform(steps[|steps| - 1]);
        Run(before.events + last.events, last.outcome)
  }

  /** The plan of a loop: one block of steps per iteration, in order. */
  function Flatten(blocks: seq<seq<Step>>): seq<Step>
    decreases |blocks|
  {
    if blocks == [] then [] else Flatten(blocks[..|blocks| - 1]) + blocks[|blocks| - 1]
  }

  // ---------------------------------------------------------------------------
  // Playing a plan step by step

  /** A loop whose first iteration raises runs nothing. */
  lemma FirstBlockRaises(blocks: seq<seq<Step>>, e: Error)
    requires |blocks| > 0 && blocks[0] == [Raise(e)]
    ensures Play(Flatten(blocks)) == Run([], Fail(e))
  {
    FlattenSnoc(blocks, 0);
    assert blocks[..0] == [];
    assert Flatten(blocks[..1]) == [Raise(e)];
    PlayOne(Raise(e));
    LoopStopsAtRaise(blocks, 1);
  }

  /** Performing one more step. */
  lemma PlaySnoc(steps: seq<Step>, step: Step)
    ensures Play(steps + [step])
            == if Play(steps).outcome.Fail? then Play(steps)
               else Run(Play(steps).events + Perform(step).events, Perform(step).outcome)
  {
    assert (steps + [step])[..|steps|] == steps;
  }

  /** Nothing runs after an exception. */
  lemma {:induction false} PlayStopsAtRaise(steps: seq<Step>, more: seq<Step>)
    requires Play(steps).outcome.Fail?
    ensures Play(steps + more) == Play(steps)
    decreases |more|
  {
    if more != [] {
      var most := more[..|more| - 1];
      assert steps + more == (steps + most) + [more[|more| - 1]];
      PlayStopsAtRaise(steps, most);
      PlaySnoc(steps + most, more[|more| - 1]);
    } else {
      assert steps + more == steps;
    }
  }

  /** A run ends normally exactly when none of its steps raises, and then it
      emits every step's commands, in order. */
  lemma {:induction false} PlayPassIffNoRaise(steps: seq<Step>)
    ensures Play(steps).outcome.Pass? <==> forall i :: 0 <= i < |steps| ==> steps[i].Exec?
    ensures Play(steps).outcome.Pass? ==> |Play(steps).events| == CommandCount(steps)
    decreases |steps|
  {
    if steps != [] {
      var most := steps[..|steps| - 1];
      PlayPassIffNoRaise(most);
      assert forall i :: 0 <= i < |most| ==> most[i] == steps[i];
    }
  }

  /** How many commands the steps hold. */
  function CommandCount(steps: seq<Step>): nat
    decreases |steps|
  {
    if steps == [] then 0
    else CommandCount(steps[..|steps| - 1]) + match steps[|steps| - 1]
      case Exec(_, commands) => |commands|
      case Raise(_) => 0
  }

  /** The plan of the first i iterations, and one more. */
  lemma FlattenSnoc(blocks: seq<seq<Step>>, i: nat)
    requires i < |blocks|
    ensures Flatten(blocks[..i + 1]) == Flatten(blocks[..i]) + blocks[i]
  {
    assert blocks[..i + 1][..i] == blocks[..i];
  }

  /** Once the first i iterations have raised, the whole loop ends the same way. */
  lemma {:induction false} LoopStopsAtRaise(blocks: seq<seq<Step>>, i: nat)
    requires i <= |blocks|
    requires Play(Flatten(blocks[..i])).outcome.Fail?
    ensures Play(Flatten(blocks)) == Play(Flatten(blocks[..i]))
    decreases |blocks| - i
  {
    if i == |blocks| {
      assert blocks[..i] == blocks;
    } else {
      FlattenSnoc(blocks, i);
      PlayStopsAtRaise(Flatten(blocks[..i]), blocks[i]);
      LoopStopsAtRaise(blocks, i + 1);
    }
  }

  /** Performing one plan after another: the second runs only if the first
      ended normally. */
  lemma {:induction false} PlayAppend(first: seq<Step>, second: seq<Step>)
    ensures Play(first + second)
            == if Play(first).outcome.Fail? then Play(first)
               else Run(Play(first).events + Play(second).events, Play(second).outcome)
    decreases |second|
  {
    if second == [] {
      assert first + second == first;
    } else {
      var most := second[..|second| - 1];
      var last := second[|second| - 1];
      assert first + second == (first + most) + [last];
      assert most + [last] == second;
      PlayAppend(first, most);
      PlaySnoc(first + most, last);
      PlaySnoc(most, last);
    }
  }

  /** One more iteration of a loop whose earlier iterations ended normally:
      it adds what the iteration emits, and if the iteration raises, the
      loop ends there. */
  lemma LoopStep(blocks: seq<seq<Step>>, i: nat)
    requires i < |blocks|
    requires Play(Flatten(blocks[..i])).outcome.Pass?
    ensures Play(Flatten(blocks[..i + 1]))
            == Run(Play(Flatten(blocks[..i])).events + Play(blocks[i]).events, Play(blocks[i]).outcome)
    ensures Play(blocks[i]).outcome.Fail? ==> Play(Flatten(blocks)) == Play(Flatten(blocks[..i + 1]))
  {
    FlattenSnoc(blocks, i);
    PlayAppend(Flatten(blocks[..i]), blocks[i]);
    if Play(blocks[i]).outcome.Fail? {
      LoopStopsAtRaise(blocks, i + 1);
    }
  }

  /** The same step, seen on a trace that started as `start`: the trace
      before the iteration held the earlier iterations' events, the one after
      it holds those of the first i + 1. */
  lemma LoopTrace(blocks: seq<seq<Step>>, i: nat, start: seq<Event>, before: seq<Event>, after: seq<Event>)
    requires i < |blocks|
    requires Play(Flatten(blocks[..i])).outcome.Pass?
    requires before == start + Play(Flatten(blocks[..i])).events
    requires after == before + Play(blocks[i]).events
    ensures after == start + Play(Flatten(blocks[..i + 1])).events
    ensures Play(Flatten(blocks[..i + 1])).outcome == Play(blocks[i]).outcome
    ensures Play(blocks[i]).outcome.Fail? ==> Play(Flatten(blocks)) == Play(Flatten(blocks[..i + 1]))
  {
    LoopStep(blocks, i);
    AppendAssoc(start, Play(Flatten(blocks[..i])).events, Play(blocks[i]).events);
  }

  /** Regrouping the events of a trace; stated apart so that the loop
      lemmas do not unfold `Play` while regrouping. */
  lemma AppendAssoc(first: seq<Event>, second: seq<Event>, third: seq<Event>)
    ensures (first + second) + third == first + (second + third)
  {
  }

  /** A loop that ran every iteration. */
  lemma LoopDone(blocks: seq<seq<Step>>)
    ensures Flatten(blocks[..|blocks|]) == Flatten(blocks)
  {
    assert blocks[..|blocks|] == blocks;
  }

  /** A single step. */
  lemma PlayOne(step: Step)
    ensures Play([step]) == Perform(step)
  {
    PlaySnoc([], step);
    assert [] + [step] == [step];
    assert [] + Perform(step).events == Perform(step).events;
  }

  /** A loop before its first iteration. */
  lemma LoopStart(blocks: seq<seq<Step>>)
    ensures Play(Flatten(blocks[..0])) == Run([], Pass)
  {
    assert blocks[..0] == [];
  }

  /** Two steps: the second runs only if the first ended normally. */
  lemma PlayPair(first: Step, second: Step)
    ensures Play([first, second])
            == if Perform(first).outcome.Fail? then Perform(first)
               else Run(Perform(first).events + Perform(second).events, Perform(second).outcome)
  {
    PlaySnoc([], first);
    PlaySnoc([first], second);
    assert [] + [first] == [first];
    assert [first] + [second] == [first, second];
    assert [] + Perform(first).events == Perform(first).events;
  }

  /** A loop whose iterations are two steps each: the steps at even positions
      are the first of each iteration, those at odd positions the second. */
  lemma {:induction false} FlattenTwoStepBlocks(blocks: seq<seq<Step>>)
    requires forall k :: 0 <= k < |blocks| ==> |blocks[k]| == 2
    ensures |Flatten(blocks)| == 2 * |blocks|
    ensures forall k :: 0 <= k < |blocks| ==> Flatten(blocks)[2 * k] == blocks[k][0]
    ensures forall k :: 0 <= k < |blocks| ==> Flatten(blocks)[2 * k + 1] == blocks[k][1]
    decreases |blocks|
  {
    if blocks != [] {
      var most := blocks[..|blocks| - 1];
      FlattenTwoStepBlocks(most);
      assert forall k :: 0 <= k < |most| ==> most[k] == blocks[k];
    }
  }

  // ---------------------------------------------------------------------------
  // Bursts: the same enable/disable pair, again and again

  /** `n` iterations of an enable step followed by a disable step. */
  function Pairs(n: nat, on: Step, off: Step): seq<seq<Step>> {
    seq(n, _ => [on, off])
  }

  /** A burst plan is exactly n pairs: enable at every even position, disable
      at every odd one. */
  lemma PairsAlternate(n: nat, on: Step, off: Step)
    ensures |Flatten(Pairs(n, on, off))| == 2 * n
    ensures forall k :: 0 <= k < n ==> Flatten(Pairs(n, on, off))[2 * k] == on
    ensures forall k :: 0 <= k < n ==> Flatten(Pairs(n, on, off))[2 * k + 1] == off
  {
    var blocks := Pairs(n, on, off);
    FlattenTwoStepBlocks(blocks);
    forall k | 0 <= k < n
      ensures Flatten(blocks)[2 * k] == on && Flatten(blocks)[2 * k + 1] == off
    {
      assert blocks[k] == [on, off];
    }
  }

  /** `n` copies of `events`, one after the other. */
  function Repeat(n: nat, events: seq<Event>): seq<Event>
    decreases n
  {
    if n == 0 then [] else Repeat(n - 1, events) + events
  }

  /** A burst whose steps both run emits n copies of the enable commands
      followed by the disable commands, and ends normally. */
  lemma {:induction false} PairsRun(n: nat, on: Step, off: Step)
    requires on.Exec? && off.Exec?
    ensures Play(Flatten(Pairs(n, on, off))) == Run(Repeat(n, Perform(on).events + Perform(off).events), Pass)
    decreases n
  {
    if n > 0 {
      PairsRun(n - 1, on, off);
      var most := Flatten(Pairs(n - 1, on, off));
      assert Pairs(n, on, off)[..n - 1] == Pairs(n - 1, on, off);
      assert Flatten(Pairs(n, on, off)) == (most + [on]) + [off];
      PlaySnoc(most, on);
      PlaySnoc(most + [on], off);
    }
  }

  /** With one command per step the events themselves alternate: the enable
      command at every even position, the disable command at every odd one. */
  lemma SingleCommandPairs(n: nat, start: Option<string>, stop: Option<string>)
    ensures var run := Play(Flatten(Pairs(n, Exec(true, [start]), Exec(false, [stop]))));
      && run.outcome == Pass
      && |run.events| == 2 * n
      && (forall k :: 0 <= k < n ==> run.events[2 * k] == Event(true, start))
      && (forall k :: 0 <= k < n ==> run.events[2 * k + 1] == Event(false, stop))
  {
    PairsRun(n, Exec(true, [start]), Exec(false, [stop]));
    assert Perform(Exec(true, [start])).events + Perform(Exec(false, [stop])).events
           == [Event(true, start), Event(false, stop)];
    RepeatPair(n, Event(true, start), Event(false, stop));
  }

  lemma {:induction false} RepeatPair(n: nat, first: Event, second: Event)
    ensures |Repeat(n, [first, second])| == 2 * n
    ensures forall k :: 0 <= k < n ==> Repeat(n, [first, second])[2 * k] == first
    ensures forall k :: 0 <= k < n ==> Repeat(n, [first, second])[2 * k + 1] == second
    decreases n
  {
    if n > 0 {
      RepeatPair(n - 1, first, second);
    }
  }

  /** A burst whose enable step raises runs nothing; one whose disable step
      raises runs the enable commands once. */
  lemma BurstStopsAtFirstRaise(n: nat, on: Step, off: Step)
    requires n > 0
    ensures on.Raise? ==> Play(Flatten(Pairs(n, on, off))) == Run([], Fail(on.error))
    ensures on.Exec? && off.Raise? ==>
      Play(Flatten(Pairs(n, on, off))) == Run(Perform(on).events, Fail(off.error))
  {
    var blocks := Pairs(n, on, off);
    FlattenSnoc(blocks, 0);
    assert blocks[..0] == [];
    assert Flatten(blocks[..1]) == [] + [on, off] == [on] + [off];
    PlaySnoc([], on);
    PlaySnoc([on], off);
    if on.Raise? || off.Raise? {
      LoopStopsAtRaise(blocks, 1);
    }
  }

  // ---------------------------------------------------------------------------
  // Degradation: an intensity that grows by a step up to an end value

  function Min(a: int, b: int): int {
    if a <= b then a else b
  }

  /** The intensity after one degradation step: moved up by `step`, clamped at `end`. */
  function NextIntensity(value: int, step: int, end: int): (next: int)
    ensures next <= end
    ensures next == value + step || next == end
    ensures next < value + step ==> next == end
    ensures next <= value + step
  {
    Min(value + step, end)
  }

  /** The intensities of the first `n` degradation steps. */
  function Intensities(start: int, step: int, end: int, n: nat): (values: seq<int>)
    ensures |values| == n
    ensures n > 0 ==> values[0] == start
    decreases n
  {
    if n == 0 then []
    else if n == 1 then [start]
    else
      var before := Intensities(start, step, end, n - 1);
      before + [NextIntensity(before[n - 2], step, end)]
  }

  /** Each intensity follows from the one before it. */
  lemma {:induction false} IntensitiesStep(start: int, step: int, end: int, n: nat, k: nat)
    requires k + 1 < n
    ensures Intensities(start, step, end, n)[k + 1] == NextIntensity(Intensities(start, step, end, n)[k], step, end)
    decreases n
  {
    if k + 2 < n {
      IntensitiesStep(start, step, end, n - 1, k);
      IntensitiesPrefix(start, step, end, n - 1, n);
    }
  }

  /** Running longer does not change the earlier intensities. */
  lemma {:induction false} IntensitiesPrefix(start: int, step: int, end: int, m: nat, n: nat)
    requires m <= n
    ensures Intensities(start, step, end, n)[..m] == Intensities(start, step, end, m)
    decreases n - m
  {
    if m < n {
      IntensitiesPrefix(start, step, end, m + 1, n);
      var longer := Intensities(start, step, end, n);
      assert longer[..m] == longer[..m + 1][..m];
      if m > 0 {
        assert Intensities(start, step, end, m + 1)[..m] == Intensities(start, step, end, m);
      }
    }
  }

  /** After the first step no intensity exceeds the end value. */
  lemma IntensitiesBounded(start: int, step: int, end: int, n: nat, k: nat)
    requires 1 <= k < n
    ensures Intensities(start, step, end, n)[k] <= end
  {
    IntensitiesStep(start, step, end, n, k - 1);
  }

  /** With a non-negative step, after the first step the intensity is the start
      plus k steps, clamped at the end value. */
  lemma {:induction false} IntensitiesClosedForm(start: int, step: int, end: int, n: nat, k: nat)
    requires step >= 0
    requires 1 <= k < n
    ensures Intensities(start, step, end, n)[k] == Min(start + k * step, end)
    decreases k
  {
    IntensitiesStep(start, step, end, n, k - 1);
    if k > 1 {
      IntensitiesClosedForm(start, step, end, n, k - 1);
    }
  }

  /** With a non-negative step the intensities never decrease after the first
      step, and never at all when the start does not exceed the end. */
  lemma IntensitiesNonDecreasing(start: int, step: int, end: int, n: nat, j: nat, k: nat)
    requires step >= 0
    requires j <= k < n
    requires j >= 1 || start <= end
    ensures Intensities(start, step, end, n)[j] <= Intensities(start, step, end, n)[k]
  {
    if j < k {
      IntensitiesClosedForm(start, step, end, n, k);
      if j >= 1 {
        IntensitiesClosedForm(start, step, end, n, j);
        StepsGrow(j, k, step);
      }
    }
  }

  lemma StepsGrow(j: nat, k: nat, step: int)
    requires j <= k && step >= 0
    ensures j * step <= k * step
  {
    var d := k - j;
    assert k * step == j * step + d * step;
    assert d * step >= 0;
  }
}
