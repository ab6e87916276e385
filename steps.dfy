/** Running a sequence of labelled steps, as `_execute_installation` does: each step's label is
    shown with `show_step`, then the step runs; the first step that raises ends the sequence. */
module Steps {
  import opened Wrappers
  import opened Trace

  datatype Step = Step(name: string, run: StepRun)

  function StepLabels(steps: seq<Step>): (r: seq<string>)
    ensures |r| == |steps| && forall i :: 0 <= i < |steps| ==> r[i] == steps[i].name
  {
    seq(|steps|, i requires 0 <= i < |steps| => steps[i].name)
  }

  function RunSteps(steps: seq<Step>): StepRun
    decreases |steps|
  {
    if steps == [] then StepRun([], None)
    else
      var head := [Announce(steps[0].name)] + steps[0].run.effects;
      if steps[0].run.error.Some? then StepRun(head, steps[0].run.error)
      else
        var rest := RunSteps(steps[1..]);
        StepRun(head + rest.effects, rest.error)
  }

  /** How many steps are started: up to and including the first that raises. */
  function Attempted(steps: seq<Step>): (n: nat)
    ensures n <= |steps|
    ensures steps != [] ==> n >= 1
    decreases |steps|
  {
    if steps == [] then 0
    else if steps[0].run.error.Some? then 1
    else 1 + Attempted(steps[1..])
  }

  /** No step shows a label of its own. */
  predicate QuietSteps(steps: seq<Step>) {
    forall i :: 0 <= i < |steps| ==> Quiet(steps[i].run.effects)
  }

  /** When no step shows a label itself, the labels shown are those of the steps started, in
      order. */
  lemma {:induction false} RunStepsAnnounces(steps: seq<Step>)
    requires QuietSteps(steps)
    ensures Announced(RunSteps(steps).effects) == StepLabels(steps)[..Attempted(steps)]
    decreases |steps|
  {
    if steps != [] {
      var st := steps[0];
      var head := [Announce(st.name)] + st.run.effects;
      QuietAnnouncesNothing(st.run.effects);
      AnnouncedAppend([Announce(st.name)], st.run.effects);
      assert Announced([Announce(st.name)]) == [st.name] by {
        assert [Announce(st.name)][1..] == [];
      }
      if st.run.error.None? {
        var tail := steps[1..];
        var rest := RunSteps(tail);
        assert forall i :: 1 <= i < |steps| ==> steps[i] == tail[i - 1];
        RunStepsAnnounces(tail);
        AnnouncedAppend(head, rest.effects);
        var n := Attempted(steps);
        assert StepLabels(steps)[..n] == [st.name] + StepLabels(tail)[..n - 1];
      } else {
        assert StepLabels(steps)[..1] == [st.name];
      }
    }
  }

  /** The run raises exactly when a started step does, with the error of the last step
      started; otherwise every step is started. */
  lemma {:induction false} RunStepsStops(steps: seq<Step>)
    ensures var r := RunSteps(steps); var n := Attempted(steps);
      && (r.error.None? <==> (forall i :: 0 <= i < |steps| ==> steps[i].run.error.None?))
      && (r.error.None? ==> n == |steps|)
      && (r.error.Some? ==> n >= 1 && r.error == steps[n - 1].run.error)
    decreases |steps|
  {
    if steps != [] && steps[0].run.error.None? {
      var tail := steps[1..];
      assert forall i :: 1 <= i < |steps| ==> steps[i] == tail[i - 1];
      RunStepsStops(tail);
    }
  }

  /** Running one more step after steps that all succeeded: its label, then its effects. */
  lemma {:induction false} RunStepsSnoc(steps: seq<Step>, st: Step)
    requires RunSteps(steps).error.None?
    ensures RunSteps(steps + [st])
         == StepRun(RunSteps(steps).effects + ([Announce(st.name)] + st.run.effects), st.run.error)
    decreases |steps|
  {
    if steps == [] {
      assert steps + [st] == [st];
      assert [st][1..] == [];
    } else {
      var all := steps + [st];
      assert all[0] == steps[0] && all[1..] == steps[1..] + [st];
      RunStepsSnoc(steps[1..], st);
      AppendAssoc([Announce(steps[0].name)] + steps[0].run.effects, RunSteps(steps[1..]).effects,
                  [Announce(st.name)] + st.run.effects);
    }
  }

  /** One more step after a run: nothing once the run has raised, otherwise the step's label,
      then its effects, ending with its error. */
  function Continue(prev: StepRun, st: Step): StepRun {
    if prev.error.Some? then prev
    else StepRun(prev.effects + ([Announce(st.name)] + st.run.effects), st.run.error)
  }

  /** Running the steps is continuing the run of all but the last with the last. */
  lemma RunStepsContinue(steps: seq<Step>, st: Step)
    ensures RunSteps(steps + [st]) == Continue(RunSteps(steps), st)
  {
    if RunSteps(steps).error.None? {
      RunStepsSnoc(steps, st);
    } else {
      RunStepsStopped(steps, [st]);
    }
  }

  /** A trace that has shown a step's label and then its effects, after a run that had not
      raised, is that run continued with the step. */
  lemma ContinueTrace(t0: seq<Effect>, prev: StepRun, st: Step, t: seq<Effect>)
    requires prev.error.None? && t == t0 + prev.effects + [Announce(st.name)] + st.run.effects
    ensures t == t0 + Continue(prev, st).effects
  {
    AppendAssoc(prev.effects, [Announce(st.name)], st.run.effects);
    AppendAssoc(t0, prev.effects, [Announce(st.name)] + st.run.effects);
    AppendAssoc(t0 + prev.effects, [Announce(st.name)], st.run.effects);
  }

  /** Once a step has raised, the steps after it change nothing. */
  lemma {:induction false} RunStepsStopped(steps: seq<Step>, more: seq<Step>)
    requires RunSteps(steps).error.Some?
    ensures RunSteps(steps + more) == RunSteps(steps)
    decreases |steps|
  {
    var all := steps + more;
    assert all[0] == steps[0] && all[1..] == steps[1..] + more;
    if steps[0].run.error.None? {
      RunStepsStopped(steps[1..], more);
    }
  }
}
