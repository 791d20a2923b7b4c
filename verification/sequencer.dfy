/**
 * The step sequencer of the "next steps" onboarding view: which steps are
 * done, which step the accordion opens first, and which step comes next.
 *
 * Everything here is a pure function of the step list and of the
 * preference records the view receives; the view itself (module View)
 * acts on the answers.
 */
module Sequencer {

  /** A step is named by its id; the step list is fixed configuration. */
  type StepId = string

  /** One preference record as the store delivers it. */
  datatype PreferenceRecord = PreferenceRecord(category: string, userId: string, name: string, value: string)

  /** What advancing from a step asks the view to do. */
  datatype Navigation =
    | Expand(key: StepId)   // open the card of this step
    | Transition            // the end of the list was reached

  /** No id occurs twice in the list. */
  predicate Distinct(steps: seq<StepId>)
  {
    forall i, j :: 0 <= i < j < |steps| ==> steps[i] != steps[j]
  }

  /** The configured step list: at least one step, ids unique. */
  predicate ValidSteps(steps: seq<StepId>)
  {
    |steps| > 0 && Distinct(steps)
  }

  /** JavaScript truthiness of a string: only the empty string is falsy. */
  predicate Truthy(v: string)
  {
    v != ""
  }

  /** The record says that step `id` is done. */
  predicate MarksComplete(p: PreferenceRecord, id: StepId)
  {
    p.name == id && Truthy(p.value)
  }

  /**
   * A step is complete exactly when some record carries its id as name and
   * a truthy value; category and user are not consulted, and an id that
   * no record names is incomplete.
   */
  function IsStepComplete(prefs: seq<PreferenceRecord>, id: StepId): (complete: bool)
    ensures complete <==> exists i :: 0 <= i < |prefs| && MarksComplete(prefs[i], id)
  {
    if prefs == [] then false
    else if MarksComplete(prefs[0], id) then true
    else
      var rest := IsStepComplete(prefs[1..], id);
      assert forall i :: 1 <= i < |prefs| ==> prefs[i] == prefs[1..][i - 1];
      rest
  }

  /**
   * Position of the first step whose id is `id`, or -1 when there is none
   * (the behaviour of Array.prototype.findIndex).
   */
  function FindIndex(steps: seq<StepId>, id: StepId): (i: int)
    ensures -1 <= i < |steps|
    ensures i == -1 <==> id !in steps
    ensures 0 <= i ==> steps[i] == id && forall j :: 0 <= j < i ==> steps[j] != id
  {
    if steps == [] then -1
    else if steps[0] == id then 0
    else
      var r := FindIndex(steps[1..], id);
      if r == -1 then -1 else r + 1
  }

  /** In a list without duplicates an id is found at its own position. */
  lemma IndexOfDistinct(steps: seq<StepId>, k: int)
    requires Distinct(steps)
    requires 0 <= k < |steps|
    ensures FindIndex(steps, steps[k]) == k
  {
  }

  /**
   * The first position at or after `from` whose step is incomplete, or
   * |steps| when every step from there on is complete.
   */
  function NextIncompleteIndex(steps: seq<StepId>, prefs: seq<PreferenceRecord>, from: nat): (k: nat)
    requires from <= |steps|
    decreases |steps| - from
    ensures from <= k <= |steps|
    ensures forall j :: from <= j < k ==> IsStepComplete(prefs, steps[j])
    ensures k < |steps| ==> !IsStepComplete(prefs, steps[k])
  {
    if from == |steps| then from
    else if !IsStepComplete(prefs, steps[from]) then from
    else NextIncompleteIndex(steps, prefs, from + 1)
  }

  /**
   * The step the accordion opens first: the first incomplete step, or the
   * first step when all of them are complete.
   */
  function StartingStep(steps: seq<StepId>, prefs: seq<PreferenceRecord>): (id: StepId)
    requires |steps| > 0
    ensures id in steps
    ensures !IsStepComplete(prefs, id) || forall j :: 0 <= j < |steps| ==> IsStepComplete(prefs, steps[j])
  {
    var k := NextIncompleteIndex(steps, prefs, 0);
    if k < |steps| then steps[k] else steps[0]
  }

  /**
   * Where advancing from `id` leads: the first incomplete step after the
   * position of `id` (after position -1, i.e. from the first step, when
   * `id` is not in the list), or the transition when there is none.
   */
  function Advance(steps: seq<StepId>, prefs: seq<PreferenceRecord>, id: StepId): (nav: Navigation)
    ensures nav.Expand? ==> nav.key in steps && !IsStepComplete(prefs, nav.key)
    ensures nav == Transition <==>
      forall j :: FindIndex(steps, id) < j < |steps| ==> IsStepComplete(prefs, steps[j])
  {
    var k := NextIncompleteIndex(steps, prefs, FindIndex(steps, id) + 1);
    if k < |steps| then Expand(steps[k]) else Transition
  }

  /**
   * The starting step is steps[i] exactly when steps[i] is the first
   * incomplete step, or when i is 0 and every step is complete.
   */
  lemma StartingStepIsFirstIncomplete(steps: seq<StepId>, prefs: seq<PreferenceRecord>, i: int)
    requires ValidSteps(steps)
    requires 0 <= i < |steps|
    ensures StartingStep(steps, prefs) == steps[i] <==>
      || (!IsStepComplete(prefs, steps[i]) && forall j :: 0 <= j < i ==> IsStepComplete(prefs, steps[j]))
      || (i == 0 && forall j :: 0 <= j < |steps| ==> IsStepComplete(prefs, steps[j]))
  {
  }

  /**
   * Advancing from `id` expands steps[k] exactly when k lies after the
   * position of `id`, steps[k] is incomplete and every step strictly in
   * between is complete.
   */
  lemma AdvanceExpandsNextIncomplete(steps: seq<StepId>, prefs: seq<PreferenceRecord>, id: StepId, k: int)
    requires Distinct(steps)
    requires 0 <= k < |steps|
    ensures Advance(steps, prefs, id) == Expand(steps[k]) <==>
      && FindIndex(steps, id) < k
      && !IsStepComplete(prefs, steps[k])
      && forall j :: FindIndex(steps, id) < j < k ==> IsStepComplete(prefs, steps[j])
  {
  }

  /** Advancing from the last step always reaches the transition. */
  lemma AdvanceFromLastStep(steps: seq<StepId>, prefs: seq<PreferenceRecord>)
    requires ValidSteps(steps)
    ensures Advance(steps, prefs, steps[|steps| - 1]) == Transition
  {
  }

  /**
   * An id that is not in the list scans from the first step: it expands
   * the starting step, unless every step is complete.
   */
  lemma AdvanceFromUnknownId(steps: seq<StepId>, prefs: seq<PreferenceRecord>, id: StepId)
    requires |steps| > 0
    requires id !in steps
    ensures Advance(steps, prefs, id) == Transition <==>
      forall j :: 0 <= j < |steps| ==> IsStepComplete(prefs, steps[j])
    ensures Advance(steps, prefs, id).Expand? ==> Advance(steps, prefs, id).key == StartingStep(steps, prefs)
  {
  }

  /**
   * Skipping a complete successor: when the step after `id` is complete,
   * advancing from `id` ends where advancing from that successor does.
   */
  lemma AdvanceSkipsComplete(steps: seq<StepId>, prefs: seq<PreferenceRecord>, id: StepId)
    requires Distinct(steps)
    requires FindIndex(steps, id) + 1 < |steps|
    requires IsStepComplete(prefs, steps[FindIndex(steps, id) + 1])
    ensures Advance(steps, prefs, id) == Advance(steps, prefs, steps[FindIndex(steps, id) + 1])
  {
  }

  /** Records added later never make a complete step incomplete again. */
  lemma {:induction false} CompletionPersists(prefs: seq<PreferenceRecord>, more: seq<PreferenceRecord>, id: StepId)
    requires IsStepComplete(prefs, id)
    ensures IsStepComplete(prefs + more, id)
  {
    var i :| 0 <= i < |prefs| && MarksComplete(prefs[i], id);
    assert (prefs + more)[i] == prefs[i];
  }

  /** A record named `id` with value "true" makes step `id` complete. */
  lemma {:induction false} SavedRecordCompletes(prefs: seq<PreferenceRecord>, category: string, userId: string, id: StepId)
    ensures IsStepComplete(prefs + [PreferenceRecord(category, userId, id, "true")], id)
  {
    var all := prefs + [PreferenceRecord(category, userId, id, "true")];
    assert MarksComplete(all[|prefs|], id);
  }
}
