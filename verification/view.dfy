/**
 * The NextStepsView component as a state machine: the two screen flags of
 * its React state, the key of the expanded accordion card, the save
 * requests it has sent to the preference store, and the timers it has
 * armed to switch to the final screen.
 */
module View {
  import opened Sequencer

  /** The preference category under which finished steps are stored. */
  const RecommendedNextSteps: string := "recommended_next_steps"

  /** Delay, in milliseconds, between the transition and the final screen. */
  const TransitionScreenTimeout: nat := 1000

  /** The component's React state. */
  datatype ViewState = ViewState(showFinalScreen: bool, showTransitionScreen: bool)

  /** One call of the external savePreferences action. */
  datatype SaveRequest = SaveRequest(userId: string, preferences: seq<PreferenceRecord>)

  /** The record that marks step `id` finished for user `userId`. */
  function CompletionRecord(userId: string, id: StepId): (p: PreferenceRecord)
    ensures p.category == RecommendedNextSteps && p.userId == userId
    ensures MarksComplete(p, id)
    ensures forall other :: other != id ==> !MarksComplete(p, other)
  {
    PreferenceRecord(RecommendedNextSteps, userId, id, "true")
  }

  /** No flag that was set in `before` is cleared in `after`. */
  predicate NoFlagLowered(before: ViewState, after: ViewState)
  {
    && (before.showFinalScreen ==> after.showFinalScreen)
    && (before.showTransitionScreen ==> after.showTransitionScreen)
  }

  class NextStepsView {
    /** The configured steps, in display order. */
    const steps: seq<StepId>
    /** The signed-in user, as passed in by the parent. */
    const currentUserId: string
    /** The preference records passed in by the parent; the view never writes them. */
    var preferences: seq<PreferenceRecord>

    var state: ViewState
    /** The card the accordion shows expanded. */
    var expandedKey: StepId
    /** Every savePreferences request sent so far, oldest first. */
    var saveLog: seq<SaveRequest>
    /** Delays of the timers armed and not yet fired, in arming order. */
    var armedTimers: seq<nat>

    /**
     * The step list is well formed, and a timer is only ever pending while
     * the transition screen shows.
     */
    ghost predicate Valid()
      reads this
    {
      ValidSteps(steps) && (armedTimers != [] ==> state.showTransitionScreen)
    }

    /**
     * The component starts on the main view with nothing saved; the
     * accordion opens the starting step.
     */
    constructor (steps: seq<StepId>, currentUserId: string, preferences: seq<PreferenceRecord>)
      requires ValidSteps(steps)
      ensures Valid()
      ensures this.steps == steps && this.currentUserId == currentUserId
      ensures this.preferences == preferences
      ensures state == ViewState(false, false)
      ensures expandedKey == StartingStep(steps, preferences)
      ensures saveLog == [] && armedTimers == []
    {
      this.steps := steps;
      this.currentUserId := currentUserId;
      this.preferences := preferences;
      state := ViewState(false, false);
      saveLog := [];
      armedTimers := [];
      new;
      expandedKey := GetStartingStep();
    }

    /**
     * The first incomplete step in list order, or the first step when all
     * are complete.
     */
    method GetStartingStep() returns (id: StepId)
      requires |steps| > 0
      ensures id == StartingStep(steps, preferences)
    {
      for i := 0 to |steps|
        invariant forall j :: 0 <= j < i ==> IsStepComplete(preferences, steps[j])
      {
        if !IsStepComplete(preferences, steps[i]) {
          return steps[i];
        }
      }
      return steps[0];
    }

    /** The "skip getting started" button: straight to the final screen. */
    method ShowFinalScreen()
      requires Valid()
      modifies this`state
      ensures Valid()
      ensures state == old(state).(showFinalScreen := true)
      ensures NoFlagLowered(old(state), state)
    {
      state := state.(showFinalScreen := true);
    }

    /** Show the transition screen. */
    method TransitionToFinalScreen()
      requires Valid()
      modifies this`state
      ensures Valid()
      ensures state == old(state).(showTransitionScreen := true)
      ensures NoFlagLowered(old(state), state)
    {
      state := state.(showTransitionScreen := true);
    }

    /**
     * The transition screen's animation ended: arm a timer to the final
     * screen, but only while the transition screen shows. Every call arms
     * one more timer.
     */
    method SetTimerToFinalScreen()
      requires Valid()
      modifies this`armedTimers
      ensures Valid()
      ensures state == old(state)
      ensures state == old(state)
      ensures armedTimers ==
        if state.showTransitionScreen then old(armedTimers) + [TransitionScreenTimeout] else old(armedTimers)
    {
      if state.showTransitionScreen {
        armedTimers := armedTimers + [TransitionScreenTimeout];
      }
    }

    /**
     * The oldest armed timer fires and shows the final screen; the
     * transition screen is then already showing.
     */
    method FireTimer()
      requires Valid()
      requires armedTimers != []
      modifies this`state, this`armedTimers
      ensures Valid()
      ensures armedTimers == old(armedTimers)[1..]
      ensures state == old(state).(showFinalScreen := true)
      ensures state.showTransitionScreen
      ensures NoFlagLowered(old(state), state)
    {
      armedTimers := armedTimers[1..];
      state := state.(showFinalScreen := true);
    }

    /** The view did what `nav` asks, and nothing else of its state changed. */
    twostate predicate NavigatedBy(nav: Navigation)
      reads this
    {
      match nav
      case Expand(key) => expandedKey == key && state == old(state)
      case Transition => expandedKey == old(expandedKey) && state == old(state).(showTransitionScreen := true)
    }

    /**
     * Advance from step `id`: expand the next incomplete step after it,
     * skipping complete ones, or show the transition screen when the end
     * of the list is reached. The step expanded is never complete.
     */
    method NextStep(id: StepId)
      requires Valid()
      modifies this`expandedKey, this`state
      decreases |steps| - FindIndex(steps, id)
      ensures Valid()
      ensures NavigatedBy(Advance(steps, preferences, id))
      ensures expandedKey != old(expandedKey) ==> expandedKey in steps && !IsStepComplete(preferences, expandedKey)
      ensures NoFlagLowered(old(state), state)
    {
      var currentIndex := FindIndex(steps, id);
      if currentIndex + 1 > |steps| - 1 {
        TransitionToFinalScreen();
      } else if IsStepComplete(preferences, steps[currentIndex + 1]) {
        IndexOfDistinct(steps, currentIndex + 1);
        AdvanceSkipsComplete(steps, preferences, id);
        NextStep(steps[currentIndex + 1]);
      } else {
        expandedKey := steps[currentIndex + 1];
      }
    }

    /** A step's "skip" button: navigate on, record nothing. */
    method OnSkip(id: StepId)
      requires Valid()
      modifies this`expandedKey, this`state
      ensures Valid()
      ensures saveLog == old(saveLog)
      ensures NavigatedBy(Advance(steps, preferences, id))
      ensures NoFlagLowered(old(state), state)
    {
      NextStep(id);
    }

    /**
     * A step's "finish" button: send exactly one save request marking `id`
     * finished, then navigate exactly as skipping would, judged on the
     * preferences as they were passed in (the saved record is not in them).
     */
    method OnFinish(id: StepId)
      requires Valid()
      modifies this`saveLog, this`expandedKey, this`state
      ensures Valid()
      ensures saveLog == old(saveLog) + [SaveRequest(currentUserId, [CompletionRecord(currentUserId, id)])]
      ensures preferences == old(preferences)
      ensures NavigatedBy(Advance(steps, preferences, id))
      ensures NoFlagLowered(old(state), state)
      ensures IsStepComplete(preferences + saveLog[|saveLog| - 1].preferences, id)
    {
      saveLog := saveLog + [SaveRequest(currentUserId, [CompletionRecord(currentUserId, id)])];
      SavedRecordCompletes(preferences, RecommendedNextSteps, currentUserId, id);
      NextStep(id);
    }
  }

  /**
   * Navigating on the preferences before or after the store applies the
   * record that finishing `id` saves gives the same result: that record
   * names `id`, and advancing only consults the steps after `id`.
   */
  lemma AdvanceIgnoresOwnCompletion(steps: seq<StepId>, prefs: seq<PreferenceRecord>, userId: string, id: StepId)
    requires Distinct(steps)
    ensures Advance(steps, prefs + [CompletionRecord(userId, id)], id) == Advance(steps, prefs, id)
  {
    var saved := prefs + [CompletionRecord(userId, id)];
    var c := FindIndex(steps, id);
    forall j | c < j < |steps|
      ensures IsStepComplete(saved, steps[j]) == IsStepComplete(prefs, steps[j])
    {
      assert steps[j] != id;
      if IsStepComplete(prefs, steps[j]) {
        CompletionPersists(prefs, [CompletionRecord(userId, id)], steps[j]);
      }
      if IsStepComplete(saved, steps[j]) {
        var i :| 0 <= i < |saved| && MarksComplete(saved[i], steps[j]);
        assert i < |prefs| && prefs[i] == saved[i];
      }
    }
    var after := Advance(steps, saved, id);
    if after.Expand? {
      var k :| 0 <= k < |steps| && steps[k] == after.key;
      AdvanceExpandsNextIncomplete(steps, saved, id, k);
      AdvanceExpandsNextIncomplete(steps, prefs, id, k);
    }
  }
}
