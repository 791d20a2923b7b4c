# Next steps view: step sequencer and view state

A Dafny model of the sequencing core of Mattermost's `NextStepsView`, the onboarding
wizard that shows a fixed, ordered list of setup steps as an accordion of cards,
then a transition screen ("Nicely done!"), then the final tips screen.

Two modules:

- `Sequencer` (`sequencer.dfy`) holds the pure logic. A step is complete when some
  preference record names it with a truthy (non-empty) value. The accordion opens
  the first incomplete step, or the first step when every step is complete.
  Advancing from a step expands the first incomplete step after it, skipping
  complete ones, or reaches the end of the list. `NextIncompleteIndex` is the
  reference scan, written index by index; `StartingStep` and `Advance` are defined
  through it, and the lemmas state the first-incomplete and skip-ahead properties
  in both directions.
- `View` (`view.dfy`) holds the class `NextStepsView`. Its fields are the
  component's two state flags (`showFinalScreen`, `showTransitionScreen`), the
  expanded accordion key, a log of `savePreferences` requests and the timers armed
  towards the final screen. The handlers are methods. The recursive `NextStep`
  method mirrors the component's recursion and is proved against
  `Sequencer.Advance`. `OnFinish` appends exactly one save request and then
  navigates exactly as `OnSkip` does, on the unchanged preference props.

The step list is a nonempty sequence of distinct ids (`ValidSteps`). Distinctness
matters: `nextStep` finds the current position with `findIndex`, the first
occurrence. With a repeated id, such as steps `[A, B, A]` with A and B complete,
advancing from `A` would loop forever. The termination measure of `NextStep` is
`|steps| - FindIndex(steps, id)`. It decreases because, for distinct ids, the
successor is found at its own position (`IndexOfDistinct`).

The view never switches a flag back to false: every handler that can change the state
ensures `NoFlagLowered`, and `SetTimerToFinalScreen` leaves the state unchanged. A
timer can only be pending while the transition screen shows (`Valid`). So the
final screen is reached either directly, through "skip getting started", or after
the transition screen.

## Model

| member | source | states |
|---|---|---|
| Sequencer.IsStepComplete | components/next_steps_view/next_steps_view.tsx:114-116 | complete exactly when some record has name == id and a non-empty value; an id no record names is incomplete |
| Sequencer.FindIndex | components/next_steps_view/next_steps_view.tsx:104 | the position of the first occurrence of id, and -1 exactly when id is not in the list |
| Sequencer.IndexOfDistinct | components/next_steps_view/next_steps_view.tsx:104-108 | in a list without duplicates, the successor steps[c+1] is found at c+1, so each recursive call starts strictly later |
| Sequencer.NextIncompleteIndex | components/next_steps_view/next_steps_view.tsx:103-112 | the least index at or after `from` whose step is incomplete, or the list length when every step from there on is complete |
| Sequencer.StartingStep | components/next_steps_view/next_steps_view.tsx:58-65 | the starting step is a listed step, and it is incomplete unless every step is complete |
| Sequencer.StartingStepIsFirstIncomplete | components/next_steps_view/next_steps_view.tsx:58-65 | the starting step is steps[i] if and only if steps[i] is incomplete and all earlier steps are complete, or i is 0 and all steps are complete |
| Sequencer.Advance | components/next_steps_view/next_steps_view.tsx:103-112 | an expanded key is a listed, incomplete step; the transition is reached exactly when every step after the current position is complete |
| Sequencer.AdvanceExpandsNextIncomplete | components/next_steps_view/next_steps_view.tsx:103-112 | steps[k] is expanded if and only if k is after the current position, steps[k] is incomplete and every step strictly in between is complete |
| Sequencer.AdvanceFromLastStep | components/next_steps_view/next_steps_view.tsx:104-106 | advancing from the last step reaches the transition whatever the preferences |
| Sequencer.AdvanceFromUnknownId | components/next_steps_view/next_steps_view.tsx:104-110 | an id not in the list (findIndex -1) scans from the first step: it expands the starting step, or reaches the transition exactly when every step is complete |
| Sequencer.AdvanceSkipsComplete | components/next_steps_view/next_steps_view.tsx:107-108 | when the successor is complete, advancing from id ends where advancing from that successor ends |
| Sequencer.CompletionPersists | components/next_steps_view/next_steps_view.tsx:114-116 | appending records never makes a complete step incomplete |
| Sequencer.SavedRecordCompletes | components/next_steps_view/next_steps_view.tsx:76-81 | a record named id with value "true" makes step id complete, whatever its category and user |
| View.CompletionRecord | components/next_steps_view/next_steps_view.tsx:76-81 | the saved record has category RECOMMENDED_NEXT_STEPS, the current user, and marks step id complete and no other step |
| View.AdvanceIgnoresOwnCompletion | components/next_steps_view/next_steps_view.tsx:74-85 | navigating after finishing id gives the same result whether or not the store has already applied the record just saved for id |
| View.NextStepsView.constructor | components/next_steps_view/next_steps_view.tsx:40-47 | both flags start false, nothing is saved and no timer is armed; the accordion opens the starting step |
| View.NextStepsView.GetStartingStep | components/next_steps_view/next_steps_view.tsx:58-66 | the indexed scan with early return yields the first incomplete step, or the first step when all are complete |
| View.NextStepsView.ShowFinalScreen | components/next_steps_view/next_steps_view.tsx:87-89 | sets showFinalScreen and nothing else, lowers no flag; from the main view this skips the transition screen |
| View.NextStepsView.TransitionToFinalScreen | components/next_steps_view/next_steps_view.tsx:91-93 | sets showTransitionScreen and nothing else, lowers no flag |
| View.NextStepsView.SetTimerToFinalScreen | components/next_steps_view/next_steps_view.tsx:95-101 | arms one more timer of 1000 ms when the transition screen shows, otherwise changes nothing; the state flags never change |
| View.NextStepsView.FireTimer | components/next_steps_view/next_steps_view.tsx:97-99 | the oldest timer fires and sets showFinalScreen; the transition screen is then showing |
| View.NextStepsView.NextStep | components/next_steps_view/next_steps_view.tsx:103-112 | terminates; expands exactly Advance's key, leaving the flags alone, or shows the transition screen, leaving the expanded key alone; the key it expands is never complete |
| View.NextStepsView.OnSkip | components/next_steps_view/next_steps_view.tsx:68-72 | navigates as NextStep, saves nothing and lowers no flag |
| View.NextStepsView.OnFinish | components/next_steps_view/next_steps_view.tsx:74-85 | appends exactly one save request with the completion record, after which applying that request makes id complete; then navigates as OnSkip on the unchanged preference props, lowering no flag |

## Left out

- Rendering is not modelled: `renderStep`, `renderTransitionScreen`, `renderMainBody` and `render`, with their class names, cards, accordion and localised text. This is UI built on libraries that are not part of this model. The card header button that calls `setExpanded(step.id)` belongs to it.
- `getLogo` is not modelled. It is a switch with only a default branch, returning a static image.
- Wall-clock time is not modelled. `setTimeout` becomes an entry in `armedTimers`, and its expiry becomes the explicit `FireTimer` event. React's asynchronous `setState` batching is not modelled either; each `setState` takes effect at once.
- `./steps` is not part of this model: the steps' titles and components are left out, and `Steps` is an abstract list of distinct ids.
- `utils/constants` is not part of this model. `Preferences.RECOMMENDED_NEXT_STEPS` is taken to be "recommended_next_steps".
- The redux store behind `savePreferences` is not modelled. A save is only recorded in `saveLog`. Changes of the `preferences` prop by the parent are assignments to the field from outside; no handler writes it.
- `setShowNextStepsView` is declared in the props but never called, so it is not modelled.
- The accordion's own state is modelled only as the `expandedKey` field. Its initial value is the starting step, the `defaultExpandedKey` of next_steps_view.tsx line 211.
