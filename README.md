# Portfolio page logic, modelled in Dafny

This project models the three pieces of logic in a single-page React portfolio site:

- **Project showcase** (`projects.dfy`, module `Projects`). The page has a fixed catalogue of six project
  records and a category selector in which `"All"` turns filtering off. Each project card shows its
  first three tech tags and a `+k` badge for the rest. A slot holds the project whose detail modal is
  open. The filter is a pure function, with lemmas for its soundness, completeness, order and
  idempotence. The two state slots form a small class with one method per click handler.
- **Contact form** (`contact.dfy`, module `Contact`). A `{name, email, message}` record is edited one
  field at a time. The flags `isSubmitting` and `isSubmitted` run Idle → Submitting → Submitted → Idle,
  and the return to Idle clears the fields. The submit button is disabled while either flag is set.
  The pure transition function `Next` over a `FormState` value is the specification. The class
  `ContactForm` implements each handler and each timer as a method proved equal to `Next`. Lemmas
  about `Next` and about event runs state the invariants.
- **Loading screen** (`loading.dfy`, module `Loading`). An interval adds 2 to `progress` until it
  reaches 100. The next tick keeps it at 100, clears the interval and schedules the completion
  callback. `Update` is the interval's updater and `Ticks` gives the state after `n` firings. The
  class `LoadingScreen` has a `Tick` method and a `RunInterval` loop that drives the interval until it
  clears itself.

`wrappers.dfy` holds `Option` and `Min`.

The two timers of the contact form are events, not durations: the 1500 ms simulated send is
`SendDelayElapsed`, and the 3000 ms acknowledgment window is `ResetDelayElapsed`. The model
identifies the pending send timer with `isSubmitting` and the pending reset timer with
`isSubmitted`, so a timer event is enabled only while its flag is set. This relies on the disabled
button: no second submit can start while either flag is set (`SingleFlight`). The
loading interval's 30 ms period is likewise one `Tick` event.

The contact form has no network call. The send at `src/components/ContactSection.tsx:30-31` is a
fixed delay that always succeeds, and the only toast is the success toast. There is no honeypot
field, no trimming of field values, no HTTP endpoint and no failure path. The only validation is the
browser's: the three `required` inputs (lines 93, 112, 132) must be non-empty, and the
`type="email"` input (line 109) must hold a well-formed address. The model keeps the first check
and leaves out the second (see "Left out").

## Model

| member | source | states |
|---|---|---|
| `Projects.Catalogue` | src/components/ProjectsSection.tsx:6-81 | the catalogue has six projects; their ids are distinct; every project's category is a selector entry other than "All" |
| `Projects.WithCategory` | src/components/ProjectsSection.tsx:91 | the filtered list is no longer than the input; every project in it is in the input and has the requested category |
| `Projects.WithCategoryIsSubsequence` | src/components/ProjectsSection.tsx:91 | the filtered list is an order-preserving subsequence of the input |
| `Projects.WithCategoryComplete` | src/components/ProjectsSection.tsx:91 | every project of the requested category appears in the filtered list |
| `Projects.WithCategoryIdempotent` | src/components/ProjectsSection.tsx:91 | filtering the filtered list again by the same category returns it unchanged |
| `Projects.FilteredSpec` | src/components/ProjectsSection.tsx:89-91 | "All" shows the whole list; any other entry shows exactly the projects of that category (both directions), in order, as a subsequence no longer than the list; filtering twice changes nothing |
| `Projects.EveryProjectHasACategoryButton` | src/components/ProjectsSection.tsx:6-91 | every catalogue project is shown under some selector entry other than "All" |
| `Projects.SliceFront` | src/components/ProjectsSection.tsx:180 | `slice(0, n)` yields a prefix of length min(n, length) |
| `Projects.TagRowOf` | src/components/ProjectsSection.tsx:179-192 | a card shows the first min(3, \|tech\|) tags; the badge appears iff \|tech\| > 3; shown tags plus the badge number equal \|tech\|; without a badge every tag is shown |
| `Projects.ProjectsView.Visible` | src/components/ProjectsSection.tsx:89-91 | every card on screen is a catalogue project |
| `Projects.ProjectsView.constructor` | src/components/ProjectsSection.tsx:84-85 | starts on "All" with no modal open, so the whole catalogue is visible |
| `Projects.ProjectsView.SelectCategory` | src/components/ProjectsSection.tsx:120-123 | the clicked entry becomes active; the modal slot is unchanged |
| `Projects.ProjectsView.OpenDetails` | src/components/ProjectsSection.tsx:153 | the clicked visible project fills the modal slot; the active entry is unchanged |
| `Projects.ProjectsView.CloseDetails` | src/components/ProjectsSection.tsx:210-226 | the modal slot is emptied; the active entry is unchanged |
| `Contact.Initial` | src/components/ContactSection.tsx:15-21 | all three fields are empty, both flags are false, no toast has been shown |
| `Contact.SetField` | src/components/ContactSection.tsx:47-52 | the named field takes the new value; the other two keep theirs |
| `Contact.InitialSatisfiesInv` | src/components/ContactSection.tsx:15-21 | the initial state satisfies the invariant |
| `Contact.NextPreservesInv` | src/components/ContactSection.tsx:28-44 | every event preserves the invariant: never both flags, only the success toast |
| `Contact.ChangeTouchesOneField` | src/components/ContactSection.tsx:47-52 | a keystroke sets only the named field; flags and toasts are unchanged |
| `Contact.SubmitFromIdle` | src/components/ContactSection.tsx:26-28 | an accepted submit from Idle sets `isSubmitting` and leaves the fields untouched |
| `Contact.SingleFlight` | src/components/ContactSection.tsx:152 | while either flag is set a submit attempt changes nothing |
| `Contact.FieldsChangeOnlyByEditOrReset` | src/components/ContactSection.tsx:41-52 | the fields change only on a keystroke or when the acknowledgment window ends |
| `Contact.ButtonLabelShowsPhase` | src/components/ContactSection.tsx:154-178 | in a reachable state, "Message Sent!" iff submitted, "Sending..." iff submitting, and "Send Message" iff the button is enabled |
| `Contact.RunPreservesInv` | src/components/ContactSection.tsx:26-52 | every state reached by any run of events keeps the invariant |
| `Contact.ToastPerResolvedSend` | src/components/ContactSection.tsx:31-38 | over any run, exactly one toast is appended per resolved send and earlier toasts are kept |
| `Contact.SuccessCycle` | src/components/ContactSection.tsx:26-45 | submit, send resolves, window ends: the form is back to Idle with empty fields and exactly one more toast |
| `Contact.ContactForm.constructor` | src/components/ContactSection.tsx:15-21 | the component starts in the initial state |
| `Contact.ContactForm.HandleChange` | src/components/ContactSection.tsx:47-52 | the new state is `Next` of a keystroke: only the named field changes |
| `Contact.ContactForm.HandleSubmit` | src/components/ContactSection.tsx:26-28 | the attempt gets through iff the button is enabled and the required fields are filled; it then sets `isSubmitting` and keeps the fields |
| `Contact.ContactForm.SendDelayElapsed` | src/components/ContactSection.tsx:31-38 | `isSubmitting` becomes false and `isSubmitted` true; one success toast is appended; fields kept |
| `Contact.ContactForm.ResetDelayElapsed` | src/components/ContactSection.tsx:41-44 | both flags false and all fields empty |
| `Loading.Update` | src/components/LoadingScreen.tsx:13-20 | one tick never lowers a progress at or below 100 and schedules at most one completion |
| `Loading.TicksFromStart` | src/components/LoadingScreen.tsx:9-21 | after n ticks from 0, progress is 2n and the interval is active for n ≤ 50; after that, progress is 100, the interval is cleared and completion has been scheduled once |
| `Loading.ProgressInRange` | src/components/LoadingScreen.tsx:9-19 | progress always lies in [0, 100] and is even |
| `Loading.ProgressMonotone` | src/components/LoadingScreen.tsx:13-20 | progress never decreases from one tick to a later one |
| `Loading.FullAfterFiftyTicks` | src/components/LoadingScreen.tsx:12-21 | progress is 100 iff at least 50 ticks have fired |
| `Loading.CompletionScheduledOnce` | src/components/LoadingScreen.tsx:14-17 | completion is scheduled on tick 51 and never again; the interval is active exactly through tick 50 |
| `Loading.LoadingScreen.constructor` | src/components/LoadingScreen.tsx:9-12 | mounting starts at progress 0 with the interval active |
| `Loading.LoadingScreen.Tick` | src/components/LoadingScreen.tsx:13-20 | below 100 a tick adds exactly 2; at 100 it keeps 100, clears the interval and schedules completion once |
| `Loading.LoadingScreen.RunInterval` | src/components/LoadingScreen.tsx:12-21 | the interval fires until it clears itself, 51 firings from mount, ending at 100 with completion scheduled exactly once |

## Left out

- Animation (framer-motion variants, delays, durations, hover and layout effects), styling and all static text: presentation without logic.
- The project fields `description`, `longDescription`, `image`, `liveUrl`, `githubUrl` and `color`: only rendered, never computed on.
- The loading screen's floating particles: they use `Math.random()` and window dimensions.
- Wall-clock durations (30 ms, 500 ms, 1500 ms, 3000 ms): each timer is one discrete event.
- The 500 ms delay before `onLoadingComplete` runs, and its consumer in `src/pages/Index.tsx`, which sets `isLoading` to false: the model counts the scheduling only.
- Re-running the loading effect when the `onLoadingComplete` prop changes identity, and React development-mode double invocation of state updaters: the model assumes one interval per mount.
- The toast hook: it is a foreign call, so the model only appends the toast's title and description to a log.
- Browser constraint validation beyond emptiness: the format check of the `type="email"` input and the browser's trimming of the email value are not modelled. A submit attempt needs only that all three fields are non-empty.
- Unmounting while a timer is pending: timers in the model always belong to a mounted component.
- Hero, About, Interests and Footer sections: static content, DOM scrolling and the system clock.
