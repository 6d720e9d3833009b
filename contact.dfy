/**
 * The contact form: a three-field record edited one field at a time and a
 * submission that runs Idle -> Submitting -> Submitted -> Idle. The send is
 * simulated by a delay and the acknowledgment by a second delay; both delays
 * are modelled as events. There is no failure path: every send succeeds.
 */
module Contact {
  import opened Wrappers

  datatype Field = Name | Email | Message

  datatype FormData = FormData(name: string, email: string, message: string)

  const EmptyForm: FormData := FormData("", "", "")

  /** A notification shown through the toast hook. */
  datatype Toast = Toast(title: string, description: string)

  /** The only notification the form emits. */
  const SentToast: Toast := Toast("Message sent!", "Thanks for reaching out. I'll get back to you soon!")

  /**
   * The form's state: the field values, the two flags, and every toast emitted
   * so far. A pending send timer is `isSubmitting`; a pending reset timer is `isSubmitted`.
   */
  datatype FormState = FormState(data: FormData, isSubmitting: bool, isSubmitted: bool, toasts: seq<Toast>)

  datatype Event =
    | Change(field: Field, value: string)   // a keystroke in one of the inputs
    | Submit                                // the submit button, or Enter in a field
    | SendDelayElapsed                      // the simulated send resolves
    | ResetDelayElapsed                     // the acknowledgment window ends

  function Initial(): (s: FormState)
    ensures s.data.name == "" && s.data.email == "" && s.data.message == ""
    ensures !s.isSubmitting && !s.isSubmitted && s.toasts == []
  {
    FormState(EmptyForm, false, false, [])
  }

  function Get(d: FormData, f: Field): string
  {
    match f
    case Name => d.name
    case Email => d.email
    case Message => d.message
  }

  /** The record after an input named `f` reports the value `v`. */
  function SetField(d: FormData, f: Field, v: string): (r: FormData)
    ensures Get(r, f) == v
    ensures forall g :: g != f ==> Get(r, g) == Get(d, g)
  {
    match f
    case Name => d.(name := v)
    case Email => d.(email := v)
    case Message => d.(message := v)
  }

  /** The submit button's `disabled` attribute. */
  predicate SubmitDisabled(s: FormState)
  {
    s.isSubmitting || s.isSubmitted
  }

  /** The browser's check of the three `required` inputs. */
  predicate RequiredFilled(d: FormData)
  {
    d.name != "" && d.email != "" && d.message != ""
  }

  /** Whether a submit attempt reaches the handler. */
  predicate SubmitAccepted(s: FormState)
  {
    !SubmitDisabled(s) && RequiredFilled(s.data)
  }

  /** The submit button's label. */
  function ButtonLabel(s: FormState): string
  {
    if s.isSubmitted then "Message Sent!"
    else if s.isSubmitting then "Sending..."
    else "Send Message"
  }

  /** A timer event can only happen while its timer is pending. */
  predicate Enabled(s: FormState, e: Event)
  {
    match e
    case SendDelayElapsed => s.isSubmitting
    case ResetDelayElapsed => s.isSubmitted
    case _ => true
  }

  /** The state after an event. */
  function Next(s: FormState, e: Event): FormState
    requires Enabled(s, e)
  {
    match e
    case Change(f, v) => s.(data := SetField(s.data, f, v))
    case Submit => if SubmitAccepted(s) then s.(isSubmitting := true) else s
    case SendDelayElapsed => s.(isSubmitting := false, isSubmitted := true, toasts := s.toasts + [SentToast])
    case ResetDelayElapsed => s.(isSubmitted := false, data := EmptyForm)
  }

  /** The state invariant: never both flags, and only the success toast is ever emitted. */
  ghost predicate Inv(s: FormState)
  {
    && !(s.isSubmitting && s.isSubmitted)
    && forall i :: 0 <= i < |s.toasts| ==> s.toasts[i] == SentToast
  }

  /** Runs a sequence of events; `None` when some event is not enabled when it arrives. */
  function Run(s: FormState, events: seq<Event>): Option<FormState>
    decreases |events|
  {
    if events == [] then Some(s)
    else if !Enabled(s, events[0]) then None
    else Run(Next(s, events[0]), events[1..])
  }

  /** How many simulated sends resolve in `events`. */
  function SendsResolved(events: seq<Event>): nat
  {
    if events == [] then 0
    else (if events[0] == SendDelayElapsed then 1 else 0) + SendsResolved(events[1..])
  }

  // ---------------------------------------------------------------------------
  // Properties of single events

  lemma InitialSatisfiesInv()
    ensures Inv(Initial())
  {
  }

  lemma NextPreservesInv(s: FormState, e: Event)
    requires Inv(s) && Enabled(s, e)
    ensures Inv(Next(s, e))
  {
  }

  /** A keystroke changes the named field only, and nothing else. */
  lemma ChangeTouchesOneField(s: FormState, f: Field, v: string)
    ensures Get(Next(s, Change(f, v)).data, f) == v
    ensures forall g :: g != f ==> Get(Next(s, Change(f, v)).data, g) == Get(s.data, g)
    ensures Next(s, Change(f, v)).isSubmitting == s.isSubmitting
    ensures Next(s, Change(f, v)).isSubmitted == s.isSubmitted
    ensures Next(s, Change(f, v)).toasts == s.toasts
  {
  }

  /** An accepted submit starts sending and leaves the fields as they are. */
  lemma SubmitFromIdle(s: FormState)
    requires !s.isSubmitting && !s.isSubmitted && RequiredFilled(s.data)
    ensures Next(s, Submit) == s.(isSubmitting := true)
    ensures Next(s, Submit).data == s.data
  {
  }

  /** While a send is in flight or acknowledged, a submit attempt changes nothing. */
  lemma SingleFlight(s: FormState)
    requires SubmitDisabled(s)
    ensures Next(s, Submit) == s
  {
  }

  /** The field values change only on a keystroke or at the end of the acknowledgment window. */
  lemma FieldsChangeOnlyByEditOrReset(s: FormState, e: Event)
    requires Enabled(s, e)
    requires Next(s, e).data != s.data
    ensures e.Change? || e == ResetDelayElapsed
  {
  }

  /** In a reachable state the label alone tells which phase the form is in. */
  lemma ButtonLabelShowsPhase(s: FormState)
    requires Inv(s)
    ensures ButtonLabel(s) == "Message Sent!" <==> s.isSubmitted
    ensures ButtonLabel(s) == "Sending..." <==> s.isSubmitting
    ensures ButtonLabel(s) == "Send Message" <==> !SubmitDisabled(s)
  {
  }

  // ---------------------------------------------------------------------------
  // Properties of runs

  /** Every state reached from a state satisfying the invariant satisfies it. */
  lemma {:induction false} RunPreservesInv(s: FormState, events: seq<Event>)
    requires Inv(s)
    requires Run(s, events).Some?
    ensures Inv(Run(s, events).value)
    decreases |events|
  {
    if events != [] {
      NextPreservesInv(s, events[0]);
      RunPreservesInv(Next(s, events[0]), events[1..]);
    }
  }

  /** Exactly one toast is emitted per resolved send, and earlier toasts are kept. */
  lemma {:induction false} ToastPerResolvedSend(s: FormState, events: seq<Event>)
    requires Run(s, events).Some?
    ensures |Run(s, events).value.toasts| == |s.toasts| + SendsResolved(events)
    ensures s.toasts <= Run(s, events).value.toasts
    decreases |events|
  {
    if events != [] {
      var t := Next(s, events[0]);
      ToastPerResolvedSend(t, events[1..]);
      assert s.toasts <= t.toasts;
    }
  }

  /** The success path: submit, send resolves, window ends: fields empty, one more toast. */
  lemma SuccessCycle(s: FormState)
    requires !s.isSubmitting && !s.isSubmitted && RequiredFilled(s.data)
    ensures Run(s, [Submit, SendDelayElapsed, ResetDelayElapsed])
         == Some(FormState(EmptyForm, false, false, s.toasts + [SentToast]))
  {
  }

  // ---------------------------------------------------------------------------
  // Component state

  /** The form component's state slots, updated by its handlers and timers. */
  class ContactForm {
    var formData: FormData
    var isSubmitting: bool
    var isSubmitted: bool
    var toasts: seq<Toast>

    function State(): FormState
      reads this
    {
      FormState(formData, isSubmitting, isSubmitted, toasts)
    }

    ghost predicate Valid()
      reads this
    {
      Inv(State())
    }

    constructor ()
      ensures Valid()
      ensures State() == Initial()
    {
      formData := EmptyForm;
      isSubmitting := false;
      isSubmitted := false;
      toasts := [];
    }

    /** `handleChange`: the input named `f` now holds `v`. */
    method HandleChange(f: Field, v: string)
      requires Valid()
      modifies this
      ensures Valid()
      ensures State() == Next(old(State()), Change(f, v))
      ensures Get(formData, f) == v
      ensures forall g :: g != f ==> Get(formData, g) == Get(old(formData), g)
    {
      formData := SetField(formData, f, v);
    }

    /** `handleSubmit` up to its await: reports whether the attempt got through. */
    method HandleSubmit() returns (started: bool)
      requires Valid()
      modifies this
      ensures Valid()
      ensures started == SubmitAccepted(old(State()))
      ensures State() == Next(old(State()), Submit)
      ensures started ==> isSubmitting && formData == old(formData)
    {
      started := SubmitAccepted(State());
      if started {
        isSubmitting := true;
      }
    }

    /** The rest of `handleSubmit` after the simulated send resolves. */
    method SendDelayElapsed()
      requires Valid()
      requires isSubmitting
      modifies this
      ensures Valid()
      ensures State() == Next(old(State()), Event.SendDelayElapsed)
      ensures !isSubmitting && isSubmitted && toasts == old(toasts) + [SentToast]
      ensures formData == old(formData)
    {
      isSubmitting := false;
      isSubmitted := true;
      toasts := toasts + [SentToast];
      NextPreservesInv(old(State()), Event.SendDelayElapsed);
    }

    /** The acknowledgment timeout: clears the flag and the fields. */
    method ResetDelayElapsed()
      requires Valid()
      requires isSubmitted
      modifies this
      ensures Valid()
      ensures State() == Next(old(State()), Event.ResetDelayElapsed)
      ensures !isSubmitting && !isSubmitted && formData == EmptyForm
    {
      isSubmitted := false;
      formData := EmptyForm;
    }
  }
}
