/** The newsletter form: four pieces of component state (`email`,
    `isLoading`, `isSuccess`, `error`), the `subscribe` handler that updates
    them around the awaited subscription call, and what the form shows for a
    given state (the submit button's label and disabled flag, the error
    notice, the confirmation line).

    The subscription call is not part of this model: its outcome is an input.
    `subscribe` is split where it awaits the call, because the form renders
    the state in between: `Begin` runs before the call, `Settle` after it. */
module NewsletterForm {
  import opened Common

  /** The error shown when the call failed: the message of the thrown error. */
  datatype FormState = FormState(email: string, isLoading: bool, isSuccess: bool, error: Option<string>)

  const Initial := FormState("", false, false, None)

  /** How the awaited subscription call ended. */
  datatype CallResult = Resolved | Rejected(message: string)

  const LoadingLabel := "..."
  const SuccessLabel := "✓"
  const IdleLabel := ">"
  const AlreadySubscribedText := "Looks like you're already subscribed! Check your inbox for updates."
  const GenericErrorText := "\U{1F62C} Oops! Something went wrong. Please try again in a moment."
  const ConfirmationText := "(You will receive a confirmation email in a few seconds)"
  /** The part of an error message that selects the already-subscribed notice. */
  const AlreadySubscribedMarker := "already subscribed"

  // ---------------------------------------------------------------------
  // Transitions
  // ---------------------------------------------------------------------

  /** The start of `subscribe`: loading, and the previous error cleared. */
  function Begin(st: FormState): (st': FormState)
    ensures st'.isLoading && st'.error.None?
    ensures st'.email == st.email && st'.isSuccess == st.isSuccess
  {
    st.(isLoading := true, error := None)
  }

  /** The end of `subscribe`: success recorded, or the error kept; loading
      ends in both cases. */
  function Settle(st: FormState, result: CallResult): (st': FormState)
    ensures !st'.isLoading && st'.email == st.email
    ensures st'.isSuccess == (st.isSuccess || result.Resolved?)
    ensures st'.error == (if result.Rejected? then Some(result.message) else st.error)
  {
    match result
    case Resolved => st.(isSuccess := true, isLoading := false)
    case Rejected(message) => st.(error := Some(message), isLoading := false)
  }

  /** What can happen to the form: the user edits the email field, a
      subscription starts, or the pending call ends. */
  datatype Event = Typed(value: string) | Started | Finished(result: CallResult)

  /** One event. Success, once reached, is kept, and only a resolved call
      reaches it. */
  function Step(st: FormState, e: Event): (st': FormState)
    ensures st.isSuccess ==> st'.isSuccess
    ensures st'.isSuccess && !st.isSuccess ==> e == Finished(Resolved)
  {
    match e
    case Typed(value) => st.(email := value)
    case Started => Begin(st)
    case Finished(result) => Settle(st, result)
  }

  /** The state after a sequence of events, in order: the last event is
      applied to the state the others lead to. */
  function Replay(st: FormState, events: seq<Event>): (st': FormState)
    ensures events == [] ==> st' == st
    ensures events != [] ==> st' == Step(Replay(st, events[..|events| - 1]), events[|events| - 1])
    decreases |events|
  {
    if events == [] then st
    else
      var rest := events[1..];
      assert rest != [] ==> events[..|events| - 1][1..] == rest[..|rest| - 1];
      assert rest == [] ==> events[..|events| - 1] == [];
      Replay(Step(st, events[0]), rest)
  }

  // ---------------------------------------------------------------------
  // What the form shows
  // ---------------------------------------------------------------------

  /** The submit button cannot be pressed while a call is pending or after a success. */
  function ButtonDisabled(st: FormState): (b: bool)
    ensures b <==> st.isLoading || st.isSuccess
  {
    st.isLoading || st.isSuccess
  }

  /** The button's label: loading wins over success, which wins over idle. */
  function ButtonLabel(st: FormState): (text: string)
    ensures text == LoadingLabel <==> st.isLoading
    ensures text == SuccessLabel <==> !st.isLoading && st.isSuccess
    ensures text == IdleLabel <==> !st.isLoading && !st.isSuccess
  {
    if st.isLoading then LoadingLabel else if st.isSuccess then SuccessLabel else IdleLabel
  }

  /** The notice under the form when there is an error: the already-subscribed
      text when the message mentions it, the generic text otherwise. */
  function ErrorNotice(st: FormState): (notice: Option<string>)
    ensures notice.None? <==> st.error.None?
    ensures notice == Some(AlreadySubscribedText) <==>
      st.error.Some? && Occurs(st.error.value, AlreadySubscribedMarker)
    ensures notice.Some? ==> notice.value in {AlreadySubscribedText, GenericErrorText}
  {
    match st.error
    case None => None
    case Some(message) =>
      if Includes(message, AlreadySubscribedMarker) then Some(AlreadySubscribedText)
      else Some(GenericErrorText)
  }

  /** The confirmation line is shown after a success. */
  function ShowsConfirmation(st: FormState): bool {
    st.isSuccess
  }

  // ---------------------------------------------------------------------
  // The component's state, updated in place
  // ---------------------------------------------------------------------

  class Form {
    var email: string
    var isLoading: bool
    var isSuccess: bool
    var error: Option<string>

    function State(): FormState
      reads this
    {
      FormState(email, isLoading, isSuccess, error)
    }

    /** A newly mounted form: empty email, idle, no success, no error. */
    constructor ()
      ensures State() == Initial
    {
      email := "";
      isLoading := false;
      isSuccess := false;
      error := None;
    }

    /** The email input's `onChange`. */
    method SetEmail(value: string)
      modifies this
      ensures State() == Step(old(State()), Typed(value))
    {
      email := value;
    }

    /** `subscribe` up to the awaited call; returns the email that is sent. */
    method BeginSubscribe() returns (sent: string)
      modifies this
      ensures sent == old(email)
      ensures State() == Step(old(State()), Started)
    {
      isLoading := true;
      error := None;
      sent := email;
    }

    /** `subscribe` after the awaited call: the `try`, `catch` and `finally`. */
    method FinishSubscribe(result: CallResult)
      modifies this
      ensures State() == Step(old(State()), Finished(result))
    {
      match result {
        case Resolved =>
          isSuccess := true;
        case Rejected(message) =>
          error := Some(message);
      }
      isLoading := false;
    }

    /** The form's `onSubmit`: one whole subscription attempt with the
        current email, when nothing else happens while the call is pending. */
    method Submit(result: CallResult) returns (sent: string)
      modifies this
      ensures sent == old(email)
      ensures State() == Step(Step(old(State()), Started), Finished(result))
    {
      sent := BeginSubscribe();
      FinishSubscribe(result);
    }
  }

  // ---------------------------------------------------------------------
  // Properties
  // ---------------------------------------------------------------------

  /** Once a subscription has succeeded, it stays so whatever happens next:
      the button stays disabled and the confirmation line stays shown. */
  lemma {:induction false} SuccessIsPermanent(st: FormState, events: seq<Event>)
    requires st.isSuccess
    ensures Replay(st, events).isSuccess
    ensures ButtonDisabled(Replay(st, events)) && ShowsConfirmation(Replay(st, events))
    ensures ButtonLabel(Replay(st, events)) != IdleLabel
    decreases |events|
  {
    if events != [] {
      SuccessIsPermanent(Step(st, events[0]), events[1..]);
    }
  }

  /** Success is reached only through a resolved call: from a state without
      success, a sequence of events with no resolved call leaves it without. */
  lemma {:induction false} SuccessNeedsResolvedCall(st: FormState, events: seq<Event>)
    requires !st.isSuccess
    requires forall k :: 0 <= k < |events| ==> events[k] != Finished(Resolved)
    ensures !Replay(st, events).isSuccess
    decreases |events|
  {
    if events != [] {
      assert events[0] != Finished(Resolved);
      SuccessNeedsResolvedCall(Step(st, events[0]), events[1..]);
    }
  }

  /** While a call is pending the button shows `...`, is disabled, and no
      error notice is shown. */
  lemma WhileLoading(st: FormState)
    ensures ButtonLabel(Begin(st)) == LoadingLabel
    ensures ButtonDisabled(Begin(st))
    ensures ErrorNotice(Begin(st)).None?
  {
  }

  /** One whole attempt: loading has ended; a resolved call shows the tick,
      disables the button and shows the confirmation, with no error; a
      rejected call shows its notice and leaves the success flag as it was. */
  lemma AttemptOutcome(st: FormState, result: CallResult)
    ensures var st' := Settle(Begin(st), result);
      !st'.isLoading && st'.email == st.email
    ensures result.Resolved? ==>
      var st' := Settle(Begin(st), result);
      ButtonLabel(st') == SuccessLabel && ButtonDisabled(st') && ShowsConfirmation(st') && ErrorNotice(st').None?
    ensures result.Rejected? ==>
      var st' := Settle(Begin(st), result);
      st'.isSuccess == st.isSuccess && st'.error == Some(result.message)
      && ButtonDisabled(st') == st.isSuccess
      && ErrorNotice(st') == Some(if Occurs(result.message, AlreadySubscribedMarker)
                                 then AlreadySubscribedText else GenericErrorText)
  {
  }

  /** The button shows `>` exactly when it can be pressed. */
  lemma IdleLabelIffEnabled(st: FormState)
    ensures ButtonLabel(st) == IdleLabel <==> !ButtonDisabled(st)
  {
  }

  /** A rejection whose message mentions being already subscribed, wherever
      in the message, shows the already-subscribed notice. */
  lemma AlreadySubscribedAnywhere(st: FormState, before: string, after: string)
    ensures ErrorNotice(Settle(Begin(st), Rejected(before + AlreadySubscribedMarker + after)))
         == Some(AlreadySubscribedText)
  {
    var m := before + AlreadySubscribedMarker + after;
    assert m[|before|..|before| + |AlreadySubscribedMarker|] == AlreadySubscribedMarker;
    assert HasAt(m, |before|, AlreadySubscribedMarker);
  }
}
