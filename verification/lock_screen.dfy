/**
 * The lock screen of a password-protected form: the entered password, the
 * error flag and the loading flag, and what a verification attempt does to
 * them.
 *
 * An attempt runs in two steps around a delay: it starts (loading on,
 * error off), and later completes by comparing the password as it was when
 * the attempt started. The delay itself is not modelled; typing during it
 * is, through `Type` between the two steps.
 */
module LockScreen {

  datatype LockState = LockState(password: string, error: bool, loading: bool)

  /** The result of a step: the new state, and whether `onVerified` was called. */
  datatype Outcome = Outcome(state: LockState, verified: bool)

  const Initial := LockState("", false, false)

  /** The input's change handler. */
  function Type(st: LockState, text: string): LockState
  {
    st.(password := text)
  }

  /** The synchronous start of `handleVerify`. */
  function Start(st: LockState): LockState
  {
    st.(loading := true, error := false)
  }

  /** The end of `handleVerify`, comparing the password `entered` at the start with the expected one. */
  function Complete(st: LockState, entered: string, correct: string): (o: Outcome)
    ensures !o.state.loading
    ensures o.verified <==> entered == correct
    ensures o.verified ==> o.state == st.(loading := false)
    ensures !o.verified ==> o.state == LockState("", true, false)
  {
    if entered == correct then Outcome(st.(loading := false), true)
    else Outcome(LockState("", true, false), false)
  }

  /** A whole attempt with no typing during the delay. */
  function Verify(st: LockState, correct: string): Outcome {
    Complete(Start(st), st.password, correct)
  }

  /** The unlock button is enabled when not loading and the password is non-empty. */
  predicate CanUnlock(st: LockState) {
    !st.loading && st.password != ""
  }

  /** A click on the unlock button: a disabled button does nothing. */
  function Click(st: LockState, correct: string): Outcome
  {
    if CanUnlock(st) then Verify(st, correct) else Outcome(st, false)
  }

  /** A key press in the input: Enter starts an attempt with no guard at all. */
  function KeyDown(st: LockState, key: string, correct: string): Outcome
  {
    if key == "Enter" then Verify(st, correct) else Outcome(st, false)
  }

  /**
   * An attempt calls `onVerified` exactly when the password matches; a
   * match clears the error and keeps the password, a mismatch sets the
   * error and clears the password; loading is off afterwards either way.
   */
  lemma VerifyOutcome(st: LockState, correct: string)
    ensures Verify(st, correct).verified <==> st.password == correct
    ensures !Verify(st, correct).state.loading
    ensures Verify(st, correct).verified ==> Verify(st, correct).state == LockState(st.password, false, false)
    ensures !Verify(st, correct).verified ==> Verify(st, correct).state == LockState("", true, false)
  {
  }

  /** Whatever is typed during the delay, the attempt's verdict is the one for the password entered before it. */
  lemma TypingDuringDelayIgnored(st: LockState, typed: string, correct: string)
    ensures Complete(Type(Start(st), typed), st.password, correct).verified == Verify(st, correct).verified
  {
  }

  /** After a failed attempt the button stays disabled until something is typed again. */
  lemma FailureDisablesButton(st: LockState, correct: string, typed: string)
    requires st.password != correct
    ensures !CanUnlock(Verify(st, correct).state)
    ensures CanUnlock(Type(Verify(st, correct).state, typed)) <==> typed != ""
  {
  }

  /** A click on a disabled button and any key other than Enter leave the state as it was and verify nothing. */
  lemma IgnoredInputs(st: LockState, key: string, correct: string)
    ensures !CanUnlock(st) ==> Click(st, correct) == Outcome(st, false)
    ensures key != "Enter" ==> KeyDown(st, key, correct) == Outcome(st, false)
  {
  }

  /**
   * The Enter key skips the empty-password guard: with an empty input the
   * button does nothing, but Enter still compares, and unlocks a form whose
   * expected password is empty.
   */
  lemma EnterSkipsEmptyGuard(st: LockState)
    requires st.password == "" && !st.loading
    ensures Click(st, "") == Outcome(st, false)
    ensures KeyDown(st, "Enter", "").verified
  {
  }

  /** A click on an enabled button and the Enter key do the same thing. */
  lemma ClickIsEnterWhenEnabled(st: LockState, correct: string)
    requires CanUnlock(st)
    ensures Click(st, correct) == KeyDown(st, "Enter", correct)
  {
  }
}
