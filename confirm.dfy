// The "continuous update" confirmation of MainActivity: before heavy processing
// starts on a running preview the user is asked once; an OK is remembered for
// the rest of the activity's life.

module Confirm {

  /** How the user leaves the warning dialog: its OK button, its Cancel button, or
      dismissing it (back key, touch outside) without pressing either. */
  datatype Answer = Ok | Cancel | Dismissed

  /** Which of the two actions `onContinuousUpdate` ends up running. */
  datatype Outcome = RunOk | RunCancel | NoAction

  /** The dialog is shown exactly when the caller does not waive it and no OK
      has been given before. */
  predicate AsksUser(alwaysOk: bool, passed: bool) {
    !alwaysOk && !passed
  }

  /** `onContinuousUpdate(doIfOk, doIfCancel, alwaysOk)` with the confirm flag
      `passed`; `hasCancel` says whether `doIfCancel` is non-null and `answer` is
      the user's choice, consulted only when the dialog is shown. */
  function Decide(alwaysOk: bool, passed: bool, hasCancel: bool, answer: Answer): (d: Outcome)
    ensures d == RunOk <==> !AsksUser(alwaysOk, passed) || answer == Ok
    ensures d == RunCancel <==> AsksUser(alwaysOk, passed) && answer == Cancel && hasCancel
  {
    if alwaysOk || passed then RunOk
    else match answer
      case Ok => RunOk
      case Cancel => if hasCancel then RunCancel else NoAction
      case Dismissed => NoAction
  }

  /** The confirm flag after one call: only an OK pressed in the dialog sets it. */
  function PassedAfter(passed: bool, alwaysOk: bool, answer: Answer): bool {
    if AsksUser(alwaysOk, passed) && answer == Ok then true else passed
  }

  /** One call of `onContinuousUpdate`: whether it is waived and what the user would answer. */
  datatype Request = Request(alwaysOk: bool, answer: Answer)

  /** The confirm flag after a series of calls, starting from `passed`. */
  function PassedAfterAll(passed: bool, rs: seq<Request>): bool {
    if rs == [] then passed
    else var last := rs[|rs| - 1];
      PassedAfter(PassedAfterAll(passed, rs[..|rs| - 1]), last.alwaysOk, last.answer)
  }

  /** The flag is never reset, and it is set exactly when some non-waived call
      was answered OK (or it was set to begin with). */
  lemma {:induction false} PassedAfterAllIff(passed: bool, rs: seq<Request>)
    ensures PassedAfterAll(passed, rs) <==>
      passed || exists i :: 0 <= i < |rs| && !rs[i].alwaysOk && rs[i].answer == Ok
  {
    if rs != [] {
      var init := rs[..|rs| - 1];
      PassedAfterAllIff(passed, init);
      if exists i :: 0 <= i < |init| && !init[i].alwaysOk && init[i].answer == Ok {
        var i :| 0 <= i < |init| && !init[i].alwaysOk && init[i].answer == Ok;
        assert rs[i] == init[i];
      }
      if exists i :: 0 <= i < |rs| && !rs[i].alwaysOk && rs[i].answer == Ok {
        var i :| 0 <= i < |rs| && !rs[i].alwaysOk && rs[i].answer == Ok;
        if i < |rs| - 1 {
          assert init[i] == rs[i];
        }
      }
    }
  }

  /** Starting from the activity's initial `false`, waived calls alone never set the flag. */
  lemma {:induction false} WaivedCallsNeverConfirm(rs: seq<Request>)
    requires forall i :: 0 <= i < |rs| ==> rs[i].alwaysOk
    ensures !PassedAfterAll(false, rs)
  {
    PassedAfterAllIff(false, rs);
  }

  /** Once confirmed, every later call runs its OK action without asking, whatever the answer. */
  lemma {:induction false} OnceConfirmedNeverAsks(rs: seq<Request>, alwaysOk: bool, hasCancel: bool, answer: Answer)
    requires exists i :: 0 <= i < |rs| && !rs[i].alwaysOk && rs[i].answer == Ok
    ensures Decide(alwaysOk, PassedAfterAll(false, rs), hasCancel, answer) == RunOk
  {
    PassedAfterAllIff(false, rs);
  }

  // ---------------------------------------------------------------------
  // The waivers the listeners pass

  /** A flag check box waives the dialog when it is being unchecked or the preview is stopped. */
  function FlagChangeWaiver(isChecked: bool, previewWorking: bool): bool {
    !isChecked || !previewWorking
  }

  /** The snapshot button waives it when no processing is enabled. */
  function StartPreviewWaiver(someProcessingEnabled: bool): bool {
    !someProcessingEnabled
  }

  /** Only checking a flag on a running preview, before any OK, asks the user. */
  lemma FlagChangeAsksIff(isChecked: bool, previewWorking: bool, passed: bool)
    ensures AsksUser(FlagChangeWaiver(isChecked, previewWorking), passed) <==>
      isChecked && previewWorking && !passed
  {
  }

  /** Unchecking a flag always goes through, so its Cancel action never runs. */
  lemma UncheckingNeverAsks(previewWorking: bool, passed: bool, hasCancel: bool, answer: Answer)
    ensures Decide(FlagChangeWaiver(false, previewWorking), passed, hasCancel, answer) == RunOk
    ensures PassedAfter(passed, FlagChangeWaiver(false, previewWorking), answer) == passed
  {
  }

  /** Starting the preview with every flag off never asks. */
  lemma PlainPreviewNeverAsks(passed: bool, hasCancel: bool, answer: Answer)
    ensures Decide(StartPreviewWaiver(false), passed, hasCancel, answer) == RunOk
  {
  }
}
