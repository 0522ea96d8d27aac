/** The status cycle of components/TaskCard.tsx: the status the card's button
    requests, and the button's text and icon. The cycle spells the middle
    state `in_progress`, while the Task type declares `in-progress`. */
module TaskCard {
  import opened Wrappers
  import opened Entities

  /** `getNextStatus`, with `null` as `None`. */
  function NextStatus(status: string): (r: Option<string>)
    ensures r.Some? <==> status in {Pending, InProgressUnderscore, Completed}
    ensures r.Some? ==> r.value in {Pending, InProgressUnderscore, Completed} && r.value != status
  {
    match status
    case "pending" => Some(InProgressUnderscore)
    case "in_progress" => Some(Completed)
    case "completed" => Some(Pending)
    case _ => None
  }

  /** Three steps from any state of the cycle return to it. */
  lemma CycleReturns(status: string)
    requires status in {Pending, InProgressUnderscore, Completed}
    ensures NextStatus(NextStatus(NextStatus(status).value).value).value == status
  {
  }

  /** Starting from pending, the button walks in_progress, completed, pending. */
  lemma CycleFromPending()
    ensures NextStatus(Pending) == Some(InProgressUnderscore)
    ensures NextStatus(InProgressUnderscore) == Some(Completed)
    ensures NextStatus(Completed) == Some(Pending)
  {
  }

  /** Statuses outside the cycle have no successor, among them `blocked` and
      the hyphenated spelling the Task type declares. */
  lemma NoNextOutsideCycle()
    ensures NextStatus(Blocked).None?
    ensures NextStatus(InProgressHyphen).None?
  {
  }

  /** The status the button sends: `getNextStatus(status) || 'pending'`. */
  function RequestedStatus(status: string): (r: string)
    ensures r in {Pending, InProgressUnderscore, Completed}
    ensures NextStatus(status).None? ==> r == Pending
    ensures NextStatus(status).Some? ==> r == NextStatus(status).value
  {
    NextStatus(status).GetOr(Pending)
  }

  /** A task stored with the declared `in-progress` spelling is sent back to
      pending, not forward to completed. */
  lemma HyphenatedStatusResets()
    ensures RequestedStatus(InProgressHyphen) == Pending
    ensures RequestedStatus(InProgressUnderscore) == Completed
  {
  }

  const StartTask := "Start Task"
  const Complete := "Complete"
  const Reopen := "Reopen"
  const Update := "Update"

  /** `getStatusButtonText`. */
  function ButtonText(status: string): (text: string)
    ensures text == StartTask <==> status == Pending
    ensures text == Complete <==> status == InProgressUnderscore
    ensures text == Reopen <==> status == Completed
    ensures text == Update <==> status !in {Pending, InProgressUnderscore, Completed}
  {
    match status
    case "pending" => StartTask
    case "in_progress" => Complete
    case "completed" => Reopen
    case _ => Update
  }

  datatype Icon = Play | CheckCircle | Pause | Clock

  /** `getStatusButtonIcon`. */
  function ButtonIcon(status: string): (icon: Icon)
    ensures icon == Play <==> status == Pending
    ensures icon == CheckCircle <==> status == InProgressUnderscore
    ensures icon == Pause <==> status == Completed
    ensures icon == Clock <==> status !in {Pending, InProgressUnderscore, Completed}
  {
    match status
    case "pending" => Play
    case "in_progress" => CheckCircle
    case "completed" => Pause
    case _ => Clock
  }

  /** The button reads "Update" exactly when the status has no successor, and
      then it requests pending. */
  lemma UpdateButtonResets(status: string)
    ensures ButtonText(status) == Update <==> NextStatus(status).None?
    ensures ButtonText(status) == Update ==> RequestedStatus(status) == Pending
  {
  }
}
