/** The floating action button of the standalone client: the new income / new expense dialog,
    its save step and the list it appends to. */
module ActionButton {
  import opened Wrappers
  import Dashboard

  datatype ModalType = IncomeModal | ExpenseModal

  /** The dialog's state. `amount` is the number typed so far (absent before any input). */
  datatype Form = Form(
    menuOpen: bool, modalOpen: bool, modalType: Option<ModalType>, amount: Option<int>,
    description: string, date: string, feedback: Option<string>)

  const MissingFields := "Please provide amount and description"
  const Added := "Transaction added successfully"
  const NotAdded := "Failed to add transaction"
  const SendError := "Error adding transaction"

  /** `openModal(type)`: the dialog opens for `t` and the menu closes. */
  function OpenModal(f: Form, t: ModalType): (r: Form)
    ensures r.modalOpen && r.modalType == Some(t) && !r.menuOpen
    ensures r.amount == f.amount && r.description == f.description && r.date == f.date
    ensures r.feedback == f.feedback
  {
    f.(modalType := Some(t), modalOpen := true, menuOpen := false)
  }

  /** `closeModal()`: the dialog closes and its fields are cleared; `today` is the ISO date of
      the clock. */
  function CloseModal(f: Form, today: string): (r: Form)
    ensures !r.modalOpen && r.modalType.None? && r.amount.None? && r.description == ""
    ensures r.date == today && r.menuOpen == f.menuOpen && r.feedback == f.feedback
  {
    f.(modalOpen := false, modalType := None, amount := None, description := "", date := today)
  }

  /** The body of the POST request. */
  datatype Payload = Payload(userId: string, amount: int, category: string, date: string,
                             description: string)

  /** The request `handleSave` would send, or None when the form is incomplete. */
  function Request(f: Form, user: string): (r: Option<Payload>)
    ensures r.None? <==> f.amount.None? || f.description == ""
    ensures r.Some? ==> r.value.userId == user && r.value.date == f.date
                        && r.value.description == f.description
    ensures r.Some? ==> (f.modalType == Some(IncomeModal) <==> r.value.amount == f.amount.value
                                                                && r.value.category == "Income")
    ensures r.Some? && f.modalType != Some(IncomeModal) ==>
              r.value.amount == -f.amount.value && r.value.category == "Expense"
  {
    if f.amount.None? || f.description == "" then None
    else
      var income := f.modalType == Some(IncomeModal);
      Some(Payload(user, if income then f.amount.value else -f.amount.value,
                   if income then "Income" else "Expense", f.date, f.description))
  }

  /** How the server answered the POST: the created transaction, a non-OK status, or a network
      error. */
  datatype Answer = Created(entry: Dashboard.Entry) | Rejected | Unreachable

  /** `handleSave`. An incomplete form only shows the feedback and sends nothing (`answer` is
      then never consulted); otherwise the answer decides whether the created transaction is
      appended and the dialog closed. */
  function Save(f: Form, user: string, list: seq<Dashboard.Entry>, answer: Answer, today: string)
    : (r: (Form, seq<Dashboard.Entry>))
    ensures Request(f, user).None? ==> r == (f.(feedback := Some(MissingFields)), list)
    ensures Request(f, user).Some? && answer.Created? ==>
              r.1 == list + [answer.entry] && !r.0.modalOpen && r.0.feedback == Some(Added)
    ensures Request(f, user).Some? && !answer.Created? ==>
              r.1 == list && r.0.modalOpen == f.modalOpen && r.0.amount == f.amount
    ensures |r.1| == |list| || r.1 == list + [answer.entry]
  {
    if Request(f, user).None? then (f.(feedback := Some(MissingFields)), list)
    else
      match answer
      case Created(e) => (CloseModal(f.(feedback := Some(Added)), today), list + [e])
      case Rejected => (f.(feedback := Some(NotAdded)), list)
      case Unreachable => (f.(feedback := Some(SendError)), list)
  }

  /** Saving a positive income and appending what the server echoes back raises the dashboard's
      income by exactly that amount; a positive expense raises its expenses the same way. */
  lemma SavedAmountCounts(f: Form, user: string, list: seq<Dashboard.Entry>, e: Dashboard.Entry, today: string)
    requires f.amount.Some? && f.amount.value > 0 && f.description != ""
    requires e.amount == Request(f, user).value.amount
    ensures var after := Save(f, user, list, Created(e), today).1;
            if f.modalType == Some(IncomeModal)
            then Dashboard.Income(after) == Dashboard.Income(list) + f.amount.value
                 && Dashboard.Expenses(after) == Dashboard.Expenses(list)
            else Dashboard.Expenses(after) == Dashboard.Expenses(list) + f.amount.value
                 && Dashboard.Income(after) == Dashboard.Income(list)
  {
    Dashboard.AppendEntry(list, e);
  }
}
