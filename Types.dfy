/**
 * The data model of the production monitor. Every browser query is reduced
 * to what the bot learns from it (an observation), and every side effect the
 * bot has on the outside world (a chat notification, a click, a fill, a
 * session save, a resource release) is an `Action` appended to a trace.
 */
module Types {
  import opened Wrappers

  /** One dashboard card after parsing: `{name, completion, items_left}`. */
  datatype Category = Category(name: string, completion: int, itemsLeft: int)

  /** A chat message: who sent it and its text. */
  datatype Message = Message(sender: int, text: string)

  /** The outcome of `wait_for_selector`/`wait_for_url`: found, timed out, or some other error. */
  datatype Probe = Found | TimedOut | Raised

  /** The outcome of `goto(BASE_URL)`: the URL reached, a timeout, or some other error. */
  datatype Landing = Landed(url: string) | LandingTimedOut | LandingRaised

  /** What the login pages show, step by step. */
  datatype LoginPage = LoginPage(
    landing: Landing,
    companyButton: Probe,     // the company-selection button, waited for 5 s
    emailInput: Probe,        // waited for 10 s
    emailSubmit: bool,        // a submit control is present after the email is filled
    passwordInput: Probe,     // waited for 10 s
    passwordSubmit: bool,
    codeInput: Probe,         // the verification-code input, waited for 5 s
    codeSubmit: bool,
    dashboard: Probe          // the final wait for the dashboard URL, 30 s
  )

  /**
   * One dashboard card: the texts of its title, percentage and remaining-items
   * elements (`None` when the element is absent), or a card whose reading
   * raised (a detached element).
   */
  datatype CardView = Card(title: Option<string>, percent: Option<string>, remaining: Option<string>) | BrokenCard

  /** The dashboard: its cards in document order, or a failed load (navigation error, no card within 10 s). */
  datatype DashboardView = Cards(cards: seq<CardView>) | DashboardFailed

  /** The icons found in a row's checkbox cell. */
  datatype Icons = Icons(unchecked: bool, checked: bool)

  /**
   * One `tr` of a task table: a header row (holds a `th`), a data row with or
   * without a checkbox cell, or a row whose queries or click raised.
   */
  datatype RowView = HeaderRow | DataRow(checkbox: Option<Icons>) | BrokenRow

  /**
   * The production-tasks page as reached for one category: whether the
   * in-page link is present, the texts of the category buttons (`None` for
   * the whole group when it fails to appear within 10 s or navigation raised;
   * `None` for one button whose text cannot be read), whether the task
   * table appears within 10 s, and its rows.
   */
  datatype TaskPage = TaskPage(navLink: bool, buttons: Option<seq<Option<string>>>, tableShown: bool, rows: seq<RowView>)

  /** The notifications the monitor sends to the chat. */
  datatype Notice =
    | Initializing
    | AttemptingLogin | AlreadyLoggedIn | SelectingCompany | EnteringEmail | EnteringPassword
    | CheckingSecondFactor | CodeRequested | CodeTimeout | EnteringCode
    | LoginSucceeded | LoginTimeout | LoginError
    | CheckingDashboard | DashboardError
    | DashboardSummary(categories: seq<Category>)
    | NavigationFailed(category: string) | Processing(category: string)
    | CategoryDone(category: string, checked: nat, total: nat) | CategoryError(category: string)
    | LoginFailedAborting | NoCategoriesFound | AllComplete | Done(processed: nat) | MainError

  /** Everything the monitor does that is visible outside it, in order. */
  datatype Action =
    | Notify(notice: Notice)
    | ClickCompany | FillEmail | FillPassword | ClickSubmit | FillCode(code: string)
    | SaveSession
    | OpenTasksByLink | OpenTasksByUrl | ClickCategoryButton(index: nat) | ClickRow(index: nat)
    | ClosePage | CloseContext | CloseBrowser | StopPlaywright

  /** The releases only `cleanup` performs (saving the session is also done by a successful login). */
  predicate IsRelease(a: Action) {
    a.ClosePage? || a.CloseContext? || a.CloseBrowser? || a.StopPlaywright?
  }
}
