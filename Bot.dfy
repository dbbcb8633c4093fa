/**
 * The monitor object and the chat's message handler. The monitor's fields
 * are those the bot updates in place: the second-factor flag and code slot,
 * the four browser resources (whether each is set), and the trace of
 * everything it has done. Each method is proved to do what the matching
 * function of the other modules describes.
 */
module Bot {
  import opened Wrappers
  import opened Text
  import opened Types
  import opened Gate
  import opened Auth
  import opened Dashboard
  import opened Tasks
  import opened Run

  /** What the message handler answers: nothing, a confirmation, or a request for just the digits. */
  datatype Reply = Ignored | CodeReceived | NotACode

  class ProductionMonitor {
    var waitingFor2fa: bool
    var twoFaCode: Option<string>
    var playwright: bool
    var browser: bool
    var context: bool
    var page: bool
    var trace: seq<Action>

    /** A monitor with nothing started: not waiting, no code, no resources. */
    constructor ()
      ensures !waitingFor2fa && twoFaCode == None
      ensures Res() == Resources(false, false, false, false) && trace == []
    {
      waitingFor2fa := false;
      twoFaCode := None;
      playwright, browser, context, page := false, false, false, false;
      trace := [];
    }

    /** Which browser resources the monitor holds. */
    function Res(): Resources
      reads this`playwright, this`browser, this`context, this`page
    {
      Resources(playwright, browser, context, page)
    }

    /** `send_telegram`. */
    method Send(n: Notice)
      modifies this`trace
      ensures trace == old(trace) + [Notify(n)]
    {
      trace := trace + [Notify(n)];
    }

    /**
     * `initialize`: announce, then start playwright, launch the browser, open
     * a context and a page; `steps` of these complete, and the first that
     * does not raises.
     */
    method Initialize(steps: nat) returns (ok: bool)
      modifies this`trace, this`playwright, this`browser, this`context, this`page
      ensures ok <==> steps >= InitSteps
      ensures trace == old(trace) + [Notify(Initializing)]
      ensures playwright == (old(playwright) || steps >= 1) && browser == (old(browser) || steps >= 2)
      ensures context == (old(context) || steps >= 3) && page == (old(page) || steps >= 4)
    {
      Send(Initializing);
      ok := false;
      if steps < 1 { return; }
      playwright := true;
      if steps < 2 { return; }
      browser := true;
      if steps < 3 { return; }
      context := true;
      if steps < 4 { return; }
      page := true;
      ok := true;
    }

    /** `save_session`: only with a context. */
    method SaveSession()
      modifies this`trace
      ensures trace == old(trace) + (if context then [Action.SaveSession] else [])
    {
      if context {
        trace := trace + [Action.SaveSession];
      }
    }

    /**
     * The 2FA wait of `handle_login`: up to 60 times, stop if the slot holds a
     * code, else sleep while the chat handler processes that sleep's messages.
     */
    method AwaitCode(inbox: seq<seq<Message>>, allowed: int) returns (slept: nat)
      requires waitingFor2fa
      modifies this`twoFaCode
      ensures Polled(twoFaCode, slept) == Poll(old(twoFaCode), inbox, allowed, 0)
    {
      slept := 0;
      while slept < MaxPolls && !Present(twoFaCode)
        invariant slept <= MaxPolls
        invariant Poll(twoFaCode, inbox, allowed, slept) == Poll(old(twoFaCode), inbox, allowed, 0)
        decreases MaxPolls - slept
      {
        var batch := Batch(inbox, slept);
        ghost var before := twoFaCode;
        var i := 0;
        while i < |batch|
          invariant 0 <= i <= |batch|
          invariant twoFaCode == Deliver(before, batch[..i], allowed)
        {
          var reply := ReceiveCode(batch[i].sender, allowed, batch[i].text);
          assert batch[..i + 1][..i] == batch[..i];
          i := i + 1;
        }
        assert batch[..|batch|] == batch;
        slept := slept + 1;
      }
    }

    /**
     * The part of `handle_message` that concerns this monitor: when the
     * message comes from the allowed user and the monitor waits, a stripped
     * text of 4 to 8 digits fills the code slot.
     */
    method ReceiveCode(sender: int, allowed: int, text: string) returns (reply: Reply)
      modifies this`twoFaCode
      ensures twoFaCode == if sender == allowed && waitingFor2fa && CodeIn(text).Some? then CodeIn(text) else old(twoFaCode)
      ensures reply == Ignored <==> sender != allowed || !waitingFor2fa
      ensures reply == CodeReceived <==> reply != Ignored && CodeIn(text).Some?
    {
      if sender != allowed || !waitingFor2fa {
        return Ignored;
      }
      var code := Strip(text);
      if IsDigits(code) && 4 <= |code| <= 8 {
        twoFaCode := Some(code);
        reply := CodeReceived;
      } else {
        reply := NotACode;
      }
    }

    /** `handle_login`: open the login page, unless it is already the dashboard go on with the company choice. */
    method HandleLogin(p: LoginPage, inbox: seq<seq<Message>>, allowed: int) returns (ok: bool)
      modifies this`trace, this`waitingFor2fa, this`twoFaCode
      ensures var r := Login(p, old(context), old(waitingFor2fa), old(twoFaCode), inbox, allowed);
        ok == r.ok && trace == old(trace) + r.actions && waitingFor2fa == r.waiting && twoFaCode == r.code
    {
      ghost var rest := Company(p, context, waitingFor2fa, twoFaCode, inbox, allowed);
      Send(AttemptingLogin);
      match p.landing {
        case LandingTimedOut =>
          Send(LoginTimeout);
          // `Assoc` (at the end of this file) regroups the trace to match `LoginRun`'s actions.
          Assoc(old(trace), [Notify(AttemptingLogin)], [Notify(LoginTimeout)]);
          ok := false;
        case LandingRaised =>
          Send(LoginError);
          Assoc(old(trace), [Notify(AttemptingLogin)], [Notify(LoginError)]);
          ok := false;
        case Landed(url) =>
          if Contains(url, DashboardMarker) {
            Send(AlreadyLoggedIn);
            Assoc(old(trace), [Notify(AttemptingLogin)], [Notify(AlreadyLoggedIn)]);
            ok := true;
          } else {
            ok := ChooseCompany(p, inbox, allowed);
            Assoc(old(trace), [Notify(AttemptingLogin)], rest.actions);
          }
      }
    }

    /** The company step of `handle_login`: an error fails, a missing button is passed over. */
    method ChooseCompany(p: LoginPage, inbox: seq<seq<Message>>, allowed: int) returns (ok: bool)
      modifies this`trace, this`waitingFor2fa, this`twoFaCode
      ensures var r := Company(p, old(context), old(waitingFor2fa), old(twoFaCode), inbox, allowed);
        ok == r.ok && trace == old(trace) + r.actions && waitingFor2fa == r.waiting && twoFaCode == r.code
    {
      ghost var rest := Credentials(p, context, waitingFor2fa, twoFaCode, inbox, allowed);
      if p.companyButton == Raised {
        Send(LoginError);
        return false;
      }
      ghost var head := (if p.companyButton == Found then [Notify(SelectingCompany), ClickCompany] else []) + [Notify(EnteringEmail)];
      SelectCompany(p.companyButton == Found);
      ok := EnterEmail(p, inbox, allowed);
      Assoc(old(trace), head, rest.actions);
    }

    /** Clicking the company button when it is on the page, then the email notice. */
    method SelectCompany(shown: bool)
      modifies this`trace
      ensures trace == old(trace) + ((if shown then [Notify(SelectingCompany), ClickCompany] else []) + [Notify(EnteringEmail)])
    {
      if shown {
        trace := trace + [Notify(SelectingCompany), ClickCompany];
      }
      trace := trace + [Notify(EnteringEmail)];
    }

    /** The email step of `handle_login` and what follows it. */
    method EnterEmail(p: LoginPage, inbox: seq<seq<Message>>, allowed: int) returns (ok: bool)
      modifies this`trace, this`waitingFor2fa, this`twoFaCode
      ensures var r := Credentials(p, old(context), old(waitingFor2fa), old(twoFaCode), inbox, allowed);
        ok == r.ok && trace == old(trace) + r.actions && waitingFor2fa == r.waiting && twoFaCode == r.code
    {
      ghost var rest := Password(p, context, waitingFor2fa, twoFaCode, inbox, allowed);
      if p.emailInput != Found {
        Send(Failure(p.emailInput));
        return false;
      }
      ghost var head := [FillEmail] + (if p.emailSubmit then [ClickSubmit] else []) + [Notify(EnteringPassword)];
      Fill(FillEmail, p.emailSubmit, EnteringPassword);
      ok := EnterPassword(p, inbox, allowed);
      Assoc(old(trace), head, rest.actions);
    }

    /** The password step of `handle_login` and what follows it. */
    method EnterPassword(p: LoginPage, inbox: seq<seq<Message>>, allowed: int) returns (ok: bool)
      modifies this`trace, this`waitingFor2fa, this`twoFaCode
      ensures var r := Password(p, old(context), old(waitingFor2fa), old(twoFaCode), inbox, allowed);
        ok == r.ok && trace == old(trace) + r.actions && waitingFor2fa == r.waiting && twoFaCode == r.code
    {
      ghost var rest := SecondFactor(p, context, waitingFor2fa, twoFaCode, inbox, allowed);
      if p.passwordInput != Found {
        Send(Failure(p.passwordInput));
        return false;
      }
      ghost var head := [FillPassword] + (if p.passwordSubmit then [ClickSubmit] else []) + [Notify(CheckingSecondFactor)];
      Fill(FillPassword, p.passwordSubmit, CheckingSecondFactor);
      ok := EnterCode(p, inbox, allowed);
      Assoc(old(trace), head, rest.actions);
    }

    /** Filling one input of the login form, submitting it when the page has a button, then the next notice. */
    method Fill(input: Action, submit: bool, next: Notice)
      modifies this`trace
      ensures trace == old(trace) + ([input] + (if submit then [ClickSubmit] else []) + [Notify(next)])
    {
      trace := trace + [input];
      if submit {
        trace := trace + [ClickSubmit];
      }
      trace := trace + [Notify(next)];
    }

    /** The optional second factor of `handle_login` and the wait for the dashboard. */
    method EnterCode(p: LoginPage, inbox: seq<seq<Message>>, allowed: int) returns (ok: bool)
      modifies this`trace, this`waitingFor2fa, this`twoFaCode
      ensures var r := SecondFactor(p, old(context), old(waitingFor2fa), old(twoFaCode), inbox, allowed);
        ok == r.ok && trace == old(trace) + r.actions && waitingFor2fa == r.waiting && twoFaCode == r.code
    {
      match p.codeInput {
        case TimedOut =>
          ok := AwaitDashboard(p);
        case Raised =>
          Send(LoginError);
          ok := false;
        case Found =>
          ok := UseCode(p, inbox, allowed);
      }
    }

    /** The second factor when its input is on the page: ask for the code, wait, type it. */
    method UseCode(p: LoginPage, inbox: seq<seq<Message>>, allowed: int) returns (ok: bool)
      requires p.codeInput == Found
      modifies this`trace, this`waitingFor2fa, this`twoFaCode
      ensures var r := SecondFactor(p, old(context), old(waitingFor2fa), old(twoFaCode), inbox, allowed);
        ok == r.ok && trace == old(trace) + r.actions && waitingFor2fa == r.waiting && twoFaCode == r.code
    {
      ghost var polled := Poll(old(twoFaCode), inbox, allowed, 0);
      Send(CodeRequested);
      waitingFor2fa := true;
      var slept := AwaitCode(inbox, allowed);
      assert twoFaCode == polled.code;
      if !Present(twoFaCode) {
        Send(CodeTimeout);
        Assoc(old(trace), [Notify(CodeRequested)], [Notify(CodeTimeout)]);
        return false;
      }
      var code := twoFaCode.value;
      ghost var submit: seq<Action> := if p.codeSubmit then [ClickSubmit] else [];
      ghost var t0 := trace;
      TypeCode(code, p.codeSubmit);
      ghost var head := [Notify(CodeRequested), Notify(EnteringCode), FillCode(code)] + submit;
      Assoc(old(trace), [Notify(CodeRequested)], [Notify(EnteringCode), FillCode(code)] + submit);
      assert trace == old(trace) + head;
      waitingFor2fa := false;
      twoFaCode := None;
      ghost var t1 := trace;
      ok := AwaitDashboard(p);
      Assoc(old(trace), head, trace[|t1|..]);
    }

    /** Typing the code of the second factor, and submitting it when the page has a button. */
    method TypeCode(code: string, submit: bool)
      modifies this`trace
      ensures trace == old(trace) + [Notify(EnteringCode), FillCode(code)] + (if submit then [ClickSubmit] else [])
    {
      trace := trace + [Notify(EnteringCode), FillCode(code)];
      if submit {
        trace := trace + [ClickSubmit];
      }
    }

    /** The last step of `handle_login`: wait for the dashboard URL, then save the session. */
    method AwaitDashboard(p: LoginPage) returns (ok: bool)
      modifies this`trace
      ensures var r := Arrival(p, old(context), old(waitingFor2fa), old(twoFaCode), 0);
        ok == r.ok && trace == old(trace) + r.actions
    {
      if p.dashboard != Found {
        Send(Failure(p.dashboard));
        return false;
      }
      Send(LoginSucceeded);
      SaveSession();
      Assoc(old(trace), [Notify(LoginSucceeded)], if context then [Action.SaveSession] else []);
      ok := true;
    }

    /**
     * `check_dashboard`: announce, then read the cards in order, skipping a
     * card that fails to parse; a dashboard that does not load gives an error
     * notice and no categories.
     */
    method CheckDashboard(view: DashboardView) returns (cats: seq<Category>)
      modifies this`trace
      ensures cats == Scan(view)
      ensures trace == old(trace) + DashboardNotices(view)
    {
      Send(CheckingDashboard);
      match view {
        case DashboardFailed =>
          Send(DashboardError);
          Assoc(old(trace), [Notify(CheckingDashboard)], [Notify(DashboardError)]);
          cats := [];
        case Cards(cards) =>
          cats := [];
          var i := 0;
          while i < |cards|
            invariant 0 <= i <= |cards|
            invariant cats == ParseCards(cards[..i])
          {
            var card := ParseCard(cards[i]);
            if card.Some? {
              cats := cats + [card.value];
            }
            assert cards[..i + 1][..i] == cards[..i];
            i := i + 1;
          }
          assert cards[..|cards|] == cards;
      }
    }

    /**
     * `navigate_to_production_tasks`: open the task list (by the in-page link
     * when there is one), then click the first button whose stripped text is
     * the category name; an unreadable button or a failed wait gives false.
     */
    method NavigateToProductionTasks(name: string, tp: TaskPage) returns (ok: bool)
      modifies this`trace
      ensures ok == Navigate(name, tp).ok
      ensures trace == old(trace) + Navigate(name, tp).actions
    {
      var open := if tp.navLink then OpenTasksByLink else OpenTasksByUrl;
      trace := trace + [open];
      if tp.buttons.None? {
        return false;
      }
      var texts := tp.buttons.value;
      var i := 0;
      while i < |texts|
        invariant 0 <= i <= |texts|
        invariant FirstMatchFrom(texts, name, i) == FirstMatch(texts, name)
      {
        if texts[i].None? {
          return false;
        }
        if Strip(texts[i].value) == name {
          trace := trace + [ClickCategoryButton(i)];
          Assoc(old(trace), [open], [ClickCategoryButton(i)]);
          return true;
        }
        i := i + 1;
      }
      ok := false;
    }

    /**
     * `process_production_page`: after the navigation, walk the rows of the
     * task table, clicking each unchecked icon and counting clicked and
     * already checked rows, then report both counters.
     */
    method ProcessProductionPage(name: string, tp: TaskPage)
      modifies this`trace
      ensures trace == old(trace) + Process(name, tp)
    {
      ghost var nav := Navigate(name, tp).actions;
      var ok := NavigateToProductionTasks(name, tp);
      if !ok {
        Send(NavigationFailed(name));
        Assoc(old(trace), nav, [Notify(NavigationFailed(name))]);
        return;
      }
      Send(Processing(name));
      Assoc(old(trace), nav, [Notify(Processing(name))]);
      if !tp.tableShown {
        Send(CategoryError(name));
        Assoc(old(trace), nav + [Notify(Processing(name))], [Notify(CategoryError(name))]);
        return;
      }
      ghost var head := nav + [Notify(Processing(name))];
      ghost var t1 := trace;
      var rows := tp.rows;
      var checked: nat, total: nat := 0, 0;
      var i: nat := 0;
      while i < |rows|
        invariant i <= |rows|
        invariant checked == CheckedCount(rows[..i]) && total == TotalCount(rows[..i])
        invariant trace == t1 + RowClicks(rows[..i])
      {
        assert rows[..i + 1][..i] == rows[..i];
        match rows[i] {
          case DataRow(Some(icons)) =>
            if icons.unchecked {
              trace := trace + [ClickRow(i)];
              checked, total := checked + 1, total + 1;
            } else if icons.checked {
              total := total + 1;
            }
          case _ =>
        }
        i := i + 1;
      }
      assert rows[..|rows|] == rows;
      Send(CategoryDone(name, checked, total));
      Assoc(old(trace), head, RowClicks(rows));
      Assoc(old(trace), head + RowClicks(rows), [Notify(CategoryDone(name, checked, total))]);
    }

    /**
     * The loop of `run_full_check` over the dashboard categories: each one
     * below 100% with items left is processed, with the task page met at that
     * visit, and counted.
     */
    method WalkCategories(cats: seq<Category>, pages: seq<TaskPage>) returns (processed: nat)
      modifies this`trace
      ensures processed == |Selected(cats)|
      ensures trace == old(trace) + Walk(cats, pages)
    {
      processed := 0;
      var i := 0;
      while i < |cats|
        invariant 0 <= i <= |cats|
        invariant processed == |Selected(cats[..i])|
        invariant trace == old(trace) + Walk(cats[..i], pages)
      {
        assert cats[..i + 1][..i] == cats[..i];
        ghost var t1 := trace;
        var c := cats[i];
        if NeedsWork(c) {
          ProcessProductionPage(c.name, PageFor(pages, processed));
          Assoc(old(trace), Walk(cats[..i], pages), Process(c.name, PageFor(pages, processed)));
          processed := processed + 1;
        } else {
          assert Walk(cats[..i + 1], pages) == Walk(cats[..i], pages);
        }
        i := i + 1;
      }
      assert cats[..|cats|] == cats;
    }

    /**
     * `cleanup`: save the session, then close the page, the context and the
     * browser and stop playwright, each only if set; the first step that
     * raises (after `completes` steps) ends it. The resources stay set.
     */
    method Cleanup(completes: nat)
      modifies this`trace
      ensures trace == old(trace) + Upto(CleanupPlan(Res()), completes)
    {
      ghost var res := Res();
      ghost var goal := old(trace) + Upto(CleanupPlan(res), completes);
      var left: nat := completes;
      var stopped := false;
      PendingStart(trace, res, completes);
      left, stopped := SaveStep(left, res, goal);
      left, stopped := Release(left, stopped, res, goal);
      PendingDone(trace, goal, res, left, stopped);
    }

    /** The first step of `cleanup`: `save_session`, which raises when no completion is left. */
    method SaveStep(left: nat, ghost res: Resources, ghost goal: seq<Action>) returns (left': nat, stopped: bool)
      requires res == Res() && Pending(trace, goal, res, 0, left, false)
      modifies this`trace
      ensures Pending(trace, goal, res, 1, left', stopped)
    {
      UptoStepsFrom(res, 0, left);
      left', stopped := left, false;
      if context {
        if left == 0 {
          stopped := true;
          assert trace + [] == trace;
        } else {
          SaveSession();
          left' := left - 1;
          Assoc(old(trace), [Action.SaveSession], Upto(StepsFrom(res, 1), left'));
        }
      }
    }

    /** The releases of `cleanup`, in order: page, context, browser, playwright. */
    method Release(left: nat, stopped: bool, ghost res: Resources, ghost goal: seq<Action>) returns (left': nat, stopped': bool)
      requires res == Res() && Pending(trace, goal, res, 1, left, stopped)
      modifies this`trace
      ensures Pending(trace, goal, res, 5, left', stopped')
    {
      var k := 1;
      left', stopped' := CleanupStep(k, page, left, stopped, res, goal);
      k := k + 1;
      left', stopped' := CleanupStep(k, context, left', stopped', res, goal);
      k := k + 1;
      left', stopped' := CleanupStep(k, browser, left', stopped', res, goal);
      k := k + 1;
      left', stopped' := CleanupStep(k, playwright, left', stopped', res, goal);
    }

    /**
     * Release `k` of `cleanup` (close the page, the context or the browser,
     * or stop playwright), taken only if its resource is set and no step
     * raised before; it raises when no completion is left.
     */
    method CleanupStep(k: nat, isSet: bool, left: nat, stopped: bool, ghost res: Resources, ghost goal: seq<Action>)
      returns (left': nat, stopped': bool)
      requires 1 <= k < 5 && isSet == Needed(res, StepAt(k))
      requires Pending(trace, goal, res, k, left, stopped)
      modifies this`trace
      ensures Pending(trace, goal, res, k + 1, left', stopped')
    {
      left', stopped' := left, stopped;
      if stopped {
        return;
      }
      UptoStepsFrom(res, k, left);
      if isSet {
        if left == 0 {
          stopped' := true;
          assert trace + [] == trace;
        } else {
          trace := trace + [StepAt(k)];
          left' := left - 1;
          Assoc(old(trace), [StepAt(k)], Upto(StepsFrom(res, k + 1), left'));
        }
      }
    }

    /**
     * `run_full_check` on a monitor just made: start the browser, log in,
     * read the dashboard, walk the categories that need work, and report;
     * every path ends with `cleanup`. The resources start-up set stay set,
     * and the flag and the code slot are as the login left them (still
     * waiting after a code timeout).
     */
    method RunFullCheck(obs: RunObs, allowed: int) returns (exit: Exit)
      requires !waitingFor2fa && twoFaCode == None && Res() == Resources(false, false, false, false)
      modifies this
      ensures exit == RunBody(obs, allowed).exit
      ensures trace == old(trace) + RunTrace(obs, allowed)
      ensures Res() == Opened(obs.initSteps)
      ensures obs.initSteps >= InitSteps ==> waitingFor2fa == RunLogin(obs, allowed).waiting && twoFaCode == RunLogin(obs, allowed).code
      ensures obs.initSteps < InitSteps ==> !waitingFor2fa && twoFaCode == None
    {
      var ok := Initialize(obs.initSteps);
      assert Res() == Opened(obs.initSteps);
      if !ok {
        Send(MainError);
        Assoc(old(trace), [Notify(Initializing)], [Notify(MainError)]);
        exit := InitFailed;
      } else {
        ghost var rest := AfterStart(obs, allowed);
        ghost var t1 := trace;
        exit := RunAfterStart(obs, allowed);
        Assoc(old(trace), [Notify(Initializing)], rest.actions);
      }
      ghost var body := RunBody(obs, allowed).actions;
      assert trace == old(trace) + body;
      Cleanup(obs.cleanupCompletes);
      assert Res() == Opened(obs.initSteps);
      Assoc(old(trace), body, Upto(CleanupPlan(Opened(obs.initSteps)), obs.cleanupCompletes));
    }

    /** The part of `run_full_check` after a successful start-up: log in, then go on or abort. */
    method RunAfterStart(obs: RunObs, allowed: int) returns (exit: Exit)
      requires !waitingFor2fa && twoFaCode == None && context
      modifies this`trace, this`waitingFor2fa, this`twoFaCode
      ensures exit == AfterStart(obs, allowed).exit
      ensures trace == old(trace) + AfterStart(obs, allowed).actions
      ensures waitingFor2fa == RunLogin(obs, allowed).waiting && twoFaCode == RunLogin(obs, allowed).code
    {
      ghost var login := RunLogin(obs, allowed);
      var ok := HandleLogin(obs.login, obs.inbox, allowed);
      if !ok {
        Send(LoginFailedAborting);
        Assoc(old(trace), login.actions, [Notify(LoginFailedAborting)]);
        return LoginFailed;
      }
      ghost var rest := AfterLogin(obs);
      ghost var t1 := trace;
      exit := RunAfterLogin(obs);
      Assoc(old(trace), login.actions, rest.actions);
    }

    /** The part of `run_full_check` after a successful login: the dashboard, the walk, the closing notice. */
    method RunAfterLogin(obs: RunObs) returns (exit: Exit)
      modifies this`trace
      ensures exit == AfterLogin(obs).exit
      ensures trace == old(trace) + AfterLogin(obs).actions
    {
      var cats := CheckDashboard(obs.dashboard);
      ghost var scanned := DashboardNotices(obs.dashboard);
      if cats == [] {
        Send(NoCategoriesFound);
        Assoc(old(trace), scanned, [Notify(NoCategoriesFound)]);
        return NoCategories;
      }
      Send(DashboardSummary(cats));
      Assoc(old(trace), scanned, [Notify(DashboardSummary(cats))]);
      ghost var summed := scanned + [Notify(DashboardSummary(cats))];
      var processed := WalkCategories(cats, obs.pages);
      Assoc(old(trace), summed, Walk(cats, obs.pages));
      if processed == 0 {
        Send(AllComplete);
      } else {
        Send(Done(processed));
      }
      Assoc(old(trace), summed + Walk(cats, obs.pages), [Notify(FinalNotice(processed))]);
      exit := Completed(processed);
    }
  }

  /**
   * Where `cleanup` stands on its way to `goal`: stopped by a step that
   * raised, with everything done; or with the steps from position `k` on
   * still to come, `left` of them completing.
   */
  ghost predicate Pending(done: seq<Action>, goal: seq<Action>, res: Resources, k: nat, left: nat, stopped: bool)
    requires k <= 5
  {
    if stopped then done == goal else done + Upto(StepsFrom(res, k), left) == goal
  }

  /** Before `cleanup` starts, the whole plan is still to come. */
  lemma PendingStart(done: seq<Action>, res: Resources, completes: nat)
    ensures Pending(done, done + Upto(CleanupPlan(res), completes), res, 0, completes, false)
  {
  }

  /** After the last step nothing is left to come: what was done is the goal. */
  lemma PendingDone(done: seq<Action>, goal: seq<Action>, res: Resources, left: nat, stopped: bool)
    requires Pending(done, goal, res, 5, left, stopped)
    ensures done == goal
  {
    if !stopped {
      assert done + [] == done;
    }
  }

  /**
   * Regrouping of a nested append. The methods above call it wherever a trace
   * is extended in several steps and the stage function builds the same
   * actions grouped the other way; naming the regrouping keeps each proof
   * small instead of leaving the solver to search for it.
   */
  lemma Assoc<T>(a: seq<T>, b: seq<T>, c: seq<T>)
    ensures (a + b) + c == a + (b + c)
  {
  }

  /**
   * `handle_message`: messages from anyone but the allowed user are ignored;
   * while a monitor exists and waits for the second factor, a stripped text
   * of 4 to 8 digits is stored in its code slot, and anything else is
   * answered with a request for just the digits.
   */
  method HandleMessage(active: ProductionMonitor?, sender: int, allowed: int, text: string) returns (reply: Reply)
    modifies active
    ensures active != null ==>
      active.twoFaCode == if sender == allowed && old(active.waitingFor2fa) && CodeIn(text).Some? then CodeIn(text) else old(active.twoFaCode)
    ensures active != null ==>
      active.waitingFor2fa == old(active.waitingFor2fa) && active.trace == old(active.trace) && active.Res() == old(active.Res())
    ensures reply == Ignored <==> sender != allowed || active == null || !old(active.waitingFor2fa)
    ensures reply == CodeReceived <==> reply != Ignored && CodeIn(text).Some?
  {
    if sender != allowed || active == null {
      return Ignored;
    }
    reply := active.ReceiveCode(sender, allowed, text);
  }
}
