/**
 * The whole check (`run_full_check`) as a function of everything the
 * monitor observes: how far browser start-up gets, the login pages and the
 * messages received while waiting for a code, the dashboard, the task page
 * met for each visited category, and how far `cleanup` gets.
 */
module Run {
  import opened Wrappers
  import opened Types
  import opened Gate
  import opened Auth
  import opened Dashboard
  import opened Tasks

  /** Which of the monitor's browser resources are set: `playwright`, `browser`, `context`, `page`. */
  datatype Resources = Resources(playwright: bool, browser: bool, context: bool, page: bool)

  /** The steps of `initialize`: start playwright, launch the browser, open a context, open a page. */
  const InitSteps: nat := 4

  /** The resources set when `initialize` gets through `steps` steps on a fresh monitor; each step needs the one before. */
  function Opened(steps: nat): (r: Resources)
    ensures r.page ==> r.context
    ensures r.context ==> r.browser
    ensures r.browser ==> r.playwright
    ensures r.page <==> steps >= InitSteps
  {
    Resources(steps >= 1, steps >= 2, steps >= 3, steps >= 4)
  }

  /** The steps of `cleanup` in the order it takes them. */
  function StepAt(k: nat): Action {
    if k == 0 then SaveSession
    else if k == 1 then ClosePage
    else if k == 2 then CloseContext
    else if k == 3 then CloseBrowser
    else StopPlaywright
  }

  /** The position of a step in `cleanup`; 5 for anything that is not a cleanup step. */
  function Rank(a: Action): nat {
    match a
    case SaveSession => 0
    case ClosePage => 1
    case CloseContext => 2
    case CloseBrowser => 3
    case StopPlaywright => 4
    case _ => 5
  }

  /** A step is taken only when its resource is set; the session is saved only with a context. */
  predicate Needed(res: Resources, a: Action) {
    match a
    case SaveSession => res.context
    case ClosePage => res.page
    case CloseContext => res.context
    case CloseBrowser => res.browser
    case StopPlaywright => res.playwright
    case _ => false
  }

  /** The steps of `cleanup` from position `k` on, each only if needed. */
  function StepsFrom(res: Resources, k: nat): (steps: seq<Action>)
    requires k <= 5
    ensures |steps| <= 5 - k
    decreases 5 - k
  {
    if k == 5 then []
    else (if Needed(res, StepAt(k)) then [StepAt(k)] else []) + StepsFrom(res, k + 1)
  }

  /** From position `k` on, a step is taken iff it is needed and not before `k`. */
  lemma {:induction false} StepsFromMembers(res: Resources, k: nat)
    requires k <= 5
    ensures forall a :: a in StepsFrom(res, k) <==> Needed(res, a) && k <= Rank(a)
    decreases 5 - k
  {
    if k < 5 {
      StepsFromMembers(res, k + 1);
      StepsFromMember(res, k);
    }
  }

  /** One step of `StepsFromMembers`: the only step at position `k` is `StepAt(k)`. */
  lemma StepsFromMember(res: Resources, k: nat)
    requires k < 5
    requires forall a :: a in StepsFrom(res, k + 1) <==> Needed(res, a) && k + 1 <= Rank(a)
    ensures forall a :: a in StepsFrom(res, k) <==> Needed(res, a) && k <= Rank(a)
  {
    assert Rank(StepAt(k)) == k;
    forall a | Rank(a) == k
      ensures a == StepAt(k)
    {
    }
  }

  /** Steps in strictly increasing position, none before `k`. */
  predicate RanksFrom(steps: seq<Action>, k: nat) {
    && (forall i :: 0 <= i < |steps| ==> k <= Rank(steps[i]))
    && (forall i, j :: 0 <= i < j < |steps| ==> Rank(steps[i]) < Rank(steps[j]))
  }

  /** A step at position `k` put before steps from later positions keeps the order. */
  lemma RanksCons(x: Action, rest: seq<Action>, k: nat)
    requires Rank(x) == k && RanksFrom(rest, k + 1)
    ensures RanksFrom([x] + rest, k)
  {
    var steps := [x] + rest;
    forall i | 0 <= i < |steps|
      ensures k <= Rank(steps[i])
    {
      if i > 0 {
        assert steps[i] == rest[i - 1];
      }
    }
    forall i, j | 0 <= i < j < |steps|
      ensures Rank(steps[i]) < Rank(steps[j])
    {
      assert steps[j] == rest[j - 1];
      if i > 0 {
        assert steps[i] == rest[i - 1];
      }
    }
  }

  /** From position `k` on, the steps come in strictly increasing position. */
  lemma {:induction false} StepsFromOrdered(res: Resources, k: nat)
    requires k <= 5
    ensures RanksFrom(StepsFrom(res, k), k)
    decreases 5 - k
  {
    if k < 5 {
      StepsFromOrdered(res, k + 1);
      StepsFromStep(res, k);
    }
  }

  /** One step of `StepsFromOrdered`: position `k` comes before all later ones. */
  lemma StepsFromStep(res: Resources, k: nat)
    requires k < 5 && RanksFrom(StepsFrom(res, k + 1), k + 1)
    ensures RanksFrom(StepsFrom(res, k), k)
  {
    var rest := StepsFrom(res, k + 1);
    var x := StepAt(k);
    assert Rank(x) == k;
    if Needed(res, x) {
      RanksCons(x, rest, k);
    } else {
      RanksWeaken(rest, k);
    }
  }

  /** Steps none of which is before `k + 1` are none before `k`. */
  lemma RanksWeaken(steps: seq<Action>, k: nat)
    requires RanksFrom(steps, k + 1)
    ensures RanksFrom(steps, k)
  {
  }

  /**
   * What `cleanup` does when no step raises: save the session first (when a
   * context is set), then close the page, the context and the browser and
   * stop playwright, each only if set, in that order.
   */
  function CleanupPlan(res: Resources): (plan: seq<Action>)
    ensures |plan| <= 5
  {
    StepsFrom(res, 0)
  }

  /** Each step is in the plan iff its resource is set, and the plan holds nothing but the session save and releases. */
  lemma CleanupPlanSteps(res: Resources)
    ensures forall a :: a in CleanupPlan(res) ==> a == SaveSession || IsRelease(a)
    ensures SaveSession in CleanupPlan(res) <==> res.context
    ensures ClosePage in CleanupPlan(res) <==> res.page
    ensures CloseContext in CleanupPlan(res) <==> res.context
    ensures CloseBrowser in CleanupPlan(res) <==> res.browser
    ensures StopPlaywright in CleanupPlan(res) <==> res.playwright
  {
    var plan := CleanupPlan(res);
    StepsFromMembers(res, 0);
    assert Needed(res, SaveSession) == res.context && Needed(res, ClosePage) == res.page;
    assert Needed(res, CloseContext) == res.context && Needed(res, CloseBrowser) == res.browser;
    assert Needed(res, StopPlaywright) == res.playwright;
    forall a | a in plan
      ensures a == SaveSession || IsRelease(a)
    {
      assert Needed(res, a);
    }
  }

  /** The plan takes the steps in `cleanup`'s order: save, page, context, browser, playwright. */
  lemma CleanupPlanOrdered(res: Resources)
    ensures forall i, j :: 0 <= i < j < |CleanupPlan(res)| ==> Rank(CleanupPlan(res)[i]) < Rank(CleanupPlan(res)[j])
  {
    StepsFromOrdered(res, 0);
    assert RanksFrom(CleanupPlan(res), 0);
  }

  /**
   * The steps of a plan that happen when the step after the first `completes`
   * ones raises: `cleanup` catches the error and skips the rest.
   */
  function Upto(plan: seq<Action>, completes: nat): seq<Action> {
    if completes < |plan| then plan[..completes] else plan
  }

  /** What happens is a prefix of the plan: its first `completes` steps, or all of it. */
  lemma UptoPrefix(plan: seq<Action>, completes: nat)
    ensures Upto(plan, completes) <= plan
    ensures |Upto(plan, completes)| == if completes < |plan| then completes else |plan|
  {
  }

  /**
   * `cleanup` one step at a time: a step that is not needed is passed over,
   * a needed one raises when no completion is left, and is taken otherwise.
   */
  lemma UptoStepsFrom(res: Resources, k: nat, left: nat)
    requires k < 5
    ensures Upto(StepsFrom(res, k), left) ==
      if !Needed(res, StepAt(k)) then Upto(StepsFrom(res, k + 1), left)
      else if left == 0 then []
      else [StepAt(k)] + Upto(StepsFrom(res, k + 1), left - 1)
  {
    var rest := StepsFrom(res, k + 1);
    if Needed(res, StepAt(k)) && left > 0 {
      assert StepsFrom(res, k) == [StepAt(k)] + rest;
      if left - 1 < |rest| {
        assert ([StepAt(k)] + rest)[..left] == [StepAt(k)] + rest[..left - 1];
      }
    }
  }

  /** The task page met at the `k`-th category visit; a visit without an observation finds no buttons. */
  function PageFor(pages: seq<TaskPage>, k: nat): TaskPage {
    if k < |pages| then pages[k] else TaskPage(false, None, false, [])
  }

  /**
   * The walk over the dashboard categories as the loop runs it: a category
   * that needs work is processed with the next page, and the others are passed over.
   */
  function Walk(cats: seq<Category>, pages: seq<TaskPage>): (r: seq<Action>)
    ensures forall a :: a in r ==> WalkerStep(a)
  {
    if cats == [] then []
    else
      var init := cats[..|cats| - 1];
      var c := cats[|cats| - 1];
      Walk(init, pages) + (if NeedsWork(c) then Process(c.name, PageFor(pages, |Selected(init)|)) else [])
  }

  /** The selected categories processed one after another, each with its own page. */
  function Visits(sel: seq<Category>, pages: seq<TaskPage>): seq<Action> {
    if sel == [] then []
    else
      var init := sel[..|sel| - 1];
      Visits(init, pages) + Process(sel[|sel| - 1].name, PageFor(pages, |init|))
  }

  /** The walk processes exactly the selected categories, in dashboard order, and nothing else. */
  lemma {:induction false} WalkVisitsSelected(cats: seq<Category>, pages: seq<TaskPage>)
    ensures Walk(cats, pages) == Visits(Selected(cats), pages)
  {
    if cats != [] {
      var init := cats[..|cats| - 1];
      var c := cats[|cats| - 1];
      WalkVisitsSelected(init, pages);
      if NeedsWork(c) {
        var sel := Selected(init) + [c];
        assert Selected(cats) == sel;
        assert sel[..|sel| - 1] == Selected(init);
        assert Visits(sel, pages) == Visits(Selected(init), pages) + Process(c.name, PageFor(pages, |Selected(init)|));
      } else {
        assert Selected(cats) == Selected(init);
        assert Walk(cats, pages) == Walk(init, pages);
      }
    }
  }

  /** Everything the run observes. */
  datatype RunObs = RunObs(
    initSteps: nat,              // steps of `initialize` that complete; fewer than 4 means it raised
    login: LoginPage,
    inbox: seq<seq<Message>>,    // messages the chat handler receives during each sleep of the code wait
    dashboard: DashboardView,
    pages: seq<TaskPage>,        // the task page met at each category visit, in visit order
    cleanupCompletes: nat        // steps of `cleanup` that complete before one raises
  )

  /** How the run ended: the catch-all after a failed start-up, a failed login, no categories, or the walk. */
  datatype Exit = InitFailed | LoginFailed | NoCategories | Completed(processed: nat)

  /** What the run did before `cleanup`, and how it ended. */
  datatype Body = Body(exit: Exit, actions: seq<Action>)

  /** The notices of `check_dashboard`: the opening one, and an error notice when the page did not load. */
  function DashboardNotices(view: DashboardView): seq<Action> {
    [Notify(CheckingDashboard)] + (if view.DashboardFailed? then [Notify(DashboardError)] else [])
  }

  /** The notice that closes the walk: `processed` decides between the two. */
  function FinalNotice(processed: nat): Notice {
    if processed == 0 then AllComplete else Done(processed)
  }

  /** The login of a run: on a monitor just started, holding a context, not waiting and with an empty slot. */
  function RunLogin(obs: RunObs, allowed: int): LoginRun {
    Login(obs.login, true, false, None, obs.inbox, allowed)
  }

  /** `run_full_check` up to its call of `cleanup`. */
  function RunBody(obs: RunObs, allowed: int): Body {
    if obs.initSteps < InitSteps then Body(InitFailed, [Notify(Initializing), Notify(MainError)])
    else
      var rest := AfterStart(obs, allowed);
      rest.(actions := [Notify(Initializing)] + rest.actions)
  }

  /** The run after a successful start-up: the login, then the rest or the abort notice. */
  function AfterStart(obs: RunObs, allowed: int): Body {
    var login := RunLogin(obs, allowed);
    if !login.ok then Body(LoginFailed, login.actions + [Notify(LoginFailedAborting)])
    else
      var rest := AfterLogin(obs);
      rest.(actions := login.actions + rest.actions)
  }

  /** The run after a successful login: the dashboard, the summary, the walk and the closing notice. */
  function AfterLogin(obs: RunObs): Body {
    var cats := Scan(obs.dashboard);
    if cats == [] then Body(NoCategories, DashboardNotices(obs.dashboard) + [Notify(NoCategoriesFound)])
    else
      var processed := |Selected(cats)|;
      Body(Completed(processed), DashboardNotices(obs.dashboard) + [Notify(DashboardSummary(cats))] + Walk(cats, obs.pages)
        + [Notify(FinalNotice(processed))])
  }

  /** The whole run: its body, then `cleanup` over the resources start-up left set. */
  function RunTrace(obs: RunObs, allowed: int): seq<Action> {
    RunBody(obs, allowed).actions + Upto(CleanupPlan(Opened(obs.initSteps)), obs.cleanupCompletes)
  }

  /** How the run ends is decided, in this order, by start-up, login, the dashboard scan and the selection. */
  lemma RunExits(obs: RunObs, allowed: int)
    ensures var exit := RunBody(obs, allowed).exit;
      && (exit == InitFailed <==> obs.initSteps < InitSteps)
      && (exit == LoginFailed <==> obs.initSteps >= InitSteps && !RunLogin(obs, allowed).ok)
      && (exit == NoCategories <==> obs.initSteps >= InitSteps && RunLogin(obs, allowed).ok && Scan(obs.dashboard) == [])
      && (exit.Completed? ==> exit.processed == |Selected(Scan(obs.dashboard))| && Scan(obs.dashboard) != [])
  {
  }

  /**
   * After a walk, the last message before `cleanup` says that all categories
   * were already complete iff no category was processed, else how many were.
   */
  lemma RunFinalMessage(obs: RunObs, allowed: int)
    requires RunBody(obs, allowed).exit.Completed?
    ensures var body := RunBody(obs, allowed);
      var n := body.exit.processed;
      && body.actions != []
      && (body.actions[|body.actions| - 1] == Notify(AllComplete) <==> n == 0)
      && (n > 0 ==> body.actions[|body.actions| - 1] == Notify(Done(n)))
  {
  }

  /** Nothing before `cleanup` releases a resource: every exit path leaves all releases to `cleanup`. */
  lemma RunReleasesOnlyInCleanup(obs: RunObs, allowed: int)
    ensures forall a :: a in RunBody(obs, allowed).actions ==> !IsRelease(a)
  {
    var body := RunBody(obs, allowed);
    forall a | a in body.actions
      ensures !IsRelease(a)
    {
      if obs.initSteps >= InitSteps {
        var login := RunLogin(obs, allowed);
        LoginTraced(obs.login, true, false, None, obs.inbox, allowed);
        if a in login.actions {
          assert LoginStep(a);
        } else if a in Walk(Scan(obs.dashboard), obs.pages) {
          assert WalkerStep(a);
        }
      }
    }
  }

  /** A failed start-up or login stops before the dashboard is read. */
  lemma RunLoginFailureSkipsDashboard(obs: RunObs, allowed: int)
    requires RunBody(obs, allowed).exit == InitFailed || RunBody(obs, allowed).exit == LoginFailed
    ensures Notify(CheckingDashboard) !in RunBody(obs, allowed).actions
  {
    if obs.initSteps >= InitSteps {
      var login := RunLogin(obs, allowed);
      LoginTraced(obs.login, true, false, None, obs.inbox, allowed);
      assert RunBody(obs, allowed).actions == [Notify(Initializing)] + login.actions + [Notify(LoginFailedAborting)];
      assert !LoginStep(Notify(CheckingDashboard));
    }
  }

  /** No category page is visited unless the dashboard gave categories. */
  lemma RunNoWalkWithoutCategories(obs: RunObs, allowed: int)
    requires !RunBody(obs, allowed).exit.Completed?
    ensures forall a :: a in RunBody(obs, allowed).actions ==> !WalkerStep(a)
  {
    var body := RunBody(obs, allowed);
    forall a | a in body.actions
      ensures !WalkerStep(a)
    {
      if obs.initSteps >= InitSteps {
        var login := RunLogin(obs, allowed);
        LoginTraced(obs.login, true, false, None, obs.inbox, allowed);
        if a in login.actions {
          assert LoginStep(a);
        }
      }
    }
  }

  /**
   * The run ends with the part of the cleanup plan that completes before a
   * step raises (the whole plan when none does), and no release comes earlier.
   */
  lemma RunEndsWithCleanup(obs: RunObs, allowed: int)
    ensures var t := RunTrace(obs, allowed);
      var plan := CleanupPlan(Opened(obs.initSteps));
      var done := Upto(plan, obs.cleanupCompletes);
      |done| <= |t| && t[|t| - |done|..] == done
      && (forall a :: a in t[..|t| - |done|] ==> !IsRelease(a))
      && (obs.cleanupCompletes >= |plan| ==> done == plan)
  {
    var done := Upto(CleanupPlan(Opened(obs.initSteps)), obs.cleanupCompletes);
    RunReleasesOnlyInCleanup(obs, allowed);
    var body := RunBody(obs, allowed).actions;
    assert RunTrace(obs, allowed) == body + done;
    assert (body + done)[..|body|] == body;
  }
}
