/**
 * The login flow (`handle_login`) as a function of what the login pages show
 * and of the messages the chat handler receives while the flow waits for the
 * second factor.
 */
module Auth {
  import opened Wrappers
  import opened Types
  import opened Gate

  /** Python's `sub in s` for strings: `sub` starts at some position of `s`. */
  predicate Contains(s: string, sub: string) {
    sub <= s || (s != [] && Contains(s[1..], sub))
  }

  /** Any text holding `sub` somewhere, such as a URL ending in `#/plan-dashboard`, contains it. */
  lemma {:induction false} ContainsInfix(a: string, sub: string, b: string)
    ensures Contains(a + sub + b, sub)
    decreases |a|
  {
    if a == [] {
      assert a + sub + b == sub + b;
      assert (sub + b)[..|sub|] == sub;
    } else {
      assert (a + sub + b)[1..] == a[1..] + sub + b;
      ContainsInfix(a[1..], sub, b);
    }
  }

  /** `sub` is the slice of `s` starting at position `i`. */
  predicate OccursAt(s: string, sub: string, i: int) {
    0 <= i && i + |sub| <= |s| && s[i..i + |sub|] == sub
  }

  /** Containment means `sub` occurs at some position of `s`. */
  lemma {:induction false} ContainsAt(s: string, sub: string)
    requires Contains(s, sub)
    ensures exists i :: OccursAt(s, sub, i)
    decreases |s|
  {
    if sub <= s {
      assert OccursAt(s, sub, 0);
    } else {
      ContainsAt(s[1..], sub);
      var i :| OccursAt(s[1..], sub, i);
      assert s[i + 1..i + 1 + |sub|] == s[1..][i..i + |sub|];
      assert OccursAt(s, sub, i + 1);
    }
  }

  /** The URL fragment of the dashboard page. */
  const DashboardMarker: string := "plan-dashboard"

  /**
   * The outcome of the flow: its return value, what it did, the monitor's
   * `waiting_for_2fa` and `two_fa_code` afterwards, and the sleeps spent
   * waiting for a code.
   */
  datatype LoginRun = LoginRun(ok: bool, actions: seq<Action>, waiting: bool, code: Option<string>, slept: nat)

  /** The first page already is the dashboard. */
  predicate AlreadyIn(p: LoginPage) {
    p.landing.Landed? && Contains(p.landing.url, DashboardMarker)
  }

  /** A failed wait: a timeout is reported as such, any other error as a login error. */
  function Failure(probe: Probe): Notice {
    if probe == TimedOut then LoginTimeout else LoginError
  }

  /** The notices of the login flow. */
  predicate LoginNotice(n: Notice) {
    match n
    case AttemptingLogin | AlreadyLoggedIn | SelectingCompany | EnteringEmail | EnteringPassword => true
    case CheckingSecondFactor | CodeRequested | CodeTimeout | EnteringCode => true
    case LoginSucceeded | LoginTimeout | LoginError => true
    case _ => false
  }

  /** What the login flow may do: its own notices, the clicks and fills of the login pages, and the session save. */
  predicate LoginStep(a: Action) {
    match a
    case Notify(n) => LoginNotice(n)
    case ClickCompany => true
    case FillEmail => true
    case FillPassword => true
    case ClickSubmit => true
    case FillCode(_) => true
    case SaveSession => true
    case _ => false
  }

  /** The second factor and the dashboard wait pass. */
  predicate StepsPass(p: LoginPage, code: Option<string>, inbox: seq<seq<Message>>, allowed: int) {
    p.codeInput != Raised && (p.codeInput == Found ==> Present(Poll(code, inbox, allowed, 0).code))
    && p.dashboard == Found
  }

  /** Code `c` was the one the wait produced, and the flag and slot were cleared after typing it. */
  predicate CodeUsed(p: LoginPage, code: Option<string>, inbox: seq<seq<Message>>, allowed: int, r: LoginRun, c: string) {
    p.codeInput == Found && Poll(code, inbox, allowed, 0).code == Some(c) && !r.waiting && r.code == None
  }

  /** Every step of the flow passes: the condition under which `handle_login` returns true without the shortcut. */
  predicate Passes(p: LoginPage, code: Option<string>, inbox: seq<seq<Message>>, allowed: int) {
    p.landing.Landed? && p.companyButton != Raised && p.emailInput == Found && p.passwordInput == Found
    && StepsPass(p, code, inbox, allowed)
  }

  /**
   * `handle_login`, given whether the monitor holds a browser context (for
   * the session save), its code slot and flag on entry, the messages received
   * during each sleep of the wait, and the allowed chat user. It succeeds
   * iff the first page is already the dashboard or every step passes (a
   * missing company button is no error, a missing email or password input
   * is a failure), and it sleeps at most 60 times, only when the
   * verification input appeared.
   */
  function Login(p: LoginPage, hasContext: bool, waiting: bool, code: Option<string>, inbox: seq<seq<Message>>, allowed: int): (r: LoginRun)
    ensures r.ok <==> AlreadyIn(p) || Passes(p, code, inbox, allowed)
    ensures r.slept <= MaxPolls && (r.slept > 0 ==> p.codeInput == Found)
  {
    var start := [Notify(AttemptingLogin)];
    match p.landing
    case LandingTimedOut => LoginRun(false, start + [Notify(LoginTimeout)], waiting, code, 0)
    case LandingRaised => LoginRun(false, start + [Notify(LoginError)], waiting, code, 0)
    case Landed(url) =>
      if Contains(url, DashboardMarker) then LoginRun(true, start + [Notify(AlreadyLoggedIn)], waiting, code, 0)
      else
        var rest := Company(p, hasContext, waiting, code, inbox, allowed);
        rest.(actions := start + rest.actions)
  }

  /** The company choice (a missing button is passed over, an error fails) and what follows it. */
  function Company(p: LoginPage, hasContext: bool, waiting: bool, code: Option<string>, inbox: seq<seq<Message>>, allowed: int): (r: LoginRun)
    ensures r.ok <==> p.companyButton != Raised && p.emailInput == Found && p.passwordInput == Found && StepsPass(p, code, inbox, allowed)
    ensures r.slept <= MaxPolls && (r.slept > 0 ==> p.codeInput == Found)
  {
    if p.companyButton == Raised then LoginRun(false, [Notify(LoginError)], waiting, code, 0)
    else
      var company := if p.companyButton == Found then [Notify(SelectingCompany), ClickCompany] else [];
      var rest := Credentials(p, hasContext, waiting, code, inbox, allowed);
      rest.(actions := company + [Notify(EnteringEmail)] + rest.actions)
  }

  /** The email step and what follows it; the email input is mandatory. */
  function Credentials(p: LoginPage, hasContext: bool, waiting: bool, code: Option<string>, inbox: seq<seq<Message>>, allowed: int): (r: LoginRun)
    ensures r.ok <==> p.emailInput == Found && p.passwordInput == Found && StepsPass(p, code, inbox, allowed)
    ensures r.slept <= MaxPolls && (r.slept > 0 ==> p.codeInput == Found)
  {
    if p.emailInput != Found then LoginRun(false, [Notify(Failure(p.emailInput))], waiting, code, 0)
    else
      var rest := Password(p, hasContext, waiting, code, inbox, allowed);
      rest.(actions := [FillEmail] + (if p.emailSubmit then [ClickSubmit] else []) + [Notify(EnteringPassword)] + rest.actions)
  }

  /** The password step and what follows it; the password input is mandatory. */
  function Password(p: LoginPage, hasContext: bool, waiting: bool, code: Option<string>, inbox: seq<seq<Message>>, allowed: int): (r: LoginRun)
    ensures r.ok <==> p.passwordInput == Found && StepsPass(p, code, inbox, allowed)
    ensures r.slept <= MaxPolls && (r.slept > 0 ==> p.codeInput == Found)
  {
    if p.passwordInput != Found then LoginRun(false, [Notify(Failure(p.passwordInput))], waiting, code, 0)
    else
      var rest := SecondFactor(p, hasContext, waiting, code, inbox, allowed);
      rest.(actions := [FillPassword] + (if p.passwordSubmit then [ClickSubmit] else []) + [Notify(CheckingSecondFactor)] + rest.actions)
  }

  /**
   * The optional verification code: when its input appears, ask for the code,
   * set the flag and poll the slot; with no code after the last poll, fail;
   * with one, type it, submit, and clear the flag and the slot.
   */
  function SecondFactor(p: LoginPage, hasContext: bool, waiting: bool, code: Option<string>, inbox: seq<seq<Message>>, allowed: int): (r: LoginRun)
    ensures r.ok <==> StepsPass(p, code, inbox, allowed)
    ensures r.slept <= MaxPolls && (r.slept > 0 ==> p.codeInput == Found)
  {
    match p.codeInput
    case TimedOut => Arrival(p, hasContext, waiting, code, 0)
    case Raised => LoginRun(false, [Notify(LoginError)], waiting, code, 0)
    case Found =>
      var polled := Poll(code, inbox, allowed, 0);
      if !Present(polled.code) then LoginRun(false, [Notify(CodeRequested), Notify(CodeTimeout)], true, polled.code, polled.slept)
      else
        var rest := Arrival(p, hasContext, false, None, polled.slept);
        var typed := [Notify(CodeRequested), Notify(EnteringCode), FillCode(polled.code.value)];
        rest.(actions := typed + (if p.codeSubmit then [ClickSubmit] else []) + rest.actions)
  }

  /** The wait for the dashboard URL, then the session save (only with a browser context). */
  function Arrival(p: LoginPage, hasContext: bool, waiting: bool, code: Option<string>, slept: nat): (r: LoginRun)
    ensures r.ok <==> p.dashboard == Found
    ensures r.waiting == waiting && r.code == code && r.slept == slept
  {
    if p.dashboard == Found then LoginRun(true, [Notify(LoginSucceeded)] + (if hasContext then [SaveSession] else []), waiting, code, slept)
    else LoginRun(false, [Notify(Failure(p.dashboard))], waiting, code, slept)
  }

  /**
   * What a stage of the flow did is well formed: it saved the session iff it
   * succeeded with a context, typed no code but the one the wait produced
   * (and cleared the flag and slot after it), and did nothing but login steps.
   */
  ghost predicate Traced(r: LoginRun, p: LoginPage, hasContext: bool, code: Option<string>, inbox: seq<seq<Message>>, allowed: int) {
    && (SaveSession in r.actions <==> r.ok && hasContext)
    && (forall c :: FillCode(c) in r.actions ==> CodeUsed(p, code, inbox, allowed, r, c))
    && (forall a :: a in r.actions ==> LoginStep(a))
  }

  lemma ArrivalTraced(p: LoginPage, hasContext: bool, waiting: bool, code: Option<string>, slept: nat)
    ensures var r := Arrival(p, hasContext, waiting, code, slept);
      (SaveSession in r.actions <==> r.ok && hasContext)
      && (forall c :: FillCode(c) !in r.actions) && (forall a :: a in r.actions ==> LoginStep(a))
  {
  }

  lemma SecondFactorTraced(p: LoginPage, hasContext: bool, waiting: bool, code: Option<string>, inbox: seq<seq<Message>>, allowed: int)
    ensures Traced(SecondFactor(p, hasContext, waiting, code, inbox, allowed), p, hasContext, code, inbox, allowed)
  {
    match p.codeInput
    case TimedOut =>
      ArrivalTraced(p, hasContext, waiting, code, 0);
    case Raised =>
    case Found =>
      if Present(Poll(code, inbox, allowed, 0).code) {
        CodeTypedTraced(p, hasContext, waiting, code, inbox, allowed);
      }
  }

  /** The branch of the second factor that types the code the wait produced. */
  lemma CodeTypedTraced(p: LoginPage, hasContext: bool, waiting: bool, code: Option<string>, inbox: seq<seq<Message>>, allowed: int)
    requires p.codeInput == Found && Present(Poll(code, inbox, allowed, 0).code)
    ensures Traced(SecondFactor(p, hasContext, waiting, code, inbox, allowed), p, hasContext, code, inbox, allowed)
  {
    var polled := Poll(code, inbox, allowed, 0);
    var r := SecondFactor(p, hasContext, waiting, code, inbox, allowed);
    var rest := Arrival(p, hasContext, false, None, polled.slept);
    ArrivalTraced(p, hasContext, false, None, polled.slept);
    var head := [Notify(CodeRequested), Notify(EnteringCode), FillCode(polled.code.value)] + (if p.codeSubmit then [ClickSubmit] else []);
    assert r == rest.(actions := head + rest.actions);
    assert forall a :: a in r.actions ==> a in head || a in rest.actions;
    assert forall a :: a in head ==> LoginStep(a) && !a.SaveSession? && (a.FillCode? ==> a.code == polled.code.value);
  }

  /** Login steps that neither save nor type a code keep a stage traced when they come first. */
  lemma PrefixTraced(head: seq<Action>, rest: LoginRun, p: LoginPage, hasContext: bool, code: Option<string>, inbox: seq<seq<Message>>, allowed: int)
    requires Traced(rest, p, hasContext, code, inbox, allowed)
    requires forall a :: a in head ==> LoginStep(a) && !a.SaveSession? && !a.FillCode?
    ensures Traced(rest.(actions := head + rest.actions), p, hasContext, code, inbox, allowed)
  {
    var r := rest.(actions := head + rest.actions);
    assert forall a :: a in r.actions ==> a in head || a in rest.actions;
  }

  lemma PasswordTraced(p: LoginPage, hasContext: bool, waiting: bool, code: Option<string>, inbox: seq<seq<Message>>, allowed: int)
    ensures Traced(Password(p, hasContext, waiting, code, inbox, allowed), p, hasContext, code, inbox, allowed)
  {
    if p.passwordInput == Found {
      var rest := SecondFactor(p, hasContext, waiting, code, inbox, allowed);
      SecondFactorTraced(p, hasContext, waiting, code, inbox, allowed);
      var head: seq<Action> := [FillPassword] + (if p.passwordSubmit then [ClickSubmit] else []) + [Notify(CheckingSecondFactor)];
      assert Password(p, hasContext, waiting, code, inbox, allowed) == rest.(actions := head + rest.actions);
      PrefixTraced(head, rest, p, hasContext, code, inbox, allowed);
    }
  }

  lemma CredentialsTraced(p: LoginPage, hasContext: bool, waiting: bool, code: Option<string>, inbox: seq<seq<Message>>, allowed: int)
    ensures Traced(Credentials(p, hasContext, waiting, code, inbox, allowed), p, hasContext, code, inbox, allowed)
  {
    if p.emailInput == Found {
      var rest := Password(p, hasContext, waiting, code, inbox, allowed);
      PasswordTraced(p, hasContext, waiting, code, inbox, allowed);
      var head: seq<Action> := [FillEmail] + (if p.emailSubmit then [ClickSubmit] else []) + [Notify(EnteringPassword)];
      assert Credentials(p, hasContext, waiting, code, inbox, allowed) == rest.(actions := head + rest.actions);
      PrefixTraced(head, rest, p, hasContext, code, inbox, allowed);
    }
  }

  lemma CompanyTraced(p: LoginPage, hasContext: bool, waiting: bool, code: Option<string>, inbox: seq<seq<Message>>, allowed: int)
    ensures Traced(Company(p, hasContext, waiting, code, inbox, allowed), p, hasContext, code, inbox, allowed)
  {
    if p.companyButton != Raised {
      var rest := Credentials(p, hasContext, waiting, code, inbox, allowed);
      CredentialsTraced(p, hasContext, waiting, code, inbox, allowed);
      var company := if p.companyButton == Found then [Notify(SelectingCompany), ClickCompany] else [];
      var head := company + [Notify(EnteringEmail)];
      assert Company(p, hasContext, waiting, code, inbox, allowed) == rest.(actions := head + rest.actions);
      PrefixTraced(head, rest, p, hasContext, code, inbox, allowed);
    }
  }

  /**
   * The whole flow does nothing but login steps; it saves the session iff it
   * went through all steps to the dashboard holding a context; and it types a
   * code only when the wait produced one, clearing the flag and slot after it.
   */
  lemma LoginTraced(p: LoginPage, hasContext: bool, waiting: bool, code: Option<string>, inbox: seq<seq<Message>>, allowed: int)
    ensures var r := Login(p, hasContext, waiting, code, inbox, allowed);
      && (forall a :: a in r.actions ==> LoginStep(a))
      && (SaveSession in r.actions <==> r.ok && hasContext && !AlreadyIn(p))
      && (forall c :: FillCode(c) in r.actions ==> CodeUsed(p, code, inbox, allowed, r, c))
  {
    if !AlreadyIn(p) && p.landing.Landed? {
      var rest := Company(p, hasContext, waiting, code, inbox, allowed);
      CompanyTraced(p, hasContext, waiting, code, inbox, allowed);
      assert Login(p, hasContext, waiting, code, inbox, allowed) == rest.(actions := [Notify(AttemptingLogin)] + rest.actions);
      PrefixTraced([Notify(AttemptingLogin)], rest, p, hasContext, code, inbox, allowed);
    }
  }

  /** The shortcut is taken iff the landing URL holds `plan-dashboard` at some position. */
  lemma AlreadyInMarker(p: LoginPage)
    ensures AlreadyIn(p) <==> p.landing.Landed? && exists i :: OccursAt(p.landing.url, DashboardMarker, i)
  {
    if AlreadyIn(p) {
      ContainsAt(p.landing.url, DashboardMarker);
    }
    if p.landing.Landed? && exists i :: OccursAt(p.landing.url, DashboardMarker, i) {
      var url := p.landing.url;
      var i :| OccursAt(url, DashboardMarker, i);
      assert url == url[..i] + DashboardMarker + url[i + |DashboardMarker|..];
      ContainsInfix(url[..i], DashboardMarker, url[i + |DashboardMarker|..]);
    }
  }

  /** A dashboard URL right after navigation succeeds at once: no email step, no wait, no session save. */
  lemma LoginShortcut(p: LoginPage, hasContext: bool, waiting: bool, code: Option<string>, inbox: seq<seq<Message>>, allowed: int)
    requires AlreadyIn(p)
    ensures var r := Login(p, hasContext, waiting, code, inbox, allowed);
      r.ok && FillEmail !in r.actions && SaveSession !in r.actions && r.slept == 0
      && r.waiting == waiting && r.code == code
  {
  }

  /**
   * With the verification input shown and no valid code from the allowed user
   * during any of the 60 sleeps, the flow fails with a timeout notice after
   * all 60 sleeps, still waiting.
   */
  lemma LoginCodeTimeout(p: LoginPage, hasContext: bool, waiting: bool, inbox: seq<seq<Message>>, allowed: int)
    requires !AlreadyIn(p) && p.landing.Landed? && p.companyButton != Raised
    requires p.emailInput == Found && p.passwordInput == Found && p.codeInput == Found
    requires forall k :: 0 <= k < MaxPolls ==> !HasCode(Batch(inbox, k), allowed)
    ensures var r := Login(p, hasContext, waiting, None, inbox, allowed);
      !r.ok && r.actions[|r.actions| - 1] == Notify(CodeTimeout) && r.slept == MaxPolls && r.waiting
  {
    PollTimesOut(None, inbox, allowed, 0);
  }

  /** Starting from an empty or valid slot, the only codes ever typed are 4 to 8 ASCII digits. */
  lemma LoginTypesValidCode(p: LoginPage, hasContext: bool, waiting: bool, code: Option<string>, inbox: seq<seq<Message>>, allowed: int, c: string)
    requires ValidSlot(code)
    ensures FillCode(c) in Login(p, hasContext, waiting, code, inbox, allowed).actions ==> IsCode(c)
  {
    LoginTraced(p, hasContext, waiting, code, inbox, allowed);
    PollKeepsValid(code, inbox, allowed, 0);
  }

  /**
   * Starting, as `run_full_check` does, from an empty slot, a code typed into
   * the 2FA field is the code of a message from the allowed user that the
   * handler accepted during one of the at most 60 sleeps.
   */
  lemma LoginTypesSentCode(p: LoginPage, hasContext: bool, waiting: bool, inbox: seq<seq<Message>>, allowed: int, c: string)
    requires FillCode(c) in Login(p, hasContext, waiting, None, inbox, allowed).actions
    ensures exists k, i :: (0 <= k < MaxPolls && 0 <= i < |Batch(inbox, k)| && Accepts(Batch(inbox, k)[i], allowed)
                            && CodeIn(Batch(inbox, k)[i].text) == Some(c))
  {
    LoginTraced(p, hasContext, waiting, None, inbox, allowed);
    PollKeepsValid(None, inbox, allowed, 0);
    PollFromInbox(None, inbox, allowed, 0);
  }
}
