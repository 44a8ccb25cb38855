/** What survives a page reload. Every handler that changes a collection writes
    that collection back under its key, so storage always holds what a reload
    reads back; the session, the roster additions and the credits ledger are
    not read back and are lost. */
module Persistence {
  import opened Base
  import opened Lists
  import opened Router
  import opened Store
  import opened Handlers

  /** One user action on a page's form or button. */
  datatype Action =
    | SignIn(email: string, password: string)
    | SignUp(name: string, email: string, password: string, now: nat)
    | SignOut
    | Create(kind: Kind, form: TaskForm, now: nat)
    | Delete(kind: Kind, id: string)
    | Edit(kind: Kind, id: string, form: TaskForm)
    | GradeSubmission(id: string, grade: int)
    | Grant(userId: string, amount: int)

  function Step(w: World, a: Action): Result<World>
  {
    match a
    case SignIn(email, password) => Login(w, email, password)
    case SignUp(name, email, password, now) => Signup(w, name, email, password, now)
    case SignOut => Ok(Logout(w))
    case Create(kind, form, now) => CreateTask(w, kind, form, now)
    case Delete(kind, id) => Ok(DeleteTask(w, kind, id))
    case Edit(kind, id, form) => Ok(EditTask(w, kind, id, form))
    case GradeSubmission(id, grade) => Ok(Grade(w, id, grade))
    case Grant(userId, amount) => GiveCredits(w, userId, amount)
  }

  /** The world after a sequence of actions; a refused action changes nothing. */
  function Run(w: World, actions: seq<Action>): World
    decreases |actions|
  {
    if |actions| == 0 then w
    else
      var next := match Step(w, actions[0]) case Ok(w') => w' case Err(_) => w;
      Run(next, actions[1..])
  }

  /** Reading `st` back at start-up gives exactly the collections of `s`. */
  predicate Mirrored(s: State, st: Storage)
  {
    LoadAgenda(st) == s.agenda &&
    LoadTasks(st, ChallengesKey, DefaultChallenges) == s.challenges &&
    LoadTasks(st, AssignmentsKey, DefaultAssignments) == s.assignments &&
    LoadSubmissions(st) == s.submissions &&
    LoadRedeems(st) == s.redeems
  }

  /** A reload from mirrored storage restores every collection, and loses the
      session, the credits ledger and any roster entries added since start-up. */
  lemma ReloadRestores(s: State, st: Storage, roster: Option<seq<User>>)
    requires Mirrored(s, st)
    ensures Boot(st, roster) ==
      s.(user := None, credits := DefaultLedger, users := if roster.Some? then roster.value else FallbackRoster)
  {
  }

  /** Writing a task collection under its key keeps storage mirrored. */
  lemma WriteTasksMirrored(s: State, st: Storage, kind: Kind, tasks: seq<Task>)
    requires Mirrored(s, st)
    ensures Mirrored(WithTasks(s, kind, tasks), st[KeyOf(kind) := TaskList(tasks)])
  {
  }

  /** Writing the ledger leaves every collection's reload untouched. */
  lemma WriteLedgerMirrored(s: State, st: Storage, l: Ledger)
    requires Mirrored(s, st)
    ensures Mirrored(s.(credits := l), st[CreditsKey := LedgerRecord(l)])
  {
  }

  /** Writing the submissions under their key keeps storage mirrored. */
  lemma WriteSubmissionsMirrored(s: State, st: Storage, subs: seq<Submission>)
    requires Mirrored(s, st)
    ensures Mirrored(s.(submissions := subs), st[SubmissionsKey := SubmissionList(subs)])
  {
  }

  /** Grading writes the submissions and the ledger and stays mirrored. */
  lemma GradeMirrored(w: World, id: string, grade: int)
    requires Mirrored(w.state, w.storage)
    ensures Mirrored(Grade(w, id, grade).state, Grade(w, id, grade).storage)
  {
    match FindIndex(w.state.submissions, HasSubmissionId(id)) {
      case None =>
      case Some(i) =>
        FirstIsFindIndex(w.state.submissions, HasSubmissionId(id), i);
        var r := Grade(w, id, grade);
        var s1 := w.state.(submissions := r.state.submissions);
        var st1 := w.storage[SubmissionsKey := SubmissionList(r.state.submissions)];
        WriteSubmissionsMirrored(w.state, w.storage, r.state.submissions);
        WriteLedgerMirrored(s1, st1, r.state.credits);
        assert r.state == s1.(credits := r.state.credits);
        assert r.storage == st1[CreditsKey := LedgerRecord(r.state.credits)];
    }
  }

  /** Every action keeps storage mirrored. */
  lemma StepMirrored(w: World, a: Action)
    requires Mirrored(w.state, w.storage)
    ensures Step(w, a).Ok? ==> Mirrored(Step(w, a).value.state, Step(w, a).value.storage)
  {
    match a
    case Create(kind, form, now) =>
      if Step(w, a).Ok? {
        WriteTasksMirrored(w.state, w.storage, kind, TasksOf(Step(w, a).value.state, kind));
      }
    case Delete(kind, id) =>
      WriteTasksMirrored(w.state, w.storage, kind, TasksOf(Step(w, a).value.state, kind));
    case Edit(kind, id, form) =>
      match FindIndex(TasksOf(w.state, kind), HasTaskId(id)) {
        case None =>
        case Some(i) =>
          WriteTasksMirrored(w.state, w.storage, kind, TasksOf(Step(w, a).value.state, kind));
      }
    case GradeSubmission(id, grade) =>
      GradeMirrored(w, id, grade);
    case Grant(userId, amount) =>
      if Step(w, a).Ok? {
        WriteLedgerMirrored(w.state, w.storage, Step(w, a).value.state.credits);
      }
    case SignIn(_, _) =>
    case SignUp(_, _, _, _) =>
    case SignOut =>
  }

  /** Every action keeps the session inside the roster and the emails distinct. */
  lemma StepInvariants(w: World, a: Action)
    requires SessionInRoster(w.state) && EmailsUnique(w.state.users)
    ensures Step(w, a).Ok? ==> SessionInRoster(Step(w, a).value.state) && EmailsUnique(Step(w, a).value.state.users)
  {
    match a
    case SignUp(name, email, password, now) =>
      SignupKeepsEmailsUnique(w, name, email, password, now);
    case _ =>
  }

  /** Storage stays mirrored through any sequence of actions. */
  lemma {:induction false} RunMirrored(w: World, actions: seq<Action>)
    requires Mirrored(w.state, w.storage)
    ensures Mirrored(Run(w, actions).state, Run(w, actions).storage)
    decreases |actions|
  {
    if |actions| > 0 {
      StepMirrored(w, actions[0]);
      var next := match Step(w, actions[0]) case Ok(w') => w' case Err(_) => w;
      RunMirrored(next, actions[1..]);
    }
  }

  /** The session and roster invariants hold through any sequence of actions. */
  lemma {:induction false} RunInvariants(w: World, actions: seq<Action>)
    requires SessionInRoster(w.state) && EmailsUnique(w.state.users)
    ensures SessionInRoster(Run(w, actions).state) && EmailsUnique(Run(w, actions).state.users)
    decreases |actions|
  {
    if |actions| > 0 {
      StepInvariants(w, actions[0]);
      var next := match Step(w, actions[0]) case Ok(w') => w' case Err(_) => w;
      RunInvariants(next, actions[1..]);
    }
  }

  /** Start from any storage, act, reload: the collections come back as the
      actions left them, while session, credits and sign-ups are lost. */
  lemma ReloadAfterRun(st: Storage, roster: Option<seq<User>>, hash: string, actions: seq<Action>)
    ensures
      var w := Run(World(Boot(st, roster), st, hash), actions);
      Boot(w.storage, roster) == w.state.(user := None, credits := DefaultLedger, users := Boot(st, roster).users)
  {
    RunMirrored(World(Boot(st, roster), st, hash), actions);
    var w := Run(World(Boot(st, roster), st, hash), actions);
    ReloadRestores(w.state, w.storage, roster);
  }

  /** The demo admin account signs in on the fallback roster. */
  lemma DemoAdminSignsIn(st: Storage, hash: string)
    ensures
      var w := World(Boot(st, None), st, hash);
      Step(w, SignIn("admin@example.com", "password")) == Ok(w.(state := w.state.(user := Some(FallbackRoster[0])), hash := Navigate("home")))
  {
    var w := World(Boot(st, None), st, hash);
    assert First(w.state.users, Credentials("admin@example.com", "password"), 0);
  }

  /** A grant is written to storage but a reload starts from the defaults again. */
  lemma GrantLostOnReload(st: Storage, hash: string)
    ensures
      var w := World(Boot(st, None), st, hash);
      var w' := Step(w, Grant("student-01", 10));
      w'.Ok? && w'.value.state.credits == Ledger(1210, 200, 130) &&
      w'.value.storage[CreditsKey] == LedgerRecord(Ledger(1210, 200, 130)) &&
      Boot(w'.value.storage, None).credits == Ledger(1200, 200, 120)
  {
    var w := World(Boot(st, None), st, hash);
    assert First(w.state.users, HasUserId("student-01"), 2);
  }

  /** A signed-up account is not persisted: it can sign in until the page is
      reloaded, and after a reload with the same roster it cannot. */
  lemma SignupLostOnReload(st: Storage, roster: Option<seq<User>>, hash: string,
                           name: string, email: string, password: string, now: nat)
    ensures
      var w := World(Boot(st, roster), st, hash);
      var w' := Step(w, SignUp(name, email, password, now));
      w'.Ok? ==>
        w'.value.state.user.Some? &&
        Step(w'.value, SignIn(email, password)).Ok? &&
        Step(World(Boot(w'.value.storage, roster), w'.value.storage, hash), SignIn(email, password)).Err?
  {
    var w := World(Boot(st, roster), st, hash);
    var w' := Step(w, SignUp(name, email, password, now));
    if w'.Ok? {
      var users := w'.value.state.users;
      assert Credentials(email, password)(users[|users| - 1]);
    }
  }

  /** The concrete case: a fresh student on the fallback roster signs up. */
  lemma SignupLostOnReloadExample(st: Storage, hash: string)
    ensures
      var w := World(Boot(st, None), st, hash);
      var w' := Step(w, SignUp("New Student", "new@example.com", "secret", 5));
      w'.Ok? && w'.value.state.user.Some? &&
      Step(World(Boot(w'.value.storage, None), w'.value.storage, hash), SignIn("new@example.com", "secret")).Err?
  {
    SignupLostOnReload(st, None, hash, "New Student", "new@example.com", "secret", 5);
  }
}
