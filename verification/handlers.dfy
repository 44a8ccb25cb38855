/** The event handlers that change the store: sign-in and sign-up, sign-out,
    creating, editing and deleting challenges and assignments, grading a
    submission and granting credits, plus the checks a page makes when it is
    opened. Each handler maps a `World` to the next one. */
module Handlers {
  import opened Base
  import opened Text
  import opened Lists
  import opened Router
  import opened Store
  import Routes

  /** Everything a handler can touch: the in-memory state, the browser's
      storage and the location hash. */
  datatype World = World(state: State, storage: Storage, hash: string)

  /** Why a handler stops without changing anything: a modal that reports the
      problem, or a `TypeError` thrown before any write. */
  datatype Failure =
    | InvalidCredentials   // "Login Failed" modal
    | EmailTaken           // "Sign Up Failed" modal
    | NoSession            // `state.user.name` read while nobody is signed in
    | UnknownRecipient     // `userToUpdate.name` read on `undefined`

  datatype Result<T> = Ok(value: T) | Err(failure: Failure)

  // ------------------------------------------------------------ sign-in/out

  function Credentials(email: string, password: string): User -> bool
  {
    (u: User) => u.email == email && u.password == password
  }

  /** The login form: the first roster entry with this email and password
      becomes the session user and the app moves to `#home`. */
  function Login(w: World, email: string, password: string): (r: Result<World>)
    ensures r.Err? <==>
      forall i :: 0 <= i < |w.state.users| ==> !(w.state.users[i].email == email && w.state.users[i].password == password)
    ensures r.Err? ==> r.failure == InvalidCredentials
    ensures r.Ok? ==> forall i :: First(w.state.users, Credentials(email, password), i) ==>
      r.value == World(w.state.(user := Some(w.state.users[i])), w.storage, Navigate("home"))
  {
    match FindIndex(w.state.users, Credentials(email, password))
    case None => Err(InvalidCredentials)
    case Some(i) => Ok(World(w.state.(user := Some(w.state.users[i])), w.storage, Navigate("home")))
  }

  /** With distinct emails, whoever signs in with matching credentials is the
      one roster entry that has them. */
  lemma LoginPicksTheAccount(w: World, email: string, password: string, k: nat)
    requires EmailsUnique(w.state.users)
    requires k < |w.state.users| && w.state.users[k].email == email && w.state.users[k].password == password
    ensures Login(w, email, password).Ok?
    ensures Login(w, email, password).value.state.user == Some(w.state.users[k])
  {
    var p := Credentials(email, password);
    assert p(w.state.users[k]);
    var i := FindIndex(w.state.users, p).value;
    assert i == k;
  }

  /** The account a sign-up creates: always a student, id from the clock. */
  function NewStudent(name: string, email: string, password: string, now: nat): User
  {
    User("user-" + Decimal(now), Student, email, name, password)
  }

  /** The sign-up form: refused when the email is already in the roster;
      otherwise the new student is appended, signed in, and sent to `#home`.
      Nothing is written to storage. */
  function Signup(w: World, name: string, email: string, password: string, now: nat): (r: Result<World>)
    ensures r.Err? <==> exists i :: 0 <= i < |w.state.users| && w.state.users[i].email == email
    ensures r.Err? ==> r.failure == EmailTaken
    ensures r.Ok? ==>
      var u := NewStudent(name, email, password, now);
      r.value.state == w.state.(users := w.state.users + [u], user := Some(u))
    ensures r.Ok? ==> r.value.storage == w.storage && r.value.hash == Navigate("home")
  {
    if Find(w.state.users, (u: User) => u.email == email).Some? then Err(EmailTaken)
    else
      var u := NewStudent(name, email, password, now);
      Ok(World(w.state.(users := w.state.users + [u], user := Some(u)), w.storage, Navigate("home")))
  }

  /** Sign-up keeps the roster's emails distinct. */
  lemma SignupKeepsEmailsUnique(w: World, name: string, email: string, password: string, now: nat)
    requires EmailsUnique(w.state.users)
    ensures Signup(w, name, email, password, now).Ok? ==>
      EmailsUnique(Signup(w, name, email, password, now).value.state.users)
  {
  }

  /** `logout()`: forget the session user and go to `#login`. */
  function Logout(w: World): (r: World)
    ensures r.state.user.None?
    ensures r.state.(user := w.state.user) == w.state && r.storage == w.storage
    ensures GetPath(r.hash) == Landing
  {
    World(w.state.(user := None), w.storage, Navigate(Landing))
  }

  /** After signing out, the router shows the login page. */
  lemma LogoutShowsLogin(w: World, decode: Decoder)
    ensures Render(Routes.AppRoutes, Logout(w).hash, decode) == Show(Routes.Login, map[])
  {
    Routes.LandingShowsLogin(decode);
  }

  // -------------------------------------------------- challenges/assignments

  /** The two task collections, which share one set of forms. */
  datatype Kind = Challenges | Assignments

  function KeyOf(kind: Kind): string
  {
    match kind
    case Challenges => ChallengesKey
    case Assignments => AssignmentsKey
  }

  /** The list page a task form returns to. */
  function ManageOf(kind: Kind): string
  {
    match kind
    case Challenges => "challenges/manage"
    case Assignments => "assignments/manage"
  }

  function TasksOf(s: State, kind: Kind): seq<Task>
  {
    match kind
    case Challenges => s.challenges
    case Assignments => s.assignments
  }

  function WithTasks(s: State, kind: Kind, tasks: seq<Task>): State
  {
    match kind
    case Challenges => s.(challenges := tasks)
    case Assignments => s.(assignments := tasks)
  }

  /** `s'` differs from `s` at most in the collection `kind` names. */
  predicate OnlyTasksChanged(s: State, s': State, kind: Kind)
  {
    WithTasks(s, kind, TasksOf(s', kind)) == s'
  }

  /** The values the create and edit forms submit. */
  datatype TaskForm = TaskForm(title: string, description: string, credits: int, deadline: string)

  /** A fresh id: `a` or `c` followed by `Date.now()`. */
  function NewTaskId(kind: Kind, now: nat): string
  {
    [if kind == Assignments then 'a' else 'c'] + Decimal(now)
  }

  /** Ids made at different instants, or for different kinds, differ. */
  lemma NewTaskIdInjective(k1: Kind, n1: nat, k2: Kind, n2: nat)
    requires NewTaskId(k1, n1) == NewTaskId(k2, n2)
    ensures k1 == k2 && n1 == n2
  {
    assert NewTaskId(k1, n1)[0] == NewTaskId(k2, n2)[0];
    assert NewTaskId(k1, n1)[1..] == Decimal(n1);
    assert NewTaskId(k2, n2)[1..] == Decimal(n2);
    DecimalInjective(n1, n2);
  }

  /** The create form: the new task is appended and the collection is written
      back. An assignment records the session user's name as its mentor, so
      without a session the handler throws before changing anything. */
  function CreateTask(w: World, kind: Kind, form: TaskForm, now: nat): (r: Result<World>)
    ensures r.Err? <==> kind == Assignments && w.state.user.None?
    ensures r.Err? ==> r.failure == NoSession
    ensures r.Ok? ==>
      var before := TasksOf(w.state, kind);
      var after := TasksOf(r.value.state, kind);
      |after| == |before| + 1 && after[..|before|] == before &&
      after[|before|] == Task(NewTaskId(kind, now), form.title, form.description, form.credits, form.deadline,
                              if kind == Assignments then Some(w.state.user.value.name) else None)
    ensures r.Ok? ==>
      OnlyTasksChanged(w.state, r.value.state, kind) &&
      r.value.storage == w.storage[KeyOf(kind) := TaskList(TasksOf(r.value.state, kind))] &&
      r.value.hash == Navigate(ManageOf(kind))
  {
    if kind == Assignments && w.state.user.None? then Err(NoSession)
    else
      var mentor := if kind == Assignments then Some(w.state.user.value.name) else None;
      var item := Task(NewTaskId(kind, now), form.title, form.description, form.credits, form.deadline, mentor);
      var after := TasksOf(w.state, kind) + [item];
      Ok(World(WithTasks(w.state, kind, after), w.storage[KeyOf(kind) := TaskList(after)], Navigate(ManageOf(kind))))
  }

  function NotTaskId(id: string): Task -> bool
  {
    (t: Task) => t.id != id
  }

  function HasTaskId(id: string): Task -> bool
  {
    (t: Task) => t.id == id
  }

  /** The delete button: every entry carrying the id is dropped, the rest keep
      their order, and the collection is written back. The hash is left alone. */
  function DeleteTask(w: World, kind: Kind, id: string): (r: World)
    ensures
      var before := TasksOf(w.state, kind);
      var after := TasksOf(r.state, kind);
      (forall i :: 0 <= i < |after| ==> after[i].id != id && after[i] in before) &&
      (forall j :: 0 <= j < |before| && before[j].id != id ==> before[j] in after)
    ensures OnlyTasksChanged(w.state, r.state, kind)
    ensures r.storage == w.storage[KeyOf(kind) := TaskList(TasksOf(r.state, kind))] && r.hash == w.hash
  {
    var after := Filter(TasksOf(w.state, kind), NotTaskId(id));
    World(WithTasks(w.state, kind, after), w.storage[KeyOf(kind) := TaskList(after)], w.hash)
  }

  /** Deleting an id nobody carries leaves the collection as it was. */
  lemma DeleteAbsentKeepsTasks(w: World, kind: Kind, id: string)
    requires forall j :: 0 <= j < |TasksOf(w.state, kind)| ==> TasksOf(w.state, kind)[j].id != id
    ensures DeleteTask(w, kind, id).state == w.state
  {
    FilterKeepsAll(TasksOf(w.state, kind), NotTaskId(id));
  }

  /** Deleting keeps the surviving entries in their original order and drops
      exactly as many entries as carry the id. */
  lemma DeleteKeepsOrder(w: World, kind: Kind, id: string)
    ensures Embeds(TasksOf(DeleteTask(w, kind, id).state, kind), TasksOf(w.state, kind))
    ensures |TasksOf(DeleteTask(w, kind, id).state, kind)| + |Filter(TasksOf(w.state, kind), HasTaskId(id))|
            == |TasksOf(w.state, kind)|
  {
    FilterEmbeds(TasksOf(w.state, kind), NotTaskId(id));
    FilterPartition(TasksOf(w.state, kind), NotTaskId(id), HasTaskId(id));
  }

  /** Deleting twice is deleting once. */
  lemma DeleteIdempotent(w: World, kind: Kind, id: string)
    ensures DeleteTask(DeleteTask(w, kind, id), kind, id) == DeleteTask(w, kind, id)
  {
    FilterIdempotent(TasksOf(w.state, kind), NotTaskId(id));
  }

  /** The edit form's update: the submitted fields replace those of the entry;
      its id and mentor are kept by the object spread. */
  function Revise(t: Task, form: TaskForm): Task
  {
    t.(title := form.title, description := form.description, credits := form.credits, deadline := form.deadline)
  }

  /** The edit form: the first entry with the id is revised, the collection is
      written back and the app returns to the list page. With no such entry
      nothing happens. */
  function EditTask(w: World, kind: Kind, id: string, form: TaskForm): (r: World)
    ensures (forall j :: 0 <= j < |TasksOf(w.state, kind)| ==> TasksOf(w.state, kind)[j].id != id) ==> r == w
    ensures forall i :: First(TasksOf(w.state, kind), HasTaskId(id), i) ==>
      var before := TasksOf(w.state, kind);
      var after := TasksOf(r.state, kind);
      |after| == |before| && after[i] == Revise(before[i], form) &&
      (forall j :: 0 <= j < |before| && j != i ==> after[j] == before[j]) &&
      OnlyTasksChanged(w.state, r.state, kind) &&
      r.storage == w.storage[KeyOf(kind) := TaskList(after)] && r.hash == Navigate(ManageOf(kind))
  {
    match FindIndex(TasksOf(w.state, kind), HasTaskId(id))
    case None => w
    case Some(i) =>
      var after := TasksOf(w.state, kind)[i := Revise(TasksOf(w.state, kind)[i], form)];
      World(WithTasks(w.state, kind, after), w.storage[KeyOf(kind) := TaskList(after)], Navigate(ManageOf(kind)))
  }

  /** Editing never changes which ids the collection holds, in which order,
      nor any task's mentor. */
  lemma EditKeepsIds(w: World, kind: Kind, id: string, form: TaskForm)
    ensures |TasksOf(EditTask(w, kind, id, form).state, kind)| == |TasksOf(w.state, kind)|
    ensures forall j :: 0 <= j < |TasksOf(w.state, kind)| ==>
      TasksOf(EditTask(w, kind, id, form).state, kind)[j].id == TasksOf(w.state, kind)[j].id &&
      TasksOf(EditTask(w, kind, id, form).state, kind)[j].mentor == TasksOf(w.state, kind)[j].mentor
  {
  }

  /** Submitting the same edit twice is submitting it once. */
  lemma EditIdempotent(w: World, kind: Kind, id: string, form: TaskForm)
    ensures EditTask(EditTask(w, kind, id, form), kind, id, form) == EditTask(w, kind, id, form)
  {
    var before := TasksOf(w.state, kind);
    match FindIndex(before, HasTaskId(id))
    case None =>
    case Some(i) =>
      var after := before[i := Revise(before[i], form)];
      var w1 := World(WithTasks(w.state, kind, after), w.storage[KeyOf(kind) := TaskList(after)], Navigate(ManageOf(kind)));
      WithTasksTwice(w.state, kind, after, after);
      FindIndexUnique(after, HasTaskId(id), Some(i));
      assert after[i := Revise(after[i], form)] == after;
      assert w1.storage[KeyOf(kind) := TaskList(after)] == w1.storage;
  }

  /** Replacing a collection and reading it back, or replacing it twice. */
  lemma WithTasksTwice(s: State, kind: Kind, t1: seq<Task>, t2: seq<Task>)
    ensures TasksOf(WithTasks(s, kind, t1), kind) == t1
    ensures WithTasks(WithTasks(s, kind, t1), kind, t2) == WithTasks(s, kind, t2)
  {
  }

  // ------------------------------------------------------------------ grading

  function HasSubmissionId(id: string): Submission -> bool
  {
    (s: Submission) => s.id == id
  }

  /** Some roster entry, of any role, has this display name. */
  predicate NamedInRoster(users: seq<User>, name: string)
  {
    exists k :: 0 <= k < |users| && users[k].name == name
  }

  /** The grade form: the first submission with the id is marked graded with
      the grade; when anyone in the roster bears the submitter's name, the one
      shared student balance grows by the grade. Submissions and credits are
      both written back and the app returns to the assignment list. With no
      such submission nothing happens. */
  function Grade(w: World, id: string, grade: int): (r: World)
    ensures (forall j :: 0 <= j < |w.state.submissions| ==> w.state.submissions[j].id != id) ==> r == w
    ensures forall i :: First(w.state.submissions, HasSubmissionId(id), i) ==>
      var before := w.state.submissions;
      var after := r.state.submissions;
      |after| == |before| &&
      after[i] == before[i].(status := Graded, grade := Some(grade)) &&
      (forall j :: 0 <= j < |before| && j != i ==> after[j] == before[j]) &&
      r.state.credits.studentBalance ==
        w.state.credits.studentBalance + (if NamedInRoster(w.state.users, before[i].submitter) then grade else 0) &&
      r.state == w.state.(submissions := after, credits := r.state.credits) &&
      r.storage == w.storage[SubmissionsKey := SubmissionList(after)][CreditsKey := LedgerRecord(r.state.credits)] &&
      r.hash == Navigate("assignments/manage")
    ensures r.state.credits.mentorBalance == w.state.credits.mentorBalance
    ensures r.state.credits.adminTotalGranted == w.state.credits.adminTotalGranted
  {
    match FindIndex(w.state.submissions, HasSubmissionId(id))
    case None => w
    case Some(i) =>
      var sub := w.state.submissions[i];
      var after := w.state.submissions[i := sub.(status := Graded, grade := Some(grade))];
      var credits :=
        if Find(w.state.users, (u: User) => u.name == sub.submitter).Some?
        then w.state.credits.(studentBalance := w.state.credits.studentBalance + grade)
        else w.state.credits;
      World(w.state.(submissions := after, credits := credits),
            w.storage[SubmissionsKey := SubmissionList(after)][CreditsKey := LedgerRecord(credits)],
            Navigate("assignments/manage"))
  }

  /** A roster whose only "Alice" is a mentor. */
  const MentorAlice: seq<User> := [User("mentor-02", Mentor, "alice@example.com", "Alice", "password")]

  /** Grading the demo submission by "Alice" credits the student balance even
      when the only "Alice" on the roster is a mentor: the lookup ignores roles. */
  lemma GradeIgnoresRole(credits: Ledger, storage: Storage, hash: string)
    ensures
      var w := World(Boot(map[], Some(MentorAlice)).(credits := credits), storage, hash);
      Grade(w, "s1", 10).state.credits.studentBalance == credits.studentBalance + 10
  {
    var w := World(Boot(map[], Some(MentorAlice)).(credits := credits), storage, hash);
    assert First(w.state.submissions, HasSubmissionId("s1"), 0);
    assert w.state.users[0].name == "Alice";
  }

  /** With the fallback roster no demo submitter is a roster member, so grading
      a demo submission credits nobody. */
  lemma GradeDemoCreditsNobody(i: nat, grade: int, hash: string)
    requires i < |DefaultSubmissions|
    ensures
      var w := World(Boot(map[], None), map[], hash);
      Grade(w, DefaultSubmissions[i].id, grade).state.credits == DefaultLedger
  {
    var w := World(Boot(map[], None), map[], hash);
    assert First(w.state.submissions, HasSubmissionId(DefaultSubmissions[i].id), i);
    assert !NamedInRoster(FallbackRoster, DefaultSubmissions[i].submitter) by {
      forall k | 0 <= k < |FallbackRoster|
        ensures FallbackRoster[k].name != DefaultSubmissions[i].submitter
      {
        // Every fallback name ends in 'r' ("... User"); no demo submitter's does.
        assert FallbackRoster[k].name[|FallbackRoster[k].name| - 1] == 'r';
      }
    }
  }

  // ------------------------------------------------------------------ credits

  /** How a grant of `amount` to a user with `role` moves the ledger: the
      role's balance (admins have none) and the total granted both grow. */
  function Credit(l: Ledger, role: Role, amount: int): (r: Ledger)
    ensures r.adminTotalGranted == l.adminTotalGranted + amount
    ensures r.studentBalance == l.studentBalance + (if role == Student then amount else 0)
    ensures r.mentorBalance == l.mentorBalance + (if role == Mentor then amount else 0)
  {
    var l' := match role
      case Student => l.(studentBalance := l.studentBalance + amount)
      case Mentor => l.(mentorBalance := l.mentorBalance + amount)
      case Admin => l;
    l'.(adminTotalGranted := l'.adminTotalGranted + amount)
  }

  function HasUserId(id: string): User -> bool
  {
    (u: User) => u.id == id
  }

  /** The give-credits form: the first roster entry with the selected id has
      its role's balance credited and the ledger is written back; the hash is
      left alone. An unknown id changes nothing and then throws. */
  function GiveCredits(w: World, userId: string, amount: int): (r: Result<World>)
    ensures r.Err? <==> forall k :: 0 <= k < |w.state.users| ==> w.state.users[k].id != userId
    ensures r.Err? ==> r.failure == UnknownRecipient
    ensures r.Ok? ==> forall i :: First(w.state.users, HasUserId(userId), i) ==>
      var l := Credit(w.state.credits, w.state.users[i].role, amount);
      r.value == World(w.state.(credits := l), w.storage[CreditsKey := LedgerRecord(l)], w.hash)
  {
    match FindIndex(w.state.users, HasUserId(userId))
    case None => Err(UnknownRecipient)
    case Some(i) =>
      var l := Credit(w.state.credits, w.state.users[i].role, amount);
      Ok(World(w.state.(credits := l), w.storage[CreditsKey := LedgerRecord(l)], w.hash))
  }

  /** Two grants give the same world in either order. */
  lemma GiveCreditsCommute(w: World, u1: string, a1: int, u2: string, a2: int)
    requires GiveCredits(w, u1, a1).Ok? && GiveCredits(w, u2, a2).Ok?
    ensures GiveCredits(GiveCredits(w, u1, a1).value, u2, a2).Ok?
    ensures GiveCredits(GiveCredits(w, u2, a2).value, u1, a1).Ok?
    ensures GiveCredits(GiveCredits(w, u1, a1).value, u2, a2).value ==
            GiveCredits(GiveCredits(w, u2, a2).value, u1, a1).value
  {
    var users := w.state.users;
    var r1 := users[FindIndex(users, HasUserId(u1)).value].role;
    var r2 := users[FindIndex(users, HasUserId(u2)).value].role;
    CreditCommute(w.state.credits, r1, a1, r2, a2);
    var l := Credit(Credit(w.state.credits, r1, a1), r2, a2);
    assert w.storage[CreditsKey := LedgerRecord(Credit(w.state.credits, r1, a1))][CreditsKey := LedgerRecord(l)]
        == w.storage[CreditsKey := LedgerRecord(Credit(w.state.credits, r2, a2))][CreditsKey := LedgerRecord(l)];
  }

  /** Grants add up: their order does not matter. */
  lemma CreditCommute(l: Ledger, r1: Role, a1: int, r2: Role, a2: int)
    ensures Credit(Credit(l, r1, a1), r2, a2) == Credit(Credit(l, r2, a2), r1, a1)
  {
  }

  // ---------------------------------------------------------- opening a page

  /** The id a page reads from `params.id`; a missing key reads as `undefined`,
      which no stored id equals. */
  function ParamId(params: map<string, string>): Option<string>
  {
    if "id" in params then Some(params["id"]) else None
  }

  predicate HoldsTask(tasks: seq<Task>, id: Option<string>)
  {
    id.Some? && exists j :: 0 <= j < |tasks| && tasks[j].id == id.value
  }

  predicate HoldsSubmission(subs: seq<Submission>, id: Option<string>)
  {
    id.Some? && exists j :: 0 <= j < |subs| && subs[j].id == id.value
  }

  /** What opening `page` does before drawing: the home page sends visitors
      without a session to `#login`; the edit and view pages send an unknown
      id back to their list page. Opening a page never changes the store. */
  function OpenPage(w: World, page: Routes.Page, params: map<string, string>): (r: World)
    ensures r.state == w.state && r.storage == w.storage
    ensures page == Routes.Home ==> (w.state.user.None? ==> r.hash == Navigate(Landing)) && (w.state.user.Some? ==> r == w)
    ensures page == Routes.EditChallenge ==>
      if HoldsTask(w.state.challenges, ParamId(params)) then r == w else r.hash == Navigate("challenges/manage")
    ensures page == Routes.EditAssignment ==>
      if HoldsTask(w.state.assignments, ParamId(params)) then r == w else r.hash == Navigate("assignments/manage")
    ensures page == Routes.ViewAssignment ==>
      if HoldsSubmission(w.state.submissions, ParamId(params)) then r == w else r.hash == Navigate("assignments/manage")
    ensures page !in {Routes.Home, Routes.EditChallenge, Routes.EditAssignment, Routes.ViewAssignment} ==> r == w
  {
    var id := ParamId(params);
    match page
    case Home => if w.state.user.None? then w.(hash := Navigate(Landing)) else w
    case EditChallenge =>
      if id.Some? && Find(w.state.challenges, HasTaskId(id.value)).Some? then w
      else w.(hash := Navigate("challenges/manage"))
    case EditAssignment =>
      if id.Some? && Find(w.state.assignments, HasTaskId(id.value)).Some? then w
      else w.(hash := Navigate("assignments/manage"))
    case ViewAssignment =>
      if id.Some? && Find(w.state.submissions, HasSubmissionId(id.value)).Some? then w
      else w.(hash := Navigate("assignments/manage"))
    case _ => w
  }

  /** Following a challenge's Edit link opens its editor, which stays put. */
  lemma EditLinkOpensEditor(w: World, j: nat, decode: Decoder)
    requires j < |w.state.challenges|
    requires '/' !in w.state.challenges[j].id && decode(w.state.challenges[j].id) == Some(w.state.challenges[j].id)
    ensures
      var hash := Navigate("challenges/edit/" + w.state.challenges[j].id);
      Render(Routes.AppRoutes, hash, decode) == Show(Routes.EditChallenge, map["id" := w.state.challenges[j].id])
    ensures
      var hash := Navigate("challenges/edit/" + w.state.challenges[j].id);
      OpenPage(w.(hash := hash), Routes.EditChallenge, map["id" := w.state.challenges[j].id]) == w.(hash := hash)
  {
    var id := w.state.challenges[j].id;
    var path := "challenges/edit/" + id;
    EditPathResolves(id, decode);
    NavigateThenGetPath(path);
    assert HoldsTask(w.state.challenges, ParamId(map["id" := id]));
  }

  lemma EditPrefix()
    ensures "challenges" + ['/'] + "edit" + ['/'] == "challenges/edit/"
  {
  }

  /** The router reads `challenges/edit/<id>` as the challenge editor for `<id>`. */
  lemma EditPathResolves(id: string, decode: Decoder)
    requires '/' !in id && decode(id) == Some(id)
    ensures Resolve(Routes.AppRoutes, "challenges/edit/" + id, decode) == Found(Routes.EditChallenge, map["id" := id])
  {
    Routes.ResolveWithId(6, id, decode);
    EditIdPath(id);
  }

  lemma EditIdPath(id: string)
    ensures Routes.IdPath(6, id) == "challenges/edit/" + id
  {
    assert Routes.Segments[6][0] == "challenges" && Routes.Segments[6][1] == "edit";
    Join3("challenges", "edit", id, '/');
    EditPrefix();
  }

  /** A visitor without a session who opens `#home` is sent to the login page,
      which the router then shows. */
  lemma HomeWithoutSessionShowsLogin(w: World, decode: Decoder)
    requires w.state.user.None?
    ensures Render(Routes.AppRoutes, Navigate("home"), decode) == Show(Routes.Home, map[])
    ensures Render(Routes.AppRoutes, OpenPage(w, Routes.Home, map[]).hash, decode) == Show(Routes.Login, map[])
  {
    Routes.ResolveStatic(0, decode);
    NavigateThenGetPath("home");
    Routes.LandingShowsLogin(decode);
  }
}
