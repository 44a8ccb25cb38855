/** The global `state` object, the key-value storage it is mirrored into, and
    how start-up fills it. */
module Store {
  import opened Base

  datatype Role = Admin | Mentor | Student

  datatype User = User(id: string, role: Role, email: string, name: string, password: string)

  /** `state.credits`: one aggregate figure per role, not one per user. */
  datatype Ledger = Ledger(adminTotalGranted: int, mentorBalance: int, studentBalance: int)

  datatype AgendaItem = AgendaItem(id: string, date: string, title: string, time: string, room: string, status: string)

  /** A challenge or an assignment: both are built by one form, and only an
      assignment names its mentor. */
  datatype Task = Task(id: string, title: string, description: string, credits: int, deadline: string, mentor: Option<string>)

  datatype Status = Submitted | Pending | Graded

  datatype FileRef = FileRef(name: string, size: string)

  /** `submitter` is the `by` field: the display name of whoever submitted. */
  datatype Submission = Submission(
    id: string, team: string, assignment: string, challenge: string, submitter: string, at: string,
    status: Status, grade: Option<int>, files: seq<FileRef>)

  datatype Redemption = Redemption(id: string, item: string, date: string)

  /** The session user, the ledger and the mock collections. */
  datatype State = State(
    user: Option<User>,
    credits: Ledger,
    users: seq<User>,
    agenda: seq<AgendaItem>,
    challenges: seq<Task>,
    assignments: seq<Task>,
    submissions: seq<Submission>,
    redeems: seq<Redemption>)

  /** A value held under a storage key; serialisation is taken as the identity. */
  datatype Stored =
    | AgendaList(agenda: seq<AgendaItem>)
    | TaskList(tasks: seq<Task>)
    | SubmissionList(submissions: seq<Submission>)
    | RedemptionList(redeems: seq<Redemption>)
    | LedgerRecord(ledger: Ledger)

  type Storage = map<string, Stored>

  const AgendaKey := "agenda"
  const ChallengesKey := "challenges"
  const AssignmentsKey := "assignments"
  const SubmissionsKey := "submissions"
  const RedeemsKey := "redeems"
  const CreditsKey := "credits"

  // ---------------------------------------------------------------- defaults

  const DefaultLedger := Ledger(1200, 200, 120)

  const DefaultAgenda: seq<AgendaItem> := [
    AgendaItem("ag1", "2025-09-12", "Kickoff", "10:00", "Main", "Scheduled"),
    AgendaItem("ag2", "2025-09-13", "Mentor Sync", "14:00", "A2", "Scheduled")
  ]

  const DefaultChallenges: seq<Task> := [
    Task("c1", "Responsive Landing", "Design and code a responsive landing page.", 50, "2025-09-10", None),
    Task("c2", "Auth Microservice", "Build a secure authentication microservice.", 80, "2025-09-22", None)
  ]

  const DefaultAssignments: seq<Task> := [
    Task("a1", "Week 1: HTML/CSS", "Complete the HTML and CSS exercises.", 50, "2025-09-18", Some("Mentor User")),
    Task("a2", "Week 2: JS Basics", "Solve basic JavaScript problems.", 75, "2025-09-25", Some("Mentor User"))
  ]

  const DefaultSubmissions: seq<Submission> := [
    Submission("s1", "Team Alpha", "Week 1: HTML/CSS", "Responsive Landing", "Alice", "2025-09-01 12:00 PM",
      Submitted, None, [FileRef("index.html", "2.5KB"), FileRef("styles.css", "1.2KB")]),
    Submission("s2", "Team Beta", "Week 2: JS Basics", "Auth Microservice", "Bob", "2025-09-02 10:00 AM",
      Pending, None, [FileRef("main.js", "5.8KB"), FileRef("server.js", "3.1KB")]),
    Submission("s3", "Team Gamma", "Week 1: HTML/CSS", "Database Design", "Charlie", "2025-09-03 09:15 AM",
      Submitted, None, [FileRef("schema.sql", "0.9KB")])
  ]

  const DefaultRedeems: seq<Redemption> := []

  /** The roster used when `users.json` cannot be fetched: one account per role. */
  const FallbackRoster: seq<User> := [
    User("admin-01", Admin, "admin@example.com", "Admin User", "password"),
    User("mentor-01", Mentor, "mentor@example.com", "Mentor User", "password"),
    User("student-01", Student, "student@example.com", "Student User", "password")
  ]

  // ----------------------------------------------------------------- start-up

  /** `JSON.parse(localStorage.getItem(key)) || default`, per collection: the
      stored collection when the key holds one, the built-in default otherwise. */
  function LoadAgenda(st: Storage): seq<AgendaItem>
  {
    if AgendaKey in st && st[AgendaKey].AgendaList? then st[AgendaKey].agenda else DefaultAgenda
  }

  function LoadTasks(st: Storage, key: string, fallback: seq<Task>): seq<Task>
  {
    if key in st && st[key].TaskList? then st[key].tasks else fallback
  }

  function LoadSubmissions(st: Storage): seq<Submission>
  {
    if SubmissionsKey in st && st[SubmissionsKey].SubmissionList? then st[SubmissionsKey].submissions else DefaultSubmissions
  }

  function LoadRedeems(st: Storage): seq<Redemption>
  {
    if RedeemsKey in st && st[RedeemsKey].RedemptionList? then st[RedeemsKey].redeems else DefaultRedeems
  }

  /** The state after the script loads and `loadData` settles. `roster` is the
      outcome of fetching `users.json`: the parsed list, or `None` when the fetch
      fails or answers with a non-success status. Credits are never read back. */
  function Boot(st: Storage, roster: Option<seq<User>>): (s: State)
    ensures s.user.None?
    ensures s.credits == DefaultLedger
    ensures s.users == if roster.Some? then roster.value else FallbackRoster
    ensures AgendaKey !in st ==> s.agenda == DefaultAgenda
    ensures ChallengesKey !in st ==> s.challenges == DefaultChallenges
    ensures AssignmentsKey !in st ==> s.assignments == DefaultAssignments
    ensures SubmissionsKey !in st ==> s.submissions == DefaultSubmissions
    ensures RedeemsKey !in st ==> s.redeems == DefaultRedeems
    ensures AgendaKey in st && st[AgendaKey].AgendaList? ==> s.agenda == st[AgendaKey].agenda
    ensures ChallengesKey in st && st[ChallengesKey].TaskList? ==> s.challenges == st[ChallengesKey].tasks
    ensures AssignmentsKey in st && st[AssignmentsKey].TaskList? ==> s.assignments == st[AssignmentsKey].tasks
    ensures SubmissionsKey in st && st[SubmissionsKey].SubmissionList? ==> s.submissions == st[SubmissionsKey].submissions
    ensures RedeemsKey in st && st[RedeemsKey].RedemptionList? ==> s.redeems == st[RedeemsKey].redeems
  {
    State(
      None,
      DefaultLedger,
      match roster { case Some(users) => users case None => FallbackRoster },
      LoadAgenda(st),
      LoadTasks(st, ChallengesKey, DefaultChallenges),
      LoadTasks(st, AssignmentsKey, DefaultAssignments),
      LoadSubmissions(st),
      LoadRedeems(st))
  }

  // --------------------------------------------------------------- invariants

  /** Every email occurs at most once in the roster. */
  predicate EmailsUnique(users: seq<User>)
  {
    forall i, j :: 0 <= i < j < |users| ==> users[i].email != users[j].email
  }

  /** The session user, if any, is a roster entry. */
  predicate SessionInRoster(s: State)
  {
    s.user.Some? ==> s.user.value in s.users
  }

  /** Start-up has no session, and the fallback roster has distinct emails. */
  lemma BootInvariants(st: Storage, roster: Option<seq<User>>)
    requires roster.Some? ==> EmailsUnique(roster.value)
    ensures SessionInRoster(Boot(st, roster))
    ensures EmailsUnique(Boot(st, roster).users)
  {
  }
}
