# DRE single-page app: router and store, in Dafny

A Dafny model of the two pieces of logic in the "Digital Readiness /
Engagement" (DRE) front-end `app.js`: the hash router and the store.

- The router keeps a registry of patterns. Patterns are kept in the order
  they were registered, and registering a known key again replaces only its
  handler. It reads the path out of the location hash (`getPath`),
  matches it segment by segment against each pattern (`matchRoute`), and
  dispatches to the first match or falls back to the login page (`render`).
- The store is the global `state` object. Its collections (agenda,
  challenges, assignments, submissions, redemptions) start from browser
  storage or from built-in defaults. The roster is the fetched user list or
  a three-account fallback. The credits ledger has one aggregate figure per
  role.
- The form and button handlers change the store and write the changed
  collection back to storage: sign-in, sign-up, sign-out, create, edit,
  delete, grade and give credits.

Every handler is a pure function from a `World` to the next one. A `World`
holds the state, the storage map and the location hash. A handler that
stops with a modal or a `TypeError` returns an `Err` and leaves the world
as it was. The `Persistence` module proves that storage always holds what
a reload reads back. So a reload after any sequence of actions restores
every collection. It loses the session, the credits ledger and every
account added by sign-up.

Modules, one file each:

| file | module | contents |
|---|---|---|
| base.dfy | `Base` | `Option` |
| text.dfy | `Text` | `split('/')`, `join`, decimal rendering of `Date.now()` |
| lists.dfy | `Lists` | `findIndex`, `find`, `filter`, subsequences |
| router.dfy | `Router` | registry, `navigate`, `getPath`, `matchRoute`, `render` |
| routes.dfy | `Routes` | the app's twelve registered routes and what they resolve to |
| store.dfy | `Store` | entities, defaults, fallback roster, start-up |
| handlers.dfy | `Handlers` | the state-changing handlers and the page-open redirects |
| persistence.dfy | `Persistence` | actions, runs, the storage mirror, reloads |

Three behaviours of the code are easy to misread:

- Grading stores the grade as the raw form string and adds its `parseInt`
  to the balance (app.js:795-800). The model stores the integer; see
  "## Left out".
- Grading credits the one shared student balance whenever any roster
  entry, of any role, has a name equal to the submission's `by` field
  (app.js:798-801). No per-user balance exists.
- Sign-up refuses an email already in the roster (app.js:1033-1052). The
  model proves that this keeps emails distinct, and does not assume that a
  fetched roster has distinct emails.

## Model

| member | source | states |
|---|---|---|
| Text.Split | app.js:1121-1122 | `split` on one separator yields one more piece than there are separators, and no piece contains the separator |
| Text.JoinSplit | app.js:1121-1122 | joining the pieces of a split gives back the string, so splitting loses nothing |
| Text.SplitJoin | app.js:1121-1122 | splitting a join of separator-free pieces gives back exactly those pieces |
| Text.Decimal | app.js:845 | the id suffix is a non-empty digit string with no leading zero |
| Text.DecimalRoundTrip | app.js:845 | reading back the digits of the rendered clock value gives the clock value |
| Text.DecimalInjective | app.js:845 | distinct clock values render as distinct digit strings |
| Lists.FindIndex | app.js:551 | `findIndex` reports a position whose element passes, with no earlier element passing; it reports none exactly when no element passes |
| Lists.FirstIsFindIndex | app.js:551 | a position is the one `findIndex` reports if and only if it is the first passing position |
| Lists.Find | app.js:974 | `find` finds something exactly when some element passes, and what it finds is the first element that passes |
| Lists.Filter | app.js:479 | `filter` keeps only passing elements, keeps every passing element, and never grows the list |
| Lists.FilterKeepsAll | app.js:479 | filtering returns the list unchanged if and only if every element passes |
| Lists.FilterIdempotent | app.js:479 | filtering twice with one test equals filtering once |
| Lists.FilterPartition | app.js:479 | kept and dropped elements together number as many as the list |
| Lists.FilterEmbeds | app.js:479 | the kept elements form a subsequence of the list, in their original order |
| Router.Register | app.js:6 | after registering, the key maps to the new handler and every other key keeps its handler; a new key is appended at the end, a known key keeps its position; distinct keys stay distinct |
| Router.Navigate | app.js:7 | the hash is `#` followed by exactly the path |
| Router.GetPath | app.js:8 | the path read from any hash is never empty |
| Router.GetPathStripsOneHash | app.js:8 | one leading `#` is removed, the rest is kept unchanged, and an empty rest reads as `login` |
| Router.NavigateThenGetPath | app.js:7-8 | reading the path back after navigating to a non-empty path gives that path |
| Router.BindFromOutcome | app.js:1126-1131 | the segment loop binds parameters if and only if every literal agrees and every capture decodes; it throws if and only if some capture fails to decode before any literal disagrees |
| Router.MatchRule | app.js:1121-1132 | a pattern matches if and only if the segment counts agree, every literal segment equals the path segment at its index and every capture decodes; the match throws exactly when decoding fails before a literal disagrees |
| Router.MatchRuleTotalDecoder | app.js:1121-1132 | with a decoder that never throws, a pattern matches if and only if it fits the path segment by segment |
| Router.MatchParams | app.js:1126-1129 | a match binds exactly the capture names, and each name is bound to the decoded path segment of its last occurrence |
| Router.CaptureFreeMatch | app.js:1121-1132 | a pattern without captures matches exactly the identical path, binding nothing |
| Router.ResolveIn | app.js:1119-1135 | resolution finds nothing exactly when every pattern mismatches; otherwise the first pattern in registry order that does not mismatch decides, by matching or by throwing |
| Router.ResolveTotalDecoder | app.js:1119-1135 | with a decoder that never throws, resolution returns the handler of the first fitting pattern, and nothing exactly when none fits |
| Router.Render | app.js:1139-1147 | `render` redirects exactly when no route resolves, the redirect target is exactly `#login` and reads as `login`, and a page is shown exactly when a route resolves, that page being the resolved handler with the bound parameters |
| Routes.RegisterAllFresh | app.js:1105-1116 | registering distinct new keys in turn appends them in call order |
| Routes.AppPatternsDistinct | app.js:1105-1116 | the twelve registered patterns are pairwise distinct |
| Routes.AppRoutesRegistered | app.js:1105-1116 | the registration calls build the route table in call order, with distinct keys |
| Routes.AppPatternsAreNotIndices | app.js:1105-1116 | no pattern is an array-index key, so the registry iterates in registration order |
| Routes.ResolveStatic | app.js:1105-1135 | every route without `:id` resolves its own path to its page with no parameters |
| Routes.ResolveWithId | app.js:1111-1135 | `<first>/<second>/<id>` resolves to the matching `:id` route with `id` bound to the decoded segment, or throws when decoding throws; no earlier route intercepts it |
| Routes.LandingShowsLogin | app.js:1139-1147 | navigating to `login` shows the login page |
| Routes.EmptyFragmentShowsLogin | app.js:8 | an empty hash shows the login page |
| Routes.RedirectLandsOnLogin | app.js:1139-1147 | an unmatched path costs exactly one redirect, after which the login page is shown |
| Store.Boot | app.js:14-75 | start-up has no session and the default ledger; the roster is the fetched list or the fallback; a collection whose key holds a stored collection starts from that collection, and one whose key is absent starts from its default |
| Store.BootInvariants | app.js:69-73 | after start-up the session is inside the roster, and the roster's emails are distinct when the fetched list's are |
| Handlers.Login | app.js:972-987 | sign-in fails exactly when no roster entry has both the email and the password; otherwise the first such entry becomes the session user, the app goes to `#home`, and nothing else changes |
| Handlers.LoginPicksTheAccount | app.js:974-976 | with distinct emails, any entry whose credentials are given is the one signed in |
| Handlers.Signup | app.js:1033-1054 | sign-up is refused exactly when the email is in the roster; otherwise one student with a clock-based id is appended and signed in, the app goes to `#home`, and storage is untouched |
| Handlers.SignupKeepsEmailsUnique | app.js:1033-1052 | sign-up keeps the roster's emails distinct |
| Handlers.Logout | app.js:1098-1101 | sign-out clears only the session, leaves storage alone, and targets `login` |
| Handlers.LogoutShowsLogin | app.js:1098-1101 | after sign-out the router shows the login page |
| Handlers.NewTaskIdInjective | app.js:845 | ids created at different instants or for different kinds differ |
| Handlers.CreateTask | app.js:839-856 | creating appends exactly one task to its collection, with the form's fields, the clock-based id and, for an assignment, the session user's name as mentor; it writes that collection under its key, changes no other collection, and returns to its list page; an assignment without a session throws and changes nothing |
| Handlers.DeleteTask | app.js:479-480 | deleting drops every entry with the id and keeps every entry without it, writes the collection under its key, and changes no other collection and not the hash |
| Handlers.DeleteKeepsOrder | app.js:479-480 | the survivors keep their original order, and exactly as many entries go as carry the id |
| Handlers.DeleteAbsentKeepsTasks | app.js:662-663 | deleting an id no entry carries leaves the state unchanged |
| Handlers.DeleteIdempotent | app.js:662-663 | deleting twice equals deleting once |
| Handlers.EditTask | app.js:551-562 | editing replaces title, description, credits and deadline of the first entry with the id, leaves every other entry and the length unchanged, writes the collection and returns to the list; an unknown id changes nothing |
| Handlers.EditKeepsIds | app.js:735-744 | editing never changes the ids, their order or any mentor |
| Handlers.EditIdempotent | app.js:735-746 | submitting the same edit twice equals submitting it once |
| Handlers.Grade | app.js:793-806 | grading marks the first submission with the id as graded with the grade and changes no other submission; the student balance grows by the grade if and only if some roster entry has the submitter's name; the mentor balance and the total granted are unchanged; submissions and ledger are written and the app returns to the assignment list; an unknown id changes nothing |
| Handlers.GradeIgnoresRole | app.js:798-801 | a mentor sharing the submitter's name is enough to credit the student balance |
| Handlers.GradeDemoCreditsNobody | app.js:798-801 | on the fallback roster, grading any demo submission leaves the ledger at its defaults |
| Handlers.Credit | app.js:902-906 | a grant always adds to the total granted, and adds to the student or mentor balance according to the recipient's role; an admin recipient gets no balance |
| Handlers.GiveCredits | app.js:899-915 | a grant fails exactly when no roster entry has the id, leaving the state unchanged; otherwise the first such entry's role decides the ledger change, the ledger is written, and nothing else changes |
| Handlers.GiveCreditsCommute | app.js:899-910 | two successful grants give the same world in either order |
| Handlers.OpenPage | app.js:541-546 | opening a page never changes the store; the edit and view pages (likewise lines 725-730 and 782-787) send an unknown or missing id back to their list page, and the home page (lines 410-413) sends a visitor without a session to `login` |
| Handlers.EditLinkOpensEditor | app.js:470 | following an existing challenge's Edit link shows that challenge's editor, which does not redirect |
| Handlers.EditPathResolves | app.js:1111-1135 | `challenges/edit/<id>` resolves to the challenge editor with `id` bound |
| Handlers.HomeWithoutSessionShowsLogin | app.js:410-413 | `#home` shows the home page, which without a session leads to the login page |
| Persistence.ReloadRestores | app.js:17-57 | a reload from mirrored storage restores every collection and resets session, ledger and roster |
| Persistence.WriteTasksMirrored | app.js:480 | writing a task collection under its own key keeps storage mirrored |
| Persistence.WriteLedgerMirrored | app.js:910 | writing the ledger disturbs no collection's reload |
| Persistence.GradeMirrored | app.js:802-803 | grading keeps storage mirrored |
| Persistence.StepMirrored | app.js:24-55 | every action keeps storage equal to what a reload would read back |
| Persistence.StepInvariants | app.js:1033-1052 | every action keeps the session inside the roster and the emails distinct |
| Persistence.RunMirrored | app.js:24-55 | storage stays mirrored through any sequence of actions |
| Persistence.RunInvariants | app.js:974-979 | session-in-roster and distinct emails hold through any sequence of actions |
| Persistence.ReloadAfterRun | app.js:24-55 | starting from any storage, after any actions, a reload gives back every collection as the actions left it, with no session, the default ledger and the start-up roster |
| Persistence.DemoAdminSignsIn | app.js:69-73 | `admin@example.com` with `password` signs in as the fallback admin |
| Persistence.GrantLostOnReload | app.js:17-21 | a grant to the demo student is written to storage, yet a reload shows the default ledger again |
| Persistence.SignupLostOnReload | app.js:1033-1052 | from any storage and roster, an account made by sign-up can sign in until a reload, and cannot sign in after a reload with the same roster |
| Persistence.SignupLostOnReloadExample | app.js:1051 | the fresh account `new@example.com` signs up on the fallback roster and is gone after a reload |

## Left out

- DOM construction, layout, dashboards and modal markup: presentation only. A modal is modelled as the `Err` it reports.
- `fetch('users.json')`: network input. Start-up takes its outcome as a parameter, either the parsed list or the fallback. A fetched value that is not a list of users is not modelled.
- `JSON.parse`, `JSON.stringify` and `localStorage`: storage is a map from keys to typed values, and serialisation is the identity. A stored value of the wrong shape counts as absent. Stored JSON `null` and other falsy values behave the same way. Every `setItem` is taken to succeed. A quota error thrown after the in-memory change has been made (for instance the reassignment at app.js:479 before the write at app.js:480) would leave storage behind the state, and `Persistence.Mirrored` and `Persistence.ReloadAfterRun` do not cover that case.
- `Date.now()`: a `now: nat` parameter. Its decimal rendering is modelled.
- `decodeURIComponent`: a `Decoder` parameter whose `None` result stands for a thrown `URIError`. The decoding rules of section 2.1 of RFC 3986 are not modelled.
- `parseInt`: forms deliver integers. `NaN` from a non-numeric field and its propagation through the ledger are not modelled.
- Handlers.Grade: stores the grade as an integer, while the code stores the raw form string.
- Handlers.Credit, Handlers.Grade, Handlers.GiveCreditsCommute: the ledger uses unbounded integers. JavaScript numbers are IEEE doubles, so the `+=` updates at app.js:800 and app.js:902-906 are exact only while every sum stays within 2^53. Beyond that, rounding can make two grants disagree by order. For example, with the student balance at 2^53, granting 1 then 2 gives 2^53+2, while 2 then 1 gives 2^53+4.
- Roles other than admin, mentor and student in a fetched roster: the home page's fallback for them (lines 426-427) is not modelled.
- JavaScript's enumeration of array-index keys before other keys: no registered pattern is such a key (`Routes.AppPatternsAreNotIndices`), so the registry is an insertion-ordered list.
- Router.Register, Router.MatchParams: the key `__proto__` is treated as an ordinary key. In JavaScript, `routeRegistry['__proto__'] = fn` (app.js:6) replaces the object's prototype and creates no entry that `Object.entries` (app.js:1120) lists, yet `Register` appends it. Likewise, `params['__proto__'] = …` (app.js:1129) binds nothing, because the setter ignores a string, yet `BindFrom` binds it and `MatchParams` states that it is bound. None of the twelve registered patterns uses that name as a key or as a `:name` capture, so the app's own table is unaffected.
- Router.Navigate, Router.NavigateThenGetPath: the browser percent-encodes space, `"`, `<`, `>`, backtick and non-ASCII characters when a hash is set at app.js:7, and `getPath` (app.js:8) then returns the encoded form. Both contracts therefore describe the program only for paths free of those characters.
- `window.location`, the `hashchange` listener and `window.onload`: the hash is a field of the world. The re-render that a hash change triggers is the separate `Render` step.
- `renderCreateChallenge` (lines 596-611): dead code, because the route uses `renderCreatePage`.
- Redeem and mentor-grant demo modals (lines 185-192, 289-296) and `console` logging: no state effect.
- The `files` map of temporary uploads: not touched by any modelled handler.
- The DOM reads of `#email`, `#password` and `#name` on the Login and Signup pages: their values are the handlers' parameters. The render-time `find` on an edit or view page and the submit-time `findIndex` are modelled separately, by `OpenPage` and the handler.
