# Prospect Flow CRM: page logic model

This project models the data logic inside the four pages of the Prospect Flow
CRM web client, and proves properties of that model.

- **Dashboard.** Fetches the user's prospects, reduces them to a count per
  pipeline stage, and derives several figures from those counts: the total,
  "In Progress", the five most recent prospects, and the pie and bar chart
  rows. It also has the stage label and colour lookups.
- **Prospects.** Holds the fetched list. It takes rows out of the list after
  a delete, and filters the list with a case-insensitive search over name,
  email and company.
- **Add Prospect.** Holds a six-field form with a required-field check. Its
  submit asks for the current user and inserts the form as a row owned by
  that user.
- **Auth.** Has the sign-in and sign-up handlers over `loading`, `error` and
  `success`, and redirects to the dashboard once a user is signed in.

Each page is a `class` whose fields are the page's React state. Its methods
are the handlers. Every answer from the backend is a method parameter:

- a query's `{ data, error }` pair: `Backend.Query`;
- the user `getUser` reports: `Option<User>`;
- a delete's or an insert's error: `Option<string>`;
- `signIn`/`signUp`'s error: `Option<AuthError>`.

The values the pages compute from state during rendering are plain
functions. Properties that relate several calls, or that hold for all inputs,
are lemmas.

The Auth handlers await an answer part way through. Each one is split at its
`await` into a `Start…` step and a `Finish…` step, so the state while the
handler waits (`loading` true, messages cleared) can be stated. A `Handle…`
method runs both steps in turn.

Files: `wrappers.dfy` (Option), `backend.dfy` (shapes of backend answers),
`seqs.dfy` (`filter` and subsequences), `text.dfy` (ASCII lower case,
`includes`), `dashboard.dfy`, `prospects.dfy`, `add_prospect.dfy`, `auth.dfy`,
`vocabulary.dfy` (the two stage vocabularies side by side).

## Two stage vocabularies

The Dashboard declares a prospect's stage as `'new' | 'in_talks' | 'closed'`.
The Add Prospect form offers `new, contacted, qualified, proposal, closed`,
and the list's badge table uses the same five values. The source never
reconciles the two, and the model keeps them apart:

- `Dashboard.Stage` is the three declared values.
- `AddProspect.Stages` and `Prospects.StageColors` are the five.

The Dashboard's declaration is only a type cast over the stored column, so a
Dashboard row keeps its stage as a string. For a row whose stage is outside
the three, `acc[prospect.stage]++` adds an extra key to the accumulator. No
one reads that key, and the three counters are unaffected.

So the counters add up to `totalProspects` exactly when every row has a
declared stage (`Dashboard.CountsSumToTotal`). A row saved from the form with
stage `contacted`, `qualified` or `proposal` raises the total but no counter
(`Vocabulary.UndeclaredRowSkewsCounts`). The form never offers `in_talks`
(`Vocabulary.FormStagesUnknownToDashboard`).

## Sign-in leaves the sign-up message in place

`handleSignIn` clears `error` but never touches `success`. Suppose a sign-up
succeeds and a sign-in then fails. The page then shows the verification
message and the error together (`Auth.AuthPage.SignUpThenFailedSignIn`). The
"never both non-empty" property therefore holds after a sign-up only, and
`Auth.AuthPage.HandleSignUp` states it there.

## Model

| member | source | states |
|---|---|---|
| `Backend.RowsOrEmpty` | src/pages/Dashboard.tsx:47 | `data \|\| []`: the returned rows, or the empty list when the query returned no data |
| `Dashboard.ParseStage` | src/pages/Dashboard.tsx:16 | a stored stage string reads as a declared stage exactly when it is that stage's key, and as none otherwise |
| `Dashboard.Bump` | src/pages/Dashboard.tsx:52 | one reduction step raises the counter of the row's stage by one and leaves every other counter as it was; an undeclared stage raises none |
| `Dashboard.StatsOfEmpty` | src/pages/Dashboard.tsx:28 | the seed `{ new: 0, in_talks: 0, closed: 0 }` is the stats of the empty list |
| `Dashboard.StatsOfSnoc` | src/pages/Dashboard.tsx:51-54 | reducing one more row is one step applied to the stats of the rows before it |
| `Dashboard.TallyStages` | src/pages/Dashboard.tsx:51-54 | after the reduction each counter equals the number of fetched rows stored with that stage |
| `Dashboard.TotalProspects` | src/pages/Dashboard.tsx:64 | `totalProspects` is the three counters plus the rows with an undeclared stage (properties in `CountsSumToTotal`) |
| `Dashboard.CountsPartitionRows` | src/pages/Dashboard.tsx:51-54 | the three counters plus the rows with an undeclared stage add up to the number of rows |
| `Dashboard.CountsSumToTotal` | src/pages/Dashboard.tsx:47-64 | the three counters sum to `totalProspects` if and only if every fetched row has a declared stage |
| `Dashboard.InProgress` | src/pages/Dashboard.tsx:169 | "In Progress" together with the closed counter is the sum of all three counters (bound over rows in `InProgressWithinTotal`) |
| `Dashboard.InProgressWithinTotal` | src/pages/Dashboard.tsx:169 | "In Progress" (`new + in_talks`) plus the closed and undeclared rows is the total, so it never exceeds the total |
| `Dashboard.RecentProspects` | src/pages/Dashboard.tsx:78 | the first min(5, n) fetched rows, in fetched order |
| `Dashboard.ChartData` | src/pages/Dashboard.tsx:67-71 | one slice per declared stage in the order New, In Talks, Closed, each named as `getStageLabel` names that stage and carrying its counter |
| `Dashboard.BarChartData` | src/pages/Dashboard.tsx:73-76 | one bar per chart slice, same order, bar stage = slice name, bar count = slice value |
| `Dashboard.ChartsFollowStats` | src/pages/Dashboard.tsx:67-76 | the bar chart is exactly New, In Talks, Closed in that order, each with that stage's counter |
| `Dashboard.StageLabel` | src/pages/Dashboard.tsx:89-96 | a declared stage is always translated to a different display text; any other string comes back unchanged |
| `Dashboard.StageLabelsDistinct` | src/pages/Dashboard.tsx:89-96 | different declared stages never share a label |
| `Dashboard.StageColor` | src/pages/Dashboard.tsx:80-87 | an undeclared stage gets `bg-muted`; a declared stage never does |
| `Dashboard.StageColorsDistinct` | src/pages/Dashboard.tsx:80-87 | different declared stages get different badge classes |
| `Dashboard.DashboardPage.constructor` | src/pages/Dashboard.tsx:27-29 | no prospects, all-zero stats, loading |
| `Dashboard.DashboardPage.FetchProspects` | src/pages/Dashboard.tsx:38-62 | on an error `prospects` and `stats` keep their values; otherwise `prospects` becomes the returned rows; `stats` always describes `prospects`; `loading` ends false on both paths |
| `Text.Lower` | src/pages/Prospects.tsx:89-91 | ASCII `toLowerCase`: same length, each character lower-cased, no upper-case letter left |
| `Text.Includes` | src/pages/Prospects.tsx:89-91 | `includes`: a term starting the string is included, the empty term always is, and an included term is no longer than the string (the full characterisation is `IncludesIffOccurs`) |
| `Text.IncludesIffOccurs` | src/pages/Prospects.tsx:89-91 | `includes` holds exactly when the term occurs at some index of the string |
| `Prospects.WithoutId` | src/pages/Prospects.tsx:73 | the list after a delete is a subsequence of the old list holding exactly the old rows whose id differs, and it is shorter by exactly the number of rows that carried the id |
| `Prospects.DeleteAbsentId` | src/pages/Prospects.tsx:73 | deleting an id that no row carries leaves the list identical |
| `Prospects.DeleteIdempotent` | src/pages/Prospects.tsx:73 | taking an id out twice is taking it out once |
| `Prospects.MatchesSearch` | src/pages/Prospects.tsx:88-92 | a row matches iff the lower-cased term occurs at some index of its lower-cased full name, email or company; the empty term matches every row |
| `Prospects.Search` | src/pages/Prospects.tsx:88-92 | `filteredProspects` is a subsequence of the list, and a row is shown iff it is in the list and matches the term |
| `Prospects.SearchEmptyTerm` | src/pages/Prospects.tsx:88-92 | an empty search term shows the whole list |
| `Prospects.SearchIgnoresCase` | src/pages/Prospects.tsx:88-92 | terms equal up to letter case give the same result |
| `Prospects.SearchUpperCaseTerm` | src/pages/Prospects.tsx:88-92 | the upper-cased term gives the same result as the term |
| `Prospects.SearchNarrows` | src/pages/Prospects.tsx:88-92 | typing more characters never brings back a row the shorter term hid |
| `Prospects.ProspectsPage.constructor` | src/pages/Prospects.tsx:34-36 | empty list, loading, empty search term |
| `Prospects.ProspectsPage.FilteredProspects` | src/pages/Prospects.tsx:88-92 | the table shows a subsequence of the page's list holding exactly the listed rows that match the current search term |
| `Prospects.ProspectsPage.FetchProspects` | src/pages/Prospects.tsx:43-62 | success replaces the list with the returned rows (empty when none); an error leaves it; `loading` ends false |
| `Prospects.ProspectsPage.HandleDelete` | src/pages/Prospects.tsx:64-86 | success removes every row with the id and changes nothing else; an error leaves the list unchanged |
| `Prospects.ProspectsPage.SetSearchTerm` | src/pages/Prospects.tsx:132 | the search box sets the term and nothing else |
| `AddProspect.ProspectForm.With` | src/pages/AddProspect.tsx:43-48 | the chosen field takes the new value and every other field is unchanged |
| `AddProspect.WithOverwrites` | src/pages/AddProspect.tsx:43-48 | writing a field twice keeps the second value; writing back a field's own value changes nothing |
| `AddProspect.InitialFormFields` | src/pages/AddProspect.tsx:34-41 | every field of the initial form is empty except the stage, which is 'new' |
| `AddProspect.StagesAreFixed` | src/pages/AddProspect.tsx:22-28 | the options are new, contacted, qualified, proposal, closed in that order, all distinct, and the first is the initial form's stage |
| `AddProspect.IsComplete` | src/pages/AddProspect.tsx:53 | the form passes the required-field check iff each required field (full name, email) is non-empty |
| `AddProspect.CompletenessOfFilledForm` | src/pages/AddProspect.tsx:53 | the initial form fails the required-field check; after filling in name and email it passes iff both are non-empty |
| `AddProspect.OptionalFieldsDoNotGate` | src/pages/AddProspect.tsx:53 | editing any field other than name and email does not change whether the form passes |
| `AddProspect.RowFor` | src/pages/AddProspect.tsx:71-76 | the inserted row carries the form's fields unchanged and the user's id as `user_id` |
| `AddProspect.RowForFormOf` | src/pages/AddProspect.tsx:71-76 | a row is rebuilt exactly from its form fields and its owner |
| `AddProspect.SubmitOutcome` | src/pages/AddProspect.tsx:50-96 | a validation error iff the form is incomplete; an insert is requested iff the form is complete and there is a user, and then it is the form plus that user's id; navigation to /prospects and the success toast iff the insert also succeeded |
| `AddProspect.AddProspectPage.constructor` | src/pages/AddProspect.tsx:33-41 | the initial form, not loading |
| `AddProspect.AddProspectPage.HandleInputChange` | src/pages/AddProspect.tsx:43-48 | `formData` becomes the old form with that one field set |
| `AddProspect.AddProspectPage.HandleSubmit` | src/pages/AddProspect.tsx:50-96 | does what `SubmitOutcome` says; an incomplete form never touches `loading`; `loading` is false after every other submit; the form is unchanged |
| `Seqs.Filter` | src/pages/Prospects.tsx:73 | `Array.prototype.filter`: no longer than the input and every kept element passes the test (order, membership and counts in `FilterIsSubsequence`, `FilterMembership`, `FilterSplit`) |
| `Auth.RedirectTarget` | src/pages/Auth.tsx:24-28 | the page redirects exactly when a user is set, and then to /dashboard |
| `Auth.AuthPage.constructor` | src/pages/Auth.tsx:13-18 | all inputs and messages empty, not loading |
| `Auth.AuthPage.StartSignIn` | src/pages/Auth.tsx:30-33 | while the sign-in is awaited the page is loading with no error; `success` untouched |
| `Auth.AuthPage.FinishSignIn` | src/pages/Auth.tsx:35-41 | a returned error's message is shown; loading ends |
| `Auth.AuthPage.HandleSignIn` | src/pages/Auth.tsx:30-42 | `error` ends as the returned message, or empty; `success` and the inputs are never modified; loading ends false |
| `Auth.AuthPage.StartSignUp` | src/pages/Auth.tsx:44-48 | while the sign-up is awaited the page is loading with both messages empty |
| `Auth.AuthPage.FinishSignUp` | src/pages/Auth.tsx:50-58 | an error's message, or the verification message when there was none; loading ends |
| `Auth.AuthPage.HandleSignUp` | src/pages/Auth.tsx:44-59 | `success` holds the verification message iff no error came back, else `error` holds the message and `success` is empty; never both non-empty; inputs unchanged |
| `Auth.AuthPage.SignUpThenFailedSignIn` | src/pages/Auth.tsx:30-59 | after a successful sign-up and a failed sign-in, the error and the verification message are shown together |
| `Vocabulary.ListAndFormAgree` | src/pages/Prospects.tsx:25-31 | the list's badge table is keyed by exactly the five stages the form offers |
| `Vocabulary.FormStagesUnknownToDashboard` | src/pages/AddProspect.tsx:22-28 | of the form's stages the Dashboard declares only new and closed, and the form never offers in_talks |
| `Vocabulary.UndeclaredRowSkewsCounts` | src/pages/Dashboard.tsx:51-54 | a row with a form stage the Dashboard does not declare raises the total by one and no counter |

## Left out

- All JSX rendering is left out: the charts, badges, tables, CSS strings and loading skeletons. Only the lookup tables and the chart rows they read are modelled.
- The backend client's queries, the insert, the delete, `auth.getUser`, and `signIn`/`signUp`/`signOut` are foreign calls. Their answers are method parameters. The descending `created_at` order of a fetch is taken as given.
- `conversionRate` is left out: it uses floating-point division and `toFixed`. For an empty list `conversionRate` is '0', and the card shows "0%".
- `toLocaleDateString` on the list is left out, because it depends on the locale.
- `Text.Lower`: only ASCII letters are lower-cased, not Unicode `toLowerCase`.
- `toast` is left out except for which toast `handleSubmit` ends with (`AddProspect.Notice`); the list page's fetch and delete toasts and `console.error` are not modelled. `navigate` is modelled only as the target a submit or redirect returns.
- `useEffect` scheduling, async interleaving and stale closures are left out. Each handler runs to completion on the state it started with. This covers the `prospects` captured by `handleDelete`, and edits to the form during a submit.
- `Dashboard.DashboardPage.FetchProspects`: the extra accumulator key made for an undeclared stage, whose value is `NaN`, is dropped, because nothing reads it.
- The Dashboard only fetches when a user is present. That gate is `useEffect` behaviour and is not modelled.
- The browser's own `required` check on the inputs is left out; only the handler's check is modelled.
- The search trusts `company` to be a string, as the page's type says. Because the three tests short-circuit, a stored null `company` would make the page throw only for a row whose name and email both miss the term; with the initial empty term `company` is never read.
- The text-input setters of the Auth and Add Prospect pages are left out, except `HandleInputChange`. The Auth handlers read those inputs only to pass them to `signIn`/`signUp`, which are not modelled.
- The session component (the route guard and the auth context), the route table, the sidebar and the landing page are not part of this model.
