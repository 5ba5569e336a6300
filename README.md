# Code-Rabbit server and UI logic, modelled in Dafny

Code-Rabbit connects a user's GitHub repositories to an AI reviewer. When a
repository is connected, a background job fetches its files and indexes them.
The provider's webhook then asks for a review of every opened or updated pull
request. A dashboard shows contribution statistics. A billing provider's
webhooks move users between the FREE and PRO tiers.

This project models the logic of that application:

- the settings actions: profile read and update, the list of connected repositories, disconnecting one repository or all of them;
- the provider webhook route;
- the `index-repo` background job with its step-result store;
- `fetchRepositories` and its paging hook;
- the dashboard actions;
- the billing webhook handlers of the auth configuration;
- the small pieces of logic in the repository page and the sidebar.

Each external collaborator is a parameter of the model:

- The database is a `Backend` object holding the user and repository tables. The job's account table is a parameter.
- The provider's webhooks are a set of `(owner, name)` pairs.
- A journal records, in order, each webhook deletion and row deletion.
- The remote calls are parameters. These include `deleteWebhook`, `getRepositories`, the contribution calendar, the pull-request search, `reviewPullRequest`, `getRepoFileContents` and `indexCodebase`. Each parameter says what the call returns. Where the source lets a throw escape or catches it, the parameter can also say that the call throws.
- The session is an optional user id.

Operations that change stored state are module-level methods that take the
`Backend` and modify its fields, or methods of a `JobRun` or
`RepositoryPageState` object. Most of them are proved to leave exactly the
state that a pure specification function computes, and the properties are
proved about those functions. `DeleteWebhook`, `HandleConnect` and `Settle`
are small enough that their contracts state the new fields directly.

Files:

- `records.dfy`: the rows, the uniqueness constraints of the tables, and the `Backend`.
- `text.dfy`: the JavaScript `split`, `join`, `includes`, `toLowerCase` and `toUpperCase`.
- `settings_actions.dfy`: `module/settings/actions/index.ts`.
- `webhook_route.dfy`: `app/api/webhooks/github/route.ts`.
- `index_job.dfy`: `inngest/functions/index.ts`.
- `repository_actions.dfy`: `module/repository/actions/index.ts`.
- `use_repositories.dfy`: `module/repository/hooks/use-repositories.ts`.
- `dashboard_actions.dfy`: `module/dashboard/actions/index.ts`.
- `auth_webhooks.dfy`: `lib/auth.ts`.
- `repository_page.dfy`: `app/dashboard/repository/page.tsx`.
- `app_sidebar.dfy`: `components/custom/app-sidebar.tsx`.

## Model

| member | source | states |
|---|---|---|
| Records.FindFirst | module/settings/actions/index.ts:17-28 | the index found satisfies the condition and no earlier element does; none means no element does |
| Records.FindUser | module/settings/actions/index.ts:17-28 | the index found holds a user with the id and no earlier row does; no index means no row has it |
| Records.Owned | module/settings/actions/index.ts:152-156 | a row is in the result exactly when it is in the table and belongs to the user |
| Records.NotOwned | module/settings/actions/index.ts:166-170 | the rows left by `deleteMany({ where: { userId } })`: exactly the rows of other users |
| Records.OwnedSplit | module/settings/actions/index.ts:166-170 | the caller's rows and the remaining rows together are the table: lengths add up and multisets add up |
| Records.NotOwnedUnique | module/settings/actions/index.ts:166-170 | deleting a user's rows keeps the primary key and the `(userId, githubId)` pair unique |
| SettingsActions.UserProfile | module/settings/actions/index.ts:9-34 | a profile is returned exactly when there is a session and a user row with its id; the profile holds that row's id, name, email, image and createdAt |
| SettingsActions.UpdateProfileChangesOnlyCaller | module/settings/actions/index.ts:36-72 | the update succeeds exactly when a session and its user row exist and the new email is not another user's. Success changes only the caller's name and email, and reports the new values. Failure answers "Failed to update profile" and changes nothing. Emails stay unique |
| SettingsActions.UpdateProfile | module/settings/actions/index.ts:36-72 | the table keeps its length. Without a session the update fails. A failure answers "Failed to update profile" and changes nothing. A success reports the caller's id |
| SettingsActions.UpdateUserProfile | module/settings/actions/index.ts:36-72 | the backend's user table becomes the one the specification computes, and the tables stay valid |
| SettingsActions.SortNewestFirst | module/settings/actions/index.ts:93-95 | the result is ordered by `createdAt` descending and is a permutation of its input |
| SettingsActions.ConnectedRepositories | module/settings/actions/index.ts:74-103 | `[]` without a session; otherwise newest first and the same multiset as the caller's rows' selected columns |
| SettingsActions.ConnectedRepositoriesAreCallers | module/settings/actions/index.ts:82-98 | an entry is listed exactly when it summarises a row the caller owns, and there are as many entries as such rows |
| SettingsActions.DeleteWebhook | module/settings/actions/index.ts:125 | a hook the provider refuses stays and the call fails; any other hook is removed; either way the attempt is journalled |
| SettingsActions.FindOwned | module/settings/actions/index.ts:114-119 | the index found holds a row with that id and owner; none means no row has both |
| SettingsActions.DisconnectRejectsForeignOrMissing | module/settings/actions/index.ts:110-123 | with no session, or an id missing or owned by someone else, the action fails with "Failed to disconnect repository", touches no webhook and keeps the table |
| SettingsActions.DisconnectOwnedRow | module/settings/actions/index.ts:125-141 | if the provider refuses the webhook deletion, the row stays and the action fails. Otherwise the webhook is deleted first, then exactly that row, and the action succeeds with the keys still unique |
| SettingsActions.DisconnectTwice | module/settings/actions/index.ts:114-123 | a second disconnect of the same id fails instead of crashing and changes nothing |
| SettingsActions.Disconnect | module/settings/actions/index.ts:105-142 | without a session the action fails. A failure answers "Failed to disconnect repository", keeps the table and the hooks, and journals at most the refused deletion. A success removes one row and no hook is added |
| SettingsActions.DisconnectRepository | module/settings/actions/index.ts:105-142 | the table, the hooks and the journal become what the specification computes, and the tables stay valid |
| SettingsActions.DeleteHooks | module/settings/actions/index.ts:158-162 | every deletion is attempted in order. The sweep fails exactly when some hook is refused. Every hook that is not refused is gone |
| SettingsActions.SweepHooks | module/settings/actions/index.ts:158-162 | the loop over the caller's rows leaves the hooks, journal and failure flag that the specification of the sweep computes |
| SettingsActions.DisconnectAllOutcome | module/settings/actions/index.ts:144-180 | success happens exactly when no hook of the caller's rows is refused. On success every webhook is deleted before the bulk delete, all and only the caller's rows are removed, and `count` is their number. On failure no row is deleted |
| SettingsActions.DisconnectAll | module/settings/actions/index.ts:144-180 | without a session nothing is attempted and the action fails. A failure answers "Failed to disconnect repositories" and keeps the table. No hook is ever added |
| SettingsActions.DisconnectAllRepository | module/settings/actions/index.ts:144-180 | the loop over the caller's rows and the bulk delete leave exactly the state the specification computes |
| WebhookRoute.ReviewCalledExactlyWhen | app/api/webhooks/github/route.ts:13-27 | the review engine is called exactly for a parsed `pull_request` event whose body names a repository and whose action is `opened` or `synchronize`. The owner is `full_name` before the first `/` and the number is `number` |
| WebhookRoute.ReviewCallSplitsFullName | app/api/webhooks/github/route.ts:18-22 | for `full_name = owner/name` the review is asked for exactly `(owner, name, number)` |
| WebhookRoute.ReviewFailureSwallowed | app/api/webhooks/github/route.ts:21-26 | whether the review throws changes neither the response nor the call |
| WebhookRoute.ServerErrorExactlyWhen | app/api/webhooks/github/route.ts:4-40 | the answer is 500 "Internal server error" exactly when the body does not parse, or when a `pull_request` body lacks `repository.full_name`; every other answer is "Pong" for `ping` and "Event Processes" otherwise, including a `pull_request` whose action triggers no review |
| WebhookRoute.HandleWebhook | app/api/webhooks/github/route.ts:4-40 | the answer is always "Pong", "Event Processes" or the 500 error. A review is asked for only under "Event Processes", and is always logged, as failed exactly when the engine threw |
| WebhookRoute.PingAndOtherEvents | app/api/webhooks/github/route.ts:9-11 | `ping` answers "Pong"; other events answer "Event Processes"; neither reviews anything |
| IndexJob.FindAccount | inngest/functions/index.ts:15-20 | the account found is the user's `github` account; none means the user has no such account |
| IndexJob.RunAttempt | inngest/functions/index.ts:14-35 | an attempt completes exactly when `index-codebase` has a stored result, and makes at most two external calls |
| IndexJob.AttemptKeepsCompletedSteps | inngest/functions/index.ts:14-33 | an attempt never loses or changes a stored step result, adds only the two step names, and keeps the store well formed |
| IndexJob.NoTokenNoIndexing | inngest/functions/index.ts:15-23 | when the user has no `github` account, or the first one found has a missing or empty token, `fetch-files` fails before any call and nothing is indexed |
| IndexJob.StepsRunInOrderOnFetchedFiles | inngest/functions/index.ts:14-35 | the fetch uses the user's token, owner and repo and comes first. Indexing comes last, after `fetch-files` has a result, with exactly those files under `owner/repo`. A completed run reports their number |
| IndexJob.RetryReExecutesOnlyIndexing | inngest/functions/index.ts:14-33 | after the fetch succeeds and the indexer throws, a retry reuses the stored files, indexes once more and never fetches |
| IndexJob.FetchCompletesAtMostOnce | inngest/functions/index.ts:14-26 | once `fetch-files` has a result, no later attempt of the run calls the fetcher again |
| IndexJob.RunAttempts | inngest/functions/index.ts:14-35 | replaying attempts keeps the store well formed; there is a last outcome exactly when at least one attempt ran |
| IndexJob.JobRun.Execute | inngest/functions/index.ts:10-36 | the run's store and call log become what the specification of one attempt computes, and the store stays well formed |
| RepositoryActions.ConnectedIds | module/repository/actions/index.ts:21-27 | an id is in the set exactly when one of the caller's rows has it as `githubId` |
| RepositoryActions.Annotate | module/repository/actions/index.ts:29-32 | same length and order; each repo is copied with `isConnected` set to membership of its id |
| RepositoryActions.FetchRepositories | module/repository/actions/index.ts:8-33 | throws "unauthorized" without a session, and throws when the provider's `getRepositories` throws. Otherwise it has the provider's length and order and copies every field. `isConnected` holds exactly when a row of the caller, never another user's, has that `githubId` |
| RepositoryActions.DefaultsAreFirstPageOfTen | module/repository/actions/index.ts:8-11 | omitted arguments mean page 1 of size 10 |
| RepositoryPaging.PageRequest | module/repository/hooks/use-repositories.ts:11-13 | every request uses size 10; without a page parameter it asks for page 1 |
| RepositoryPaging.NextPageParam | module/repository/hooks/use-repositories.ts:14-17 | there is no next page exactly after a page shorter than 10; otherwise it is the number of loaded pages plus one, which exceeds that number |
| RepositoryPaging.LoadedPagesAreConsecutive | module/repository/hooks/use-repositories.ts:6-18 | pages loaded through the query are numbered 1, 2, 3, ... and every page but the last is full |
| DashboardActions.Level | module/dashboard/actions/index.ts:33 | the level is at most 4; for a non-negative count it is non-negative and at most a third of the count |
| DashboardActions.LevelBands | module/dashboard/actions/index.ts:33 | for a non-negative count the level is 0..4, 3 counts per level, 4 from 12 upwards, and monotone in the count |
| DashboardActions.AllDays | module/dashboard/actions/index.ts:29-30 | a day is in the flattened list exactly when it is in some week |
| DashboardActions.AllDaysPosition | module/dashboard/actions/index.ts:29-30 | day `j` of week `i` comes right after the days of the earlier weeks and the first `j` days of its own week |
| DashboardActions.Contributions | module/dashboard/actions/index.ts:29-35 | one contribution per day in order, with its date, count and level |
| DashboardActions.ContributionStatsOf | module/dashboard/actions/index.ts:11-44 | `null` exactly without a session, when a call throws, or without a calendar. Otherwise it holds the flattened contributions and the calendar's `totalContribution` |
| DashboardActions.DashboardStatsOf | module/dashboard/actions/index.ts:46-94 | four zeros when there is no session or a call throws. Otherwise the PRs are the search's `total_count`, the commits are `totalContributions` or 0 when absent, and repos and reviews are the fixed 48 and 44 |
| DashboardActions.MonthAt | module/dashboard/actions/index.ts:133 | month overflow and underflow carry into the year: the month is 0..11 and the month index is kept |
| DashboardActions.LastSixMonths | module/dashboard/actions/index.ts:129-136 | six keys, one month apart, strictly increasing, all distinct, the last being the current month |
| DashboardActions.CountedOnce | module/dashboard/actions/index.ts:163-170 | over distinct month keys, each dated item whose month is one of them adds exactly one to exactly one counter, and the others are ignored |
| DashboardActions.EmptyBuckets | module/dashboard/actions/index.ts:132-136 | there is a counter exactly for each key, and every counter starts at zero activity, PRs and reviews |
| DashboardActions.AddDays | module/dashboard/actions/index.ts:140-147 | after one week, each existing counter holds the sum of the counts of its month's days so far; no counter is added |
| DashboardActions.AddWeeks | module/dashboard/actions/index.ts:139-148 | after all weeks, each counter holds the sum of the counts of its month's days |
| DashboardActions.AddPrs | module/dashboard/actions/index.ts:163-170 | each counter's `prs` is the number of pull requests opened in its month |
| DashboardActions.AddReviews | module/dashboard/actions/index.ts:179-186 | each counter's `reviews` is the number of reviews dated in its month |
| DashboardActions.MonthlyActivity | module/dashboard/actions/index.ts:97-197 | `[]` when there is no session or calendar, or a call throws. Otherwise one row per month of the last six, oldest first, each with its month's activity, pull requests and reviews |
| AuthWebhooks.FindByCustomer | lib/auth.ts:50-54 | the index found holds the customer id and no earlier row does; none means no user holds it |
| AuthWebhooks.FindByEmail | lib/auth.ts:92-96 | the index found holds the e-mail address and no earlier row does; none means no user has it |
| AuthWebhooks.OnEvent | lib/auth.ts:47-101 | a handler keeps the number of users, and a handler that throws changes nothing |
| AuthWebhooks.ActiveMakesPro | lib/auth.ts:47-58 | the holder of the customer id becomes PRO and ACTIVE with the new subscription id; its id, e-mail and customer id are kept |
| AuthWebhooks.CanceledKeepsTier | lib/auth.ts:60-76 | cancellation keeps the holder's tier and subscription id and sets status CANCELLED |
| AuthWebhooks.RevokedMakesFree | lib/auth.ts:77-89 | revocation sets tier FREE and status EXPIRED and keeps the subscription id |
| AuthWebhooks.CustomerCreatedRecordsId | lib/auth.ts:91-101 | the new customer id is recorded on the user with the e-mail address. The handler fails exactly when another user already holds that id |
| AuthWebhooks.NoMatchNoChange | lib/auth.ts:47-101 | when no user matches, and for a paid order, nothing changes and nothing fails |
| AuthWebhooks.OnlyTargetChanges | lib/auth.ts:47-101 | only the matched user's row can change |
| AuthWebhooks.PreservesUniqueUsers | lib/auth.ts:47-101 | ids, e-mail addresses and customer ids stay unique |
| AuthWebhooks.RedeliveryIdempotent | lib/auth.ts:47-101 | delivering the same event twice leaves the table as delivering it once |
| AuthWebhooks.Deliver | lib/auth.ts:45-102 | the user table becomes the one the handler computes, and the tables stay valid |
| Text.Split | app/api/webhooks/github/route.ts:18 | there is at least one piece, and no piece holds the separator |
| Text.Join | app/api/webhooks/github/route.ts:18 | the joined text starts with the first piece and ends with the last |
| Text.JoinSplit | app/api/webhooks/github/route.ts:18 | joining the pieces of `split(sep)` with `sep` gives back the text |
| Text.SplitAtFirst | app/dashboard/repository/page.tsx:89 | splitting `a + sep + b` with no `sep` in `a` gives `a` followed by the pieces of `b` |
| Text.Before | app/dashboard/repository/page.tsx:89 | the result is a prefix of the text without the separator, followed in the text by the separator when it is shorter |
| Text.FirstPieceIsBefore | app/dashboard/repository/page.tsx:89 | the first piece of `split(sep)` is the text before the first `sep` |
| Text.Contains | app/dashboard/repository/page.tsx:80-81 | a text contains only needles no longer than itself |
| Text.Lower | app/dashboard/repository/page.tsx:77 | same length; each ASCII capital becomes its small letter, no upper-case ASCII letter is left and every other character is kept |
| Text.Upper | components/custom/app-sidebar.tsx:64 | same length; each ASCII small letter becomes its capital, no lower-case ASCII letter is left and every other character is kept |
| Text.LowerIgnoresCase | app/dashboard/repository/page.tsx:76-83 | lower-casing an upper-cased text gives the lower-cased text, so the search ignores the ASCII case of the query |
| Text.ContainsIffOccurs | app/dashboard/repository/page.tsx:80-81 | `includes` holds exactly when the needle occurs at some offset |
| RepositoryPage.Concat | app/dashboard/repository/page.tsx:73-74 | a repository is in the flattened list exactly when it is in one of the pages |
| RepositoryPage.ConcatAppend | app/dashboard/repository/page.tsx:73-74 | loading one more page appends its repositories at the end |
| RepositoryPage.AllRepositories | app/dashboard/repository/page.tsx:73-74 | nothing before any data; otherwise the repositories of all loaded pages |
| RepositoryPage.FilterRepositories | app/dashboard/repository/page.tsx:76-83 | the result is a subsequence of the list. Each repository occurs as often as in the list when its lower-cased `name` or `full_name` contains the lower-cased query, and not at all otherwise |
| RepositoryPage.EmptyQueryKeepsAll | app/dashboard/repository/page.tsx:76-83 | an empty search keeps every repository |
| RepositoryPage.ConnectRequestFor | app/dashboard/repository/page.tsx:87-92 | the owner is `full_name` before the first `/`, the repo is `name`, the provider id is `id` |
| RepositoryPage.ShouldFetchNextPage | app/dashboard/repository/page.tsx:57 | a fetch is asked for only when there is a next page and none is being fetched |
| RepositoryPage.NoFetchAfterShortPageOrWhileFetching | app/dashboard/repository/page.tsx:57-59 | after a short page, or while a page is loading, scrolling to the end loads nothing |
| RepositoryPage.Matches | app/dashboard/repository/page.tsx:80-81 | a query longer than both `name` and `full_name` never matches |
| RepositoryPage.ConnectDisabled | app/dashboard/repository/page.tsx:190 | a connected repository's button is always disabled; with nothing connecting, exactly the connected ones are |
| RepositoryPage.RepositoryPageState.HandleConnect | app/dashboard/repository/page.tsx:85-92 | the repository is marked connecting, so its button is disabled, and one request for it is sent |
| RepositoryPage.RepositoryPageState.Settle | app/dashboard/repository/page.tsx:94 | the connecting mark is cleared, so a button is disabled exactly when its repository is connected |
| AppSidebar.NonEmpty | components/custom/app-sidebar.tsx:60-64 | the pieces of the name that are not empty, in their order and each as often as it occurs |
| AppSidebar.NonEmptyAppend | components/custom/app-sidebar.tsx:60-64 | the non-empty pieces of two lists are those of the first followed by those of the second |
| AppSidebar.FirstLetters | components/custom/app-sidebar.tsx:60-64 | one letter per non-empty piece, its first; empty pieces add nothing |
| AppSidebar.Initials | components/custom/app-sidebar.tsx:60-64 | the upper-cased first letter of each non-empty space-separated word, in order |
| AppSidebar.GuestInitials | components/custom/app-sidebar.tsx:56-64 | a user without a name is "Guest" with initials "G" |
| AppSidebar.TwoWordInitials | components/custom/app-sidebar.tsx:60-64 | two words separated by one space give their two upper-cased first letters |
| AppSidebar.UserName | components/custom/app-sidebar.tsx:56 | a missing name becomes "Guest"; the shown name is empty only when the user's name is the empty string |
| AppSidebar.Sidebar | components/custom/app-sidebar.tsx:53-64 | nothing until mounted with a session. Then the name (or "Guest"), the e-mail (or ""), and the initials of the name |
| AppSidebar.IsActive | components/custom/app-sidebar.tsx:75-76 | a path below an entry's URL does not make that entry active |
| AppSidebar.AtMostOneActive | components/custom/app-sidebar.tsx:66-76 | for any path at most one navigation entry is active |

## Left out

- `disconnectAllRepository` deletes no row when any webhook deletion throws, because `Promise.all` rejects before `deleteMany`.
- A `github` account row that is missing makes `fetch-files` throw a `TypeError` when it reads `accessToken` of `null`. The model keeps that failure apart from "No GitHub access token found".
- `deleteWebhook`, `getRepositories`, `updateUserTier` and `updatePolarCustomerId` are not part of this model. Their effect is inferred from their names and call sites:
  - a successful `deleteWebhook` removes the hook;
  - `updateUserTier` sets tier and status, and the subscription id only when it is given;
  - `updatePolarCustomerId` sets the customer id and fails on the unique column.
- Database failures other than a missing row and a unique-column clash are not modelled, nor are the session and header lookup, or network and provider errors beyond "the call throws".
- `revalidatePath`, React Query caching, toasts, logging and rendering are not modelled.
- The subscription page, the connect action, `use-connect-repository` and any quota helpers are not part of this model.
- The `Promise.all` in `disconnectAllRepository` starts its deletions concurrently. The model runs them in a sequential loop that attempts every one; the outcome is the same all-or-abort.
- Dates and the clock are not modelled. The months of the current date, of each calendar day and of each pull request are inputs (`now`, `monthOf`), and so are the months of the 45 placeholder review dates (`reviewMonths`). A month key stands for its text `"Mon YYYY"`.
- DashboardActions.DashboardStatsOf: the fixed values 48 and 44 are reported as constants, with no claim about what they are meant to count.
- DashboardActions.ContributionStatsOf: `totalContribution` and `totalContributions` are passed through unread, as optional integers.
- DashboardActions.Level: the count is an integer. Floating-point division followed by `Math.floor` equals Dafny's division by 3 for integers, so non-integer counts are not modelled.
- The search filter and the initials fold case for ASCII letters only, without Unicode case mapping.
- AppSidebar.FirstLetters: strings are modelled as sequences of code points, not UTF-16 code units, so a word that begins outside the Basic Multilingual Plane contributes its whole first character where `n[0]` yields a lone high surrogate.
- AppSidebar.Initials: for the same reason, the initial of such a word is its whole first character rather than a lone high surrogate.
- WebhookRoute.HandleWebhook: the JSON body is reduced to "does not parse", "not an object" and an object with the read fields. A `full_name` that is not a string counts as absent.
- RepositoryActions.FetchRepositories: the provider's `id` and the stored `githubId` are compared as integers. The `BigInt` conversion is not modelled.
- The job runtime's retry policy is not modelled. Retries are a sequence of attempts given as input, and each attempt's replies are inputs too.
