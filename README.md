# Builds query registry (SQLite), modelled in Dafny

`database/dml/sqlite/build.go` supplies the SQL text for every operation on
the `builds` table of a CI/CD server. It does this through sixteen query
constants and `createBuildService`. That function publishes the constants in a
`List` map with five keys, a `Select` map with ten keys, and one `Delete`
template. The file holds only strings and map literals. What it promises is
what each SQL text means when a driver runs it. This project models that
meaning and proves properties of it.

- `tables.dfy` (module `Tables`) holds the tables the queries read:
  - a `seq<Build>` for the builds table;
  - a map from `repos.id` to `(org, full_name)` for the repos table;
  - WHERE conditions as a `Cond` datatype with `And`/`Or`/`Not`;
  - the relational steps the queries are made of: filter, `count(*)`,
    `ORDER BY ... DESC` as a stable sort, `LIMIT/OFFSET` as a window, and
    `LIMIT 1`.
- `queries.dfy` (module `BuildQueries`) gives each of the sixteen templates
  its meaning as a function over `Db`. The inner join with `repos` keeps only
  the builds whose `repo_id` appears in the repos map. The WHERE clause of
  `SelectPendingAndRunningBuilds` is grouped the way SQL parses it: AND binds
  tighter than OR (ISO/IEC 9075, boolean value expression).
- `templates.dfy` (module `Templates`) holds the sixteen SQL texts:
  - Each text is stored as the literal pieces between its placeholders, with
    `?` and `$n` placeholders as separate constructors.
  - `Render` rebuilds each text exactly as the Go constant holds it. That
    includes the `\n` at both ends and the two tabs that end `ListOrgBuilds`.
  - The lemmas count the placeholders and check them against the parameters
    each operation takes. The file mixes two placeholder conventions:
    `$1, $2, ...` in the org-scoped and pending/running templates, and `?`
    in all the others that take parameters.
- `registry.dfy` (module `BuildService`) is `createBuildService`: two maps
  from key to template and the delete template. `Lookup` is a Go map read,
  which returns `""` for a missing key.

Go's `map[string]string` values are the SQL texts. The model's maps hold
template names (`Query`), and `Sql`/`Render` turns a name into its text.

Three facts about the code shape the model:

- The code has no `NotFound` error: lookup of an unknown key gives `""`, as
  a Go map read does.
- The code has no dialect adapter. Each template keeps the placeholder style
  it is written in.
- The pending/running query does not restrict every returned row to the time
  window. A pending build is returned whatever its `created` value (see
  Findings).

## Model

| member | source | states |
|---|---|---|
| Tables.Holds | database/dml/sqlite/build.go:10-168 | the meaning of a WHERE or JOIN condition on one build row; an `OrgIs` (`repos.org = ?`) condition holds only for builds the inner join keeps |
| Tables.Where | database/dml/sqlite/build.go:17-20 | a WHERE clause keeps exactly the rows that satisfy it and no others, so the result is never longer than the table |
| Tables.CountWhere | database/dml/sqlite/build.go:100-149 | `count(*)` is at most the table size, and it is 0 exactly when no row satisfies the condition |
| Tables.CountIsWhereSize | database/dml/sqlite/build.go:100-149 | the count aggregate equals the number of rows the same WHERE clause keeps |
| Tables.CountAndBounded | database/dml/sqlite/build.go:136-141 | adding an AND conjunct never increases a count, compared against either conjunct |
| Tables.CountImplies | database/dml/sqlite/build.go:108-113 | a condition implied row by row by another counts at least as many rows |
| Tables.CountSplit | database/dml/sqlite/build.go:153-157 | every row is either counted by `c` or kept by `NOT c` |
| Tables.CountUniqueKey | database/dml/sqlite/build.go:153-157 | with unique ids, at most one row has a given id |
| Tables.WhereAppend | database/dml/sqlite/build.go:153-157 | filtering a concatenation filters each part and keeps the parts in order |
| Tables.WhereAll | database/dml/sqlite/build.go:153-157 | filtering rows that all satisfy the condition returns them unchanged |
| Tables.WhereWhere | database/dml/sqlite/build.go:29-33 | filtering twice is filtering by the conjunction |
| Tables.Insert | database/dml/sqlite/build.go:21 | inserting into a sorted sequence keeps it sorted, and the result has exactly the old rows plus the new one, as a multiset |
| Tables.SortDesc | database/dml/sqlite/build.go:21 | `ORDER BY ... DESC` returns a permutation of its input, in non-increasing key order |
| Tables.OrderedWhere | database/dml/sqlite/build.go:17-21 | a filtered and ordered result is sorted and is a permutation (same multiset) of the rows the WHERE clause keeps, so it has exactly the matching rows, as many as their count |
| Tables.SortedHeadIsMax | database/dml/sqlite/build.go:51-57 | the first row of a descending order has the largest key |
| Tables.Window | database/dml/sqlite/build.go:22-23 | `LIMIT l OFFSET o` gives `max(0, min(l, n - o))` rows, and row `i` is input row `o + i` |
| Tables.First | database/dml/sqlite/build.go:46 | `LIMIT 1` gives no row exactly on an empty input, and otherwise gives the first row |
| Tables.PagesCover | database/dml/sqlite/build.go:17-24 | the windows at offsets `o, o + l, o + 2l, ...` concatenate to the rows from `o` on, with no gap or repetition |
| Tables.WindowAll | database/dml/sqlite/build.go:22-23 | a window from offset 0 that is at least as long as the input is the whole input |
| BuildQueries.RepoAndEvent | database/dml/sqlite/build.go:32-33 | the condition holds exactly for rows with that repo_id and event |
| BuildQueries.RepoAndNumber | database/dml/sqlite/build.go:44-45 | the condition holds exactly for rows with that repo_id and number |
| BuildQueries.RepoAndBranch | database/dml/sqlite/build.go:64-65 | the condition holds exactly for rows with that repo_id and branch |
| BuildQueries.OrgJoin | database/dml/sqlite/build.go:75-77 | the inner join with `repos.org = org` holds exactly for builds whose repo exists and belongs to the org |
| BuildQueries.OrgJoinAndEvent | database/dml/sqlite/build.go:89-92 | the joined condition with event holds exactly for builds whose repo belongs to the org and whose event matches |
| BuildQueries.OtherIds | database/dml/sqlite/build.go:156 | the rows a delete by id leaves are exactly those with another id |
| BuildQueries.PendingRunningWhere | database/dml/sqlite/build.go:165-167 | as SQL groups it, the clause holds for joined builds that are pending, whatever their age, or running and created after the bound |
| BuildQueries.PendingRunningSinceWhere | database/dml/sqlite/build.go:159-162 | the clause the doc comment describes holds for joined builds created after the bound that are pending or running |
| BuildQueries.SelectBuildsCount | database/dml/sqlite/build.go:100-103 | the count of all builds equals the number of rows `ListBuilds` returns |
| BuildQueries.SelectBuildsCountByStatus | database/dml/sqlite/build.go:145-149 | the count equals the size of the status filter, is at most the total count, and is 0 exactly when no build has that status |
| BuildQueries.SelectRepoBuildCount | database/dml/sqlite/build.go:128-132 | the count equals the size of the repo_id filter, and is 0 exactly when the repo has no builds |
| BuildQueries.SelectRepoBuildCountByEvent | database/dml/sqlite/build.go:136-141 | the count equals the size of the repo_id and event filter, and is 0 exactly when no build matches both |
| BuildQueries.SelectOrgBuildCount | database/dml/sqlite/build.go:108-113 | the count equals the size of the joined org filter, and is 0 exactly when no build has a repo in the org |
| BuildQueries.SelectOrgBuildCountByEvent | database/dml/sqlite/build.go:118-124 | the count equals the size of the joined org and event filter, and is 0 exactly when no build matches |
| BuildQueries.RepoCountsNested | database/dml/sqlite/build.go:128-141 | countByRepoAndEvent ≤ countByRepo ≤ count |
| BuildQueries.OrgCountsNested | database/dml/sqlite/build.go:100-124 | countByOrgAndEvent ≤ countByOrg ≤ count |
| BuildQueries.RepoCountWithinOrg | database/dml/sqlite/build.go:108-132 | a repo of an org has no more builds than the org |
| BuildQueries.ListBuilds | database/dml/sqlite/build.go:10-13 | every row of the table, each as often as it is stored |
| BuildQueries.RepoBuildsById | database/dml/sqlite/build.go:17-21 | a repo's builds in non-increasing id order, as a permutation of the repo's rows: exactly those rows, as many as its count |
| BuildQueries.ListRepoBuilds | database/dml/sqlite/build.go:17-24 | row `i` of the page is row `offset + i` of the repo's builds in id order, and there are exactly `max(0, min(limit, count - offset))` rows; so the page holds only rows of the repo, in non-increasing id order |
| BuildQueries.ListRepoBuildsIsWindow | database/dml/sqlite/build.go:17-24 | each call is the LIMIT/OFFSET window of the repo's ordered builds |
| BuildQueries.RepoPagesCover | database/dml/sqlite/build.go:17-24 | the pages at offsets 0, L, 2L, ... concatenate to all of the repo's builds in order, each once |
| BuildQueries.RepoEventBuildsByNumber | database/dml/sqlite/build.go:29-34 | a permutation of the rows with that repo and event, in non-increasing number order, as many as their count |
| BuildQueries.ListRepoBuildsByEvent | database/dml/sqlite/build.go:29-37 | row `i` of the page is row `offset + i` of the repo's event builds in number order, with the windowed count of rows; only matching rows, in non-increasing number order |
| BuildQueries.ByEventWithinRepo | database/dml/sqlite/build.go:17-37 | every row listed for a repo and event is among the repo's listed builds |
| BuildQueries.OrgBuildsById | database/dml/sqlite/build.go:73-79 | a permutation of the joined builds of the org's repos, in non-increasing builds.id order, as many as the org count |
| BuildQueries.ListOrgBuilds | database/dml/sqlite/build.go:73-81 | row `i` of the page is row `offset + i` of the org's joined builds in id order, with the windowed count of rows; only builds whose repo exists and is in the org, in non-increasing id order |
| BuildQueries.OrgEventBuildsById | database/dml/sqlite/build.go:87-93 | a permutation of the joined builds of the org with that event, in non-increasing id order, as many as their count |
| BuildQueries.ListOrgBuildsByEvent | database/dml/sqlite/build.go:87-96 | row `i` of the page is row `offset + i` of the org's joined event builds in id order, with the windowed count of rows; only matching joined builds, in non-increasing id order |
| BuildQueries.SelectRepoBuild | database/dml/sqlite/build.go:41-47 | at most one row; none exactly when no build has that repo and number; any row is a stored build with that repo and number |
| BuildQueries.SelectRepoBuildFinds | database/dml/sqlite/build.go:41-47 | when (repo_id, number) is unique, the query finds that very build |
| BuildQueries.SelectLastRepoBuild | database/dml/sqlite/build.go:51-57 | no row exactly when the repo has no builds; otherwise a build of the repo whose number is ≥ every build number of the repo |
| BuildQueries.SelectLastRepoBuildByBranch | database/dml/sqlite/build.go:61-68 | the same as `SelectLastRepoBuild`, restricted to the branch |
| BuildQueries.LastByBranchNotAfterLast | database/dml/sqlite/build.go:51-68 | a branch's last build exists only if the repo's does, and its number is no larger |
| BuildQueries.DeleteBuild | database/dml/sqlite/build.go:153-157 | removes exactly the rows with that id; repos is unchanged; the affected count plus the remaining rows is the old size; 0 rows are affected exactly when no row has the id |
| BuildQueries.DeleteIdempotent | database/dml/sqlite/build.go:153-157 | deleting the same id a second time changes nothing and affects no row |
| BuildQueries.DeleteKeepsOrder | database/dml/sqlite/build.go:153-157 | the remaining rows keep their relative order |
| BuildQueries.DeleteRemovesOne | database/dml/sqlite/build.go:153-157 | with unique ids, deleting a present id removes exactly one row |
| BuildQueries.Project | database/dml/sqlite/build.go:164 | the projection of (created, number, status, full_name) has one row per build, row for row |
| BuildQueries.ProjectedWhere | database/dml/sqlite/build.go:164-167 | projecting the joined builds a condition keeps gives a row for each kept build, and every row is the projection of a kept build |
| BuildQueries.SelectPendingAndRunningBuilds | database/dml/sqlite/build.go:163-168 | includes every joined pending build whatever its `created`, and every joined running build created after the bound; the result is the projection of a permutation of the builds the clause keeps as SQL groups it, so each qualifying build gives exactly one row and nothing else appears |
| BuildQueries.SelectPendingAndRunningBuildsSince | database/dml/sqlite/build.go:159-162 | the corrected query: the projection of a permutation of the joined pending or running builds created after the bound, one row per such build and nothing else |
| BuildQueries.PrecedenceDifference | database/dml/sqlite/build.go:166-167 | the two groupings disagree exactly on joined pending builds created at or before the bound |
| BuildQueries.StalePendingReturned | database/dml/sqlite/build.go:166-167 | a pending build created at 100 is returned for bound 200 by the query as written, but not by the corrected one |
| Templates.Digits | database/dml/sqlite/build.go:77-80 | the decimal form of an ordinal placeholder's number is non-empty and all digits |
| Templates.DigitsValue | database/dml/sqlite/build.go:77-80 | the digits written after `$` read back as the parameter's number |
| Templates.Questions | database/dml/sqlite/build.go:20-23 | the number of `?` placeholders is at most the number of placeholders |
| Templates.Ordinals | database/dml/sqlite/build.go:77-80 | the `$n` numbers, together with the `?` count, account for every placeholder |
| Templates.Marks | database/dml/sqlite/build.go:10-168 | a text has at most as many placeholder characters as characters |
| Templates.MarksAppend | database/dml/sqlite/build.go:10-168 | placeholder characters in a concatenation add up |
| Templates.PlainHasNoMarks | database/dml/sqlite/build.go:10-168 | a text with no `?` or `$` has no placeholder characters |
| Templates.MarksOfRender | database/dml/sqlite/build.go:10-168 | in a rendered template whose literal pieces have no `?` or `$`, the placeholder characters are exactly its placeholders |
| Templates.StyleOf | database/dml/sqlite/build.go:77-80 | the style is no-parameters exactly when there are no placeholders; `?` style means all placeholders are `?`; ordinal style means all are `$n` |
| Templates.MaxOf | database/dml/sqlite/build.go:77-80 | the result is an element no element exceeds, or 0 for an empty sequence |
| Templates.NumberedMax | database/dml/sqlite/build.go:77-80 | in `$1, ..., $n` the largest number is n |
| Templates.NumberedMaxShift | database/dml/sqlite/build.go:77-80 | a run k, k + 1, ... has its last element as its largest |
| Templates.ArityIsPlaceholders | database/dml/sqlite/build.go:77-80 | a template that does not mix styles and numbers its `$n` from 1 binds one argument per placeholder |
| Templates.ListBuildsBinds | database/dml/sqlite/build.go:10-13 | no placeholders |
| Templates.ListRepoBuildsBinds | database/dml/sqlite/build.go:17-24 | three `?` and no `$n` |
| Templates.ListRepoBuildsByEventBinds | database/dml/sqlite/build.go:29-37 | four `?` and no `$n` |
| Templates.SelectRepoBuildBinds | database/dml/sqlite/build.go:41-47 | two `?` and no `$n` |
| Templates.SelectLastRepoBuildBinds | database/dml/sqlite/build.go:51-57 | one `?` and no `$n` |
| Templates.SelectLastRepoBuildByBranchBinds | database/dml/sqlite/build.go:61-68 | two `?` and no `$n` |
| Templates.ListOrgBuildsBinds | database/dml/sqlite/build.go:73-81 | no `?`; `$1, $2, $3` in that order |
| Templates.ListOrgBuildsByEventBinds | database/dml/sqlite/build.go:87-96 | no `?`; `$1, $2, $3, $4` in that order |
| Templates.SelectBuildsCountBinds | database/dml/sqlite/build.go:100-103 | no placeholders |
| Templates.SelectOrgBuildCountBinds | database/dml/sqlite/build.go:108-113 | no `?`; `$1` only |
| Templates.SelectOrgBuildCountByEventBinds | database/dml/sqlite/build.go:118-124 | no `?`; `$1, $2` in that order |
| Templates.SelectRepoBuildCountBinds | database/dml/sqlite/build.go:128-132 | one `?` |
| Templates.SelectRepoBuildCountByEventBinds | database/dml/sqlite/build.go:136-141 | two `?` |
| Templates.SelectBuildsCountByStatusBinds | database/dml/sqlite/build.go:145-149 | one `?` |
| Templates.DeleteBuildBinds | database/dml/sqlite/build.go:153-157 | one `?` |
| Templates.SelectPendingAndRunningBuildsBinds | database/dml/sqlite/build.go:163-168 | no `?`; `$1` only |
| Templates.FitsFromCounts | database/dml/sqlite/build.go:10-168 | the `?` count and the `$n` sequence decide a template's size and style |
| Templates.Sql | database/dml/sqlite/build.go:10-168 | each query's constant, its text piece for piece as in the source, has one placeholder per parameter of its operation and does not mix styles; the org-scoped and pending/running ones number `$1, $2, ...` in order, and the others with parameters use `?` |
| Templates.Render | database/dml/sqlite/build.go:10-168 | the SQL text of a template; it has at least one placeholder character for each placeholder |
| Templates.Params | database/dml/sqlite/build.go:17-96 | the arguments each operation binds, in the order read off its text; a paged list takes both a limit and an offset, and they are always its last two arguments |
| Templates.ArityMatchesParams | database/dml/sqlite/build.go:10-168 | the number of arguments each template binds equals its operation's parameter count |
| Templates.RenderNonEmpty | database/dml/sqlite/build.go:10-168 | every template is non-empty SQL text |
| BuildService.CreateBuildService | database/dml/sqlite/build.go:173-196 | `List` has exactly the keys all, repo, repoByEvent, org, orgByEvent; `Select` has exactly the ten keys listed; `Delete` is `DeleteBuild` |
| BuildService.TextAfterFirstQuestion | database/dml/sqlite/build.go:17-47 | the text after a template's first `?` sits right behind that placeholder in the SQL |
| BuildService.RepoTextsDiffer | database/dml/sqlite/build.go:17-47 | the repo list text and the single-repo-build text differ (`ORDER BY` against `AND number`) |
| BuildService.RepoKeyDiffers | database/dml/sqlite/build.go:177-183 | the key `repo` reads different SQL texts from `List` and `Select` |
| BuildService.ListShapes | database/dml/sqlite/build.go:175-181 | every `List` template returns rows |
| BuildService.SelectShapes | database/dml/sqlite/build.go:182-194 | every `Select` template returns one row or a count, except `pendingAndRunning`, and `Delete` reports affected rows |
| BuildService.ListValues | database/dml/sqlite/build.go:175-181 | `List` publishes exactly the five list templates |
| BuildService.SelectValuesWithin | database/dml/sqlite/build.go:182-193 | every `Select` value is one of the ten select/count templates |
| BuildService.SelectValuesCover | database/dml/sqlite/build.go:182-193 | each of the ten select/count templates is a `Select` value |
| BuildService.SelectValues | database/dml/sqlite/build.go:182-193 | `Select` publishes exactly the ten select/count templates |
| BuildService.KeysNameTheirTemplates | database/dml/sqlite/build.go:175-193 | each key maps back to itself through the template it publishes |
| BuildService.EveryTemplatePublished | database/dml/sqlite/build.go:173-196 | each of the sixteen templates is published |
| BuildService.KeysDistinct | database/dml/sqlite/build.go:175-193 | no two keys of one map share a template |
| BuildService.ValuesDisjoint | database/dml/sqlite/build.go:175-194 | the list and select templates are disjoint, and neither holds the delete template |
| BuildService.NoTemplateTwice | database/dml/sqlite/build.go:173-196 | no template is published twice anywhere in the service |
| BuildService.Lookup | database/dml/sqlite/build.go:175-193 | a Go map read gives non-empty SQL text exactly when the key is published, and `""` otherwise; published text has at least one placeholder character per parameter of its operation |

## Left out

- Running SQL through a driver is not modelled. Neither are row scanning, SQLite's type affinity and NULL handling, or the `Service` struct's Go definition, which is not part of this model. The queries mean functions over in-memory tables.
- LIMIT and OFFSET are natural numbers. SQLite's "negative LIMIT means no limit" is not modelled.
- Timestamps are integers compared with `>`; time zones and clocks are not modelled.
- The registry is built once and only read afterwards, so concurrency does not arise for it. Concurrent writes to the tables by a driver are not modelled.
- There is no dialect adapter and no `NotFound` error, because the code has neither. A missing key reads as `""`, as in Go.
- Row order:
  - `ListBuilds` has no ORDER BY, so its row order is unspecified in SQL. The model returns table order and states only that every stored row is returned, as a multiset.
  - `SelectRepoBuild` has `LIMIT 1` without ORDER BY: the model returns the first match in table order.
  - Ties under `ORDER BY ... DESC` keep table order, where SQL leaves them unspecified. Stability is not stated in any contract.
- `ORDER BY id` in the joined queries is taken as `builds.id`. Likewise, the unqualified `event` in `SelectOrgBuildCountByEvent` is taken as `builds.event`, since repos has no such column.
- Templates.MarksOfRender: the character-level fact that the literal pieces of the sixteen concrete texts contain no `?` or `$` (`WellFormed`) is not proved for the concrete texts. The lemma is proved for every template that satisfies it. For every template, `Render` states the lower bound: the text has at least one placeholder character per placeholder. Each template's placeholders are counted on its structure, where `?` and `$n` are separate constructors.
- Templates.Params: the order of the parameters in each list is read off the SQL text, and nothing checks it against the text. Only the number of parameters is checked against the placeholders (`Sql`). That limit and offset come last is stated about the lists themselves.
- BuildService.CreateBuildService: the maps hold template names, not the SQL text itself. `Lookup` gives the text through `Render(Sql(...))`.
- No concrete end-to-end scenario is evaluated (for example, listing an org's builds in a seeded table). On any table, the contracts of the list queries fix each page row for row as a window of the ordered matches. The ordered matches are always a permutation of the filtered rows; their order is fixed wherever the sort keys are distinct, and ties follow table order (see Row order).

## Findings

| source | as written | input that shows it | evidently intended | confidence | as-written member | corrected member |
|---|---|---|---|---|---|---|
| database/dml/sqlite/build.go:166-167 | `WHERE builds.created > $1 AND builds.status = 'running' or builds.status = 'pending'` groups as `(created > $1 AND running) OR pending`, so pending builds of any age are returned | one joined build with status `pending` and `created = 100`, queried with bound 200, is returned | the doc comment (lines 159–162) asks for pending or running builds created since the bound: `created > $1 AND (running OR pending)` | not executed | BuildQueries.SelectPendingAndRunningBuilds (with BuildQueries.StalePendingReturned) | BuildQueries.SelectPendingAndRunningBuildsSince |

The registry publishes the query as written. The corrected query is modelled
beside it, and `BuildQueries.PrecedenceDifference` states exactly where the
two disagree.
