// The meaning of each SQL template in database/dml/sqlite/build.go, as a
// function over the builds and repos tables: which rows its WHERE clause
// keeps, in which order, through which LIMIT/OFFSET window, or what it
// counts or deletes.

module BuildQueries {
  import opened Tables

  // ---------------------------------------------------------------------
  // WHERE clauses of the templates, each with what it means on one row

  /** WHERE repo_id = ? AND event = ? */
  function RepoAndEvent(repo: int, event: string): (c: Cond)
    ensures forall b: Build, repos: Repos :: Holds(c, b, repos) <==> b.repoId == repo && b.event == event
  {
    And(RepoIdIs(repo), EventIs(event))
  }

  /** WHERE repo_id = ? AND number = ? */
  function RepoAndNumber(repo: int, number: int): (c: Cond)
    ensures forall b: Build, repos: Repos :: Holds(c, b, repos) <==> b.repoId == repo && b.number == number
  {
    And(RepoIdIs(repo), NumberIs(number))
  }

  /** WHERE repo_id = ? AND branch = ? */
  function RepoAndBranch(repo: int, branch: string): (c: Cond)
    ensures forall b: Build, repos: Repos :: Holds(c, b, repos) <==> b.repoId == repo && b.branch == branch
  {
    And(RepoIdIs(repo), BranchIs(branch))
  }

  /** JOIN repos ON repos.id = builds.repo_id WHERE repos.org = ?: a build
      without a repo row is dropped by the inner join. */
  function OrgJoin(org: string): (c: Cond)
    ensures forall b: Build, repos: Repos :: Holds(c, b, repos) <==> b.repoId in repos && repos[b.repoId].org == org
  {
    And(HasRepo, OrgIs(org))
  }

  /** ... WHERE repos.org = ? AND event = ? */
  function OrgJoinAndEvent(org: string, event: string): (c: Cond)
    ensures forall b: Build, repos: Repos :: Holds(c, b, repos) <==>
      b.repoId in repos && repos[b.repoId].org == org && b.event == event
  {
    And(OrgJoin(org), EventIs(event))
  }

  /** The rows DELETE ... WHERE id = ? leaves in place. */
  function OtherIds(id: int): (c: Cond)
    ensures forall b: Build, repos: Repos :: Holds(c, b, repos) <==> b.id != id
  {
    Not(IdIs(id))
  }

  /** The WHERE clause of SelectPendingAndRunningBuilds as SQL parses it: AND
      binds tighter than OR, so the created bound applies to running builds
      only. */
  function PendingRunningWhere(after: int): (c: Cond)
    ensures forall b: Build, repos: Repos :: Holds(c, b, repos) <==>
      b.repoId in repos && ((b.created > after && b.status == "running") || b.status == "pending")
  {
    var running := And(CreatedAfter(after), StatusIs("running"));
    var either := Or(running, StatusIs("pending"));
    assert forall b: Build, repos: Repos :: Holds(running, b, repos) <==> b.created > after && b.status == "running";
    assert forall b: Build, repos: Repos :: Holds(either, b, repos) <==> Holds(running, b, repos) || b.status == "pending";
    And(HasRepo, either)
  }

  /** The same clause with the grouping its doc comment describes. */
  function PendingRunningSinceWhere(after: int): (c: Cond)
    ensures forall b: Build, repos: Repos :: Holds(c, b, repos) <==>
      b.repoId in repos && b.created > after && (b.status == "running" || b.status == "pending")
  {
    var status := Or(StatusIs("running"), StatusIs("pending"));
    var recent := And(CreatedAfter(after), status);
    assert forall b: Build, repos: Repos :: Holds(status, b, repos) <==> b.status == "running" || b.status == "pending";
    assert forall b: Build, repos: Repos :: Holds(recent, b, repos) <==> b.created > after && Holds(status, b, repos);
    And(HasRepo, recent)
  }

  // ---------------------------------------------------------------------
  // Counts

  /** SELECT count(*) FROM builds */
  function SelectBuildsCount(db: Db): (n: nat)
    ensures n == |ListBuilds(db)|
  {
    |db.builds|
  }

  /** SELECT count(*) FROM builds WHERE status = ? */
  function SelectBuildsCountByStatus(db: Db, status: string): (n: nat)
    ensures n == |Where(db.builds, db.repos, StatusIs(status))|
    ensures n <= SelectBuildsCount(db)
    ensures n == 0 <==> forall b :: b in db.builds ==> b.status != status
  {
    CountIsWhereSize(db.builds, db.repos, StatusIs(status));
    CountWhere(db.builds, db.repos, StatusIs(status))
  }

  /** SELECT count(*) FROM builds WHERE repo_id = ? */
  function SelectRepoBuildCount(db: Db, repo: int): (n: nat)
    ensures n == |Where(db.builds, db.repos, RepoIdIs(repo))|
    ensures n == 0 <==> forall b :: b in db.builds ==> b.repoId != repo
  {
    CountIsWhereSize(db.builds, db.repos, RepoIdIs(repo));
    CountWhere(db.builds, db.repos, RepoIdIs(repo))
  }

  /** SELECT count(*) FROM builds WHERE repo_id = ? AND event = ? */
  function SelectRepoBuildCountByEvent(db: Db, repo: int, event: string): (n: nat)
    ensures n == |Where(db.builds, db.repos, RepoAndEvent(repo, event))|
    ensures n == 0 <==> forall b :: b in db.builds ==> b.repoId != repo || b.event != event
  {
    CountIsWhereSize(db.builds, db.repos, RepoAndEvent(repo, event));
    CountWhere(db.builds, db.repos, RepoAndEvent(repo, event))
  }

  /** SELECT count(*) FROM builds JOIN repos ON repos.id = builds.repo_id
      WHERE repos.org = $1 */
  function SelectOrgBuildCount(db: Db, org: string): (n: nat)
    ensures n == |Where(db.builds, db.repos, OrgJoin(org))|
    ensures n == 0 <==>
      forall b :: b in db.builds ==> b.repoId !in db.repos || db.repos[b.repoId].org != org
  {
    CountIsWhereSize(db.builds, db.repos, OrgJoin(org));
    CountWhere(db.builds, db.repos, OrgJoin(org))
  }

  /** ... WHERE repos.org = $1 AND event = $2; `event` is the builds column,
      the only table of the two that has one. */
  function SelectOrgBuildCountByEvent(db: Db, org: string, event: string): (n: nat)
    ensures n == |Where(db.builds, db.repos, OrgJoinAndEvent(org, event))|
    ensures n == 0 <==>
      forall b :: b in db.builds ==>
        b.repoId !in db.repos || db.repos[b.repoId].org != org || b.event != event
  {
    CountIsWhereSize(db.builds, db.repos, OrgJoinAndEvent(org, event));
    CountWhere(db.builds, db.repos, OrgJoinAndEvent(org, event))
  }

  /** Narrowing a repo count by event, or widening it to every build, moves
      the count the expected way. */
  lemma RepoCountsNested(db: Db, repo: int, event: string)
    ensures SelectRepoBuildCountByEvent(db, repo, event) <= SelectRepoBuildCount(db, repo)
    ensures SelectRepoBuildCount(db, repo) <= SelectBuildsCount(db)
  {
    CountAndBounded(db.builds, db.repos, RepoIdIs(repo), EventIs(event));
    CountIsWhereSize(db.builds, db.repos, RepoAndEvent(repo, event));
  }

  /** The same nesting for the org-scoped counts. */
  lemma OrgCountsNested(db: Db, org: string, event: string)
    ensures SelectOrgBuildCountByEvent(db, org, event) <= SelectOrgBuildCount(db, org)
    ensures SelectOrgBuildCount(db, org) <= SelectBuildsCount(db)
  {
    CountAndBounded(db.builds, db.repos, OrgJoin(org), EventIs(event));
    CountIsWhereSize(db.builds, db.repos, OrgJoinAndEvent(org, event));
  }

  /** A repo that belongs to an org has no more builds than the org. */
  lemma RepoCountWithinOrg(db: Db, repo: int, org: string)
    requires repo in db.repos && db.repos[repo].org == org
    ensures SelectRepoBuildCount(db, repo) <= SelectOrgBuildCount(db, org)
  {
    CountImplies(db.builds, db.repos, RepoIdIs(repo), OrgJoin(org));
    CountIsWhereSize(db.builds, db.repos, RepoIdIs(repo));
    CountIsWhereSize(db.builds, db.repos, OrgJoin(org));
  }

  // ---------------------------------------------------------------------
  // Lists

  /** SELECT * FROM builds: every row, in table order. */
  function ListBuilds(db: Db): (r: seq<Build>)
    ensures multiset(r) == multiset(db.builds)
  {
    db.builds
  }

  /** The builds of a repo, ORDER BY id DESC, before LIMIT/OFFSET. */
  function RepoBuildsById(db: Db, repo: int): (r: seq<Build>)
    ensures SortedDesc(r, ById)
    ensures multiset(r) == multiset(Where(db.builds, db.repos, RepoIdIs(repo)))
    ensures forall b :: b in r <==> b in db.builds && b.repoId == repo
    ensures |r| == SelectRepoBuildCount(db, repo)
  {
    OrderedWhere(db.builds, db.repos, RepoIdIs(repo), ById)
  }

  /** SELECT * FROM builds WHERE repo_id = ? ORDER BY id DESC LIMIT ? OFFSET ? */
  function ListRepoBuilds(db: Db, repo: int, limit: nat, offset: nat): (r: seq<Build>)
    ensures forall b :: b in r ==> b in db.builds && b.repoId == repo
    ensures SortedDesc(r, ById)
    ensures |r| == Max(0, Min(limit, SelectRepoBuildCount(db, repo) - offset))
    ensures forall i :: 0 <= i < |r| ==> r[i] == RepoBuildsById(db, repo)[offset + i]
  {
    var all := RepoBuildsById(db, repo);
    var r := Window(all, limit, offset);
    assert forall i :: 0 <= i < |r| ==> r[i] in all;
    r
  }

  /** Each call is one window of the repo's ordered builds, so the calls a
      client makes at offsets 0, limit, 2 * limit, ... are the pages of that
      list, which together hold each of its builds once, in order
      (`PagesCover`). */
  lemma ListRepoBuildsIsWindow(db: Db, repo: int, limit: nat, offset: nat)
    ensures ListRepoBuilds(db, repo, limit, offset) == Window(RepoBuildsById(db, repo), limit, offset)
  {
  }

  /** Paging through a repo's builds from offset 0 yields all of them,
      newest id first, each exactly once. */
  lemma RepoPagesCover(db: Db, repo: int, limit: nat)
    requires limit > 0
    ensures Pages(RepoBuildsById(db, repo), limit, 0) == RepoBuildsById(db, repo)
  {
    PagesCover(RepoBuildsById(db, repo), limit, 0);
  }

  /** The builds of a repo for one event, ORDER BY number DESC, unwindowed. */
  function RepoEventBuildsByNumber(db: Db, repo: int, event: string): (r: seq<Build>)
    ensures SortedDesc(r, ByNumber)
    ensures multiset(r) == multiset(Where(db.builds, db.repos, RepoAndEvent(repo, event)))
    ensures forall b :: b in r <==> b in db.builds && b.repoId == repo && b.event == event
    ensures |r| == SelectRepoBuildCountByEvent(db, repo, event)
  {
    OrderedWhere(db.builds, db.repos, RepoAndEvent(repo, event), ByNumber)
  }

  /** SELECT * FROM builds WHERE repo_id = ? AND event = ?
      ORDER BY number DESC LIMIT ? OFFSET ? */
  function ListRepoBuildsByEvent(db: Db, repo: int, event: string, limit: nat, offset: nat): (r: seq<Build>)
    ensures forall b :: b in r ==> b in db.builds && b.repoId == repo && b.event == event
    ensures SortedDesc(r, ByNumber)
    ensures |r| == Max(0, Min(limit, SelectRepoBuildCountByEvent(db, repo, event) - offset))
    ensures forall i :: 0 <= i < |r| ==> r[i] == RepoEventBuildsByNumber(db, repo, event)[offset + i]
  {
    var all := RepoEventBuildsByNumber(db, repo, event);
    var r := Window(all, limit, offset);
    assert forall i :: 0 <= i < |r| ==> r[i] in all;
    r
  }

  /** Every build listed for a repo and event is also listed for the repo
      when the whole repo is fetched in one page. */
  lemma ByEventWithinRepo(db: Db, repo: int, event: string, limit: nat, offset: nat)
    ensures forall b :: b in ListRepoBuildsByEvent(db, repo, event, limit, offset) ==>
      b in ListRepoBuilds(db, repo, SelectBuildsCount(db), 0)
  {
    WindowAll(RepoBuildsById(db, repo), SelectBuildsCount(db));
  }

  /** The builds of an org's repos, joined, ORDER BY id DESC, unwindowed. */
  function OrgBuildsById(db: Db, org: string): (r: seq<Build>)
    ensures SortedDesc(r, ById)
    ensures multiset(r) == multiset(Where(db.builds, db.repos, OrgJoin(org)))
    ensures forall b :: b in r <==>
      b in db.builds && b.repoId in db.repos && db.repos[b.repoId].org == org
    ensures |r| == SelectOrgBuildCount(db, org)
  {
    OrderedWhere(db.builds, db.repos, OrgJoin(org), ById)
  }

  /** SELECT builds.* FROM builds JOIN repos ON repos.id=builds.repo_id
      WHERE repos.org = $1 ORDER BY id DESC LIMIT $2 OFFSET $3 */
  function ListOrgBuilds(db: Db, org: string, limit: nat, offset: nat): (r: seq<Build>)
    ensures forall b :: b in r ==>
      b in db.builds && b.repoId in db.repos && db.repos[b.repoId].org == org
    ensures SortedDesc(r, ById)
    ensures |r| == Max(0, Min(limit, SelectOrgBuildCount(db, org) - offset))
    ensures forall i :: 0 <= i < |r| ==> r[i] == OrgBuildsById(db, org)[offset + i]
  {
    var all := OrgBuildsById(db, org);
    var r := Window(all, limit, offset);
    assert forall i :: 0 <= i < |r| ==> r[i] in all;
    r
  }

  /** The builds of an org's repos for one event, joined, ORDER BY id DESC. */
  function OrgEventBuildsById(db: Db, org: string, event: string): (r: seq<Build>)
    ensures SortedDesc(r, ById)
    ensures multiset(r) == multiset(Where(db.builds, db.repos, OrgJoinAndEvent(org, event)))
    ensures forall b :: b in r <==>
      b in db.builds && b.repoId in db.repos && db.repos[b.repoId].org == org && b.event == event
    ensures |r| == SelectOrgBuildCountByEvent(db, org, event)
  {
    OrderedWhere(db.builds, db.repos, OrgJoinAndEvent(org, event), ById)
  }

  /** ... WHERE repos.org = $1 AND builds.event = $2
      ORDER BY id DESC LIMIT $3 OFFSET $4 */
  function ListOrgBuildsByEvent(db: Db, org: string, event: string, limit: nat, offset: nat): (r: seq<Build>)
    ensures forall b :: b in r ==>
      b in db.builds && b.repoId in db.repos && db.repos[b.repoId].org == org && b.event == event
    ensures SortedDesc(r, ById)
    ensures |r| == Max(0, Min(limit, SelectOrgBuildCountByEvent(db, org, event) - offset))
    ensures forall i :: 0 <= i < |r| ==> r[i] == OrgEventBuildsById(db, org, event)[offset + i]
  {
    var all := OrgEventBuildsById(db, org, event);
    var r := Window(all, limit, offset);
    assert forall i :: 0 <= i < |r| ==> r[i] in all;
    r
  }

  // ---------------------------------------------------------------------
  // Single-row selects

  /** SELECT * FROM builds WHERE repo_id = ? AND number = ? LIMIT 1. Without
      ORDER BY the row is the first match in table order. */
  function SelectRepoBuild(db: Db, repo: int, number: int): (r: Option<Build>)
    ensures r.None? <==> forall b :: b in db.builds ==> b.repoId != repo || b.number != number
    ensures r.Some? ==> r.value in db.builds && r.value.repoId == repo && r.value.number == number
  {
    var s := Where(db.builds, db.repos, RepoAndNumber(repo, number));
    assert |s| > 0 ==> s[0] in s;
    First(s)
  }

  /** (repo_id, number) identifies a build, which the store maintains. */
  ghost predicate UniqueRepoNumber(db: Db)
  {
    forall i, j ::
      0 <= i < |db.builds| && 0 <= j < |db.builds| &&
      db.builds[i].repoId == db.builds[j].repoId && db.builds[i].number == db.builds[j].number
      ==> i == j
  }

  /** When (repo_id, number) is unique, SelectRepoBuild finds the one build
      with that repo and number. */
  lemma SelectRepoBuildFinds(db: Db, i: nat)
    requires UniqueRepoNumber(db)
    requires i < |db.builds|
    ensures SelectRepoBuild(db, db.builds[i].repoId, db.builds[i].number) == Some(db.builds[i])
  {
    var b := db.builds[i];
    var r := SelectRepoBuild(db, b.repoId, b.number);
    var j :| 0 <= j < |db.builds| && db.builds[j] == r.value;
  }

  /** SELECT * FROM builds WHERE repo_id = ? ORDER BY number DESC LIMIT 1 */
  function SelectLastRepoBuild(db: Db, repo: int): (r: Option<Build>)
    ensures r.None? <==> forall b :: b in db.builds ==> b.repoId != repo
    ensures r.Some? ==> r.value in db.builds && r.value.repoId == repo
    ensures r.Some? ==>
      forall b :: b in db.builds && b.repoId == repo ==> b.number <= r.value.number
  {
    var s := OrderedWhere(db.builds, db.repos, RepoIdIs(repo), ByNumber);
    if |s| == 0 then None
    else
      SortedHeadIsMax(s, ByNumber);
      Some(s[0])
  }

  /** SELECT * FROM builds WHERE repo_id = ? AND branch = ?
      ORDER BY number DESC LIMIT 1 */
  function SelectLastRepoBuildByBranch(db: Db, repo: int, branch: string): (r: Option<Build>)
    ensures r.None? <==> forall b :: b in db.builds ==> b.repoId != repo || b.branch != branch
    ensures r.Some? ==> r.value in db.builds && r.value.repoId == repo && r.value.branch == branch
    ensures r.Some? ==>
      forall b :: b in db.builds && b.repoId == repo && b.branch == branch ==> b.number <= r.value.number
  {
    var s := OrderedWhere(db.builds, db.repos, RepoAndBranch(repo, branch), ByNumber);
    if |s| == 0 then None
    else
      SortedHeadIsMax(s, ByNumber);
      Some(s[0])
  }

  /** The last build on a branch is never newer than the repo's last build. */
  lemma LastByBranchNotAfterLast(db: Db, repo: int, branch: string)
    ensures SelectLastRepoBuildByBranch(db, repo, branch).Some? ==>
      SelectLastRepoBuild(db, repo).Some? &&
      SelectLastRepoBuildByBranch(db, repo, branch).value.number <= SelectLastRepoBuild(db, repo).value.number
  {
  }

  // ---------------------------------------------------------------------
  // Delete

  /** The new builds table and the number of rows affected. */
  datatype Deleted = Deleted(db: Db, affected: nat)

  /** DELETE FROM builds WHERE id = ? */
  function DeleteBuild(db: Db, id: int): (r: Deleted)
    ensures r.db.repos == db.repos
    ensures forall b :: b in r.db.builds <==> b in db.builds && b.id != id
    ensures r.affected + |r.db.builds| == |db.builds|
    ensures r.affected == 0 <==> forall b :: b in db.builds ==> b.id != id
  {
    CountSplit(db.builds, db.repos, IdIs(id));
    Deleted(Db(Where(db.builds, db.repos, OtherIds(id)), db.repos),
            CountWhere(db.builds, db.repos, IdIs(id)))
  }

  /** Deleting the same id again leaves the table as it is and affects no row. */
  lemma DeleteIdempotent(db: Db, id: int)
    ensures DeleteBuild(DeleteBuild(db, id).db, id) == Deleted(DeleteBuild(db, id).db, 0)
  {
    var once := DeleteBuild(db, id).db;
    WhereAll(once.builds, once.repos, OtherIds(id));
  }

  /** Deleting from a table split in two deletes from each part: the rows
      that stay keep their relative order. */
  lemma DeleteKeepsOrder(a: seq<Build>, b: seq<Build>, repos: Repos, id: int)
    ensures DeleteBuild(Db(a + b, repos), id).db.builds ==
      DeleteBuild(Db(a, repos), id).db.builds + DeleteBuild(Db(b, repos), id).db.builds
  {
    WhereAppend(a, b, repos, OtherIds(id));
  }

  /** id is the builds table's primary key, which the store maintains. */
  ghost predicate UniqueIds(db: Db)
  {
    forall i, j ::
      0 <= i < |db.builds| && 0 <= j < |db.builds| && db.builds[i].id == db.builds[j].id
      ==> i == j
  }

  /** With unique ids, deleting an id present in the table removes exactly
      one row. */
  lemma DeleteRemovesOne(db: Db, i: nat)
    requires UniqueIds(db)
    requires i < |db.builds|
    ensures DeleteBuild(db, db.builds[i].id).affected == 1
    ensures |DeleteBuild(db, db.builds[i].id).db.builds| == |db.builds| - 1
  {
    CountUniqueKey(db.builds, db.repos, db.builds[i].id);
  }

  // ---------------------------------------------------------------------
  // Pending and running builds

  /** The projection builds.created, builds.number, builds.status,
      repos.full_name. */
  datatype PendingRow = PendingRow(created: int, number: int, status: string, fullName: string)

  function RowOf(b: Build, repos: Repos): PendingRow
    requires b.repoId in repos
  {
    PendingRow(b.created, b.number, b.status, repos[b.repoId].fullName)
  }

  function Project(rows: seq<Build>, repos: Repos): (r: seq<PendingRow>)
    requires forall b :: b in rows ==> b.repoId in repos
    ensures |r| == |rows|
    ensures forall i :: 0 <= i < |r| ==> r[i] == RowOf(rows[i], repos)
  {
    if |rows| == 0 then []
    else
      assert forall b :: b in rows[1..] ==> b in rows;
      [RowOf(rows[0], repos)] + Project(rows[1..], repos)
  }

  /** Projecting the rows a joined condition keeps gives one row for each
      kept build, and nothing else. */
  lemma ProjectedWhere(t: seq<Build>, repos: Repos, c: Cond)
    requires forall b :: b in t && Holds(c, b, repos) ==> b.repoId in repos
    ensures forall b :: b in Where(t, repos, c) ==> b.repoId in repos
    ensures forall b :: b in t && Holds(c, b, repos) ==> RowOf(b, repos) in Project(Where(t, repos, c), repos)
    ensures forall row :: row in Project(Where(t, repos, c), repos) ==>
      exists b :: b in t && Holds(c, b, repos) && row == RowOf(b, repos)
  {
    var rows := Where(t, repos, c);
    var r := Project(rows, repos);
    forall b | b in rows ensures RowOf(b, repos) in r {
      var i :| 0 <= i < |rows| && rows[i] == b;
      assert r[i] == RowOf(b, repos);
    }
    forall row | row in r ensures exists b :: b in t && Holds(c, b, repos) && row == RowOf(b, repos) {
      var i :| 0 <= i < |r| && r[i] == row;
      assert rows[i] in rows;
    }
  }

  /** SELECT builds.created, builds.number, builds.status, repos.full_name
      FROM builds INNER JOIN repos ON (builds.repo_id = repos.id)
      WHERE builds.created > $1 AND builds.status = 'running'
      OR builds.status = 'pending' -- as SQL groups it. */
  function SelectPendingAndRunningBuilds(db: Db, after: int): (r: seq<PendingRow>)
    ensures forall b :: b in db.builds && b.repoId in db.repos && b.status == "pending" ==>
      RowOf(b, db.repos) in r
    ensures forall b :: b in db.builds && b.repoId in db.repos && b.status == "running" && b.created > after ==>
      RowOf(b, db.repos) in r
    ensures forall row :: row in r ==>
      row.status == "pending" || (row.status == "running" && row.created > after)
    ensures forall row :: row in r ==>
      exists b :: b in db.builds && b.repoId in db.repos &&
        Holds(PendingRunningWhere(after), b, db.repos) && row == RowOf(b, db.repos)
    ensures |r| == CountWhere(db.builds, db.repos, PendingRunningWhere(after))
    ensures exists rows: seq<Build> ::
      && multiset(rows) == multiset(Where(db.builds, db.repos, PendingRunningWhere(after)))
      && (forall b :: b in rows ==> b.repoId in db.repos)
      && r == Project(rows, db.repos)
  {
    var rows := Where(db.builds, db.repos, PendingRunningWhere(after));
    ProjectedWhere(db.builds, db.repos, PendingRunningWhere(after));
    CountIsWhereSize(db.builds, db.repos, PendingRunningWhere(after));
    Project(rows, db.repos)
  }

  /** The query the doc comment of SelectPendingAndRunningBuilds describes:
      pending or running builds created after the given time. */
  function SelectPendingAndRunningBuildsSince(db: Db, after: int): (r: seq<PendingRow>)
    ensures forall b ::
      b in db.builds && b.repoId in db.repos && b.created > after &&
      (b.status == "pending" || b.status == "running")
      ==> RowOf(b, db.repos) in r
    ensures forall row :: row in r ==>
      row.created > after && (row.status == "pending" || row.status == "running")
    ensures forall row :: row in r ==>
      exists b :: b in db.builds && b.repoId in db.repos &&
        Holds(PendingRunningSinceWhere(after), b, db.repos) && row == RowOf(b, db.repos)
    ensures |r| == CountWhere(db.builds, db.repos, PendingRunningSinceWhere(after))
    ensures exists rows: seq<Build> ::
      && multiset(rows) == multiset(Where(db.builds, db.repos, PendingRunningSinceWhere(after)))
      && (forall b :: b in rows ==> b.repoId in db.repos)
      && r == Project(rows, db.repos)
  {
    var rows := Where(db.builds, db.repos, PendingRunningSinceWhere(after));
    ProjectedWhere(db.builds, db.repos, PendingRunningSinceWhere(after));
    CountIsWhereSize(db.builds, db.repos, PendingRunningSinceWhere(after));
    Project(rows, db.repos)
  }

  /** The two readings of the WHERE clause disagree exactly on joined pending
      builds created at or before the bound. */
  lemma PrecedenceDifference(b: Build, repos: Repos, after: int)
    ensures Holds(PendingRunningWhere(after), b, repos) != Holds(PendingRunningSinceWhere(after), b, repos)
      <==> b.repoId in repos && b.status == "pending" && b.created <= after
  {
  }

  /** A pending build created before the bound, which the query as written
      returns and the intended query does not. */
  lemma StalePendingReturned()
    ensures SelectPendingAndRunningBuilds(
              Db([Build(1, 1, 7, "main", "push", "pending", 100)], map[7 := Repo("acme", "acme/app")]), 200)
            == [PendingRow(100, 1, "pending", "acme/app")]
    ensures SelectPendingAndRunningBuildsSince(
              Db([Build(1, 1, 7, "main", "push", "pending", 100)], map[7 := Repo("acme", "acme/app")]), 200)
            == []
  {
    var b := Build(1, 1, 7, "main", "push", "pending", 100);
    var db := Db([b], map[7 := Repo("acme", "acme/app")]);
    assert db.builds[1..] == [];
    assert Holds(PendingRunningWhere(200), b, db.repos);
    assert Where(db.builds, db.repos, PendingRunningWhere(200)) == [b];
    assert !Holds(PendingRunningSinceWhere(200), b, db.repos);
    assert Where(db.builds, db.repos, PendingRunningSinceWhere(200)) == [];
    assert Project([b], db.repos) == [RowOf(b, db.repos)];
  }
}
