// The registry that database/dml/sqlite/build.go builds from its query
// constants: a List map and a Select map from names to templates, and the
// one Delete template.

module BuildService {
  import opened Templates

  /** The query registry of the builds table. The maps name templates by
      their constant; `Lookup` yields the SQL text. */
  datatype Service = Service(list: map<string, Query>, select: map<string, Query>, delete: Query)

  const LIST_KEYS: set<string> := {"all", "repo", "repoByEvent", "org", "orgByEvent"}

  const SELECT_KEYS: set<string> :=
    {"repo", "last", "lastByBranch", "count", "countByStatus", "countByRepo",
     "countByRepoAndEvent", "countByOrg", "countByOrgAndEvent", "pendingAndRunning"}

  /** What running a template gives back. */
  datatype Shape = Rows | OneRow | Count | Affected

  function ShapeOf(q: Query): Shape
  {
    match q
    case ListBuilds | ListRepoBuilds | ListRepoBuildsByEvent
      | ListOrgBuilds | ListOrgBuildsByEvent | SelectPendingAndRunningBuilds => Rows
    case SelectRepoBuild | SelectLastRepoBuild | SelectLastRepoBuildByBranch => OneRow
    case SelectBuildsCount | SelectOrgBuildCount | SelectOrgBuildCountByEvent
      | SelectRepoBuildCount | SelectRepoBuildCountByEvent | SelectBuildsCountByStatus => Count
    case DeleteBuild => Affected
  }

  /** The templates a service publishes, from all three places. */
  function Published(s: Service): set<Query>
  {
    s.list.Values + s.select.Values + {s.delete}
  }

  /** No template is published twice: no two keys of one map share a
      template, no template is in both maps, and the delete template is in
      neither. */
  ghost predicate Once(s: Service)
  {
    && (forall a, b :: a in s.list && b in s.list && s.list[a] == s.list[b] ==> a == b)
    && (forall a, b :: a in s.select && b in s.select && s.select[a] == s.select[b] ==> a == b)
    && s.list.Values !! s.select.Values
    && s.delete !in s.list.Values + s.select.Values
  }

  function CreateBuildService(): (s: Service)
    ensures s.list.Keys == LIST_KEYS && s.select.Keys == SELECT_KEYS
    ensures s.delete == DeleteBuild
  {
    Service(
      map[
        "all" := ListBuilds,
        "repo" := ListRepoBuilds,
        "repoByEvent" := ListRepoBuildsByEvent,
        "org" := ListOrgBuilds,
        "orgByEvent" := ListOrgBuildsByEvent],
      map[
        "repo" := SelectRepoBuild,
        "last" := SelectLastRepoBuild,
        "lastByBranch" := SelectLastRepoBuildByBranch,
        "count" := SelectBuildsCount,
        "countByStatus" := SelectBuildsCountByStatus,
        "countByRepo" := SelectRepoBuildCount,
        "countByRepoAndEvent" := SelectRepoBuildCountByEvent,
        "countByOrg" := SelectOrgBuildCount,
        "countByOrgAndEvent" := SelectOrgBuildCountByEvent,
        "pendingAndRunning" := SelectPendingAndRunningBuilds],
      DeleteBuild)
  }

  /** Where the literal text after a template's first `?` sits in its SQL. */
  lemma TextAfterFirstQuestion(t: Template)
    requires t.Lit? && t.rest.Question? && t.rest.rest.Lit? && |t.rest.rest.text| > 1
    ensures |Render(t)| > |t.text| + 2
    ensures Render(t)[|t.text| + 2] == t.rest.rest.text[1]
  {
    var u := t.rest.rest;
    assert Render(t) == t.text + Render(t.rest);
    assert Render(t.rest) == "?" + Render(u);
    assert Render(u) == u.text + Render(u.rest);
    assert Render(t)[|t.text| + 2] == Render(u)[1];
  }

  /** The list and the single-row template for a repo differ in their SQL
      text right after the repo_id placeholder. */
  lemma RepoTextsDiffer()
    ensures Render(LIST_REPO_BUILDS) != Render(SELECT_REPO_BUILD)
  {
    TextAfterFirstQuestion(LIST_REPO_BUILDS);
    TextAfterFirstQuestion(SELECT_REPO_BUILD);
    assert LIST_REPO_BUILDS.rest.rest.text[1] == 'O' && SELECT_REPO_BUILD.rest.rest.text[1] == 'A';
  }

  /** The key `repo` reads different SQL texts from the two maps. */
  lemma RepoKeyDiffers()
    ensures var s := CreateBuildService(); Lookup(s.list, "repo") != Lookup(s.select, "repo")
  {
    var s := CreateBuildService();
    assert s.list["repo"] == ListRepoBuilds && s.select["repo"] == SelectRepoBuild;
    RepoLookupsDiffer(s.list, s.select, "repo");
  }

  lemma RepoLookupsDiffer(list: map<string, Query>, select: map<string, Query>, key: string)
    requires key in list && list[key] == ListRepoBuilds
    requires key in select && select[key] == SelectRepoBuild
    ensures Lookup(list, key) != Lookup(select, key)
  {
    RepoTextsDiffer();
  }

  /** The List map holds only templates that return rows. */
  lemma ListShapes()
    ensures var s := CreateBuildService(); forall k :: k in s.list ==> ShapeOf(s.list[k]) == Rows
  {
  }

  /** The Select map holds single-row and count templates, and the
      pending/running query, which returns rows; the delete template
      reports affected rows. */
  lemma SelectShapes()
    ensures var s := CreateBuildService();
      forall k :: k in s.select ==> ShapeOf(s.select[k]) in {OneRow, Count} || k == "pendingAndRunning"
    ensures ShapeOf(CreateBuildService().delete) == Affected
  {
  }

  const LIST_TEMPLATES: set<Query> :=
    {ListBuilds, ListRepoBuilds, ListRepoBuildsByEvent, ListOrgBuilds, ListOrgBuildsByEvent}

  const SELECT_TEMPLATES: set<Query> :=
    {SelectRepoBuild, SelectLastRepoBuild, SelectLastRepoBuildByBranch, SelectBuildsCount,
     SelectBuildsCountByStatus, SelectRepoBuildCount, SelectRepoBuildCountByEvent,
     SelectOrgBuildCount, SelectOrgBuildCountByEvent, SelectPendingAndRunningBuilds}

  lemma ListValues()
    ensures CreateBuildService().list.Values == LIST_TEMPLATES
  {
    var m := CreateBuildService().list;
    assert m["all"] == ListBuilds && m["repo"] == ListRepoBuilds;
    assert m["repoByEvent"] == ListRepoBuildsByEvent;
    assert m["org"] == ListOrgBuilds && m["orgByEvent"] == ListOrgBuildsByEvent;
  }

  lemma SelectValuesWithin()
    ensures forall k :: k in CreateBuildService().select ==> CreateBuildService().select[k] in SELECT_TEMPLATES
  {
  }

  lemma SelectValuesCover()
    ensures forall q :: q in SELECT_TEMPLATES ==> q in CreateBuildService().select.Values
  {
    var m := CreateBuildService().select;
    assert m["repo"] == SelectRepoBuild && m["last"] == SelectLastRepoBuild;
    assert m["lastByBranch"] == SelectLastRepoBuildByBranch;
    assert m["count"] == SelectBuildsCount;
    assert m["countByStatus"] == SelectBuildsCountByStatus;
    assert m["countByRepo"] == SelectRepoBuildCount;
    assert m["countByRepoAndEvent"] == SelectRepoBuildCountByEvent;
    assert m["countByOrg"] == SelectOrgBuildCount;
    assert m["countByOrgAndEvent"] == SelectOrgBuildCountByEvent;
    assert m["pendingAndRunning"] == SelectPendingAndRunningBuilds;
  }

  lemma SelectValues()
    ensures CreateBuildService().select.Values == SELECT_TEMPLATES
  {
    SelectValuesWithin();
    SelectValuesCover();
  }

  /** The key under which a template is published; the delete template
      has none. */
  function PublishedKey(q: Query): string
  {
    match q
    case ListBuilds => "all"
    case ListRepoBuilds => "repo"
    case ListRepoBuildsByEvent => "repoByEvent"
    case ListOrgBuilds => "org"
    case ListOrgBuildsByEvent => "orgByEvent"
    case SelectRepoBuild => "repo"
    case SelectLastRepoBuild => "last"
    case SelectLastRepoBuildByBranch => "lastByBranch"
    case SelectBuildsCount => "count"
    case SelectBuildsCountByStatus => "countByStatus"
    case SelectRepoBuildCount => "countByRepo"
    case SelectRepoBuildCountByEvent => "countByRepoAndEvent"
    case SelectOrgBuildCount => "countByOrg"
    case SelectOrgBuildCountByEvent => "countByOrgAndEvent"
    case SelectPendingAndRunningBuilds => "pendingAndRunning"
    case DeleteBuild => ""
  }

  /** Each key of either map names the template published under that key. */
  lemma KeysNameTheirTemplates()
    ensures var s := CreateBuildService(); forall k :: k in s.list ==> PublishedKey(s.list[k]) == k
    ensures var s := CreateBuildService(); forall k :: k in s.select ==> PublishedKey(s.select[k]) == k
  {
  }

  /** Every one of the sixteen templates is published. */
  lemma EveryTemplatePublished(q: Query)
    ensures q in Published(CreateBuildService())
  {
    ListValues();
    SelectValues();
  }

  /** No two keys of the List map share a template, and likewise for
      Select. */
  lemma KeysDistinct()
    ensures var m := CreateBuildService().list;
      forall a, b :: a in m && b in m && m[a] == m[b] ==> a == b
    ensures var m := CreateBuildService().select;
      forall a, b :: a in m && b in m && m[a] == m[b] ==> a == b
  {
    KeysNameTheirTemplates();
  }

  /** The List and Select templates are two disjoint sets, neither holding
      the delete template. */
  lemma ValuesDisjoint(list: map<string, Query>, select: map<string, Query>)
    requires list.Values == LIST_TEMPLATES && select.Values == SELECT_TEMPLATES
    ensures list.Values !! select.Values
    ensures DeleteBuild !in list.Values + select.Values
  {
  }

  /** No template is published twice. */
  lemma NoTemplateTwice()
    ensures Once(CreateBuildService())
  {
    var s := CreateBuildService();
    KeysDistinct();
    ListValues();
    SelectValues();
    ValuesDisjoint(s.list, s.select);
  }

  /** A Go map read: the template's SQL text, or "" when the key is absent.
      A published text has a placeholder character for each parameter of its
      operation. */
  function Lookup(m: map<string, Query>, key: string): (text: string)
    ensures |text| > 0 <==> key in m
    ensures key in m ==> Marks(text) >= |Params(m[key])|
  {
    if key in m then
      RenderNonEmpty(m[key]);
      Render(Sql(m[key]))
    else ""
  }
}
