// The sixteen SQL text constants of database/dml/sqlite/build.go. Each text
// is held as the pieces between its placeholders, so that the placeholders
// (`?` in some templates, `$1`, `$2`, ... in others) can be counted and
// checked against the parameters each operation takes.

module Templates {

  /** SQL text split at its placeholders: literal text, a `?` placeholder,
      or a `$n` placeholder, each followed by the rest of the template. */
  datatype Template =
    | End
    | Lit(text: string, rest: Template)
    | Question(rest: Template)
    | Ordinal(n: nat, rest: Template)

  function DigitChar(d: nat): (c: char)
    requires d < 10
    ensures '0' <= c <= '9'
  {
    (('0' as int) + d) as char
  }

  /** The decimal digits of `n`. */
  function Digits(n: nat): (s: string)
    ensures |s| > 0
    ensures forall i :: 0 <= i < |s| ==> '0' <= s[i] <= '9'
  {
    if n < 10 then [DigitChar(n)] else Digits(n / 10) + [DigitChar(n % 10)]
  }

  /** The number a string of decimal digits denotes, most significant first. */
  function Value(s: string): int
  {
    if |s| == 0 then 0 else 10 * Value(s[..|s| - 1]) + (s[|s| - 1] as int - '0' as int)
  }

  /** Reading the digits of `n` back gives `n`: `$n` names parameter n. */
  lemma {:induction false} DigitsValue(n: nat)
    ensures Value(Digits(n)) == n
  {
    var d := Digits(n);
    if n >= 10 {
      DigitsValue(n / 10);
      assert d[..|d| - 1] == Digits(n / 10);
    } else {
      assert d[..|d| - 1] == [];
    }
  }

  /** The SQL text of a template, as the source's string constant holds it.
      Each placeholder leaves a `?` or `$` in the text. */
  function Render(t: Template): (text: string)
    ensures Marks(text) >= Placeholders(t)
  {
    match t
    case End => ""
    case Lit(s, r) =>
      MarksAppend(s, Render(r));
      s + Render(r)
    case Question(r) =>
      MarksAppend("?", Render(r));
      assert Marks("?") == 1;
      "?" + Render(r)
    case Ordinal(n, r) =>
      MarksAppend("$" + Digits(n), Render(r));
      MarksAppend("$", Digits(n));
      assert Marks("$") == 1;
      "$" + Digits(n) + Render(r)
  }

  /** Text that has no placeholder character in it. */
  predicate Plain(s: string)
  {
    forall i :: 0 <= i < |s| ==> s[i] != '?' && s[i] != '$'
  }

  predicate WellFormed(t: Template)
  {
    match t
    case End => true
    case Lit(s, r) => Plain(s) && WellFormed(r)
    case Question(r) => WellFormed(r)
    case Ordinal(_, r) => WellFormed(r)
  }

  /** The number of placeholders. */
  function Placeholders(t: Template): nat
  {
    match t
    case End => 0
    case Lit(_, r) => Placeholders(r)
    case Question(r) => 1 + Placeholders(r)
    case Ordinal(_, r) => 1 + Placeholders(r)
  }

  /** The number of `?` placeholders. */
  function Questions(t: Template): (n: nat)
    ensures n <= Placeholders(t)
  {
    match t
    case End => 0
    case Lit(_, r) => Questions(r)
    case Question(r) => 1 + Questions(r)
    case Ordinal(_, r) => Questions(r)
  }

  /** The numbers of the `$n` placeholders, in order of appearance. */
  function Ordinals(t: Template): (r: seq<nat>)
    ensures |r| + Questions(t) == Placeholders(t)
  {
    match t
    case End => []
    case Lit(_, r) => Ordinals(r)
    case Question(r) => Ordinals(r)
    case Ordinal(n, r) => [n] + Ordinals(r)
  }

  /** The number of placeholder characters (`?` or `$`) in a text. */
  function Marks(s: string): (n: nat)
    ensures n <= |s|
  {
    if |s| == 0 then 0 else (if s[0] == '?' || s[0] == '$' then 1 else 0) + Marks(s[1..])
  }

  lemma {:induction false} MarksAppend(a: string, b: string)
    ensures Marks(a + b) == Marks(a) + Marks(b)
  {
    if |a| == 0 {
      assert a + b == b;
    } else {
      assert (a + b)[1..] == a[1..] + b;
      MarksAppend(a[1..], b);
    }
  }

  lemma {:induction false} PlainHasNoMarks(s: string)
    requires Plain(s)
    ensures Marks(s) == 0
  {
    if |s| > 0 {
      assert forall i :: 0 <= i < |s| - 1 ==> s[1..][i] == s[i + 1];
      PlainHasNoMarks(s[1..]);
    }
  }

  /** Counting placeholder characters in the rendered SQL text finds exactly
      the template's placeholders, when its literal pieces hold none. */
  lemma {:induction false} MarksOfRender(t: Template)
    requires WellFormed(t)
    ensures Marks(Render(t)) == Placeholders(t)
  {
    match t
    case End =>
    case Lit(s, r) =>
      MarksOfRender(r);
      MarksAppend(s, Render(r));
      PlainHasNoMarks(s);
    case Question(r) =>
      MarksOfRender(r);
      MarksAppend("?", Render(r));
      assert Marks("?") == 1;
    case Ordinal(n, r) =>
      MarksOfRender(r);
      var d := Digits(n);
      PlainHasNoMarks(d);
      MarksAppend("$" + d, Render(r));
      MarksAppend("$", d);
      assert Marks("$") == 1;
  }

  /** The placeholder convention a template is written in. */
  datatype Style = NoParams | QuestionStyle | OrdinalStyle | MixedStyle

  function StyleOf(t: Template): (s: Style)
    ensures s == NoParams <==> Placeholders(t) == 0
    ensures s == QuestionStyle ==> Questions(t) == Placeholders(t) > 0
    ensures s == OrdinalStyle ==> Questions(t) == 0 && |Ordinals(t)| == Placeholders(t) > 0
  {
    var q, o := Questions(t), |Ordinals(t)|;
    if q == 0 && o == 0 then NoParams
    else if o == 0 then QuestionStyle
    else if q == 0 then OrdinalStyle
    else MixedStyle
  }

  /** `$1`, `$2`, ..., `$n` in this order. */
  predicate Numbered(ords: seq<nat>)
  {
    forall i :: 0 <= i < |ords| ==> ords[i] == i + 1
  }

  /** The number of arguments a driver binds to a template: one per `?`,
      and for `$n` the largest n. In SQLite `$1` is a named parameter that
      takes its index from its first appearance; when the `$n` appear as
      1, 2, ... in order (`Numbered`), that index is n and the two readings
      agree. */
  function Arity(t: Template): nat
  {
    match StyleOf(t)
    case OrdinalStyle => MaxOf(Ordinals(t))
    case _ => Placeholders(t)
  }

  function MaxOf(s: seq<nat>): (m: nat)
    ensures forall i :: 0 <= i < |s| ==> s[i] <= m
    ensures |s| == 0 ==> m == 0
    ensures |s| > 0 ==> m in s
  {
    if |s| == 0 then 0 else var m := MaxOf(s[1..]); if s[0] >= m then s[0] else m
  }

  /** In a numbered sequence the largest number is its length. */
  lemma {:induction false} NumberedMax(s: seq<nat>)
    requires Numbered(s)
    ensures MaxOf(s) == |s|
  {
    NumberedMaxShift(s, 1);
  }

  /** MaxOf a run k, k + 1, ..., k + |s| - 1 is its last element. */
  lemma {:induction false} NumberedMaxShift(s: seq<nat>, k: nat)
    requires forall i :: 0 <= i < |s| ==> s[i] == i + k
    ensures |s| > 0 ==> MaxOf(s) == |s| + k - 1
  {
    if |s| > 1 {
      var tail := s[1..];
      assert forall i :: 0 <= i < |tail| ==> tail[i] == i + (k + 1);
      NumberedMaxShift(tail, k + 1);
    }
  }

  /** A well-numbered template binds as many arguments as it has placeholders. */
  lemma ArityIsPlaceholders(t: Template)
    requires StyleOf(t) != MixedStyle
    requires StyleOf(t) == OrdinalStyle ==> Numbered(Ordinals(t))
    ensures Arity(t) == Placeholders(t)
  {
    if StyleOf(t) == OrdinalStyle {
      NumberedMax(Ordinals(t));
    }
  }

  // ---------------------------------------------------------------------
  // The constants

  /** The template constants, by their names in the source. */
  datatype Query =
    | ListBuilds
    | ListRepoBuilds
    | ListRepoBuildsByEvent
    | SelectRepoBuild
    | SelectLastRepoBuild
    | SelectLastRepoBuildByBranch
    | ListOrgBuilds
    | ListOrgBuildsByEvent
    | SelectBuildsCount
    | SelectOrgBuildCount
    | SelectOrgBuildCountByEvent
    | SelectRepoBuildCount
    | SelectRepoBuildCountByEvent
    | SelectBuildsCountByStatus
    | DeleteBuild
    | SelectPendingAndRunningBuilds

  const LIST_BUILDS: Template :=
      Lit("\nSELECT *\nFROM builds;\n", End)

  const LIST_REPO_BUILDS: Template :=
      Lit("\nSELECT *\nFROM builds\nWHERE repo_id = ", Question(
      Lit("\nORDER BY id DESC\nLIMIT ", Question(
      Lit("\nOFFSET ", Question(
      Lit(";\n", End)))))))

  const LIST_REPO_BUILDS_BY_EVENT: Template :=
      Lit("\nSELECT *\nFROM builds\nWHERE repo_id = ", Question(
      Lit("\nAND event = ", Question(
      Lit("\nORDER BY number DESC\nLIMIT ", Question(
      Lit("\nOFFSET ", Question(
      Lit(";\n", End)))))))))

  const SELECT_REPO_BUILD: Template :=
      Lit("\nSELECT *\nFROM builds\nWHERE repo_id = ", Question(
      Lit("\nAND number = ", Question(
      Lit("\nLIMIT 1;\n", End)))))

  const SELECT_LAST_REPO_BUILD: Template :=
      Lit("\nSELECT *\nFROM builds\nWHERE repo_id = ", Question(
      Lit("\nORDER BY number DESC\nLIMIT 1;\n", End)))

  const SELECT_LAST_REPO_BUILD_BY_BRANCH: Template :=
      Lit("\nSELECT *\nFROM builds\nWHERE repo_id = ", Question(
      Lit("\nAND branch = ", Question(
      Lit("\nORDER BY number DESC\nLIMIT 1;\n", End)))))

  const LIST_ORG_BUILDS: Template :=
      Lit("\nSELECT builds.*\nFROM builds JOIN repos\nON repos.id=builds.repo_id\nWHERE repos.org = ", Ordinal(1,
      Lit("\nORDER BY id DESC\nLIMIT ", Ordinal(2,
      Lit("\nOFFSET ", Ordinal(3,
      Lit(";\n\t\t", End)))))))

  const LIST_ORG_BUILDS_BY_EVENT: Template :=
      Lit("\nSELECT builds.*\nFROM builds JOIN repos\nON repos.id=builds.repo_id\nWHERE repos.org = ", Ordinal(1,
      Lit("\nAND builds.event = ", Ordinal(2,
      Lit("\nORDER BY id DESC\nLIMIT ", Ordinal(3,
      Lit("\nOFFSET ", Ordinal(4,
      Lit(";\n", End)))))))))

  const SELECT_BUILDS_COUNT: Template :=
      Lit("\nSELECT count(*) as count\nFROM builds;\n", End)

  const SELECT_ORG_BUILD_COUNT: Template :=
      Lit("\nSELECT count(*) as count\nFROM builds JOIN repos\nON repos.id = builds.repo_id\nWHERE repos.org = ", Ordinal(1,
      Lit(";\n", End)))

  const SELECT_ORG_BUILD_COUNT_BY_EVENT: Template :=
      Lit("\nSELECT count(*) as count\nFROM builds JOIN repos\nON repos.id = builds.repo_id\nWHERE repos.org = ", Ordinal(1,
      Lit("\nAND event = ", Ordinal(2,
      Lit(";\n", End)))))

  const SELECT_REPO_BUILD_COUNT: Template :=
      Lit("\nSELECT count(*) as count\nFROM builds\nWHERE repo_id = ", Question(
      Lit(";\n", End)))

  const SELECT_REPO_BUILD_COUNT_BY_EVENT: Template :=
      Lit("\nSELECT count(*) as count\nFROM builds\nWHERE repo_id = ", Question(
      Lit("\nAND event = ", Question(
      Lit(";\n", End)))))

  const SELECT_BUILDS_COUNT_BY_STATUS: Template :=
      Lit("\nSELECT count(*) as count\nFROM builds\nWHERE status = ", Question(
      Lit(";\n", End)))

  const DELETE_BUILD: Template :=
      Lit("\nDELETE\nFROM builds\nWHERE id = ", Question(
      Lit(";\n", End)))

  const SELECT_PENDING_AND_RUNNING_BUILDS: Template :=
      Lit("\nSELECT builds.created, builds.number, builds.status, repos.full_name\nFROM builds INNER JOIN repos ON (builds.repo_id = repos.id)\nWHERE builds.created > ", Ordinal(1,
      Lit("\nAND builds.status = 'running' or builds.status = 'pending';\n", End)))

  /** The constant of each query. No template mixes the two placeholder
      conventions, and each has one placeholder per parameter of its
      operation. */
  function Sql(q: Query): (t: Template)
    ensures Fits(t, |Params(q)|, UsesOrdinals(q))
  {
    match q
    case ListBuilds => ListBuildsFits(); LIST_BUILDS
    case ListRepoBuilds => ListRepoBuildsFits(); LIST_REPO_BUILDS
    case ListRepoBuildsByEvent => ListRepoBuildsByEventFits(); LIST_REPO_BUILDS_BY_EVENT
    case SelectRepoBuild => SelectRepoBuildFits(); SELECT_REPO_BUILD
    case SelectLastRepoBuild => SelectLastRepoBuildFits(); SELECT_LAST_REPO_BUILD
    case SelectLastRepoBuildByBranch => SelectLastRepoBuildByBranchFits(); SELECT_LAST_REPO_BUILD_BY_BRANCH
    case ListOrgBuilds => ListOrgBuildsFits(); LIST_ORG_BUILDS
    case ListOrgBuildsByEvent => ListOrgBuildsByEventFits(); LIST_ORG_BUILDS_BY_EVENT
    case SelectBuildsCount => SelectBuildsCountFits(); SELECT_BUILDS_COUNT
    case SelectOrgBuildCount => SelectOrgBuildCountFits(); SELECT_ORG_BUILD_COUNT
    case SelectOrgBuildCountByEvent => SelectOrgBuildCountByEventFits(); SELECT_ORG_BUILD_COUNT_BY_EVENT
    case SelectRepoBuildCount => SelectRepoBuildCountFits(); SELECT_REPO_BUILD_COUNT
    case SelectRepoBuildCountByEvent => SelectRepoBuildCountByEventFits(); SELECT_REPO_BUILD_COUNT_BY_EVENT
    case SelectBuildsCountByStatus => SelectBuildsCountByStatusFits(); SELECT_BUILDS_COUNT_BY_STATUS
    case DeleteBuild => DeleteBuildFits(); DELETE_BUILD
    case SelectPendingAndRunningBuilds => SelectPendingAndRunningBuildsFits(); SELECT_PENDING_AND_RUNNING_BUILDS
  }

  /** A value an operation is called with. */
  datatype Param = RepoId | Number | Branch | Event | Status | Org | Limit | Offset | BuildId | CreatedAfter

  /** The arguments each operation takes, in binding order. A paged list
      takes a limit and an offset, always as its last two arguments. */
  function Params(q: Query): (p: seq<Param>)
    ensures Limit in p <==> Offset in p
    ensures Offset in p ==> |p| >= 2 && p[|p| - 2..] == [Limit, Offset]
    ensures Offset in p ==> Limit !in p[..|p| - 2] && Offset !in p[..|p| - 2]
  {
    match q
    case ListBuilds => []
    case ListRepoBuilds => [RepoId, Limit, Offset]
    case ListRepoBuildsByEvent => [RepoId, Event, Limit, Offset]
    case SelectRepoBuild => [RepoId, Number]
    case SelectLastRepoBuild => [RepoId]
    case SelectLastRepoBuildByBranch => [RepoId, Branch]
    case ListOrgBuilds => [Org, Limit, Offset]
    case ListOrgBuildsByEvent => [Org, Event, Limit, Offset]
    case SelectBuildsCount => []
    case SelectOrgBuildCount => [Org]
    case SelectOrgBuildCountByEvent => [Org, Event]
    case SelectRepoBuildCount => [RepoId]
    case SelectRepoBuildCountByEvent => [RepoId, Event]
    case SelectBuildsCountByStatus => [Status]
    case DeleteBuild => [BuildId]
    case SelectPendingAndRunningBuilds => [CreatedAfter]
  }

  /** The templates written with `$n` placeholders; the others with
      parameters use `?`. */
  predicate UsesOrdinals(q: Query)
  {
    q in {ListOrgBuilds, ListOrgBuildsByEvent, SelectOrgBuildCount,
          SelectOrgBuildCountByEvent, SelectPendingAndRunningBuilds}
  }

  // What each constant binds: its number of `?` and its `$n` in order.

  lemma ListBuildsBinds()
    ensures Questions(LIST_BUILDS) == 0 && Ordinals(LIST_BUILDS) == []
  {
  }

  lemma ListRepoBuildsBinds()
    ensures Questions(LIST_REPO_BUILDS) == 3 && Ordinals(LIST_REPO_BUILDS) == []
  {
  }

  lemma ListRepoBuildsByEventBinds()
    ensures Questions(LIST_REPO_BUILDS_BY_EVENT) == 4 && Ordinals(LIST_REPO_BUILDS_BY_EVENT) == []
  {
  }

  lemma SelectRepoBuildBinds()
    ensures Questions(SELECT_REPO_BUILD) == 2 && Ordinals(SELECT_REPO_BUILD) == []
  {
  }

  lemma SelectLastRepoBuildBinds()
    ensures Questions(SELECT_LAST_REPO_BUILD) == 1 && Ordinals(SELECT_LAST_REPO_BUILD) == []
  {
  }

  lemma SelectLastRepoBuildByBranchBinds()
    ensures Questions(SELECT_LAST_REPO_BUILD_BY_BRANCH) == 2 && Ordinals(SELECT_LAST_REPO_BUILD_BY_BRANCH) == []
  {
  }

  lemma ListOrgBuildsBinds()
    ensures Questions(LIST_ORG_BUILDS) == 0 && Ordinals(LIST_ORG_BUILDS) == [1, 2, 3]
  {
  }

  lemma ListOrgBuildsByEventBinds()
    ensures Questions(LIST_ORG_BUILDS_BY_EVENT) == 0 && Ordinals(LIST_ORG_BUILDS_BY_EVENT) == [1, 2, 3, 4]
  {
  }

  lemma SelectBuildsCountBinds()
    ensures Questions(SELECT_BUILDS_COUNT) == 0 && Ordinals(SELECT_BUILDS_COUNT) == []
  {
  }

  lemma SelectOrgBuildCountBinds()
    ensures Questions(SELECT_ORG_BUILD_COUNT) == 0 && Ordinals(SELECT_ORG_BUILD_COUNT) == [1]
  {
  }

  lemma SelectOrgBuildCountByEventBinds()
    ensures Questions(SELECT_ORG_BUILD_COUNT_BY_EVENT) == 0 && Ordinals(SELECT_ORG_BUILD_COUNT_BY_EVENT) == [1, 2]
  {
  }

  lemma SelectRepoBuildCountBinds()
    ensures Questions(SELECT_REPO_BUILD_COUNT) == 1 && Ordinals(SELECT_REPO_BUILD_COUNT) == []
  {
  }

  lemma SelectRepoBuildCountByEventBinds()
    ensures Questions(SELECT_REPO_BUILD_COUNT_BY_EVENT) == 2 && Ordinals(SELECT_REPO_BUILD_COUNT_BY_EVENT) == []
  {
  }

  lemma SelectBuildsCountByStatusBinds()
    ensures Questions(SELECT_BUILDS_COUNT_BY_STATUS) == 1 && Ordinals(SELECT_BUILDS_COUNT_BY_STATUS) == []
  {
  }

  lemma DeleteBuildBinds()
    ensures Questions(DELETE_BUILD) == 1 && Ordinals(DELETE_BUILD) == []
  {
  }

  lemma SelectPendingAndRunningBuildsBinds()
    ensures Questions(SELECT_PENDING_AND_RUNNING_BUILDS) == 0 && Ordinals(SELECT_PENDING_AND_RUNNING_BUILDS) == [1]
  {
  }

  /** How a template's placeholders fit the parameters of its operation:
      the org-scoped and pending/running templates use `$1, $2, ...` in
      order, the others with parameters use `?`, and there is one
      placeholder per parameter. */
  function Expected(arity: nat, ordinal: bool): Style
  {
    if arity == 0 then NoParams else if ordinal then OrdinalStyle else QuestionStyle
  }

  ghost predicate Fits(t: Template, arity: nat, ordinal: bool)
  {
    && Placeholders(t) == arity
    && StyleOf(t) == Expected(arity, ordinal)
    && (ordinal ==> Numbered(Ordinals(t)))
  }

  /** What the counts alone say about how a template fits its parameters. */
  lemma FitsFromCounts(t: Template, qs: nat, ords: seq<nat>, arity: nat, ordinal: bool)
    requires Questions(t) == qs && Ordinals(t) == ords
    requires qs + |ords| == arity
    requires ordinal ==> qs == 0 && Numbered(ords)
    requires !ordinal ==> ords == []
    ensures Fits(t, arity, ordinal)
  {
  }

  lemma ListBuildsFits()
    ensures Fits(LIST_BUILDS, 0, false)
  {
    ListBuildsBinds();
    FitsFromCounts(LIST_BUILDS, 0, [], 0, false);
  }

  lemma ListRepoBuildsFits()
    ensures Fits(LIST_REPO_BUILDS, 3, false)
  {
    ListRepoBuildsBinds();
    FitsFromCounts(LIST_REPO_BUILDS, 3, [], 3, false);
  }

  lemma ListRepoBuildsByEventFits()
    ensures Fits(LIST_REPO_BUILDS_BY_EVENT, 4, false)
  {
    ListRepoBuildsByEventBinds();
    FitsFromCounts(LIST_REPO_BUILDS_BY_EVENT, 4, [], 4, false);
  }

  lemma SelectRepoBuildFits()
    ensures Fits(SELECT_REPO_BUILD, 2, false)
  {
    SelectRepoBuildBinds();
    FitsFromCounts(SELECT_REPO_BUILD, 2, [], 2, false);
  }

  lemma SelectLastRepoBuildFits()
    ensures Fits(SELECT_LAST_REPO_BUILD, 1, false)
  {
    SelectLastRepoBuildBinds();
    FitsFromCounts(SELECT_LAST_REPO_BUILD, 1, [], 1, false);
  }

  lemma SelectLastRepoBuildByBranchFits()
    ensures Fits(SELECT_LAST_REPO_BUILD_BY_BRANCH, 2, false)
  {
    SelectLastRepoBuildByBranchBinds();
    FitsFromCounts(SELECT_LAST_REPO_BUILD_BY_BRANCH, 2, [], 2, false);
  }

  lemma ListOrgBuildsFits()
    ensures Fits(LIST_ORG_BUILDS, 3, true)
  {
    ListOrgBuildsBinds();
    FitsFromCounts(LIST_ORG_BUILDS, 0, [1, 2, 3], 3, true);
  }

  lemma ListOrgBuildsByEventFits()
    ensures Fits(LIST_ORG_BUILDS_BY_EVENT, 4, true)
  {
    ListOrgBuildsByEventBinds();
    FitsFromCounts(LIST_ORG_BUILDS_BY_EVENT, 0, [1, 2, 3, 4], 4, true);
  }

  lemma SelectBuildsCountFits()
    ensures Fits(SELECT_BUILDS_COUNT, 0, false)
  {
    SelectBuildsCountBinds();
    FitsFromCounts(SELECT_BUILDS_COUNT, 0, [], 0, false);
  }

  lemma SelectOrgBuildCountFits()
    ensures Fits(SELECT_ORG_BUILD_COUNT, 1, true)
  {
    SelectOrgBuildCountBinds();
    FitsFromCounts(SELECT_ORG_BUILD_COUNT, 0, [1], 1, true);
  }

  lemma SelectOrgBuildCountByEventFits()
    ensures Fits(SELECT_ORG_BUILD_COUNT_BY_EVENT, 2, true)
  {
    SelectOrgBuildCountByEventBinds();
    FitsFromCounts(SELECT_ORG_BUILD_COUNT_BY_EVENT, 0, [1, 2], 2, true);
  }

  lemma SelectRepoBuildCountFits()
    ensures Fits(SELECT_REPO_BUILD_COUNT, 1, false)
  {
    SelectRepoBuildCountBinds();
    FitsFromCounts(SELECT_REPO_BUILD_COUNT, 1, [], 1, false);
  }

  lemma SelectRepoBuildCountByEventFits()
    ensures Fits(SELECT_REPO_BUILD_COUNT_BY_EVENT, 2, false)
  {
    SelectRepoBuildCountByEventBinds();
    FitsFromCounts(SELECT_REPO_BUILD_COUNT_BY_EVENT, 2, [], 2, false);
  }

  lemma SelectBuildsCountByStatusFits()
    ensures Fits(SELECT_BUILDS_COUNT_BY_STATUS, 1, false)
  {
    SelectBuildsCountByStatusBinds();
    FitsFromCounts(SELECT_BUILDS_COUNT_BY_STATUS, 1, [], 1, false);
  }

  lemma DeleteBuildFits()
    ensures Fits(DELETE_BUILD, 1, false)
  {
    DeleteBuildBinds();
    FitsFromCounts(DELETE_BUILD, 1, [], 1, false);
  }

  lemma SelectPendingAndRunningBuildsFits()
    ensures Fits(SELECT_PENDING_AND_RUNNING_BUILDS, 1, true)
  {
    SelectPendingAndRunningBuildsBinds();
    FitsFromCounts(SELECT_PENDING_AND_RUNNING_BUILDS, 0, [1], 1, true);
  }

  lemma ArityMatchesParams(q: Query)
    ensures Arity(Sql(q)) == |Params(q)|
  {
    ArityIsPlaceholders(Sql(q));
  }

  /** Every template renders to non-empty SQL text. */
  lemma RenderNonEmpty(q: Query)
    ensures |Render(Sql(q))| > 0
  {
    var t := Sql(q);
    assert t.Lit? && |t.text| > 0;
  }
}
