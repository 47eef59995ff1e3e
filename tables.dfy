// The in-memory database the build queries are read against: the rows of
// the builds and repos tables, WHERE conditions over a build row, and the
// three relational steps the queries are built from (filter, ORDER BY ...
// DESC, LIMIT/OFFSET).

module Tables {

  datatype Option<T> = None | Some(value: T)

  /** One row of the builds table, restricted to the columns the queries name.
      `created` is a Unix timestamp, compared as an integer. */
  datatype Build = Build(
    id: int,
    number: int,
    repoId: int,
    branch: string,
    event: string,
    status: string,
    created: int)

  /** One row of the repos table, without its id: the repos table is a map
      from repos.id, its primary key. */
  datatype Repo = Repo(org: string, fullName: string)

  type Repos = map<int, Repo>

  /** The two tables the queries read. */
  datatype Db = Db(builds: seq<Build>, repos: Repos)

  /** A WHERE (or JOIN ... ON) condition over one build row. Conditions on
      repos columns look the row's repo up through builds.repo_id. */
  datatype Cond =
    | RepoIdIs(repoId: int)        // builds.repo_id = ?
    | NumberIs(number: int)        // builds.number = ?
    | BranchIs(branch: string)     // builds.branch = ?
    | EventIs(event: string)       // builds.event = ?
    | StatusIs(status: string)     // builds.status = ?
    | IdIs(id: int)                // builds.id = ?
    | CreatedAfter(time: int)      // builds.created > ?
    | HasRepo                      // JOIN repos ON repos.id = builds.repo_id
    | OrgIs(org: string)           // repos.org = ?
    | And(left: Cond, right: Cond)
    | Or(left: Cond, right: Cond)
    | Not(cond: Cond)

  /** Whether a build row satisfies a condition. A condition on a repos
      column never holds for a build the inner join drops. */
  predicate Holds(c: Cond, b: Build, repos: Repos)
    ensures c.OrgIs? && Holds(c, b, repos) ==> b.repoId in repos
  {
    match c
    case RepoIdIs(r) => b.repoId == r
    case NumberIs(n) => b.number == n
    case BranchIs(br) => b.branch == br
    case EventIs(e) => b.event == e
    case StatusIs(s) => b.status == s
    case IdIs(i) => b.id == i
    case CreatedAfter(t) => b.created > t
    case HasRepo => b.repoId in repos
    case OrgIs(o) => b.repoId in repos && repos[b.repoId].org == o
    case And(l, r) => Holds(l, b, repos) && Holds(r, b, repos)
    case Or(l, r) => Holds(l, b, repos) || Holds(r, b, repos)
    case Not(d) => !Holds(d, b, repos)
  }

  /** The rows of `t` that satisfy `c`, in table order. */
  function Where(t: seq<Build>, repos: Repos, c: Cond): (r: seq<Build>)
    ensures |r| <= |t|
    ensures forall b :: b in r <==> b in t && Holds(c, b, repos)
  {
    if |t| == 0 then []
    else (if Holds(c, t[0], repos) then [t[0]] else []) + Where(t[1..], repos, c)
  }

  /** count(*) of the rows of `t` that satisfy `c`. */
  function CountWhere(t: seq<Build>, repos: Repos, c: Cond): (n: nat)
    ensures n <= |t|
    ensures n == 0 <==> forall b :: b in t ==> !Holds(c, b, repos)
  {
    if |t| == 0 then 0
    else
      assert forall b :: b in t <==> b == t[0] || b in t[1..];
      (if Holds(c, t[0], repos) then 1 else 0) + CountWhere(t[1..], repos, c)
  }

  /** The count aggregate counts exactly the rows the filter keeps. */
  lemma {:induction false} CountIsWhereSize(t: seq<Build>, repos: Repos, c: Cond)
    ensures CountWhere(t, repos, c) == |Where(t, repos, c)|
  {
    if |t| > 0 {
      CountIsWhereSize(t[1..], repos, c);
    }
  }

  /** Adding a conjunct to a WHERE clause never increases the count. */
  lemma {:induction false} CountAndBounded(t: seq<Build>, repos: Repos, c: Cond, d: Cond)
    ensures CountWhere(t, repos, And(c, d)) <= CountWhere(t, repos, c)
    ensures CountWhere(t, repos, And(c, d)) <= CountWhere(t, repos, d)
  {
    if |t| > 0 {
      CountAndBounded(t[1..], repos, c, d);
    }
  }

  /** A condition implied by another, on every row, counts at least as many rows. */
  lemma {:induction false} CountImplies(t: seq<Build>, repos: Repos, c: Cond, d: Cond)
    requires forall b :: b in t && Holds(c, b, repos) ==> Holds(d, b, repos)
    ensures CountWhere(t, repos, c) <= CountWhere(t, repos, d)
  {
    if |t| > 0 {
      assert forall b :: b in t[1..] ==> b in t;
      CountImplies(t[1..], repos, c, d);
    }
  }

  /** Every row is either counted by `c` or kept by `NOT c`. */
  lemma {:induction false} CountSplit(t: seq<Build>, repos: Repos, c: Cond)
    ensures CountWhere(t, repos, c) + |Where(t, repos, Not(c))| == |t|
  {
    if |t| > 0 {
      CountSplit(t[1..], repos, c);
    }
  }

  /** When no two rows share an id, at most one row has a given id. */
  lemma {:induction false} CountUniqueKey(t: seq<Build>, repos: Repos, id: int)
    requires forall i, j :: 0 <= i < |t| && 0 <= j < |t| && t[i].id == t[j].id ==> i == j
    ensures CountWhere(t, repos, IdIs(id)) <= 1
  {
    if |t| > 0 {
      var tail := t[1..];
      assert forall i :: 0 <= i < |tail| ==> tail[i] == t[i + 1];
      if t[0].id == id {
        assert forall b :: b in tail ==> b.id != id;
      } else {
        CountUniqueKey(tail, repos, id);
      }
    }
  }

  /** Filtering commutes with concatenation: rows keep their relative order. */
  lemma {:induction false} WhereAppend(a: seq<Build>, b: seq<Build>, repos: Repos, c: Cond)
    ensures Where(a + b, repos, c) == Where(a, repos, c) + Where(b, repos, c)
  {
    if |a| == 0 {
      assert a + b == b;
    } else {
      assert (a + b)[1..] == a[1..] + b;
      WhereAppend(a[1..], b, repos, c);
    }
  }

  /** Filtering rows that all satisfy `c` keeps them all. */
  lemma {:induction false} WhereAll(t: seq<Build>, repos: Repos, c: Cond)
    requires forall i :: 0 <= i < |t| ==> Holds(c, t[i], repos)
    ensures Where(t, repos, c) == t
  {
    if |t| > 0 {
      var tail := t[1..];
      assert forall i :: 0 <= i < |tail| ==> Holds(c, tail[i], repos) by {
        forall i | 0 <= i < |tail| ensures Holds(c, tail[i], repos) {
          assert tail[i] == t[i + 1];
        }
      }
      WhereAll(tail, repos, c);
      assert Holds(c, t[0], repos);
      assert Where(t, repos, c) == [t[0]] + Where(tail, repos, c);
      assert t == [t[0]] + tail;
    }
  }

  /** Filtering a second time by `d` is filtering once by `c AND d`. */
  lemma {:induction false} WhereWhere(t: seq<Build>, repos: Repos, c: Cond, d: Cond)
    ensures Where(Where(t, repos, c), repos, d) == Where(t, repos, And(c, d))
  {
    if |t| > 0 {
      var rest := Where(t[1..], repos, c);
      var head := if Holds(c, t[0], repos) then [t[0]] else [];
      WhereAppend(head, rest, repos, d);
      WhereWhere(t[1..], repos, c, d);
    }
  }

  /** The column an ORDER BY ... DESC sorts on. */
  datatype OrderKey = ById | ByNumber

  function KeyOf(b: Build, k: OrderKey): int
  {
    match k
    case ById => b.id
    case ByNumber => b.number
  }

  predicate SortedDesc(s: seq<Build>, k: OrderKey)
  {
    forall i, j :: 0 <= i < j < |s| ==> KeyOf(s[i], k) >= KeyOf(s[j], k)
  }

  /** Inserts `b` before the first row whose key is not larger than its own. */
  function Insert(b: Build, s: seq<Build>, k: OrderKey): (r: seq<Build>)
    requires SortedDesc(s, k)
    ensures SortedDesc(r, k)
    ensures multiset(r) == multiset(s) + multiset{b}
  {
    if |s| == 0 then [b]
    else if KeyOf(b, k) >= KeyOf(s[0], k) then [b] + s
    else
      var rest := Insert(b, s[1..], k);
      assert s == [s[0]] + s[1..];
      SortedHeadIsMax(s, k);
      assert forall x :: x in rest ==> x == b || x in s[1..] by {
        forall x | x in rest ensures x == b || x in s[1..] {
          assert x in multiset(rest);
        }
      }
      SortedCons(s[0], rest, k);
      [s[0]] + rest
  }

  /** A row no smaller than every row of a sorted sequence may go in front of it. */
  lemma SortedCons(x: Build, s: seq<Build>, k: OrderKey)
    requires SortedDesc(s, k)
    requires forall y :: y in s ==> KeyOf(y, k) <= KeyOf(x, k)
    ensures SortedDesc([x] + s, k)
  {
    forall i, j | 0 <= i < j < |[x] + s|
      ensures KeyOf(([x] + s)[i], k) >= KeyOf(([x] + s)[j], k)
    {
      assert ([x] + s)[j] == s[j - 1];
      if i > 0 {
        assert ([x] + s)[i] == s[i - 1];
      }
    }
  }

  /** ORDER BY k DESC: a permutation of `s` in non-increasing key order. Rows
      with equal keys keep their table order. */
  function SortDesc(s: seq<Build>, k: OrderKey): (r: seq<Build>)
    ensures SortedDesc(r, k)
    ensures multiset(r) == multiset(s)
  {
    if |s| == 0 then []
    else
      assert s == [s[0]] + s[1..];
      Insert(s[0], SortDesc(s[1..], k), k)
  }

  /** SELECT ... WHERE c ORDER BY k DESC: the matching rows, largest key first. */
  function OrderedWhere(t: seq<Build>, repos: Repos, c: Cond, k: OrderKey): (r: seq<Build>)
    ensures SortedDesc(r, k)
    ensures multiset(r) == multiset(Where(t, repos, c))
    ensures forall b :: b in r <==> b in t && Holds(c, b, repos)
    ensures |r| == CountWhere(t, repos, c)
  {
    var w := Where(t, repos, c);
    var r := SortDesc(w, k);
    CountIsWhereSize(t, repos, c);
    assert forall b :: b in r <==> b in multiset(r);
    assert forall b :: b in w <==> b in multiset(w);
    r
  }

  /** The first row of a sorted sequence has the largest key. */
  lemma SortedHeadIsMax(s: seq<Build>, k: OrderKey)
    requires SortedDesc(s, k) && |s| > 0
    ensures forall b :: b in s ==> KeyOf(b, k) <= KeyOf(s[0], k)
  {
    forall b | b in s ensures KeyOf(b, k) <= KeyOf(s[0], k) {
      var j :| 0 <= j < |s| && s[j] == b;
      if j > 0 {
        assert KeyOf(s[0], k) >= KeyOf(s[j], k);
      }
    }
  }

  function Min(a: int, b: int): int { if a <= b then a else b }

  function Max(a: int, b: int): int { if a >= b then a else b }

  /** LIMIT limit OFFSET offset: skip `offset` rows, then keep at most `limit`. */
  function Window<T>(s: seq<T>, limit: nat, offset: nat): (r: seq<T>)
    ensures |r| == Max(0, Min(limit, |s| - offset))
    ensures forall i :: 0 <= i < |r| ==> r[i] == s[offset + i]
  {
    if offset >= |s| then [] else s[offset..Min(offset + limit, |s|)]
  }

  /** The first row, if any (LIMIT 1). */
  function First<T>(s: seq<T>): (r: Option<T>)
    ensures r.None? <==> |s| == 0
    ensures r.Some? ==> r.value == s[0]
  {
    if |s| == 0 then None else Some(s[0])
  }

  /** The pages at offsets offset, offset + limit, offset + 2 * limit, ...,
      up to the first offset at or past the end, concatenated. */
  function Pages<T>(s: seq<T>, limit: nat, offset: nat): seq<T>
    requires limit > 0
    decreases |s| - offset
  {
    if offset >= |s| then [] else Window(s, limit, offset) + Pages(s, limit, offset + limit)
  }

  /** Consecutive pages cover the rows from `offset` on, with no gap and no
      repetition. */
  lemma {:induction false} PagesCover<T>(s: seq<T>, limit: nat, offset: nat)
    requires limit > 0
    ensures Pages(s, limit, offset) == s[Min(offset, |s|)..]
    decreases |s| - offset
  {
    if offset < |s| {
      var m := Min(offset + limit, |s|);
      PagesCover(s, limit, offset + limit);
      assert Pages(s, limit, offset + limit) == s[m..];
      assert Window(s, limit, offset) == s[offset..m];
      assert s[offset..] == s[offset..m] + s[m..];
    }
  }

  /** A window that starts at 0 and is at least as long as the input is the
      whole input. */
  lemma WindowAll<T>(s: seq<T>, limit: nat)
    requires limit >= |s|
    ensures Window(s, limit, 0) == s
  {
  }
}
