/**
 * The frontier store of `db.py`: a table `frontier` keyed by URL (a priority
 * queue, lower priority first) and an append-only table `seen`. Each method of
 * `DB` is one locked SQL block, so each is one atomic step here.
 */
module FrontierStore {
  import opened Wrappers

  /** One frontier row without its key: (priority, depth, parent_url). */
  datatype Entry = Entry(priority: int, depth: int, parent: Option<string>)

  /** A row as `pop_batch` returns it: (url, priority, depth, parent_url). */
  datatype Row = Row(url: string, priority: int, depth: int, parent: Option<string>)

  function EntryOf(r: Row): Entry
  {
    Entry(r.priority, r.depth, r.parent)
  }

  function UrlsOf(rows: seq<Row>): set<string>
  {
    set r | r in rows :: r.url
  }

  /** The gate of `push_url`: a URL must be non-empty and at most 2048 characters. */
  predicate Admissible(url: string)
  {
    0 < |url| <= 2048
  }

  /**
   * `INSERT OR IGNORE` on the frontier, after the length gate: the new table
   * and whether a row was inserted.
   */
  function Push(f: map<string, Entry>, url: string, e: Entry): (map<string, Entry>, bool)
  {
    if Admissible(url) && url !in f then (f[url := e], true) else (f, false)
  }

  /**
   * Pushing `urls` one after another with the same entry: the final table and
   * the number of pushes that were refused (a duplicate or an inadmissible URL).
   */
  function PushAll(f: map<string, Entry>, urls: seq<string>, e: Entry): (map<string, Entry>, nat)
    decreases |urls|
  {
    if urls == [] then (f, 0)
    else
      var (f1, inserted) := Push(f, urls[0], e);
      var (f2, refused) := PushAll(f1, urls[1..], e);
      (f2, refused + if inserted then 0 else 1)
  }

  /** Every refused push is counted: rows added plus refusals equal the pushes made. */
  lemma {:induction false} PushAllAccounting(f: map<string, Entry>, urls: seq<string>, e: Entry)
    ensures |PushAll(f, urls, e).0| + PushAll(f, urls, e).1 == |f| + |urls|
    decreases |urls|
  {
    if urls != [] {
      var (f1, inserted) := Push(f, urls[0], e);
      if inserted {
        assert f1.Keys == f.Keys + {urls[0]};
        assert |f1| == |f| + 1;
      }
      PushAllAccounting(f1, urls[1..], e);
    }
  }

  /**
   * Pushing keeps every existing row untouched, and the new keys are exactly
   * the admissible pushed URLs that were absent, each holding the pushed entry.
   */
  lemma {:induction false} PushAllContents(f: map<string, Entry>, urls: seq<string>, e: Entry)
    ensures var g := PushAll(f, urls, e).0;
      && g.Keys == f.Keys + (set u | u in urls && Admissible(u))
      && (forall u :: u in f ==> g[u] == f[u])
      && (forall u :: u in g && u !in f ==> g[u] == e)
    decreases |urls|
  {
    if urls != [] {
      var (f1, _) := Push(f, urls[0], e);
      PushAllContents(f1, urls[1..], e);
      var rest := set u | u in urls[1..] && Admissible(u);
      var all := set u | u in urls && Admissible(u);
      assert all == rest + (if Admissible(urls[0]) then {urls[0]} else {}) by {
        forall u | u in all ensures u in rest + (if Admissible(urls[0]) then {urls[0]} else {}) {
          if u != urls[0] {
            var k :| 0 <= k < |urls| && urls[k] == u;
            assert urls[1..][k - 1] == u;
          }
        }
      }
    }
  }

  /** Rows sorted by ascending priority. */
  predicate SortedByPriority(rows: seq<Row>)
  {
    forall i, j :: 0 <= i < j < |rows| ==> rows[i].priority <= rows[j].priority
  }

  /** No URL appears twice. */
  predicate DistinctUrls(rows: seq<Row>)
  {
    forall i, j :: 0 <= i < j < |rows| ==> rows[i].url != rows[j].url
  }

  /** The number of rows `LIMIT n` lets through; SQLite reads a negative limit as "no limit". */
  function LimitCount(n: int, size: nat): nat
  {
    if n < 0 then size else Min(n, size)
  }

  /**
   * `SELECT ... ORDER BY priority ASC LIMIT n` followed by deleting the selected
   * rows: taking `f` to `f2`, returning `rows`.
   */
  ghost predicate IsPopOf(f: map<string, Entry>, n: int, rows: seq<Row>, f2: map<string, Entry>)
  {
    && |rows| == LimitCount(n, |f|)
    && (forall r :: r in rows ==> r.url in f && f[r.url] == EntryOf(r))
    && DistinctUrls(rows)
    && SortedByPriority(rows)
    && (forall r, u :: r in rows && u in f2 ==> r.priority <= f2[u].priority)
    && f2 == f - UrlsOf(rows)
  }

  /** The key of a row of least priority, in a non-empty table. */
  predicate IsLeastKey(m: map<string, Entry>, u: string)
  {
    u in m && forall k :: k in m ==> m[u].priority <= m[k].priority
  }

  /** A non-empty table has a row of least priority. */
  lemma {:induction false} LeastPriorityExists(m: map<string, Entry>)
    requires m != map[]
    ensures exists u :: IsLeastKey(m, u)
    decreases |m|
  {
    var x :| x in m;
    var rest := m - {x};
    assert rest.Keys == m.Keys - {x};
    if rest == map[] {
      assert IsLeastKey(m, x) by {
        forall k | k in m ensures k == x {
          assert k !in rest.Keys;
        }
      }
    } else {
      LeastPriorityExists(rest);
      var y :| IsLeastKey(rest, y);
      var z := if m[x].priority < m[y].priority then x else y;
      assert IsLeastKey(m, z) by {
        forall k | k in m ensures m[z].priority <= m[k].priority {
          if k != x { assert k in rest.Keys; }
        }
      }
    }
  }

  /** What the selection loop of `PopBatch` keeps: `rows` taken from `f`, `rest` still to choose from. */
  ghost predicate PopInvariant(f: map<string, Entry>, rows: seq<Row>, rest: map<string, Entry>)
  {
    && rest.Keys == f.Keys - UrlsOf(rows)
    && (forall k :: k in rest ==> rest[k] == f[k])
    && |rows| + |rest| == |f|
    && (forall r :: r in rows ==> r.url in f && f[r.url] == EntryOf(r))
    && DistinctUrls(rows)
    && SortedByPriority(rows)
    && (forall r, u :: r in rows && u in rest ==> r.priority <= rest[u].priority)
  }

  function RowAt(m: map<string, Entry>, u: string): Row
    requires u in m
  {
    Row(u, m[u].priority, m[u].depth, m[u].parent)
  }

  lemma PopStepKeys(f: map<string, Entry>, rows: seq<Row>, rest: map<string, Entry>, u: string)
    requires rest.Keys == f.Keys - UrlsOf(rows)
    requires u in rest
    ensures (rest - {u}).Keys == f.Keys - UrlsOf(rows + [RowAt(rest, u)])
    ensures |rest - {u}| == |rest| - 1
  {
    var rows2 := rows + [RowAt(rest, u)];
    assert UrlsOf(rows2) == UrlsOf(rows) + {u} by {
      assert forall r :: r in rows2 <==> r in rows || r == RowAt(rest, u);
    }
    assert (rest - {u}).Keys == rest.Keys - {u};
  }

  lemma PopStepOrder(rows: seq<Row>, rest: map<string, Entry>, u: string)
    requires DistinctUrls(rows) && SortedByPriority(rows)
    requires u in rest && u !in UrlsOf(rows)
    requires forall r, v :: r in rows && v in rest ==> r.priority <= rest[v].priority
    ensures DistinctUrls(rows + [RowAt(rest, u)])
    ensures SortedByPriority(rows + [RowAt(rest, u)])
  {
    var rows2 := rows + [RowAt(rest, u)];
    forall i, j | 0 <= i < j < |rows2| ensures rows2[i].url != rows2[j].url {
      if j == |rows| { assert rows[i] in rows; }
    }
    forall i, j | 0 <= i < j < |rows2| ensures rows2[i].priority <= rows2[j].priority {
      if j == |rows| { assert rows[i] in rows; }
    }
  }

  /** Taking a row of least priority from `rest` keeps the loop's invariant. */
  lemma PopStep(f: map<string, Entry>, rows: seq<Row>, rest: map<string, Entry>, u: string)
    requires PopInvariant(f, rows, rest)
    requires IsLeastKey(rest, u)
    ensures PopInvariant(f, rows + [RowAt(rest, u)], rest - {u})
  {
    assert u !in UrlsOf(rows);
    PopStepKeys(f, rows, rest, u);
    PopStepOrder(rows, rest, u);
  }

  /**
   * The `SELECT url,priority,depth,parent_url FROM frontier ORDER BY priority
   * ASC LIMIT n` of `pop_batch`: repeatedly takes a row of least priority.
   */
  method SelectByPriority(f: map<string, Entry>, n: int) returns (rows: seq<Row>)
    ensures |rows| == LimitCount(n, |f|)
    ensures forall r :: r in rows ==> r.url in f && f[r.url] == EntryOf(r)
    ensures DistinctUrls(rows) && SortedByPriority(rows)
    ensures forall r, u :: r in rows && u in f && u !in UrlsOf(rows) ==> r.priority <= f[u].priority
  {
    var limit := if n < 0 then |f| else n;
    var rest := f;
    rows := [];
    assert UrlsOf(rows) == {};
    while |rows| < limit && rest != map[]
      invariant |rows| <= limit
      invariant PopInvariant(f, rows, rest)
      decreases |rest|
    {
      LeastPriorityExists(rest);
      var u :| IsLeastKey(rest, u);
      PopStep(f, rows, rest, u);
      rows := rows + [RowAt(rest, u)];
      rest := rest - {u};
    }
    assert |rows| == LimitCount(n, |f|) by {
      if rest == map[] { assert |rest| == 0; }
    }
  }

  class DB {
    /** The `frontier` table: url (primary key) to (priority, depth, parent_url). */
    var frontier: map<string, Entry>
    /** The `seen` table. */
    var seen: set<string>

    /** Only URLs that passed the length gate are ever stored. */
    ghost predicate Valid()
      reads this
    {
      forall u :: u in frontier ==> Admissible(u)
    }

    /** A fresh database after `CREATE TABLE IF NOT EXISTS`. */
    constructor ()
      ensures Valid() && frontier == map[] && seen == {}
    {
      frontier := map[];
      seen := {};
    }

    /** A database reopened with tables that already hold rows. */
    constructor Reopen(f: map<string, Entry>, s: set<string>)
      requires forall u :: u in f ==> Admissible(u)
      ensures Valid() && frontier == f && seen == s
    {
      frontier := f;
      seen := s;
    }

    /** `push_url`: insert-if-absent after the length gate; true iff a row was inserted. */
    method PushUrl(url: string, priority: int, depth: int, parent: Option<string>) returns (inserted: bool)
      requires Valid()
      modifies this
      ensures Valid()
      ensures inserted <==> Admissible(url) && url !in old(frontier)
      ensures inserted ==> frontier == old(frontier)[url := Entry(priority, depth, parent)]
      ensures !inserted ==> frontier == old(frontier)
      ensures seen == old(seen)
    {
      if url == "" || |url| > 2048 {
        return false;
      }
      if url in frontier {
        inserted := false;
      } else {
        frontier := frontier[url := Entry(priority, depth, parent)];
        inserted := true;
      }
    }

    /**
     * `pop_batch`: select up to `n` rows in ascending priority (ties in any
     * order) and delete exactly those rows, in one step.
     */
    method PopBatch(n: int) returns (rows: seq<Row>)
      requires Valid()
      modifies this
      ensures Valid()
      ensures IsPopOf(old(frontier), n, rows, frontier)
      ensures seen == old(seen)
    {
      rows := SelectByPriority(frontier, n);
      frontier := frontier - UrlsOf(rows);
    }

    /** `mark_seen`: idempotent insert into `seen`; the URL is always found afterwards. */
    method MarkSeen(url: string) returns (found: bool)
      requires Valid()
      modifies this
      ensures Valid()
      ensures found
      ensures seen == old(seen) + {url}
      ensures frontier == old(frontier)
    {
      seen := seen + {url};
      found := url in seen;
    }

    /** `is_seen`: membership in `seen`, changing nothing. */
    method IsSeen(url: string) returns (b: bool)
      ensures b <==> url in seen
    {
      b := url in seen;
    }

    /** `frontier_size`: the number of pending rows. */
    method FrontierSize() returns (n: nat)
      ensures n == |frontier|
    {
      n := |frontier|;
    }
  }
}
