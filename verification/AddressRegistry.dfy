/** The filter over the user_wallet addresses (internal/bloom/registry.go) and the table
    pages it is fed from (internal/store/store.go): what a sync leaves covered, also
    while the api process goes on writing the table. */
module AddressRegistry {
  import opened Wrappers
  import opened Bloom

  /** Milliseconds by which every updated_at window is widened. */
  const UPDATE_SKEW: int := 60_000
  const DEFAULT_BATCH: nat := 5000
  const MAX_ID: nat := 0x7fff_ffff_ffff_ffff

  /** A user_wallet row as the filter reads it. */
  datatype Row = Row(id: nat, address: string, updatedAt: int)

  predicate ById(rows: seq<Row>)
  {
    && (forall i :: 0 <= i < |rows| ==> 0 < rows[i].id <= MAX_ID)
    && (forall i, j :: 0 <= i < j < |rows| ==> rows[i].id < rows[j].id)
  }

  /** The rows after an id, by ascending id, cut off at the limit. */
  ghost predicate IsPage(rows: seq<Row>, after: nat, limit: nat, page: seq<Row>)
  {
    && |page| <= limit && ById(page)
    && (forall r :: r in page ==> r in rows && r.id > after)
    && (forall r :: r in rows && r.id > after ==>
          r in page || (|page| == limit > 0 && r.id > page[|page| - 1].id))
  }

  /** Rows touched since an instant: all of them unless the limit cuts them off. */
  ghost predicate IsUpdated(rows: seq<Row>, since: int, limit: nat, page: seq<Row>)
  {
    && |page| <= limit
    && (forall r :: r in page ==> r in rows && r.updatedAt >= since)
    && (|page| < limit ==> forall r :: r in rows && r.updatedAt >= since ==> r in page)
  }

  /** The rows among the first n that qualify, in order. */
  ghost predicate Gathered(rows: seq<Row>, n: nat, after: nat, page: seq<Row>)
    requires n <= |rows|
  {
    && ById(page)
    && (forall r :: r in page ==> r in rows[..n] && r.id > after)
    && (forall i :: 0 <= i < n && rows[i].id > after ==> rows[i] in page)
  }

  lemma {:induction false} GatherOne(rows: seq<Row>, n: nat, after: nat, page: seq<Row>)
    requires ById(rows) && n < |rows| && Gathered(rows, n, after, page)
    ensures Gathered(rows, n + 1, after, if rows[n].id > after then page + [rows[n]] else page)
  {
    assert rows[..n + 1] == rows[..n] + [rows[n]];
    forall j | 0 <= j < |page| ensures page[j].id < rows[n].id {
      assert page[j] in rows[..n];
    }
  }

  lemma GatherNone(rows: seq<Row>, after: nat)
    ensures Gathered(rows, 0, after, [])
  {
  }

  lemma {:induction false} GatheredPage(rows: seq<Row>, n: nat, after: nat, limit: nat, page: seq<Row>)
    requires ById(rows) && n <= |rows| && Gathered(rows, n, after, page) && |page| <= limit && (n == |rows| || |page| == limit)
    requires limit > 0
    ensures IsPage(rows, after, limit, page)
  {
    forall r | r in rows && r.id > after ensures r in page || (|page| == limit && r.id > page[|page| - 1].id) {
      var i :| 0 <= i < |rows| && rows[i] == r;
      if i >= n {
        assert page[|page| - 1] in rows[..n];
      }
    }
  }

  method Anything() returns (rows: seq<Row>)
  {
    rows := *;
  }

  // ----------------------------------------------------------------- the table

  /** user_wallet. quiet says that nobody writes it; otherwise every write stamps its
      row with a clock that lags by at most `lag`. */
  class Table {
    const quiet: bool
    const lag: nat
    var rows: seq<Row>
    var now: int

    constructor (quiet: bool, lag: nat, rows: seq<Row>, now: int)
      requires ById(rows)
      ensures this.quiet == quiet && this.lag == lag && this.rows == rows && this.now == now && Valid()
    {
      this.quiet, this.lag, this.rows, this.now := quiet, lag, rows, now;
    }

    ghost predicate Valid()
      reads this
    {
      ById(rows)
    }

    predicate Written(was: seq<Row>, rows': seq<Row>, at: int)
    {
      ById(rows') && forall i :: 0 <= i < |rows'| ==> rows'[i] in was || rows'[i].updatedAt >= at - lag
    }

    /** Time passes, and rows are inserted, changed or deleted. */
    method Others()
      requires Valid()
      modifies this`rows, this`now
      ensures Valid() && now >= old(now)
      ensures quiet ==> rows == old(rows)
      ensures forall r :: r in rows ==> r in old(rows) || (!quiet && r.updatedAt >= old(now) - lag)
    {
      var rows' := Anything();
      if !quiet && Written(rows, rows', now) {
        rows := rows';
      }
      var later: int := *;
      if later > now {
        now := later;
      }
    }

    method After(after: nat, limit: nat) returns (ok: bool, page: seq<Row>)
      requires Valid() && limit > 0
      modifies this`rows, this`now
      ensures Valid() && now >= old(now) && (quiet ==> rows == old(rows))
      ensures forall r :: r in rows ==> r in old(rows) || (!quiet && r.updatedAt >= old(now) - lag)
      ensures ok ==> IsPage(rows, after, limit, page)
    {
      hide Gathered, IsPage, ById;
      Others();
      ok, page := true, [];
      if * {
        return false, [];
      }
      var table := rows;
      var i := 0;
      ghost var read := now;
      GatherNone(table, after);
      while i < |table| && |page| < limit
        invariant rows == table && now == read
        invariant 0 <= i <= |table| && |page| <= limit && Gathered(table, i, after, page)
      {
        GatherOne(table, i, after, page);
        if table[i].id > after {
          page := page + [table[i]];
        }
        i := i + 1;
      }
      GatheredPage(table, i, after, limit, page);
    }

    method UpdatedSince(since: int, limit: nat) returns (ok: bool, page: seq<Row>)
      requires Valid()
      modifies this`rows, this`now
      ensures Valid() && now >= old(now) && (quiet ==> rows == old(rows))
      ensures forall r :: r in rows ==> r in old(rows) || (!quiet && r.updatedAt >= old(now) - lag)
      ensures ok ==> IsUpdated(rows, since, limit, page)
    {
      Others();
      ok, page := true, [];
      if * {
        return false, [];
      }
      var table := rows;
      var i := 0;
      while i < |table| && |page| < limit
        invariant 0 <= i <= |table| && |page| <= limit
        invariant forall r :: r in page ==> r in table && r.updatedAt >= since
        invariant forall j :: 0 <= j < i && table[j].updatedAt >= since ==> table[j] in page
      {
        if table[i].updatedAt >= since {
          page := page + [table[i]];
        }
        i := i + 1;
      }
    }
  }

  // ------------------------------------------------------------- what is covered

  /** The filter answers true for the row's address; an empty one is never asked for. */
  predicate Covered(keys: set<string>, r: Row)
  {
    r.address == "" || r.address in keys
  }

  /** Rows that cannot have appeared after an instant, writers' clocks considered. */
  predicate Settled(t: Table, startedAt: int, r: Row)
  {
    t.quiet || r.updatedAt < startedAt - t.lag
  }

  /** Rows within the window the next sync will read again. */
  predicate Recent(syncedAt: Option<int>, r: Row)
  {
    syncedAt.Some? && r.updatedAt >= syncedAt.value - UPDATE_SKEW
  }

  ghost predicate AllCovered(keys: set<string>, rows: seq<Row>)
  {
    forall r :: r in rows ==> Covered(keys, r)
  }

  /** What an incremental sync can rely on: a row not covered is found by its id or by
      its stamp. */
  ghost predicate Reachable(keys: set<string>, rows: seq<Row>, maxId: nat, syncedAt: Option<int>)
  {
    forall r :: r in rows ==> Covered(keys, r) || r.id > maxId || Recent(syncedAt, r)
  }

  function Max(a: nat, b: nat): (m: nat)
  {
    if a > b then a else b
  }

  function Addresses(page: seq<Row>): (out: set<string>)
  {
    set r | r in page && r.address != "" :: r.address
  }

  lemma AddressesSnoc(page: seq<Row>, i: nat)
    requires i < |page|
    ensures Addresses(page[..i + 1]) == Addresses(page[..i]) + if page[i].address == "" then {} else {page[i].address}
  {
    assert page[..i + 1] == page[..i] + [page[i]];
  }

  lemma AddressesCover(page: seq<Row>, keys: set<string>)
    requires Addresses(page) <= keys
    ensures AllCovered(keys, page)
  {
    forall r | r in page ensures Covered(keys, r) {
      assert r.address != "" ==> r.address in Addresses(page);
    }
  }

  /** The rows of a page go into the filter. */
  method AddRows(filter: BloomFilter, page: seq<Row>, start: nat) returns (maxId: nat)
    requires filter.Valid() && ById(page)
    modifies filter`count, filter`keys, filter.bits
    ensures filter.Valid() && filter.keys == old(filter.keys) + Addresses(page) && AllCovered(filter.keys, page)
    ensures maxId == if page == [] then start else Max(start, page[|page| - 1].id)
  {
    hide Addresses;
    maxId := start;
    var i := 0;
    NoAddresses();
    while i < |page|
      invariant 0 <= i <= |page| && filter.Valid() && filter.keys == old(filter.keys) + Addresses(page[..i])
      invariant maxId == if i == 0 then start else Max(start, page[i - 1].id)
    {
      AddressesSnoc(page, i);
      filter.Add(page[i].address);
      if page[i].id > maxId {
        maxId := page[i].id;
      }
      i := i + 1;
    }
    assert page[..i] == page;
    AddressesCover(page, filter.keys);
  }

  lemma NoAddresses()
    ensures forall page: seq<Row> :: Addresses(page[..0]) == {}
  {
  }

  // ------------------------------------------------------------- a load as a whole

  /** The table as one query of a load saw it, and the page it returned. */
  datatype Read = Read(rows: seq<Row>, page: seq<Row>)

  /** The id a load continues after, k pages in. */
  function LastId(run: seq<Read>, k: nat): (id: nat)
    requires k <= |run|
  {
    if k == 0 then 0
    else if run[k - 1].page == [] then LastId(run, k - 1)
    else Max(LastId(run, k - 1), run[k - 1].page[|run[k - 1].page| - 1].id)
  }

  function Loaded(run: seq<Read>): (keys: set<string>)
  {
    if run == [] then {} else Loaded(run[..|run| - 1]) + Addresses(run[|run| - 1].page)
  }

  ghost predicate PageAt(run: seq<Read>, limit: nat, k: nat)
    requires k < |run|
  {
    ById(run[k].rows) && IsPage(run[k].rows, LastId(run, k), limit, run[k].page)
  }

  ghost predicate Pages(run: seq<Read>, limit: nat)
  {
    forall k :: 0 <= k < |run| ==> PageAt(run, limit, k)
  }

  /** A load that came to its end: only its last page is not full. */
  ghost predicate IsLoad(run: seq<Read>, limit: nat)
  {
    && limit > 0 && |run| > 0 && Pages(run, limit)
    && (forall k :: 0 <= k < |run| ==> (|run[k].page| < limit <==> k == |run| - 1))
  }

  lemma {:induction false} LastIdPrefix(run: seq<Read>, more: seq<Read>, k: nat)
    requires k <= |run|
    ensures LastId(run + more, k) == LastId(run, k)
    decreases k
  {
    if k > 0 { LastIdPrefix(run, more, k - 1); }
  }

  lemma {:induction false} LastIdGrows(run: seq<Read>, j: nat, k: nat)
    requires j <= k <= |run|
    ensures LastId(run, j) <= LastId(run, k)
    decreases k
  {
    if j < k { LastIdGrows(run, j, k - 1); }
  }

  lemma LastIdSnoc(run: seq<Read>, read: Read)
    ensures LastId(run + [read], |run| + 1) ==
            if read.page == [] then LastId(run, |run|) else Max(LastId(run, |run|), read.page[|read.page| - 1].id)
  {
    LastIdPrefix(run, [read], |run|);
  }

  lemma LoadedSnoc(run: seq<Read>, read: Read)
    ensures Loaded(run + [read]) == Loaded(run) + Addresses(read.page)
  {
    hide Addresses;
    assert (run + [read])[..|run|] == run;
  }

  /** One more page. */
  lemma {:induction false} PagesSnoc(run: seq<Read>, limit: nat, read: Read)
    requires Pages(run, limit) && ById(read.rows) && IsPage(read.rows, LastId(run, |run|), limit, read.page)
    ensures Pages(run + [read], limit)
  {
    hide ById, IsPage, LastId;
    forall k | 0 <= k < |run + [read]| ensures PageAt(run + [read], limit, k) {
      LastIdPrefix(run, [read], k);
      assert k < |run| ==> PageAt(run, limit, k) && (run + [read])[k] == run[k];
    }
  }

  /** Every key of a load is the address of a row of some page, and the other way
      round. */
  lemma {:induction false} LoadedIff(run: seq<Read>, address: string)
    ensures address in Loaded(run) <==> exists k, r :: 0 <= k < |run| && r in run[k].page && r.address == address != ""
  {
    hide Addresses;
    if run != [] {
      var init, last := run[..|run| - 1], run[|run| - 1];
      LoadedIff(init, address);
      AddressesIff(last.page, address);
      if address in Loaded(init) {
        var k, r :| 0 <= k < |init| && r in init[k].page && r.address == address != "";
        assert r in run[k].page;
      }
      if k, r :| 0 <= k < |run| && r in run[k].page && r.address == address != "" {
        assert k < |init| ==> r in init[k].page;
      }
    }
  }

  lemma AddressesIff(page: seq<Row>, address: string)
    ensures address in Addresses(page) <==> exists r :: r in page && r.address == address != ""
  {
  }

  /** A row whose turn it is is on the page, if the query saw it. */
  lemma {:induction false} OnPage(run: seq<Read>, limit: nat, r: Row, k: nat)
    requires IsLoad(run, limit) && k < |run| && LastId(run, k) < r.id && r in run[k].rows
    requires k + 1 < |run| ==> r.id <= LastId(run, k + 1)
    ensures r in run[k].page
  {
    hide ById;
    assert PageAt(run, limit, k);
    assert run[k].page != [] ==> run[k].page[|run[k].page| - 1] in run[k].page;
  }

  /** A row that is there whenever its turn may come is on some page. */
  lemma {:induction false} OnSomePage(run: seq<Read>, limit: nat, r: Row, m: nat)
    requires IsLoad(run, limit) && m <= |run| && r.id > 0 && (m < |run| ==> r.id <= LastId(run, m))
    requires forall k :: 0 <= k < m && LastId(run, k) < r.id ==> r in run[k].rows
    ensures exists k :: 0 <= k < m && r in run[k].page
    decreases m
  {
    hide IsLoad;
    if m > 0 {
      if r.id <= LastId(run, m - 1) {
        OnSomePage(run, limit, r, m - 1);
      } else {
        OnPage(run, limit, r, m - 1);
      }
    } else {
      LoadNotEmpty(run, limit);
    }
  }

  lemma LoadNotEmpty(run: seq<Read>, limit: nat)
    requires IsLoad(run, limit)
    ensures |run| > 0 && LastId(run, 0) == 0
  {
  }

  /** The load of a table in which row i was rewritten after j pages, which it was on. */
  ghost predicate Rewritten(run: seq<Read>, rows: seq<Row>, i: nat, address: string, at: int, j: nat)
  {
    && i < |rows| && ById(rows) && j <= |run| && rows[i].id <= LastId(run, j)
    && (forall k :: 0 <= k < j ==> run[k].rows == rows)
    && (forall k :: j <= k < |run| ==> run[k].rows == rows[i := Row(rows[i].id, address, at)])
  }

  /** The load then has exactly the addresses from before. */
  lemma {:induction false} RewrittenKeys(run: seq<Read>, limit: nat, rows: seq<Row>, i: nat, address: string, at: int, j: nat, key: string)
    requires IsLoad(run, limit) && Rewritten(run, rows, i, address, at, j)
    ensures key in Loaded(run) <==> key != "" && exists q :: q in rows && q.address == key
  {
    hide Loaded, Addresses;
    LoadedIff(run, key);
    if q :| q in rows && q.address == key && key != "" {
      PagedOnce(run, limit, rows, i, address, at, j, q);
      var k :| 0 <= k < |run| && q in run[k].page;
    }
    if k, r :| 0 <= k < |run| && r in run[k].page && r.address == key != "" {
      FromBefore(run, limit, rows, i, address, at, j, k, r);
    }
  }

  lemma {:induction false} PagedOnce(run: seq<Read>, limit: nat, rows: seq<Row>, i: nat, address: string, at: int, j: nat, q: Row)
    requires IsLoad(run, limit) && Rewritten(run, rows, i, address, at, j) && q in rows
    ensures exists k :: 0 <= k < |run| && q in run[k].page
  {
    hide IsLoad;
    var rows' := rows[i := Row(rows[i].id, address, at)];
    var n :| 0 <= n < |rows| && rows[n] == q;
    assert n != i ==> rows'[n] == q;
    forall k | 0 <= k < |run| && LastId(run, k) < q.id ensures q in run[k].rows {
      if k >= j { LastIdGrows(run, j, k); }
    }
    OnSomePage(run, limit, q, |run|);
  }

  lemma {:induction false} FromBefore(run: seq<Read>, limit: nat, rows: seq<Row>, i: nat, address: string, at: int, j: nat, k: nat, r: Row)
    requires IsLoad(run, limit) && Rewritten(run, rows, i, address, at, j) && k < |run| && r in run[k].page
    ensures r in rows
  {
    assert PageAt(run, limit, k);
    if k >= j {
      LastIdGrows(run, j, k);
      var rows' := rows[i := Row(rows[i].id, address, at)];
      var n :| 0 <= n < |rows'| && rows'[n] == r;
      assert n != i;
      assert rows[n] == r;
    }
  }

  /** A row rewritten during a rebuild, on a page already read, is out of reach of every
      later sync exactly when the rebuild ends more than the window after the change
      and the new address was on no row of the table before. */
  lemma {:induction false} RebuildLosesIff(run: seq<Read>, limit: nat, rows: seq<Row>, i: nat, address: string, at: int, j: nat, endedAt: int)
    requires IsLoad(run, limit) && Rewritten(run, rows, i, address, at, j)
    ensures var rows' := rows[i := Row(rows[i].id, address, at)];
      !Reachable(Loaded(run), rows', LastId(run, |run|), Some(endedAt)) <==>
      endedAt - at > UPDATE_SKEW && address != "" && forall q :: q in rows ==> q.address != address
  {
    hide IsLoad, Loaded, ById;
    var rows', keys := rows[i := Row(rows[i].id, address, at)], Loaded(run);
    RewrittenKeys(run, limit, rows, i, address, at, j, address);
    LastIdGrows(run, j, |run|);
    forall r | r in rows' && r != rows'[i] ensures Covered(keys, r) {
      RewrittenKeys(run, limit, rows, i, address, at, j, r.address);
    }
    assert rows'[i] in rows';
  }

  /** It happens: two rows, one to a page, and the first is rewritten between its page
      and the next. */
  lemma {:induction false} RebuildLoses()
    ensures exists run: seq<Read>, rows: seq<Row>, i: nat, address: string, at: int, j: nat ::
              IsLoad(run, 1) && Rewritten(run, rows, i, address, at, j)
              && !Reachable(Loaded(run), rows[i := Row(rows[i].id, address, at)], LastId(run, |run|), Some(at + UPDATE_SKEW + 1))
  {
    hide IsLoad, Loaded, Reachable, Rewritten, LastId;
    var rows := [Row(1, "a", 0), Row(2, "b", 0)];
    var run := SampleRun(rows);
    assert "a"[0] != "x"[0] && "b"[0] != "x"[0];
    RebuildLosesIff(run, 1, rows, 0, "x", 5, 1, 5 + UPDATE_SKEW + 1);
  }

  lemma {:induction false} SampleRun(rows: seq<Row>) returns (run: seq<Read>)
    requires rows == [Row(1, "a", 0), Row(2, "b", 0)]
    ensures IsLoad(run, 1) && Rewritten(run, rows, 0, "x", 5, 1)
  {
    hide IsPage;
    var rows' := [Row(1, "x", 5), Row(2, "b", 0)];
    run := [Read(rows, [rows[0]]), Read(rows', [rows'[1]]), Read(rows', [])];
    FirstAfter(rows, 0, 0);
    FirstAfter(rows', 1, 1);
    NoneAfter(rows', 2);
    assert LastId(run, 1) == 1 && LastId(run, 2) == 2;
    forall k | 0 <= k < |run| ensures PageAt(run, 1, k) {
      assert k == 0 || k == 1 || k == 2;
    }
  }

  lemma FirstAfter(rows: seq<Row>, after: nat, k: nat)
    requires ById(rows) && k < |rows| && rows[k].id > after && forall i :: 0 <= i < k ==> rows[i].id <= after
    ensures IsPage(rows, after, 1, [rows[k]])
  {
  }

  lemma NoneAfter(rows: seq<Row>, after: nat)
    requires forall r :: r in rows ==> r.id <= after
    ensures IsPage(rows, after, 1, [])
  {
  }

  class Registry {
    const table: Table
    const pageSize: int
    const sizing: nat -> (nat, nat)
    var filter: BloomFilter
    var maxId: nat
    var syncedAt: Option<int>

    /** A registry over an empty filter, as GetNew leaves it. */
    constructor (table: Table, pageSize: int, sizing: nat -> (nat, nat), expected: nat)
      requires table.Valid() && forall n :: sizing(n).0 > 0 && sizing(n).1 >= 1
      ensures Valid() && this.table == table && fresh(filter) && fresh(filter.bits) && filter.keys == {} && Reaching()
      ensures maxId == 0 && syncedAt == None && this.sizing == sizing && this.pageSize == pageSize
    {
      this.table, this.pageSize, this.sizing := table, pageSize, sizing;
      filter := new BloomFilter(expected, sizing(expected).0, sizing(expected).1);
      maxId, syncedAt := 0, None;
      new;
      NothingLoaded(table.rows);
    }

    ghost predicate Valid()
      reads this, filter, filter.bits, table
    {
      && filter.Valid() && table.Valid() && (syncedAt.Some? ==> syncedAt.value <= table.now)
      && forall n :: sizing(n).0 > 0 && sizing(n).1 >= 1
    }

    /** Nothing is out of reach of the next sync. */
    ghost predicate Reaching()
      reads this, filter, table
    {
      Reachable(filter.keys, table.rows, maxId, syncedAt)
    }

    function Batch(): (r: nat)
    {
      if pageSize <= 0 then DEFAULT_BATCH else pageSize
    }

    /** An address just allocated. */
    method Add(address: string)
      requires Valid()
      modifies filter`count, filter`keys, filter.bits
      ensures Valid() && filter.keys == (if address == "" then old(filter.keys) else old(filter.keys) + {address})
      ensures old(Reaching()) ==> Reaching()
    {
      filter.Add(address);
    }

    method MayContain(address: string) returns (r: bool)
      requires Valid()
      ensures address in filter.keys ==> r
    {
      r := filter.MayContain(address);
    }

    /** The whole table into a filter, page by page: every row that was there when the
        load started is covered. Ids are bounded, so the pages end. `run` are the
        pages, with the table as each query saw it. */
    method Load(into: BloomFilter, ghost startedAt: int) returns (ok: bool, maxId: nat, ghost run: seq<Read>)
      requires into.Valid() && table.Valid() && startedAt <= table.now
      modifies into`count, into`keys, into.bits, table`rows, table`now
      ensures into.Valid() && table.Valid() && old(into.keys) <= into.keys && table.now >= old(table.now)
      ensures table.quiet ==> table.rows == old(table.rows)
      ensures ok ==> forall r :: r in table.rows && Settled(table, startedAt, r) ==> Covered(into.keys, r)
      ensures forall r :: r in table.rows && Settled(table, startedAt, r) ==> r in old(table.rows)
      ensures ok ==> IsLoad(run, Batch()) && run[|run| - 1].rows == table.rows
      ensures ok ==> into.keys == old(into.keys) + Loaded(run) && maxId == LastId(run, |run|)
    {
      hide ById, IsPage, Pages, Addresses;
      ok, maxId, run := false, 0, [];
      PositiveIds(table.rows);
      NoPages(Batch());
      while true
        invariant into.Valid() && table.Valid() && old(into.keys) <= into.keys && table.now >= old(table.now)
        invariant maxId <= MAX_ID && (table.quiet ==> table.rows == old(table.rows))
        invariant forall r :: r in table.rows && Settled(table, startedAt, r) ==> r in old(table.rows)
        invariant forall r :: r in table.rows && Settled(table, startedAt, r) && r.id <= maxId ==> Covered(into.keys, r)
        invariant Pages(run, Batch()) && forall k :: 0 <= k < |run| ==> |run[k].page| == Batch()
        invariant into.keys == old(into.keys) + Loaded(run) && maxId == LastId(run, |run|)
        decreases MAX_ID - maxId
      {
        var read, page := table.After(maxId, Batch());
        if !read {
          return;
        }
        PageById(table.rows, maxId, Batch(), page);
        PagesSnoc(run, Batch(), Read(table.rows, page));
        LastIdSnoc(run, Read(table.rows, page));
        LoadedSnoc(run, Read(table.rows, page));
        run := run + [Read(table.rows, page)];
        ghost var keys0, after := into.keys, maxId;
        maxId := AddRows(into, page, maxId);
        PageAdvances(table.rows, after, Batch(), page, keys0, into.keys);
        if |page| < Batch() {
          ok := true;
          return;
        }
      }
    }

    /** The rows inserted since, by id. */
    method SyncPages(ghost startedAt: int) returns (ok: bool)
      requires Valid() && startedAt == table.now
      modifies this`maxId, filter`count, filter`keys, filter.bits, table`rows, table`now
      ensures Valid() && old(filter.keys) <= filter.keys && table.now >= old(table.now)
      ensures table.quiet ==> table.rows == old(table.rows)
      ensures old(Reaching()) ==>
                forall r :: r in table.rows && Settled(table, startedAt, r) && r.id <= maxId ==> Covered(filter.keys, r) || Recent(syncedAt, r)
      ensures ok && old(Reaching()) ==>
                forall r :: r in table.rows && Settled(table, startedAt, r) ==> Covered(filter.keys, r) || Recent(syncedAt, r)
    {
      hide ById, IsPage, Recent;
      ok := false;
      while true
        invariant Valid() && old(filter.keys) <= filter.keys && table.now >= old(table.now)
        invariant unchanged(`filter, `syncedAt)
        invariant table.quiet ==> table.rows == old(table.rows)
        invariant old(Reaching()) ==> forall r :: r in table.rows && Settled(table, startedAt, r) ==>
                    Covered(filter.keys, r) || r.id > maxId || Recent(syncedAt, r)
        decreases MAX_ID - maxId
      {
        var read, page := table.After(maxId, Batch());
        if !read {
          return;
        }
        if page == [] {
          ShortPage(table.rows, maxId, Batch(), page, filter.keys);
          ok := true;
          return;
        }
        PageById(table.rows, maxId, Batch(), page);
        ghost var keys0, after := filter.keys, maxId;
        maxId := AddRows(filter, page, maxId);
        PageAdvances(table.rows, after, Batch(), page, keys0, filter.keys);
        if |page| < Batch() {
          ok := true;
          return;
        }
      }
    }

    /** The rows changed since the previous sync, or the whole table if they fill a
        page. `paged` says that what is not found by its stamp was found by its id. */
    method SyncUpdated(startedAt: int, ghost paged: bool) returns (ok: bool)
      requires Valid() && startedAt <= table.now
      requires paged ==> forall r :: r in table.rows && Settled(table, startedAt, r) ==> Covered(filter.keys, r) || Recent(syncedAt, r)
      modifies this`syncedAt, filter`count, filter`keys, filter.bits, table`rows, table`now
      ensures Valid() && old(filter.keys) <= filter.keys && table.now >= old(table.now)
      ensures !ok ==> syncedAt == old(syncedAt)
      ensures forall r :: r in table.rows && Settled(table, startedAt, r) ==> r in old(table.rows)
      ensures table.quiet ==> table.rows == old(table.rows)
      ensures ok ==> syncedAt == Some(startedAt)
      ensures ok && paged ==> forall r :: r in table.rows && Settled(table, startedAt, r) ==> Covered(filter.keys, r)
    {
      hide ById;
      var since := if syncedAt.None? then startedAt else syncedAt.value;
      var read, page := table.UpdatedSince(since - UPDATE_SKEW, Batch());
      if !read {
        return false;
      }
      if |page| >= Batch() {
        var loaded, all, run := Load(filter, startedAt);
        if !loaded {
          return false;
        }
      } else {
        AddAddresses(filter, page);
      }
      syncedAt := Some(startedAt);
      ok := true;
    }

    /** A bigger filter, filled from the whole table and swapped in. Only then is the
        instant of the sync taken. */
    method Rebuild(capacity: nat) returns (ok: bool, ghost startedAt: int, ghost run: seq<Read>)
      requires Valid()
      modifies this, table`rows, table`now
      ensures Valid() && startedAt == old(table.now) <= table.now
      ensures !ok ==> unchanged(this)
      ensures ok ==> fresh(filter) && fresh(filter.bits) && syncedAt.Some? && startedAt <= syncedAt.value
      ensures forall r :: r in table.rows && Settled(table, startedAt, r) ==> r in old(table.rows)
      ensures ok ==> forall r :: r in table.rows && Settled(table, startedAt, r) ==> Covered(filter.keys, r)
      ensures table.quiet ==> table.rows == old(table.rows)
      ensures ok ==> IsLoad(run, Batch()) && run[|run| - 1].rows == table.rows && syncedAt == Some(table.now)
      ensures ok ==> filter.keys == Loaded(run) && maxId == LastId(run, |run|)
    {
      startedAt := table.now;
      var bigger := new BloomFilter(capacity, sizing(capacity).0, sizing(capacity).1);
      var loaded, last;
      loaded, last, run := Load(bigger, startedAt);
      if !loaded {
        return false, startedAt, run;
      }
      filter, maxId, syncedAt := bigger, last, Some(table.now);
      ok := true;
    }

    /** One pass of the poll. If nothing was out of its reach, or it rebuilds the
        filter, every row settled when it started is covered afterwards: all of them if
        nobody writes. With writers, no row is out of reach of the next pass, as long as
        clocks lag less than the window, and a rebuild takes no longer. */
    method Sync() returns (ok: bool, ghost startedAt: int)
      requires Valid()
      modifies this, filter`count, filter`keys, filter.bits, table`rows, table`now
      ensures Valid() && startedAt == old(table.now) <= table.now
      ensures filter == old(filter) || (fresh(filter) && fresh(filter.bits))
      ensures table.quiet ==> table.rows == old(table.rows)
      ensures ok && old(Sound()) ==> forall r :: r in table.rows && Settled(table, startedAt, r) ==> Covered(filter.keys, r)
      ensures ok && old(Sound()) && table.quiet ==> AllCovered(filter.keys, table.rows)
      ensures ok && old(Sound()) && syncedAt.Some? && syncedAt.value - startedAt + table.lag <= UPDATE_SKEW ==> Reaching()
      ensures !ok && old(Reaching()) && (table.quiet || (syncedAt.Some? && table.lag <= UPDATE_SKEW)) ==> Reaching()
      ensures !ok ==> syncedAt == old(syncedAt)
      ensures ok ==> syncedAt.Some? && (old(filter.count) <= old(filter.capacity) || filter == old(filter) ==> syncedAt.value == startedAt)
    {
      hide ById;
      startedAt := table.now;
      if filter.count > filter.capacity {
        var rebuilt, at, run := Rebuild(filter.capacity * 2);
        ok := rebuilt;
        return;
      }
      ghost var paged := Reaching();
      var instant := table.now;
      ok := SyncPages(startedAt);
      if !ok {
        return;
      }
      ok := SyncUpdated(instant, paged);
    }

    /** The next pass finds everything: by its id or stamp, or by reading all of it. */
    ghost predicate Sound()
      reads this, filter, table
    {
      Reaching() || filter.count > filter.capacity
    }

    /** As startup leaves it: nothing is out of reach, nor will be while clocks lag less
        than the window. */
    ghost predicate Polling()
      reads this, filter, table
    {
      Reaching() && syncedAt.Some? && table.lag <= UPDATE_SKEW
    }

    /** The poll: any number of passes, failed ones included, while others write the
        table before and during each. As long as no rebuild takes longer than the rest of
        the window (without a rebuild it is always timely), nothing is ever out of reach,
        and what the last pass, started at `last`, found settled is covered if it
        succeeded. */
    method RunSync(ticks: nat) returns (ghost timely: bool, ghost last: Option<int>)
      requires Valid()
      modifies this, filter`count, filter`keys, filter.bits, table`rows, table`now
      ensures Valid() && (timely ==> old(Polling()) && Polling())
      ensures old(Polling()) && filter == old(filter) ==> timely
      ensures last.Some? ==> old(table.now) <= last.value <= table.now
      ensures timely && last.Some? ==>
                forall r :: r in table.rows && Settled(table, last.value, r) ==> Covered(filter.keys, r)
      ensures timely && last.Some? && table.quiet ==> AllCovered(filter.keys, table.rows)
    {
      hide ById, Reachable;
      timely, last := Polling(), None;
      var i := 0;
      while i < ticks
        invariant Valid() && (timely ==> old(Polling()) && Polling())
        invariant filter == old(filter) || (fresh(filter) && fresh(filter.bits))
        invariant old(Polling()) && filter == old(filter) ==> timely
        invariant old(table.now) <= table.now && (last.Some? ==> old(table.now) <= last.value <= table.now)
        invariant timely && last.Some? ==>
                    forall r :: r in table.rows && Settled(table, last.value, r) ==> Covered(filter.keys, r)
      {
        ghost var was, at := table.rows, table.now;
        table.Others();
        if syncedAt.Some? {
          OthersReach(filter.keys, was, table.rows, maxId, syncedAt.value, at, table.lag, table.quiet);
        }
        var ok, startedAt := Sync();
        if ok {
          timely := timely && syncedAt.value - startedAt + table.lag <= UPDATE_SKEW;
          last := Some(startedAt);
        } else {
          last := None;
        }
        i := i + 1;
      }
    }

    /** Startup: the instant is taken before the first page is read. */
    method Init() returns (ok: bool, ghost startedAt: int)
      requires Valid() && filter.keys == {}
      modifies this`maxId, this`syncedAt, filter`count, filter`keys, filter.bits, table`rows, table`now
      ensures Valid() && startedAt == old(table.now) <= table.now
      ensures ok && table.quiet ==> AllCovered(filter.keys, table.rows)
      ensures ok && table.lag <= UPDATE_SKEW ==> Polling() && syncedAt == Some(startedAt)
    {
      startedAt := table.now;
      syncedAt := Some(table.now);
      var loaded, last, run := Load(filter, startedAt);
      if !loaded {
        return false, startedAt;
      }
      maxId := last;
      ok := true;
    }

    /** Filter, then look up. */
    method Lookup(address: string) returns (row: Option<Row>)
      requires Valid()
      ensures row.Some? ==> row.value in table.rows && row.value.address == address
      ensures AllCovered(filter.keys, table.rows) && address != "" ==>
                (row.Some? <==> exists r :: r in table.rows && r.address == address)
    {
      var possible := MayContain(address);
      if !possible {
        return None;
      }
      var i := 0;
      while i < |table.rows|
        invariant 0 <= i <= |table.rows| && forall j :: 0 <= j < i ==> table.rows[j].address != address
      {
        if table.rows[i].address == address {
          return Some(table.rows[i]);
        }
        i := i + 1;
      }
      row := None;
    }
  }

  method AddAddresses(filter: BloomFilter, page: seq<Row>)
    requires filter.Valid()
    modifies filter`count, filter`keys, filter.bits
    ensures filter.Valid() && old(filter.keys) <= filter.keys && AllCovered(filter.keys, page)
  {
    var i := 0;
    while i < |page|
      invariant 0 <= i <= |page| && filter.Valid() && old(filter.keys) <= filter.keys
      invariant forall j :: 0 <= j < i ==> Covered(filter.keys, page[j])
    {
      filter.Add(page[i].address);
      i := i + 1;
    }
  }

  /** What others write is stamped late enough for the next pass to find it. */
  lemma {:induction false} OthersReach(keys: set<string>, rows: seq<Row>, rows': seq<Row>, maxId: nat, syncedAt: int, at: int, lag: nat, quiet: bool)
    requires syncedAt <= at && forall r :: r in rows' ==> r in rows || (!quiet && r.updatedAt >= at - lag)
    ensures lag <= UPDATE_SKEW && Reachable(keys, rows, maxId, Some(syncedAt)) ==> Reachable(keys, rows', maxId, Some(syncedAt))
  {
  }

  lemma ShortPage(rows: seq<Row>, after: nat, limit: nat, page: seq<Row>, keys: set<string>)
    requires IsPage(rows, after, limit, page) && page == [] && limit > 0
    ensures forall r :: r in rows ==> r.id <= after
  {
  }

  lemma NoPages(limit: nat)
    ensures Pages([], limit)
  {
  }

  lemma NothingLoaded(rows: seq<Row>)
    requires ById(rows)
    ensures Reachable({}, rows, 0, None)
  {
  }

  lemma PositiveIds(rows: seq<Row>)
    requires ById(rows)
    ensures forall r :: r in rows ==> r.id > 0
  {
  }

  lemma PageById(rows: seq<Row>, after: nat, limit: nat, page: seq<Row>)
    requires IsPage(rows, after, limit, page)
    ensures ById(page) && |page| <= limit && (|page| > 0 ==> after < page[|page| - 1].id <= MAX_ID)
  {
    if |page| > 0 { assert page[|page| - 1] in page; }
  }

  /** With a page added, everything up to its last id is covered, or everything there
      is if the page is short. */
  lemma {:induction false} PageAdvances(rows: seq<Row>, after: nat, limit: nat, page: seq<Row>, keys: set<string>, keys': set<string>)
    requires IsPage(rows, after, limit, page) && keys <= keys' && AllCovered(keys', page)
    ensures forall r :: r in rows && r.id > after && (|page| < limit || r.id <= page[|page| - 1].id) ==> Covered(keys', r)
  {
  }
}
