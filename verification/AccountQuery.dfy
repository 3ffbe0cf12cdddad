/**
 sqlAll and querySpec of backend/ent/account_query.go: the selected columns, the nodes, and the loads of the
 requested edges. What the edge accessors then report is stated on the rows of the database alone.
 */
module AccountQuery {
  import opened Wrappers
  import opened Entities
  import opened Rows
  import opened GroupJoin
  import opened ForeignKeys
  import opened JoinLaws
  import AccountFields

  const FIELD_ID := "id"
  const FIELD_PROXY_ID := "proxy_id"

  /** account.Columns. */
  const COLUMNS: seq<string> := [
    "id", "created_at", "updated_at", "deleted_at", "name", "notes", "platform", "type", "credentials", "extra",
    "proxy_id", "concurrency", "load_factor", "priority", "rate_multiplier", "status", "error_message",
    "last_used_at", "expires_at", "auto_pause_on_expired", "schedulable", "rate_limited_at", "rate_limit_reset_at",
    "overload_until", "temp_unschedulable_until", "temp_unschedulable_reason", "session_window_start",
    "session_window_end", "session_window_status"]

  /**
   What the query builder was told: selected fields and requested edges, with the queries of the edges. Those of
   groups and proxies have a limit; their name and host stand for the columns they select.
   */
  datatype Plan = Plan(
    fields: seq<string>,
    withGroups: Option<nat>,
    withProxy: Option<nat>,
    withUsageLogs: Option<EdgeQuery>,
    withAccountGroups: Option<EdgeQuery>)

  /** What each query of the database would return. */
  datatype Database = Database(
    accounts: Answer<AccountRow>,
    joins: Answer<JoinRow>,
    proxies: Answer<ProxyRow>,
    logs: Answer<LogRow>,
    links: Answer<LinkRow>)

  // ----- querySpec -----

  /** The columns other than `skipped`, in order. */
  function Without(columns: seq<string>, skipped: string): seq<string> {
    if columns == [] then []
    else (if columns[0] != skipped then [columns[0]] else []) + Without(columns[1..], skipped)
  }

  lemma {:induction false} WithoutSnoc(columns: seq<string>, c: string, skipped: string)
    ensures Without(columns + [c], skipped) == Without(columns, skipped) + if c != skipped then [c] else []
  {
    if columns == [] {
      assert columns + [c] == [c];
    } else {
      assert (columns + [c])[1..] == columns[1..] + [c];
      WithoutSnoc(columns[1..], c, skipped);
    }
  }

  lemma {:induction false} WithoutMembers(columns: seq<string>, skipped: string)
    ensures forall c :: c in Without(columns, skipped) <==> c in columns && c != skipped
  {
    if columns != [] {
      WithoutMembers(columns[1..], skipped);
      assert columns == [columns[0]] + columns[1..];
    }
  }

  /**
   The columns of the node query: all of them without a selection; else the ID, the other selected fields in their
   order, and proxy_id when the proxy edge needs it and the selection lacks it.
   */
  function SpecColumns(plan: Plan): seq<string> {
    if plan.fields == [] then COLUMNS
    else
      var selected := [FIELD_ID] + Without(plan.fields, FIELD_ID);
      if plan.withProxy.Some? && FIELD_PROXY_ID !in plan.fields then selected + [FIELD_PROXY_ID] else selected
  }

  /** querySpec, as far as the columns go. */
  method QuerySpec(plan: Plan) returns (columns: seq<string>)
    ensures columns == SpecColumns(plan)
  {
    columns := COLUMNS;
    var fields := plan.fields;
    if |fields| > 0 {
      columns := [FIELD_ID];
      for i := 0 to |fields|
        invariant columns == [FIELD_ID] + Without(fields[..i], FIELD_ID)
      {
        assert fields[..i + 1] == fields[..i] + [fields[i]];
        WithoutSnoc(fields[..i], fields[i], FIELD_ID);
        if fields[i] != FIELD_ID {
          columns := columns + [fields[i]];
        }
      }
      assert fields[..|fields|] == fields;
      WithoutMembers(fields, FIELD_ID);
      if plan.withProxy.Some? && FIELD_PROXY_ID !in columns {
        columns := columns + [FIELD_PROXY_ID];
      }
    }
  }

  lemma AllColumns()
    ensures |COLUMNS| == 29 && COLUMNS[0] == FIELD_ID && COLUMNS[10] == FIELD_PROXY_ID
    ensures forall k :: 1 <= k < |COLUMNS| ==> COLUMNS[k] != FIELD_ID
  {
    assert forall k :: 1 <= k < |COLUMNS| ==> |COLUMNS[k]| > 2;
  }

  /** The place of a column in account.Columns. */
  function Place(c: AccountFields.Column): (k: nat)
    ensures k < 29
  {
    match c
    case ID => 0
    case CreatedAt => 1
    case UpdatedAt => 2
    case DeletedAt => 3
    case Name => 4
    case Notes => 5
    case Platform => 6
    case Type => 7
    case Credentials => 8
    case Extra => 9
    case ProxyID => 10
    case Concurrency => 11
    case LoadFactor => 12
    case Priority => 13
    case RateMultiplier => 14
    case Status => 15
    case ErrorMessage => 16
    case LastUsedAt => 17
    case ExpiresAt => 18
    case AutoPauseOnExpired => 19
    case Schedulable => 20
    case RateLimitedAt => 21
    case RateLimitResetAt => 22
    case OverloadUntil => 23
    case TempUnschedulableUntil => 24
    case TempUnschedulableReason => 25
    case SessionWindowStart => 26
    case SessionWindowEnd => 27
    case SessionWindowStatus => 28
  }

  lemma FirstColumnsNamed(c: AccountFields.Column)
    requires Place(c) < 10
    ensures COLUMNS[Place(c)] == AccountFields.ColumnName(c)
  {}

  lemma MiddleColumnsNamed(c: AccountFields.Column)
    requires 10 <= Place(c) < 20
    ensures COLUMNS[Place(c)] == AccountFields.ColumnName(c)
  {}

  lemma LastColumnsNamed(c: AccountFields.Column)
    requires 20 <= Place(c)
    ensures COLUMNS[Place(c)] == AccountFields.ColumnName(c)
  {}

  /** The list holds every column of an account once, under its name, and nothing else. */
  lemma ColumnsNamed(c: AccountFields.Column)
    ensures |COLUMNS| == 29 && COLUMNS[Place(c)] == AccountFields.ColumnName(c)
  {
    if Place(c) < 10 {
      FirstColumnsNamed(c);
    } else if Place(c) < 20 {
      MiddleColumnsNamed(c);
    } else {
      LastColumnsNamed(c);
    }
  }

  lemma PlacesDiffer(c: AccountFields.Column, c': AccountFields.Column)
    requires Place(c) == Place(c')
    ensures c == c'
  {}

  /**
   A selection reads exactly the selected columns and the ID, and proxy_id if the proxy edge needs it; without a
   selection every column is read.
   */
  lemma ColumnsExact(plan: Plan, c: string)
    ensures c in SpecColumns(plan) <==>
              if plan.fields == [] then c in COLUMNS
              else c == "id" || c in plan.fields || (c == "proxy_id" && plan.withProxy.Some?)
    ensures plan.fields != [] ==>
              |SpecColumns(plan)| == 1 + |Without(plan.fields, "id")|
                                     + if plan.withProxy.Some? && "proxy_id" !in plan.fields then 1 else 0
  {
    WithoutMembers(plan.fields, FIELD_ID);
  }

  /** The proxy key is read whenever the selection, or its absence, or the proxy edge asks for it. */
  predicate ReadsProxyID(plan: Plan) {
    plan.fields == [] || "proxy_id" in plan.fields || plan.withProxy.Some?
  }

  lemma ProxyIDRead(plan: Plan)
    ensures FIELD_PROXY_ID in SpecColumns(plan) <==> ReadsProxyID(plan)
  {
    if plan.fields == [] {
      AllColumns();
    } else {
      ColumnsExact(plan, FIELD_PROXY_ID);
    }
  }

  /**
   Every selection reads the ID first and only once, the other fields in their order, and the proxy key whenever
   the proxy edge is requested.
   */
  lemma ColumnsRead(plan: Plan)
    ensures var columns := SpecColumns(plan);
            && columns[0] == FIELD_ID && FIELD_ID !in columns[1..]
            && (plan.withProxy.Some? ==> FIELD_PROXY_ID in columns)
            && (plan.fields != [] ==> Without(plan.fields, FIELD_ID) <= columns[1..])
            && (forall c :: c in plan.fields ==> c in columns)
  {
    if plan.fields == [] {
      AllColumns();
    } else {
      SelectedColumns(plan);
    }
  }

  lemma SelectedColumns(plan: Plan)
    requires plan.fields != []
    ensures var columns := SpecColumns(plan);
            && columns[0] == FIELD_ID && FIELD_ID !in columns[1..]
            && (plan.withProxy.Some? ==> FIELD_PROXY_ID in columns)
            && Without(plan.fields, FIELD_ID) <= columns[1..]
            && (forall c :: c in plan.fields ==> c in columns)
  {
    var columns, others := SpecColumns(plan), Without(plan.fields, FIELD_ID);
    WithoutMembers(plan.fields, FIELD_ID);
    assert columns[1..] == others || columns[1..] == others + [FIELD_PROXY_ID];
    assert columns == [FIELD_ID] + columns[1..];
    assert forall c :: c in others ==> c in columns[1..];
  }

  // ----- sqlAll -----

  /** No later row has the ID of rows[i]. */
  ghost predicate LastRow(rows: seq<AccountRow>, i: nat)
    requires i < |rows|
  {
    forall j :: i < j < |rows| ==> rows[j].id != rows[i].id
  }

  /** The proxy keys of the accounts; the proxy query is issued when there is one. */
  ghost function RowProxyKeys(rows: seq<AccountRow>): set<int> {
    set i | 0 <= i < |rows| && rows[i].proxyID.Some? :: rows[i].proxyID.value
  }

  /** The IDs of the accounts. */
  ghost function RowIDs(rows: seq<AccountRow>): set<int> {
    set i | 0 <= i < |rows| :: rows[i].id
  }

  /** A load fails with its query, if it needs one. */
  function Failing<T>(needed: bool, answer: Answer<T>): Option<QueryError> {
    if needed && answer.Failure? then Some(answer.error) else None
  }

  function Or(first: Option<QueryError>, rest: Option<QueryError>): Option<QueryError> {
    if first.Some? then first else rest
  }

  /** The first failure among the loads that a plan leads to, in the order of sqlAll. */
  ghost function LoadFailure(plan: Plan, db: Database, rows: seq<AccountRow>): Option<QueryError> {
    Or(Failing(plan.withGroups.Some?, db.joins),
    Or(Failing(plan.withProxy.Some? && RowProxyKeys(rows) != {}, db.proxies),
    Or(Failing(plan.withUsageLogs.Some?, db.logs),
       Failing(plan.withAccountGroups.Some?, db.links))))
  }

  /** The error of sqlAll, if any. */
  ghost function FirstFailure(plan: Plan, db: Database): Option<QueryError> {
    match db.accounts
    case Failure(e) => Some(e)
    case Success(rows) => if rows == [] then None else LoadFailure(plan, db, rows)
  }

  /** The first failure, spelled out: accounts, then groups, the proxy, logs and links, each only if it is needed. */
  lemma FirstFailureMeans(plan: Plan, db: Database, rows: seq<AccountRow>)
    ensures db.accounts.Failure? ==> FirstFailure(plan, db) == Some(db.accounts.error)
    ensures db.accounts == Success([]) ==> FirstFailure(plan, db) == None
    ensures db.accounts == Success(rows) && rows != [] ==>
              var groups := plan.withGroups.Some? && db.joins.Failure?;
              var proxy := plan.withProxy.Some? && RowProxyKeys(rows) != {} && db.proxies.Failure?;
              var logs := plan.withUsageLogs.Some? && db.logs.Failure?;
              var links := plan.withAccountGroups.Some? && db.links.Failure?;
              && (groups ==> FirstFailure(plan, db) == Some(db.joins.error))
              && (!groups && proxy ==> FirstFailure(plan, db) == Some(db.proxies.error))
              && (!groups && !proxy && logs ==> FirstFailure(plan, db) == Some(db.logs.error))
              && (!groups && !proxy && !logs && links ==> FirstFailure(plan, db) == Some(db.links.error))
              && (!groups && !proxy && !logs && !links ==> FirstFailure(plan, db) == None)
  {}

  /** Every query that a plan leads to succeeds. */
  ghost predicate AllAnswered(plan: Plan, db: Database) {
    db.accounts.Success? && (db.accounts.value != [] ==>
      && (plan.withGroups.Some? ==> db.joins.Success?)
      && (plan.withProxy.Some? && RowProxyKeys(db.accounts.value) != {} ==> db.proxies.Success?)
      && (plan.withUsageLogs.Some? ==> db.logs.Success?)
      && (plan.withAccountGroups.Some? ==> db.links.Success?))
  }

  /**
   What a batched load gives account i: the last account with its ID takes all the returned rows of the ID, an
   earlier one gets nothing. EagerLaws says when that is what the account would get on its own.
   */
  ghost function BatchedRows<R(!new)>(table: seq<R>, owner: R -> int, limit: nat, rows: seq<AccountRow>, i: nat): seq<R>
    requires i < |rows|
  {
    if LastRow(rows, i) then RowsFor(Fetched(table, owner, RowIDs(rows), limit), owner, rows[i].id) else []
  }

  ghost function BatchedGroups(table: seq<JoinRow>, limit: nat, rows: seq<AccountRow>, i: nat): seq<JoinRow>
    requires i < |rows|
  {
    if LastRow(rows, i) then GroupsOf(Fetched(table, JoinOwner, RowIDs(rows), limit), rows[i].id) else []
  }

  ghost function BatchedProxy(answer: Answer<ProxyRow>, limit: nat, rows: seq<AccountRow>, i: nat): Option<ProxyRow>
    requires i < |rows|
  {
    if rows[i].proxyID.None? || answer.Failure? then None
    else ProxyRowByID(Fetched(answer.value, ProxyKey, RowProxyKeys(rows), limit), rows[i].proxyID.value)
  }

  // What each accessor of account i gives: "not loaded" exactly when the edge was not requested, a proxy "not found"
  // exactly when it was requested and the returned rows have none with the key.

  ghost predicate GroupsAgree(a: Account, plan: Plan, db: Database, rows: seq<AccountRow>, i: nat)
    requires i < |rows|
    reads a
  {
    match plan.withGroups
    case None => a.GroupsOrErr() == Failure(NotLoaded("groups"))
    case Some(limit) =>
      && a.GroupsOrErr().Success? && db.joins.Success?
      && ReadFrom(a.GroupsOrErr().value, BatchedGroups(db.joins.value, limit, rows, i))
  }

  ghost predicate ProxyAgrees(a: Account, plan: Plan, db: Database, rows: seq<AccountRow>, i: nat)
    requires i < |rows|
    reads a
  {
    match plan.withProxy
    case None => a.ProxyOrErr() == Failure(NotLoaded("proxy"))
    case Some(limit) =>
      var found := BatchedProxy(db.proxies, limit, rows, i);
      && (rows[i].proxyID.Some? ==> db.proxies.Success?)
      && if found.None? then a.ProxyOrErr() == Failure(NotFound("proxy"))
         else a.ProxyOrErr().Success? && IsProxy(a.ProxyOrErr().value, found)
  }

  ghost predicate LogsAgree(a: Account, plan: Plan, db: Database, rows: seq<AccountRow>, i: nat)
    requires i < |rows|
    reads a
  {
    match plan.withUsageLogs
    case None => a.UsageLogsOrErr() == Failure(NotLoaded("usage_logs"))
    case Some(query) =>
      && a.UsageLogsOrErr().Success? && db.logs.Success?
      && ReadLogs(a.UsageLogsOrErr().value, BatchedRows(db.logs.value, LogOwner, query.limit, rows, i))
  }

  ghost predicate LinksAgree(a: Account, plan: Plan, db: Database, rows: seq<AccountRow>, i: nat)
    requires i < |rows|
    reads a
  {
    match plan.withAccountGroups
    case None => a.AccountGroupsOrErr() == Failure(NotLoaded("account_groups"))
    case Some(query) =>
      && a.AccountGroupsOrErr().Success? && db.links.Success?
      && ReadLinks(a.AccountGroupsOrErr().value, BatchedRows(db.links.value, LinkOwner, query.limit, rows, i))
  }

  /** The edge accessors of account i give what the batched loads should. */
  ghost predicate EdgesAgree(a: Account, plan: Plan, db: Database, rows: seq<AccountRow>, i: nat)
    requires i < |rows|
    reads a
  {
    && GroupsAgree(a, plan, db, rows, i) && ProxyAgrees(a, plan, db, rows, i)
    && LogsAgree(a, plan, db, rows, i) && LinksAgree(a, plan, db, rows, i)
  }

  /** The nodes read from the rows: distinct objects, in row order. */
  ghost predicate NodesOf(nodes: seq<Account>, rows: seq<AccountRow>) {
    && |nodes| == |rows| && DistinctNodes(nodes)
    && (forall i :: 0 <= i < |rows| ==> nodes[i].id == rows[i].id)
  }

  lemma {:induction false} HolderIsLast(nodes: seq<Account>, rows: seq<AccountRow>, n: nat, i: nat)
    requires NodesOf(nodes, rows) && i < n <= |nodes|
    ensures Holder(nodes, n, nodes[i].id) == nodes[i] <==> forall j :: i < j < n ==> rows[j].id != rows[i].id
  {
    if n - 1 > i && nodes[n - 1].id != nodes[i].id {
      HolderIsLast(nodes, rows, n - 1, i);
    }
  }

  lemma KeysAreRowIDs(nodes: seq<Account>, rows: seq<AccountRow>)
    requires NodesOf(nodes, rows)
    ensures Keys(nodes, |nodes|) == RowIDs(rows)
  {}

  /** The query of the accounts: the Assign callback makes a node of each row. */
  method QueryNodes(rows: seq<AccountRow>, columns: seq<string>, loaded: Loaded) returns (nodes: seq<Account>)
    requires FIELD_ID in columns
    ensures NodesOf(nodes, rows)
    ensures forall i :: 0 <= i < |nodes| ==>
              && fresh(nodes[i]) && nodes[i].loadedTypes == loaded
              && nodes[i].proxyID == (if FIELD_PROXY_ID in columns then rows[i].proxyID else None)
              && nodes[i].groups == [] && nodes[i].proxy == null
              && nodes[i].usageLogs == [] && nodes[i].accountGroups == []
  {
    nodes := [];
    for i := 0 to |rows|
      invariant NodesOf(nodes, rows[..i])
      invariant forall j :: 0 <= j < i ==>
                  && fresh(nodes[j]) && nodes[j].loadedTypes == loaded
                  && nodes[j].proxyID == (if FIELD_PROXY_ID in columns then rows[j].proxyID else None)
                  && nodes[j].groups == [] && nodes[j].proxy == null
                  && nodes[j].usageLogs == [] && nodes[j].accountGroups == []
    {
      var node := new Account(rows[i], columns, loaded);
      nodes := nodes + [node];
    }
    assert rows[..|rows|] == rows;
  }

  lemma HolderIff(nodes: seq<Account>, rows: seq<AccountRow>, i: nat)
    requires NodesOf(nodes, rows) && i < |rows|
    ensures Holder(nodes, |nodes|, nodes[i].id) == nodes[i] <==> LastRow(rows, i)
    ensures Keys(nodes, |nodes|) == RowIDs(rows)
  {
    HolderIsLast(nodes, rows, |nodes|, i);
    KeysAreRowIDs(nodes, rows);
  }

  method EagerGroups(plan: Plan, nodes: seq<Account>, ghost rows: seq<AccountRow>, table: Answer<JoinRow>)
    returns (err: Option<QueryError>)
    requires NodesOf(nodes, rows)
    modifies nodes`groups
    ensures err == Failing(plan.withGroups.Some?, table)
    ensures err.None? && plan.withGroups.Some? ==>
              forall i :: 0 <= i < |rows| ==>
                ReadFrom(nodes[i].groups, BatchedGroups(table.value, plan.withGroups.value, rows, i))
  {
    if plan.withGroups.None? {
      return None;
    }
    var limit := plan.withGroups.value;
    ghost var neighbors;
    err, neighbors := LoadGroups(nodes, limit, table);
    if err.None? {
      forall i | 0 <= i < |rows| ensures ReadFrom(nodes[i].groups, BatchedGroups(table.value, limit, rows, i)) {
        HolderIff(nodes, rows, i);
        assert nodes[i] in nodes;
        JoinedReadFrom(neighbors, |neighbors|, Fetched(table.value, JoinOwner, RowIDs(rows), limit), rows[i].id);
      }
    }
  }

  lemma KeysAreProxyKeys(nodes: seq<Account>, rows: seq<AccountRow>)
    requires NodesOf(nodes, rows) && forall i :: 0 <= i < |rows| ==> nodes[i].proxyID == rows[i].proxyID
    ensures RowProxyKeys(rows) == set fk | fk in ProxyKeys(nodes, |nodes|)
    ensures RowProxyKeys(rows) == {} <==> ProxyKeys(nodes, |nodes|) == []
  {
    var keys := ProxyKeys(nodes, |nodes|);
    ProxyKeysExact(nodes, |nodes|);
    forall fk ensures fk in RowProxyKeys(rows) <==> fk in keys {
      if fk in keys {
        var i :| 0 <= i < |nodes| && nodes[i].proxyID == Some(fk);
        assert rows[i].proxyID.value == fk;
      }
      if fk in RowProxyKeys(rows) {
        var i :| 0 <= i < |rows| && rows[i].proxyID.Some? && rows[i].proxyID.value == fk;
        assert nodes[i].proxyID == Some(fk);
      }
    }
    if keys != [] {
      assert keys[0] in RowProxyKeys(rows);
    }
  }

  method EagerProxy(plan: Plan, nodes: seq<Account>, ghost rows: seq<AccountRow>, table: Answer<ProxyRow>)
    returns (err: Option<QueryError>)
    requires NodesOf(nodes, rows)
    requires forall i :: 0 <= i < |rows| ==> nodes[i].proxy == null
    requires plan.withProxy.Some? ==> forall i :: 0 <= i < |rows| ==> nodes[i].proxyID == rows[i].proxyID
    modifies nodes`proxy
    ensures err == Failing(plan.withProxy.Some? && RowProxyKeys(rows) != {}, table)
    ensures err.None? ==>
              forall i :: 0 <= i < |rows| ==>
                IsProxy(nodes[i].proxy,
                        if plan.withProxy.Some? then BatchedProxy(table, plan.withProxy.value, rows, i) else None)
  {
    if plan.withProxy.None? {
      return None;
    }
    var limit := plan.withProxy.value;
    ghost var neighbors;
    err, neighbors := LoadProxy(nodes, limit, table);
    KeysAreProxyKeys(nodes, rows);
    if err.None? {
      forall i | 0 <= i < |rows| ensures IsProxy(nodes[i].proxy, BatchedProxy(table, limit, rows, i)) {
        assert nodes[i] in nodes;
        if rows[i].proxyID.Some? {
          assert rows[i].proxyID.value in RowProxyKeys(rows);
          ResolvedIsRow(neighbors, Fetched(table.value, ProxyKey, RowProxyKeys(rows), limit), rows[i].proxyID.value);
        }
      }
    }
  }

  method EagerLogs(plan: Plan, nodes: seq<Account>, ghost rows: seq<AccountRow>, table: Answer<LogRow>)
    returns (err: Option<QueryError>)
    requires NodesOf(nodes, rows)
    modifies nodes`usageLogs
    ensures err == Failing(plan.withUsageLogs.Some?, table)
    ensures err.None? && plan.withUsageLogs.Some? ==>
              forall i :: 0 <= i < |rows| ==>
                ReadLogs(nodes[i].usageLogs,
                         BatchedRows(table.value, LogOwner, plan.withUsageLogs.value.limit, rows, i))
  {
    if plan.withUsageLogs.None? {
      return None;
    }
    var query := plan.withUsageLogs.value;
    ghost var neighbors;
    err, neighbors := LoadUsageLogs(nodes, query, table);
    if err.None? {
      forall i | 0 <= i < |rows|
        ensures ReadLogs(nodes[i].usageLogs, BatchedRows(table.value, LogOwner, query.limit, rows, i))
      {
        HolderIff(nodes, rows, i);
        assert nodes[i] in nodes;
        LogsForAreRows(neighbors, Fetched(table.value, LogOwner, RowIDs(rows), query.limit), rows[i].id);
      }
    }
  }

  method EagerLinks(plan: Plan, nodes: seq<Account>, ghost rows: seq<AccountRow>, table: Answer<LinkRow>)
    returns (err: Option<QueryError>)
    requires NodesOf(nodes, rows)
    modifies nodes`accountGroups
    ensures err == Failing(plan.withAccountGroups.Some?, table)
    ensures err.None? && plan.withAccountGroups.Some? ==>
              forall i :: 0 <= i < |rows| ==>
                ReadLinks(nodes[i].accountGroups,
                          BatchedRows(table.value, LinkOwner, plan.withAccountGroups.value.limit, rows, i))
  {
    if plan.withAccountGroups.None? {
      return None;
    }
    var query := plan.withAccountGroups.value;
    ghost var neighbors;
    err, neighbors := LoadAccountGroups(nodes, query, table);
    if err.None? {
      forall i | 0 <= i < |rows|
        ensures ReadLinks(nodes[i].accountGroups, BatchedRows(table.value, LinkOwner, query.limit, rows, i))
      {
        HolderIff(nodes, rows, i);
        assert nodes[i] in nodes;
        LinksForAreRows(neighbors, Fetched(table.value, LinkOwner, RowIDs(rows), query.limit), rows[i].id);
      }
    }
  }

  /** What the loads leave in the fields of an account that was read for the plan. */
  ghost predicate FieldsAgree(a: Account, plan: Plan, db: Database, rows: seq<AccountRow>, i: nat)
    requires i < |rows| && LoadFailure(plan, db, rows).None?
    reads a
  {
    && a.loadedTypes == LoadedBy(plan)
    && (plan.withGroups.Some? ==> ReadFrom(a.groups, BatchedGroups(db.joins.value, plan.withGroups.value, rows, i)))
    && IsProxy(a.proxy, if plan.withProxy.Some? then BatchedProxy(db.proxies, plan.withProxy.value, rows, i) else None)
    && (plan.withUsageLogs.Some? ==>
          ReadLogs(a.usageLogs, BatchedRows(db.logs.value, LogOwner, plan.withUsageLogs.value.limit, rows, i)))
    && (plan.withAccountGroups.Some? ==>
          ReadLinks(a.accountGroups,
                    BatchedRows(db.links.value, LinkOwner, plan.withAccountGroups.value.limit, rows, i)))
  }

  function LoadedBy(plan: Plan): Loaded {
    Loaded(plan.withGroups.Some?, plan.withProxy.Some?, plan.withUsageLogs.Some?, plan.withAccountGroups.Some?)
  }

  lemma EdgesFromFields(a: Account, plan: Plan, db: Database, rows: seq<AccountRow>, i: nat)
    requires i < |rows| && LoadFailure(plan, db, rows).None? && FieldsAgree(a, plan, db, rows, i)
    ensures EdgesAgree(a, plan, db, rows, i)
  {
    assert rows[i].proxyID.Some? ==> rows[i].proxyID.value in RowProxyKeys(rows);
  }

  /** The loads of the requested edges, in the order of sqlAll; the first that fails ends them. */
  method LoadEdges(plan: Plan, nodes: seq<Account>, ghost rows: seq<AccountRow>, db: Database)
    returns (err: Option<QueryError>)
    requires NodesOf(nodes, rows)
    requires forall i :: 0 <= i < |rows| ==> nodes[i].proxy == null && nodes[i].loadedTypes == LoadedBy(plan)
    requires plan.withProxy.Some? ==> forall i :: 0 <= i < |rows| ==> nodes[i].proxyID == rows[i].proxyID
    modifies nodes
    ensures err == LoadFailure(plan, db, rows)
    ensures err.None? ==> forall i :: 0 <= i < |rows| ==> FieldsAgree(nodes[i], plan, db, rows, i)
  {
    err := EagerGroups(plan, nodes, rows, db.joins);
    if err.Some? {
      return;
    }
    err := EagerProxy(plan, nodes, rows, db.proxies);
    if err.Some? {
      return;
    }
    err := EagerLogs(plan, nodes, rows, db.logs);
    if err.Some? {
      return;
    }
    err := EagerLinks(plan, nodes, rows, db.links);
  }

  /** The node query: the selected columns are enough for the edges of the plan. */
  method ReadNodes(plan: Plan, rows: seq<AccountRow>) returns (nodes: seq<Account>)
    ensures NodesOf(nodes, rows)
    ensures forall i :: 0 <= i < |nodes| ==>
              && fresh(nodes[i]) && nodes[i].loadedTypes == LoadedBy(plan) && nodes[i].proxy == null
              && nodes[i].proxyID == (if ReadsProxyID(plan) then rows[i].proxyID else None)
  {
    var columns := QuerySpec(plan);
    ColumnsRead(plan);
    ProxyIDRead(plan);
    nodes := QueryNodes(rows, columns, LoadedBy(plan));
  }

  /**
   sqlAll: it fails with the first failure among the queries it needs; otherwise, whatever fields and edges the plan
   asks for, there is one node for each row and its edge accessors agree with the rows of the tables.
   */
  method SqlAll(plan: Plan, db: Database) returns (res: Result<seq<Account>, QueryError>)
    ensures res.Success? <==> AllAnswered(plan, db)
    ensures res.Failure? ==> FirstFailure(plan, db) == Some(res.error)
    ensures res.Success? ==>
              var nodes, rows := res.value, db.accounts.value;
              && NodesOf(nodes, rows)
              && (forall i :: 0 <= i < |rows| ==> fresh(nodes[i]) && EdgesAgree(nodes[i], plan, db, rows, i))
              && forall i :: 0 <= i < |rows| ==>
                   && nodes[i].id == rows[i].id
                   && nodes[i].proxyID == if plan.fields == [] || "proxy_id" in plan.fields || plan.withProxy.Some?
                                          then rows[i].proxyID else None
  {
    if db.accounts.Failure? {
      return Failure(db.accounts.error);
    }
    var rows := db.accounts.value;
    var nodes := ReadNodes(plan, rows);
    if |nodes| == 0 {
      return Success(nodes);
    }
    var err := LoadEdges(plan, nodes, rows, db);
    if err.Some? {
      return Failure(err.value);
    }
    forall i | 0 <= i < |rows| ensures EdgesAgree(nodes[i], plan, db, rows, i) {
      EdgesFromFields(nodes[i], plan, db, rows, i);
    }
    return Success(nodes);
  }
}
