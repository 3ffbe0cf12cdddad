/**
 Where batching shows: two returned accounts with one ID, the limit of an edge query, and the order of the groups of
 an account. For each edge, the nodes that SqlAll returns against a query for each account alone.
 */
module EagerLaws {
  import opened Wrappers
  import opened Entities
  import opened Rows
  import opened GroupJoin
  import opened ForeignKeys
  import opened JoinLaws
  import opened GroupOrder
  import opened AccountQuery

  /** What SqlAll returns for a plan. */
  ghost predicate Answers(nodes: seq<Account>, plan: Plan, db: Database, rows: seq<AccountRow>)
    reads nodes
  {
    && AllAnswered(plan, db) && db.accounts.value == rows && |nodes| == |rows|
    && forall i :: 0 <= i < |rows| ==> EdgesAgree(nodes[i], plan, db, rows, i)
  }

  // ----- Logs and links -----

  /** A query for one owner alone returns its first rows, as many as the limit allows. */
  lemma FetchedAlone<R(!new)>(table: seq<R>, owner: R -> int, a: int, limit: nat)
    ensures Fetched(table, owner, {a}, limit) == Limited(RowsFor(table, owner, a), limit)
    ensures Fetched(table, owner, {a}, limit) == [] <==> forall k :: 0 <= k < |table| ==> owner(table[k]) != a
  {
    OwnedAlone(table, owner, a);
    RowsForCounts(table, owner, a);
  }

  /**
   The batch serves account i: it is the last with its ID and the cut of the limit is fair to it, or it has no rows.
   */
  ghost predicate Serves<R(!new)>(table: seq<R>, owner: R -> int, limit: nat, rows: seq<AccountRow>, i: nat)
    requires i < |rows|
  {
    if LastRow(rows, i) then CutFair(Owned(table, owner, RowIDs(rows)), owner, rows[i].id, limit)
    else forall k :: 0 <= k < |table| ==> owner(table[k]) != rows[i].id
  }

  /** An account gets in the batch what a query of its own returns exactly when the batch serves it. */
  lemma BatchedAgreesIff<R(!new)>(table: seq<R>, owner: R -> int, limit: nat, rows: seq<AccountRow>, i: nat)
    requires i < |rows|
    ensures BatchedRows(table, owner, limit, rows, i) == Fetched(table, owner, {rows[i].id}, limit)
            <==> Serves(table, owner, limit, rows, i)
  {
    FetchedAlone(table, owner, rows[i].id, limit);
    if LastRow(rows, i) {
      LimitAgreesIff(table, owner, RowIDs(rows), rows[i].id, limit);
    }
  }

  lemma ReadLogsUnique(logs: seq<UsageLog>, list: seq<LogRow>, list': seq<LogRow>)
    requires ReadLogs(logs, list)
    ensures ReadLogs(logs, list') <==> list == list'
  {
    if ReadLogs(logs, list') {
      forall k | 0 <= k < |list| ensures list[k] == list'[k] {
        assert IsLog(logs[k], list[k]) && IsLog(logs[k], list'[k]);
      }
    }
  }

  /** The nodes have the logs that each account would get on its own exactly when the batch serves all of them. */
  lemma LogsAgreeIff(nodes: seq<Account>, plan: Plan, db: Database, rows: seq<AccountRow>)
    requires Answers(nodes, plan, db, rows) && rows != [] && plan.withUsageLogs.Some?
    ensures var table, limit := db.logs.value, plan.withUsageLogs.value.limit;
            (forall i :: 0 <= i < |rows| ==>
               ReadLogs(nodes[i].usageLogs, Fetched(table, LogOwner, {rows[i].id}, limit)))
            <==> forall i :: 0 <= i < |rows| ==> Serves(table, LogOwner, limit, rows, i)
  {
    var table, limit := db.logs.value, plan.withUsageLogs.value.limit;
    forall i | 0 <= i < |rows|
      ensures ReadLogs(nodes[i].usageLogs, Fetched(table, LogOwner, {rows[i].id}, limit))
              <==> Serves(table, LogOwner, limit, rows, i)
    {
      assert EdgesAgree(nodes[i], plan, db, rows, i);
      BatchedAgreesIff(table, LogOwner, limit, rows, i);
      ReadLogsUnique(nodes[i].usageLogs, BatchedRows(table, LogOwner, limit, rows, i),
                     Fetched(table, LogOwner, {rows[i].id}, limit));
    }
  }

  lemma ReadLinksUnique(links: seq<AccountGroup>, list: seq<LinkRow>, list': seq<LinkRow>)
    requires ReadLinks(links, list)
    ensures ReadLinks(links, list') <==> list == list'
  {
    if ReadLinks(links, list') {
      forall k | 0 <= k < |list| ensures list[k] == list'[k] {
        assert IsLink(links[k], list[k]) && IsLink(links[k], list'[k]);
      }
    }
  }

  /** The same for the rows of the join table. */
  lemma LinksAgreeIff(nodes: seq<Account>, plan: Plan, db: Database, rows: seq<AccountRow>)
    requires Answers(nodes, plan, db, rows) && rows != [] && plan.withAccountGroups.Some?
    ensures var table, limit := db.links.value, plan.withAccountGroups.value.limit;
            (forall i :: 0 <= i < |rows| ==>
               ReadLinks(nodes[i].accountGroups, Fetched(table, LinkOwner, {rows[i].id}, limit)))
            <==> forall i :: 0 <= i < |rows| ==> Serves(table, LinkOwner, limit, rows, i)
  {
    var table, limit := db.links.value, plan.withAccountGroups.value.limit;
    forall i | 0 <= i < |rows|
      ensures ReadLinks(nodes[i].accountGroups, Fetched(table, LinkOwner, {rows[i].id}, limit))
              <==> Serves(table, LinkOwner, limit, rows, i)
    {
      assert EdgesAgree(nodes[i], plan, db, rows, i);
      BatchedAgreesIff(table, LinkOwner, limit, rows, i);
      ReadLinksUnique(nodes[i].accountGroups, BatchedRows(table, LinkOwner, limit, rows, i),
                      Fetched(table, LinkOwner, {rows[i].id}, limit));
    }
  }

  /** It can fail without a limit: of two nodes for account 1, the first loses the log. */
  lemma LogsCanBeLost(rows: seq<AccountRow>, table: seq<LogRow>)
    requires rows == [AccountRow(1, None), AccountRow(1, None)] && table == [LogRow(7, 1)]
    ensures BatchedRows(table, LogOwner, 0, rows, 0) == [] && Fetched(table, LogOwner, {1}, 0) == table
  {
    assert rows[1].id == rows[0].id;
    assert Owned(table, LogOwner, {1}) == [table[0]] + Owned(table[1..], LogOwner, {1});
  }

  /** And with one: of two accounts with a log each, a limit of 1 leaves the second nothing. */
  lemma LimitCanTakeAll(rows: seq<AccountRow>, table: seq<LogRow>)
    requires rows == [AccountRow(1, None), AccountRow(2, None)] && table == [LogRow(7, 1), LogRow(8, 2)]
    ensures BatchedRows(table, LogOwner, 1, rows, 1) == [] && Fetched(table, LogOwner, {2}, 1) == [table[1]]
  {
    var keys := RowIDs(rows);
    assert rows[0].id in keys && rows[1].id in keys;
    assert table[1..] == [table[1]] && table[1..][1..] == [];
    assert Owned(table[1..], LogOwner, keys) == [table[1]] && Owned(table[1..], LogOwner, {2}) == [table[1]];
    assert Fetched(table, LogOwner, keys, 1) == [table[0]];
    assert Owned(table, LogOwner, {2}) == [table[1]];
    assert [table[0]][1..] == [] && RowsFor([table[0]], LogOwner, 2) == RowsFor([], LogOwner, 2);
  }

  // ----- Groups -----

  lemma ReadFacesIff(groups: seq<Group>, list: seq<JoinRow>, list': seq<JoinRow>)
    requires ReadFrom(groups, list)
    ensures ReadFrom(groups, list') <==> SameFaces(list', list)
  {}

  /**
   The batch serves the groups of account i: it is the last with its ID, and the returned rows join it with the
   groups, in the order and with the names, that it gets from a query of its own; or it has none.
   */
  ghost predicate ServesGroups(table: seq<JoinRow>, limit: nat, rows: seq<AccountRow>, i: nat)
    requires i < |rows|
  {
    var a := rows[i].id;
    var own, batch := Fetched(table, JoinOwner, {a}, limit), Fetched(table, JoinOwner, RowIDs(rows), limit);
    if LastRow(rows, i) then JoinsKept(own, batch, a) && OrderKept(own, batch, a) && NamesKept(own, batch, a)
    else forall k :: 0 <= k < |table| ==> JoinOwner(table[k]) != a
  }

  lemma NoGroupsIff(table: seq<JoinRow>, limit: nat, a: int)
    ensures GroupsOf(Fetched(table, JoinOwner, {a}, limit), a) == []
            <==> forall k :: 0 <= k < |table| ==> JoinOwner(table[k]) != a
  {
    var own := Fetched(table, JoinOwner, {a}, limit);
    var list := GroupsOf(own, a);
    GroupsOfExact(own, a);
    FetchedAlone(table, JoinOwner, a, limit);
    if list != [] {
      assert Lists(list, list[0].groupID);
    }
    if own != [] {
      assert own[0] in own && Joins(own, |own|, a, own[0].groupID);
    }
  }

  lemma NodeGroupsIff(groups: seq<Group>, table: seq<JoinRow>, limit: nat, rows: seq<AccountRow>, i: nat)
    requires i < |rows| && ReadFrom(groups, BatchedGroups(table, limit, rows, i))
    ensures ReadFrom(groups, GroupsOf(Fetched(table, JoinOwner, {rows[i].id}, limit), rows[i].id))
            <==> ServesGroups(table, limit, rows, i)
  {
    var a := rows[i].id;
    var own, batch := Fetched(table, JoinOwner, {a}, limit), Fetched(table, JoinOwner, RowIDs(rows), limit);
    NoGroupsIff(table, limit, a);
    SameFacesIff(own, batch, a);
    ReadFacesIff(groups, BatchedGroups(table, limit, rows, i), GroupsOf(own, a));
  }

  /**
   The nodes have the groups that each account would get on its own, names included and in the same order, exactly
   when the batch serves all of them.
   */
  lemma GroupsAgreeIff(nodes: seq<Account>, plan: Plan, db: Database, rows: seq<AccountRow>)
    requires Answers(nodes, plan, db, rows) && rows != [] && plan.withGroups.Some?
    ensures var table, limit := db.joins.value, plan.withGroups.value;
            (forall i :: 0 <= i < |rows| ==>
               ReadFrom(nodes[i].groups, GroupsOf(Fetched(table, JoinOwner, {rows[i].id}, limit), rows[i].id)))
            <==> forall i :: 0 <= i < |rows| ==> ServesGroups(table, limit, rows, i)
  {
    var table, limit := db.joins.value, plan.withGroups.value;
    forall i | 0 <= i < |rows|
      ensures ReadFrom(nodes[i].groups, GroupsOf(Fetched(table, JoinOwner, {rows[i].id}, limit), rows[i].id))
              <==> ServesGroups(table, limit, rows, i)
    {
      assert EdgesAgree(nodes[i], plan, db, rows, i);
      NodeGroupsIff(nodes[i].groups, table, limit, rows, i);
    }
  }

  /** Without a limit, and since group IDs are unique, all that can go wrong for a last account is the order. */
  lemma UnlimitedServesIff(table: seq<JoinRow>, rows: seq<AccountRow>, i: nat)
    requires i < |rows| && LastRow(rows, i) && NamesByID(table)
    ensures var a := rows[i].id;
            ServesGroups(table, 0, rows, i)
            <==> OrderKept(Owned(table, JoinOwner, {a}), Owned(table, JoinOwner, RowIDs(rows)), a)
  {
    BatchJoinsKept(table, RowIDs(rows), rows[i].id);
    NamesAreKept(table, RowIDs(rows), 0, rows[i].id);
  }

  // ----- Proxies -----

  /** The IDs of the rows are unique. */
  ghost predicate PrimaryKey(table: seq<ProxyRow>) {
    forall k, l :: 0 <= k < l < |table| ==> table[k].id != table[l].id
  }

  lemma {:induction false} OneRow(table: seq<ProxyRow>, id: int)
    requires PrimaryKey(table)
    ensures |RowsFor(table, ProxyKey, id)| <= 1
  {
    if table != [] {
      OneRow(table[1..], id);
      if table[0].id == id {
        RowsForCounts(table[1..], ProxyKey, id);
      }
    }
  }

  lemma FewRows(table: seq<ProxyRow>, keys: set<int>, limit: nat, fk: int)
    requires PrimaryKey(table) && fk in keys
    ensures |RowsFor(Fetched(table, ProxyKey, keys, limit), ProxyKey, fk)| <= 1
  {
    var found, cut := Owned(table, ProxyKey, keys), Fetched(table, ProxyKey, keys, limit);
    OneRow(table, fk);
    RowsOfBatch(table, ProxyKey, keys, fk);
    if cut != found {
      assert found == cut + found[limit..];
      RowsForConcat(cut, found[limit..], ProxyKey, fk);
    }
  }

  /** A query for one owner alone returns rows of its own only. */
  lemma AloneIsOwn<R(!new)>(table: seq<R>, owner: R -> int, a: int, limit: nat)
    ensures RowsFor(Fetched(table, owner, {a}, limit), owner, a) == Limited(RowsFor(table, owner, a), limit)
  {
    var own := Owned(table, owner, {a});
    forall k | 0 <= k < |own| ensures owner(own[k]) == a {
      assert own[k] in own;
    }
    LimitAgreesIff(table, owner, {a}, a, limit);
  }

  /** With unique IDs, an account gets the proxy of a query of its own exactly when the cut is fair to its key. */
  lemma BatchedProxyIff(table: seq<ProxyRow>, keys: set<int>, limit: nat, fk: int)
    requires PrimaryKey(table) && fk in keys
    ensures ProxyRowByID(Fetched(table, ProxyKey, keys, limit), fk)
            == ProxyRowByID(Fetched(table, ProxyKey, {fk}, limit), fk)
            <==> CutFair(Owned(table, ProxyKey, keys), ProxyKey, fk, limit)
  {
    var batch := RowsFor(Fetched(table, ProxyKey, keys, limit), ProxyKey, fk);
    var alone := RowsFor(Fetched(table, ProxyKey, {fk}, limit), ProxyKey, fk);
    FewRows(table, keys, limit, fk);
    FewRows(table, {fk}, limit, fk);
    ShortLastOf(batch, alone);
    LimitAgreesIff(table, ProxyKey, keys, fk, limit);
    AloneIsOwn(table, ProxyKey, fk, limit);
  }

  lemma IsProxyUnique(p: Proxy?, row: Option<ProxyRow>, row': Option<ProxyRow>)
    requires IsProxy(p, row)
    ensures IsProxy(p, row') <==> row == row'
  {}

  /** The nodes have the proxies that each account would get on its own exactly when the cut is fair to all keys. */
  lemma ProxiesAgreeIff(nodes: seq<Account>, plan: Plan, db: Database, rows: seq<AccountRow>)
    requires Answers(nodes, plan, db, rows) && plan.withProxy.Some? && RowProxyKeys(rows) != {}
    requires db.proxies.Success? && PrimaryKey(db.proxies.value)
    ensures var table, limit := db.proxies.value, plan.withProxy.value;
            (forall i :: 0 <= i < |rows| && rows[i].proxyID.Some? ==>
               var fk := rows[i].proxyID.value;
               IsProxy(nodes[i].proxy, ProxyRowByID(Fetched(table, ProxyKey, {fk}, limit), fk)))
            <==> forall fk :: fk in RowProxyKeys(rows) ==>
                                CutFair(Owned(table, ProxyKey, RowProxyKeys(rows)), ProxyKey, fk, limit)
  {
    var table, limit, keys := db.proxies.value, plan.withProxy.value, RowProxyKeys(rows);
    forall i | 0 <= i < |rows| && rows[i].proxyID.Some?
      ensures var fk := rows[i].proxyID.value;
              && fk in keys
              && (IsProxy(nodes[i].proxy, ProxyRowByID(Fetched(table, ProxyKey, {fk}, limit), fk))
                  <==> CutFair(Owned(table, ProxyKey, keys), ProxyKey, fk, limit))
    {
      var fk := rows[i].proxyID.value;
      assert EdgesAgree(nodes[i], plan, db, rows, i) && fk in keys;
      BatchedProxyIff(table, keys, limit, fk);
      IsProxyUnique(nodes[i].proxy, ProxyRowByID(Fetched(table, ProxyKey, keys, limit), fk),
                    ProxyRowByID(Fetched(table, ProxyKey, {fk}, limit), fk));
    }
    forall fk | fk in keys ensures exists i :: 0 <= i < |rows| && rows[i].proxyID == Some(fk) {
      var i :| 0 <= i < |rows| && rows[i].proxyID.Some? && rows[i].proxyID.value == fk;
      assert rows[i].proxyID == Some(fk);
    }
  }

  // ----- The proxy buckets -----

  /** The buckets of these keys among the first n nodes, taken together. */
  ghost function Buckets(nodes: seq<Account>, n: nat, keys: seq<int>): multiset<Account>
    requires n <= |nodes|
  {
    if keys == [] then multiset{} else multiset(WithProxy(nodes, n, keys[0])) + Buckets(nodes, n, keys[1..])
  }

  /** The n-th node, if its proxy key is one of `keys`. */
  ghost function Last(nodes: seq<Account>, n: nat, keys: seq<int>): multiset<Account>
    requires 0 < n <= |nodes|
  {
    var last := nodes[n - 1];
    if last.proxyID.Some? && last.proxyID.value in keys then multiset{last} else multiset{}
  }

  /** The nodes among the first n that have a proxy key. */
  ghost function Keyed(nodes: seq<Account>, n: nat): multiset<Account>
    requires n <= |nodes|
  {
    if n == 0 then multiset{}
    else if nodes[n - 1].proxyID.Some? then Keyed(nodes, n - 1) + multiset{nodes[n - 1]}
    else Keyed(nodes, n - 1)
  }

  ghost predicate Distinct(keys: seq<int>) {
    forall k, l :: 0 <= k < l < |keys| ==> keys[k] != keys[l]
  }

  lemma BucketNext(nodes: seq<Account>, n: nat, fk: int)
    requires 0 < n <= |nodes|
    ensures multiset(WithProxy(nodes, n, fk)) == multiset(WithProxy(nodes, n - 1, fk)) + Last(nodes, n, [fk])
  {}

  /** The n-th node joins the one bucket of its key, if that is among the keys. */
  lemma {:induction false} BucketsNext(nodes: seq<Account>, n: nat, keys: seq<int>)
    requires 0 < n <= |nodes| && Distinct(keys)
    ensures Buckets(nodes, n, keys) == Buckets(nodes, n - 1, keys) + Last(nodes, n, keys)
  {
    if keys != [] {
      var rest := keys[1..];
      assert keys == [keys[0]] + rest && keys[0] !in rest;
      BucketsNext(nodes, n, rest);
      BucketNext(nodes, n, keys[0]);
      assert Last(nodes, n, keys) == Last(nodes, n, [keys[0]]) + Last(nodes, n, rest);
    }
  }

  lemma {:induction false} NoBuckets(nodes: seq<Account>, keys: seq<int>)
    ensures Buckets(nodes, 0, keys) == multiset{}
  {
    if keys != [] {
      NoBuckets(nodes, keys[1..]);
    }
  }

  lemma {:induction false} BucketsHoldKeyed(nodes: seq<Account>, n: nat, keys: seq<int>)
    requires n <= |nodes| && Distinct(keys)
    requires forall i :: 0 <= i < n && nodes[i].proxyID.Some? ==> nodes[i].proxyID.value in keys
    ensures Buckets(nodes, n, keys) == Keyed(nodes, n)
  {
    if n == 0 {
      NoBuckets(nodes, keys);
    } else {
      BucketsHoldKeyed(nodes, n - 1, keys);
      BucketsNext(nodes, n, keys);
    }
  }

  /** The buckets of the collected keys together hold exactly the nodes that have a key, as often as they are listed. */
  lemma BucketsPermute(nodes: seq<Account>)
    ensures Buckets(nodes, |nodes|, ProxyKeys(nodes, |nodes|)) == Keyed(nodes, |nodes|)
  {
    var keys := ProxyKeys(nodes, |nodes|);
    ProxyKeysExact(nodes, |nodes|);
    forall i | 0 <= i < |nodes| && nodes[i].proxyID.Some? ensures nodes[i].proxyID.value in keys {
      var fk := nodes[i].proxyID.value;
      assert nodes[i].proxyID == Some(fk);
      assert fk in keys;
    }
    BucketsHoldKeyed(nodes, |nodes|, keys);
  }
}
