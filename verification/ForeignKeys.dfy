/**
 Eager loading along foreign keys: loadProxy (many accounts to one proxy), loadUsageLogs and
 loadAccountGroups (one account to many rows), in backend/ent/account_query.go.
 */
module ForeignKeys {
  import opened Wrappers
  import opened Entities
  import opened Rows
  import opened GroupJoin

  // ----- loadProxy -----

  /** The proxy keys of the first n nodes, each once, in order of first occurrence. */
  ghost function ProxyKeys(nodes: seq<Account>, n: nat): seq<int>
    requires n <= |nodes|
  {
    if n == 0 then []
    else
      var before := ProxyKeys(nodes, n - 1);
      match nodes[n - 1].proxyID
      case None => before
      case Some(fk) => if fk in before then before else before + [fk]
  }

  /** The first n nodes with that proxy key, in order. */
  ghost function WithProxy(nodes: seq<Account>, n: nat, fk: int): seq<Account>
    requires n <= |nodes|
  {
    if n == 0 then []
    else WithProxy(nodes, n - 1, fk) + if nodes[n - 1].proxyID == Some(fk) then [nodes[n - 1]] else []
  }

  lemma {:induction false} WithProxyMembers(nodes: seq<Account>, n: nat, fk: int)
    requires n <= |nodes|
    ensures forall a :: a in WithProxy(nodes, n, fk) <==> a in nodes[..n] && a.proxyID == Some(fk)
  {
    if n > 0 {
      WithProxyMembers(nodes, n - 1, fk);
      assert nodes[..n] == nodes[..n - 1] + [nodes[n - 1]];
    }
  }

  lemma {:induction false} NotAKey(nodes: seq<Account>, n: nat, fk: int)
    requires n <= |nodes| && fk !in ProxyKeys(nodes, n)
    ensures WithProxy(nodes, n, fk) == []
  {
    if n > 0 {
      NotAKey(nodes, n - 1, fk);
    }
  }

  /** nodeids after n nodes: their keys, each with its nodes. */
  ghost predicate Bucketed(nodes: seq<Account>, n: nat, nodeids: map<int, seq<Account>>)
    requires n <= |nodes|
  {
    && (forall fk :: fk in nodeids <==> fk in ProxyKeys(nodes, n))
    && (forall fk :: fk in nodeids ==> nodeids[fk] == WithProxy(nodes, n, fk))
  }

  lemma BucketedSkip(nodes: seq<Account>, n: nat, nodeids: map<int, seq<Account>>)
    requires n < |nodes| && Bucketed(nodes, n, nodeids) && nodes[n].proxyID.None?
    ensures Bucketed(nodes, n + 1, nodeids)
  {
    forall fk | fk in nodeids ensures nodeids[fk] == WithProxy(nodes, n + 1, fk) {
    }
  }

  lemma BucketedNext(nodes: seq<Account>, n: nat, nodeids: map<int, seq<Account>>, fk: int)
    requires n < |nodes| && Bucketed(nodes, n, nodeids) && nodes[n].proxyID == Some(fk)
    ensures var bucket := if fk in nodeids then nodeids[fk] else [];
            Bucketed(nodes, n + 1, nodeids[fk := bucket + [nodes[n]]])
  {
    var bucket := if fk in nodeids then nodeids[fk] else [];
    if fk !in nodeids {
      NotAKey(nodes, n, fk);
    }
    var after := nodeids[fk := bucket + [nodes[n]]];
    forall k ensures k in after <==> k in ProxyKeys(nodes, n + 1) {
    }
    forall k | k in after ensures after[k] == WithProxy(nodes, n + 1, k) {
    }
  }

  /** The keys after one more node. */
  lemma ProxyKeysNext(nodes: seq<Account>, n: nat, fk: int)
    requires n < |nodes| && nodes[n].proxyID == Some(fk)
    ensures var before := ProxyKeys(nodes, n);
            ProxyKeys(nodes, n + 1) == if fk in before then before else before + [fk]
  {}

  /** What the edge of a node becomes: the last of the first n proxies with its key, or what it was. */
  ghost function Resolved(proxies: seq<Proxy>, n: nat, key: Option<int>, before: Proxy?): Proxy?
    requires n <= |proxies|
  {
    if key.None? then before
    else
      var found := OwnedBy(proxies, ProxyID, n, key.value);
      if found == [] then before else found[|found| - 1]
  }

  ghost predicate ReadProxies(proxies: seq<Proxy>, rows: seq<ProxyRow>) {
    |proxies| == |rows|
    && forall k :: 0 <= k < |rows| ==> proxies[k].id == rows[k].id && proxies[k].host == rows[k].host
  }

  method QueryProxies(table: seq<ProxyRow>, keys: set<int>, limit: nat) returns (proxies: seq<Proxy>)
    ensures ReadProxies(proxies, Fetched(table, ProxyKey, keys, limit))
    ensures forall p :: p in proxies ==> fresh(p) && p.id in keys
  {
    var rows := Fetched(table, ProxyKey, keys, limit);
    proxies := [];
    for i := 0 to |rows|
      invariant |proxies| == i
      invariant forall k :: 0 <= k < i ==> proxies[k].id == rows[k].id && proxies[k].host == rows[k].host
      invariant forall k :: 0 <= k < i ==> fresh(proxies[k])
    {
      var p := new Proxy(rows[i]);
      proxies := proxies + [p];
    }
    assert forall k :: 0 <= k < |rows| ==> rows[k] in rows;
  }

  /** The first loop of loadProxy: the distinct keys and the nodes that share each of them. */
  method CollectProxyKeys(nodes: seq<Account>) returns (ids: seq<int>, nodeids: map<int, seq<Account>>)
    ensures ids == ProxyKeys(nodes, |nodes|)
    ensures Bucketed(nodes, |nodes|, nodeids)
  {
    ids, nodeids := [], map[];
    for i := 0 to |nodes|
      invariant ids == ProxyKeys(nodes, i) && Bucketed(nodes, i, nodeids)
    {
      if nodes[i].proxyID.None? {
        BucketedSkip(nodes, i, nodeids);
        continue;
      }
      var fk := nodes[i].proxyID.value;
      ProxyKeysNext(nodes, i, fk);
      BucketedNext(nodes, i, nodeids, fk);
      if fk !in nodeids {
        ids := ids + [fk];
        nodeids := nodeids[fk := []];
      }
      nodeids := nodeids[fk := nodeids[fk] + [nodes[i]]];
    }
  }

  /** The assignments of one returned proxy to the nodes that share its key. */
  method AssignProxy(sharers: seq<Account>, n: Proxy, ghost nodes: seq<Account>)
    requires forall a :: a in sharers ==> a in nodes
    modifies nodes`proxy
    ensures forall a :: a in nodes ==> a.proxy == if a in sharers then n else old(a.proxy)
  {
    for i := 0 to |sharers|
      invariant forall a :: a in nodes ==> a.proxy == if a in sharers[..i] then n else old(a.proxy)
    {
      assert sharers[..i + 1] == sharers[..i] + [sharers[i]];
      assert sharers[i] in sharers && sharers[i] in nodes;
      sharers[i].proxy := n;
    }
    assert sharers[..|sharers|] == sharers;
  }

  /** The second loop: each returned proxy goes to the nodes of its bucket. */
  method DistributeProxies(nodes: seq<Account>, proxies: seq<Proxy>, nodeids: map<int, seq<Account>>)
    returns (err: Option<QueryError>)
    requires forall fk :: fk in nodeids ==> nodeids[fk] == WithProxy(nodes, |nodes|, fk)
    modifies nodes`proxy
    ensures err.None? <==> forall k :: 0 <= k < |proxies| ==> proxies[k].id in nodeids
    ensures err.None? ==>
              forall n :: n in nodes ==> n.proxy == Resolved(proxies, |proxies|, n.proxyID, old(n.proxy))
  {
    assert nodes[..|nodes|] == nodes;
    for k := 0 to |proxies|
      invariant forall j :: 0 <= j < k ==> proxies[j].id in nodeids
      invariant forall n :: n in nodes ==> n.proxy == Resolved(proxies, k, n.proxyID, old(n.proxy))
    {
      var n := proxies[k];
      if n.id !in nodeids {
        return Some(UnexpectedNode("proxy_id", n.id));
      }
      WithProxyMembers(nodes, |nodes|, n.id);
      AssignProxy(nodeids[n.id], n, nodes);
    }
    return None;
  }

  /** loadProxy: every node gets the returned proxy with its key, or keeps the edge it had. */
  method LoadProxy(nodes: seq<Account>, limit: nat, table: Answer<ProxyRow>)
    returns (err: Option<QueryError>, ghost neighbors: seq<Proxy>)
    modifies nodes`proxy
    ensures err == if ProxyKeys(nodes, |nodes|) != [] && table.Failure? then Some(table.error) else None
    ensures table.Failure? ==> neighbors == []
    ensures table.Success? ==>
              var keys := set fk | fk in ProxyKeys(nodes, |nodes|);
              ReadProxies(neighbors, Fetched(table.value, ProxyKey, keys, limit))
    ensures forall p :: p in neighbors ==> fresh(p)
    ensures forall n :: n in nodes ==> n.proxy == Resolved(neighbors, |neighbors|, n.proxyID, old(n.proxy))
  {
    neighbors := [];
    var ids, nodeids := CollectProxyKeys(nodes);
    var keys := set fk | fk in ids;
    if |ids| == 0 {
      if table.Success? {
        assert keys == {};
        NoKeys(table.value, ProxyKey);
      }
      return None, [];
    }
    if table.Failure? {
      return Some(table.error), [];
    }
    var proxies := QueryProxies(table.value, keys, limit);
    neighbors := proxies;
    err := DistributeProxies(nodes, proxies, nodeids);
  }

  // ----- One account to many rows -----

  /** AppendFieldOnce on the selected fields of a query, when it selects at all. */
  function WithField(fields: seq<string>, field: string): seq<string> {
    if |fields| > 0 && field !in fields then fields + [field] else fields
  }

  /** Whether a query with these selected fields reads the column: no selection means every column. */
  predicate Selects(fields: seq<string>, field: string) {
    fields == [] || field in fields
  }

  /** What a node gets of the rows that were read: the last node of an ID takes all rows of the ID. */
  ghost function Portion<N>(nodes: seq<Account>, read: seq<N>, owner: N -> int, n: nat, a: Account): seq<N>
    requires n <= |read|
  {
    if Holder(nodes, |nodes|, a.id) == a then OwnedBy(read, owner, n, a.id) else []
  }

  lemma PortionsNext<N>(nodes: seq<Account>, read: seq<N>, owner: N -> int, n: nat, node: Account)
    requires n < |read| && Holder(nodes, |nodes|, owner(read[n])) == node
    ensures forall a :: a in nodes ==>
              Portion(nodes, read, owner, n + 1, a)
              == Portion(nodes, read, owner, n, a) + if a == node then [read[n]] else []
  {}

  /** How many of the first n rows the first m nodes get. */
  ghost function Handed<N>(nodes: seq<Account>, read: seq<N>, owner: N -> int, n: nat, m: nat): nat
    requires n <= |read| && m <= |nodes|
  {
    if m == 0 then 0 else Handed(nodes, read, owner, n, m - 1) + |Portion(nodes, read, owner, n, nodes[m - 1])|
  }

  ghost predicate DistinctNodes(nodes: seq<Account>) {
    forall i, j :: 0 <= i < j < |nodes| ==> nodes[i] != nodes[j]
  }

  lemma {:induction false} HolderOfKey(nodes: seq<Account>, n: nat, id: int)
    requires n <= |nodes| && id in Keys(nodes, n)
    ensures Holder(nodes, n, id) != null
  {
    if nodes[n - 1].id != id {
      HolderOfKey(nodes, n - 1, id);
    }
  }

  /** One more row is one more row for the one node that holds its ID. */
  lemma {:induction false} HandedNext<N>(nodes: seq<Account>, read: seq<N>, owner: N -> int, n: nat, m: nat)
    requires n < |read| && m <= |nodes| && DistinctNodes(nodes)
    ensures Handed(nodes, read, owner, n + 1, m)
            == Handed(nodes, read, owner, n, m)
               + if Holder(nodes, |nodes|, owner(read[n])) in nodes[..m] then 1 else 0
  {
    if m > 0 {
      HandedNext(nodes, read, owner, n, m - 1);
      assert nodes[..m] == nodes[..m - 1] + [nodes[m - 1]];
      assert nodes[m - 1] !in nodes[..m - 1];
    }
  }

  lemma {:induction false} NoneHanded<N>(nodes: seq<Account>, read: seq<N>, owner: N -> int, m: nat)
    requires m <= |nodes|
    ensures Handed(nodes, read, owner, 0, m) == 0
  {
    if m > 0 {
      NoneHanded(nodes, read, owner, m - 1);
    }
  }

  /** Conservation: no row is lost and none handed out twice, even among nodes that share an ID. */
  lemma {:induction false} RowsConserved<N>(nodes: seq<Account>, read: seq<N>, owner: N -> int, n: nat)
    requires n <= |read| && DistinctNodes(nodes)
    requires forall k :: 0 <= k < |read| ==> owner(read[k]) in Keys(nodes, |nodes|)
    ensures Handed(nodes, read, owner, n, |nodes|) == n
  {
    if n == 0 {
      NoneHanded(nodes, read, owner, |nodes|);
    } else {
      RowsConserved(nodes, read, owner, n - 1);
      HandedNext(nodes, read, owner, n - 1, |nodes|);
      HolderOfKey(nodes, |nodes|, owner(read[n - 1]));
      assert nodes[..|nodes|] == nodes;
    }
  }

  lemma {:induction false} SumIsHanded<N>(nodes: seq<Account>, read: seq<N>, owner: N -> int, sizes: seq<nat>, m: nat)
    requires m <= |nodes| == |sizes|
    requires forall j :: 0 <= j < |nodes| ==> sizes[j] == |Portion(nodes, read, owner, |read|, nodes[j])|
    ensures Sum(sizes[..m]) == Handed(nodes, read, owner, |read|, m)
  {
    if m > 0 {
      SumIsHanded(nodes, read, owner, sizes, m - 1);
      assert sizes[..m][..m - 1] == sizes[..m - 1];
    }
  }

  /** The lengths of the lists that the nodes get add up to the number of rows read. */
  lemma SizesConserved<N>(nodes: seq<Account>, read: seq<N>, owner: N -> int, sizes: seq<nat>)
    requires |nodes| == |sizes| && DistinctNodes(nodes)
    requires forall k :: 0 <= k < |read| ==> owner(read[k]) in Keys(nodes, |nodes|)
    requires forall j :: 0 <= j < |nodes| ==> sizes[j] == |Portion(nodes, read, owner, |read|, nodes[j])|
    ensures Sum(sizes) == |read|
  {
    SumIsHanded(nodes, read, owner, sizes, |nodes|);
    RowsConserved(nodes, read, owner, |read|);
    assert sizes[..|sizes|] == sizes;
  }

  // ----- loadUsageLogs -----

  ghost predicate ReadLogs(logs: seq<UsageLog>, rows: seq<LogRow>) {
    |logs| == |rows|
    && forall k :: 0 <= k < |rows| ==> IsLog(logs[k], rows[k])
  }

  ghost predicate IsLog(l: UsageLog, r: LogRow) {
    l.id == r.id && l.accountID == r.accountID
  }

  /** The query of the logs: an account_id that is not selected is read as 0. */
  method QueryLogs(table: seq<LogRow>, keys: set<int>, query: EdgeQuery) returns (logs: seq<UsageLog>)
    ensures |logs| == |Fetched(table, LogOwner, keys, query.limit)|
    ensures Selects(query.fields, "account_id") ==> ReadLogs(logs, Fetched(table, LogOwner, keys, query.limit))
    ensures Selects(query.fields, "account_id") ==> forall l :: l in logs ==> l.accountID in keys
    ensures forall l :: l in logs ==> fresh(l)
  {
    var rows := Fetched(table, LogOwner, keys, query.limit);
    var selected := Selects(query.fields, "account_id");
    logs := [];
    for i := 0 to |rows|
      invariant |logs| == i
      invariant selected ==> forall k :: 0 <= k < i ==> IsLog(logs[k], rows[k])
      invariant forall k :: 0 <= k < i ==> fresh(logs[k])
    {
      var l := new UsageLog(rows[i].id, if selected then rows[i].accountID else 0);
      logs := logs + [l];
    }
    assert forall k :: 0 <= k < |rows| ==> rows[k] in rows;
  }

  /** The loop that collects the keys and resets the edge. */
  method ResetLogs(nodes: seq<Account>) returns (fks: set<int>, nodeids: map<int, Account>)
    modifies nodes`usageLogs
    ensures ByID(nodes, |nodes|, nodeids) && fks == Keys(nodes, |nodes|)
    ensures forall n :: n in nodes ==> n.usageLogs == []
  {
    fks, nodeids := {}, map[];
    for i := 0 to |nodes|
      invariant ByID(nodes, i, nodeids) && fks == Keys(nodes, i)
      invariant forall j :: 0 <= j < i ==> nodes[j].usageLogs == []
    {
      fks := fks + {nodes[i].id};
      nodeids := nodeids[nodes[i].id := nodes[i]];
      nodes[i].usageLogs := [];
    }
  }

  method DistributeLogs(nodes: seq<Account>, logs: seq<UsageLog>, nodeids: map<int, Account>)
    returns (err: Option<QueryError>)
    requires ByID(nodes, |nodes|, nodeids)
    requires forall n :: n in nodes ==> n.usageLogs == []
    modifies nodes`usageLogs
    ensures err.None? <==> forall k :: 0 <= k < |logs| ==> logs[k].accountID in nodeids
    ensures err.None? ==> forall n :: n in nodes ==> n.usageLogs == Portion(nodes, logs, OfAccount, |logs|, n)
  {
    for k := 0 to |logs|
      invariant forall j :: 0 <= j < k ==> logs[j].accountID in nodeids
      invariant forall n :: n in nodes ==> n.usageLogs == Portion(nodes, logs, OfAccount, k, n)
    {
      var fk := logs[k].accountID;
      if fk !in nodeids {
        return Some(UnexpectedNode("account_id", fk));
      }
      var node := nodeids[fk];
      PortionsNext(nodes, logs, OfAccount, k, node);
      node.usageLogs := node.usageLogs + [logs[k]];
    }
    return None;
  }

  /** How many logs each node has. */
  ghost function LogCounts(nodes: seq<Account>): (sizes: seq<nat>)
    reads nodes
    ensures |sizes| == |nodes| && forall j :: 0 <= j < |nodes| ==> sizes[j] == |nodes[j].usageLogs|
  {
    seq(|nodes|, j requires 0 <= j < |nodes| reads nodes => |nodes[j].usageLogs|)
  }

  lemma LogsAddUp(nodes: seq<Account>, logs: seq<UsageLog>)
    requires DistinctNodes(nodes) && forall k :: 0 <= k < |logs| ==> logs[k].accountID in Keys(nodes, |nodes|)
    requires forall n :: n in nodes ==> n.usageLogs == Portion(nodes, logs, OfAccount, |logs|, n)
    ensures Sum(LogCounts(nodes)) == |logs|
  {
    forall j | 0 <= j < |nodes| ensures LogCounts(nodes)[j] == |Portion(nodes, logs, OfAccount, |logs|, nodes[j])| {
      assert nodes[j] in nodes;
    }
    SizesConserved(nodes, logs, OfAccount, LogCounts(nodes));
  }

  /** loadUsageLogs, whatever fields its query selects: a stable partition of the returned logs, none lost. */
  method LoadUsageLogs(nodes: seq<Account>, query: EdgeQuery, table: Answer<LogRow>)
    returns (err: Option<QueryError>, ghost neighbors: seq<UsageLog>)
    modifies nodes`usageLogs
    ensures err == if table.Failure? then Some(table.error) else None
    ensures table.Success? ==>
              && ReadLogs(neighbors, Fetched(table.value, LogOwner, Keys(nodes, |nodes|), query.limit))
              && (forall l :: l in neighbors ==> fresh(l))
              && (forall n :: n in nodes ==> n.usageLogs == Portion(nodes, neighbors, OfAccount, |neighbors|, n))
              && (DistinctNodes(nodes) ==> Sum(LogCounts(nodes)) == |neighbors|)
  {
    neighbors := [];
    var fks, nodeids := ResetLogs(nodes);
    var selected := query.(fields := WithField(query.fields, "account_id"));
    if table.Failure? {
      return Some(table.error), [];
    }
    var logs := QueryLogs(table.value, fks, selected);
    neighbors := logs;
    err := DistributeLogs(nodes, logs, nodeids);
    if DistinctNodes(nodes) {
      LogsAddUp(nodes, logs);
    }
  }

  // ----- loadAccountGroups: the rows of the join table themselves -----

  ghost predicate ReadLinks(links: seq<AccountGroup>, rows: seq<LinkRow>) {
    |links| == |rows|
    && forall k :: 0 <= k < |rows| ==> IsLink(links[k], rows[k])
  }

  ghost predicate IsLink(l: AccountGroup, r: LinkRow) {
    l.accountID == r.accountID && l.groupID == r.groupID
  }

  /** The query of the links: an account_id that is not selected is read as 0. */
  method QueryLinks(table: seq<LinkRow>, keys: set<int>, query: EdgeQuery) returns (links: seq<AccountGroup>)
    ensures |links| == |Fetched(table, LinkOwner, keys, query.limit)|
    ensures Selects(query.fields, "account_id") ==> ReadLinks(links, Fetched(table, LinkOwner, keys, query.limit))
    ensures Selects(query.fields, "account_id") ==> forall l :: l in links ==> l.accountID in keys
    ensures forall l :: l in links ==> fresh(l)
  {
    var rows := Fetched(table, LinkOwner, keys, query.limit);
    var selected := Selects(query.fields, "account_id");
    links := [];
    for i := 0 to |rows|
      invariant |links| == i
      invariant selected ==> forall k :: 0 <= k < i ==> IsLink(links[k], rows[k])
      invariant forall k :: 0 <= k < i ==> fresh(links[k])
    {
      var l := new AccountGroup(if selected then rows[i].accountID else 0, rows[i].groupID);
      links := links + [l];
    }
    assert forall k :: 0 <= k < |rows| ==> rows[k] in rows;
  }

  /** The loop that collects the keys and resets the edge. */
  method ResetLinks(nodes: seq<Account>) returns (fks: set<int>, nodeids: map<int, Account>)
    modifies nodes`accountGroups
    ensures ByID(nodes, |nodes|, nodeids) && fks == Keys(nodes, |nodes|)
    ensures forall n :: n in nodes ==> n.accountGroups == []
  {
    fks, nodeids := {}, map[];
    for i := 0 to |nodes|
      invariant ByID(nodes, i, nodeids) && fks == Keys(nodes, i)
      invariant forall j :: 0 <= j < i ==> nodes[j].accountGroups == []
    {
      fks := fks + {nodes[i].id};
      nodeids := nodeids[nodes[i].id := nodes[i]];
      nodes[i].accountGroups := [];
    }
  }

  method DistributeLinks(nodes: seq<Account>, links: seq<AccountGroup>, nodeids: map<int, Account>)
    returns (err: Option<QueryError>)
    requires ByID(nodes, |nodes|, nodeids)
    requires forall n :: n in nodes ==> n.accountGroups == []
    modifies nodes`accountGroups
    ensures err.None? <==> forall k :: 0 <= k < |links| ==> links[k].accountID in nodeids
    ensures err.None? ==>
              forall n :: n in nodes ==> n.accountGroups == Portion(nodes, links, LinkedAccount, |links|, n)
  {
    for k := 0 to |links|
      invariant forall j :: 0 <= j < k ==> links[j].accountID in nodeids
      invariant forall n :: n in nodes ==> n.accountGroups == Portion(nodes, links, LinkedAccount, k, n)
    {
      var fk := links[k].accountID;
      if fk !in nodeids {
        return Some(UnexpectedNode("account_id", fk));
      }
      var node := nodeids[fk];
      PortionsNext(nodes, links, LinkedAccount, k, node);
      node.accountGroups := node.accountGroups + [links[k]];
    }
    return None;
  }

  /** How many rows of the join table each node has. */
  ghost function LinkCounts(nodes: seq<Account>): (sizes: seq<nat>)
    reads nodes
    ensures |sizes| == |nodes| && forall j :: 0 <= j < |nodes| ==> sizes[j] == |nodes[j].accountGroups|
  {
    seq(|nodes|, j requires 0 <= j < |nodes| reads nodes => |nodes[j].accountGroups|)
  }

  lemma LinksAddUp(nodes: seq<Account>, links: seq<AccountGroup>)
    requires DistinctNodes(nodes) && forall k :: 0 <= k < |links| ==> links[k].accountID in Keys(nodes, |nodes|)
    requires forall n :: n in nodes ==> n.accountGroups == Portion(nodes, links, LinkedAccount, |links|, n)
    ensures Sum(LinkCounts(nodes)) == |links|
  {
    forall j | 0 <= j < |nodes|
      ensures LinkCounts(nodes)[j] == |Portion(nodes, links, LinkedAccount, |links|, nodes[j])|
    {
      assert nodes[j] in nodes;
    }
    SizesConserved(nodes, links, LinkedAccount, LinkCounts(nodes));
  }

  /** loadAccountGroups, whatever fields its query selects: the same for the returned links. */
  method LoadAccountGroups(nodes: seq<Account>, query: EdgeQuery, table: Answer<LinkRow>)
    returns (err: Option<QueryError>, ghost neighbors: seq<AccountGroup>)
    modifies nodes`accountGroups
    ensures err == if table.Failure? then Some(table.error) else None
    ensures table.Success? ==>
              && ReadLinks(neighbors, Fetched(table.value, LinkOwner, Keys(nodes, |nodes|), query.limit))
              && (forall l :: l in neighbors ==> fresh(l))
              && (forall n :: n in nodes ==>
                    n.accountGroups == Portion(nodes, neighbors, LinkedAccount, |neighbors|, n))
              && (DistinctNodes(nodes) ==> Sum(LinkCounts(nodes)) == |neighbors|)
  {
    neighbors := [];
    var fks, nodeids := ResetLinks(nodes);
    var selected := query.(fields := WithField(query.fields, "account_id"));
    if table.Failure? {
      return Some(table.error), [];
    }
    var links := QueryLinks(table.value, fks, selected);
    neighbors := links;
    err := DistributeLinks(nodes, links, nodeids);
    if DistinctNodes(nodes) {
      LinksAddUp(nodes, links);
    }
  }
}
