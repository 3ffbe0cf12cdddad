/**
 The joins that eager loading must agree with, on rows alone: what one account gets for each edge, and
 the laws that tie what the loads compute to them.
 */
module JoinLaws {
  import opened Wrappers
  import opened Entities
  import opened Rows
  import opened GroupJoin
  import opened ForeignKeys

  // ----- Groups -----

  /** The groups of account a among the first n of `firsts`: the nested-loop join. */
  ghost function JoinedRows(firsts: seq<JoinRow>, n: nat, rows: seq<JoinRow>, a: int): seq<JoinRow>
    requires n <= |firsts|
  {
    if n == 0 then []
    else if Joins(rows, |rows|, a, firsts[n - 1].groupID) then JoinedRows(firsts, n - 1, rows, a) + [firsts[n - 1]]
    else JoinedRows(firsts, n - 1, rows, a)
  }

  /** The groups of account a, in the order in which the joined query first meets them. */
  ghost function GroupsOf(rows: seq<JoinRow>, a: int): seq<JoinRow> {
    JoinedRows(FirstRows(rows, |rows|), |FirstRows(rows, |rows|)|, rows, a)
  }

  lemma {:induction false} JoinedReadFrom(neighbors: seq<Group>, n: nat, rows: seq<JoinRow>, a: int)
    requires ReadFrom(neighbors, FirstRows(rows, |rows|)) && n <= |neighbors|
    ensures ReadFrom(JoinedWith(neighbors, n, rows, a), JoinedRows(FirstRows(rows, |rows|), n, rows, a))
  {
    if n > 0 {
      JoinedReadFrom(neighbors, n - 1, rows, a);
    }
  }

  /** Group g turns up before group h does (so they differ). */
  ghost predicate AppearsBefore(rows: seq<JoinRow>, g: int, h: int) {
    exists i :: 0 <= i < |rows| && rows[i].groupID == g && !HasGroup(rows, i + 1, h)
  }

  /** Distinct groups, in the order of their first appearance in `rows`. */
  ghost predicate InOrder(list: seq<JoinRow>, rows: seq<JoinRow>) {
    forall k, l :: 0 <= k < l < |list| ==> AppearsBefore(rows, list[k].groupID, list[l].groupID)
  }

  ghost predicate Lists(list: seq<JoinRow>, g: int) {
    exists k :: 0 <= k < |list| && list[k].groupID == g
  }

  lemma NewGroupIsLater(rows: seq<JoinRow>, n: nat, g: int)
    requires n < |rows| && HasGroup(rows, n, g) && !HasGroup(rows, n, rows[n].groupID)
    ensures AppearsBefore(rows, g, rows[n].groupID)
  {}

  lemma ListsSnoc(list: seq<JoinRow>, r: JoinRow, g: int)
    ensures Lists(list + [r], g) <==> Lists(list, g) || r.groupID == g
  {
    var both := list + [r];
    assert both[|list|] == r && forall k :: 0 <= k < |list| ==> both[k] == list[k];
  }

  lemma HasGroupNext(rows: seq<JoinRow>, n: nat, g: int)
    requires 0 < n <= |rows|
    ensures HasGroup(rows, n, g) <==> HasGroup(rows, n - 1, g) || rows[n - 1].groupID == g
  {}

  lemma {:induction false} FirstRowsList(rows: seq<JoinRow>, n: nat, g: int)
    requires n <= |rows|
    ensures Lists(FirstRows(rows, n), g) <==> HasGroup(rows, n, g)
  {
    if n > 0 {
      FirstRowsList(rows, n - 1, g);
      HasGroupNext(rows, n, g);
      ListsSnoc(FirstRows(rows, n - 1), rows[n - 1], g);
    }
  }

  lemma InOrderSnoc(list: seq<JoinRow>, r: JoinRow, rows: seq<JoinRow>)
    requires InOrder(list, rows)
    requires forall k :: 0 <= k < |list| ==> AppearsBefore(rows, list[k].groupID, r.groupID)
    ensures InOrder(list + [r], rows)
  {}

  /** The groups created while the first n rows are read: those seen, each once, in the order of first appearance. */
  lemma {:induction false} FirstRowsExact(rows: seq<JoinRow>, n: nat)
    requires n <= |rows|
    ensures InOrder(FirstRows(rows, n), rows)
    ensures forall g :: Lists(FirstRows(rows, n), g) <==> HasGroup(rows, n, g)
  {
    if n > 0 {
      FirstRowsExact(rows, n - 1);
      var before, r := FirstRows(rows, n - 1), rows[n - 1];
      if !HasGroup(rows, n - 1, r.groupID) {
        forall k | 0 <= k < |before| ensures AppearsBefore(rows, before[k].groupID, r.groupID) {
          assert Lists(before, before[k].groupID);
          NewGroupIsLater(rows, n - 1, before[k].groupID);
        }
        InOrderSnoc(before, r, rows);
      }
    }
    forall g ensures Lists(FirstRows(rows, n), g) <==> HasGroup(rows, n, g) {
      FirstRowsList(rows, n, g);
    }
  }

  lemma {:induction false} JoinedRowsExact(firsts: seq<JoinRow>, n: nat, rows: seq<JoinRow>, a: int)
    requires n <= |firsts| && InOrder(firsts, rows)
    ensures var list := JoinedRows(firsts, n, rows, a);
            && InOrder(list, rows)
            && (forall k :: 0 <= k < |list| ==> list[k] in firsts[..n])
            && (forall g :: Lists(list, g) <==> Lists(firsts[..n], g) && Joins(rows, |rows|, a, g))
  {
    if n > 0 {
      JoinedRowsExact(firsts, n - 1, rows, a);
      var before, r := JoinedRows(firsts, n - 1, rows, a), firsts[n - 1];
      assert firsts[..n] == firsts[..n - 1] + [r];
      forall g
        ensures Lists(JoinedRows(firsts, n, rows, a), g) <==> Lists(firsts[..n], g) && Joins(rows, |rows|, a, g)
      {
        ListsSnoc(before, r, g);
        ListsSnoc(firsts[..n - 1], r, g);
      }
    }
  }

  /**
   The groups of an account are exactly those it is joined with, each once, in the order of their first
   appearance among the rows of all accounts.
   */
  lemma GroupsOfExact(rows: seq<JoinRow>, a: int)
    ensures InOrder(GroupsOf(rows, a), rows)
    ensures forall g :: Lists(GroupsOf(rows, a), g) <==> Joins(rows, |rows|, a, g)
  {
    var firsts := FirstRows(rows, |rows|);
    FirstRowsExact(rows, |rows|);
    JoinedRowsExact(firsts, |firsts|, rows, a);
    assert firsts[..|firsts|] == firsts;
    forall g | Joins(rows, |rows|, a, g) ensures HasGroup(rows, |rows|, g) {
    }
  }

  /** Groups in order are pairwise distinct. */
  lemma InOrderDistinct(list: seq<JoinRow>, rows: seq<JoinRow>)
    requires InOrder(list, rows)
    ensures forall k, l :: 0 <= k < l < |list| ==> list[k].groupID != list[l].groupID
  {}

  /** The batched query sees every row of its accounts. */
  lemma BatchKeepsJoins(table: seq<JoinRow>, keys: set<int>, a: int, g: int)
    requires a in keys
    ensures var rows := Owned(table, JoinOwner, keys); Joins(rows, |rows|, a, g) <==> Joins(table, |table|, a, g)
  {
    var rows := Owned(table, JoinOwner, keys);
    if i :| 0 <= i < |table| && table[i].accountID == a && table[i].groupID == g {
      assert table[i] in table && table[i] in rows;
      var j :| 0 <= j < |rows| && rows[j] == table[i];
    }
    if j :| 0 <= j < |rows| && rows[j].accountID == a && rows[j].groupID == g {
      assert rows[j] in rows && rows[j] in table;
      var i :| 0 <= i < |table| && table[i] == rows[j];
    }
  }

  // ----- Logs and links: a stable partition -----

  /** The logs that an account gets were read from its rows, in their order. */
  lemma LogsForAreRows(logs: seq<UsageLog>, rows: seq<LogRow>, a: int)
    requires ReadLogs(logs, rows)
    ensures ReadLogs(OwnedBy(logs, OfAccount, |logs|, a), RowsFor(rows, LogOwner, a))
  {
    OwnedByReads(logs, OfAccount, rows, LogOwner, IsLog, |logs|, a);
    assert rows[..|logs|] == rows;
  }

  lemma LinksForAreRows(links: seq<AccountGroup>, rows: seq<LinkRow>, a: int)
    requires ReadLinks(links, rows)
    ensures ReadLinks(OwnedBy(links, LinkedAccount, |links|, a), RowsFor(rows, LinkOwner, a))
  {
    OwnedByReads(links, LinkedAccount, rows, LinkOwner, IsLink, |links|, a);
    assert rows[..|links|] == rows;
  }

  // ----- Proxies -----

  /** The last row of the table with the ID: the per-account lookup (the only one, for a primary key). */
  function ProxyRowByID(table: seq<ProxyRow>, id: int): Option<ProxyRow> {
    LastOf(RowsFor(table, ProxyKey, id))
  }

  /** The proxy is the one of the row, or there is neither. */
  ghost predicate IsProxy(p: Proxy?, row: Option<ProxyRow>) {
    match row
    case None => p == null
    case Some(r) => p != null && IsProxyRow(p, r)
  }

  ghost predicate IsProxyRow(p: Proxy, r: ProxyRow) {
    p.id == r.id && p.host == r.host
  }

  /** The edge of a node without one becomes the row that a lookup finds in the returned rows. */
  lemma ResolvedIsRow(proxies: seq<Proxy>, rows: seq<ProxyRow>, key: int)
    requires ReadProxies(proxies, rows)
    ensures IsProxy(Resolved(proxies, |proxies|, Some(key), null), ProxyRowByID(rows, key))
  {
    OwnedByReads(proxies, ProxyID, rows, ProxyKey, IsProxyRow, |proxies|, key);
    assert rows[..|proxies|] == rows;
  }

  /** The batch has the row of every key in it. */
  lemma ProxiesOfBatch(table: seq<ProxyRow>, keys: set<int>, id: int)
    requires id in keys
    ensures ProxyRowByID(Owned(table, ProxyKey, keys), id) == ProxyRowByID(table, id)
  {
    RowsOfBatch(table, ProxyKey, keys, id);
  }

  /** The key list of loadProxy: every non-nil key, each once. */
  lemma {:induction false} ProxyKeysExact(nodes: seq<Account>, n: nat)
    requires n <= |nodes|
    ensures forall fk :: fk in ProxyKeys(nodes, n) <==> HasKey(nodes, n, fk)
    ensures forall k, l :: 0 <= k < l < |ProxyKeys(nodes, n)| ==> ProxyKeys(nodes, n)[k] != ProxyKeys(nodes, n)[l]
  {
    if n > 0 {
      ProxyKeysExact(nodes, n - 1);
      forall fk ensures fk in ProxyKeys(nodes, n) <==> HasKey(nodes, n, fk) {
        HasKeyNext(nodes, n, fk);
      }
    }
  }

  /** One of the first n nodes has the proxy key. */
  ghost predicate HasKey(nodes: seq<Account>, n: nat, fk: int)
    requires n <= |nodes|
  {
    exists i :: 0 <= i < n && nodes[i].proxyID == Some(fk)
  }

  lemma HasKeyNext(nodes: seq<Account>, n: nat, fk: int)
    requires 0 < n <= |nodes|
    ensures HasKey(nodes, n, fk) <==> HasKey(nodes, n - 1, fk) || nodes[n - 1].proxyID == Some(fk)
  {
    if i :| 0 <= i < n && nodes[i].proxyID == Some(fk) {
      assert i < n - 1 || nodes[n - 1].proxyID == Some(fk);
    }
  }
}
