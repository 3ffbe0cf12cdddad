/**
 Eager loading of the groups edge (loadGroups in backend/ent/account_query.go): one query joins the groups
 of all accounts, a wrapped row callback creates each group once and notes in `nids` which accounts share
 it, and a last pass hands the groups out. The reference is the nested-loop join of JoinedWith.
 */
module GroupJoin {
  import opened Wrappers
  import opened Entities
  import opened Rows

  datatype QueryError = DriverError | UnexpectedNode(edge: string, id: int)

  ghost predicate HasGroup(rows: seq<JoinRow>, n: nat, g: int)
    requires n <= |rows|
  {
    exists i :: 0 <= i < n && rows[i].groupID == g
  }

  /** Account a is joined with group g by one of the first n rows. */
  ghost predicate Joins(rows: seq<JoinRow>, n: nat, a: int, g: int)
    requires n <= |rows|
  {
    exists i :: 0 <= i < n && rows[i].accountID == a && rows[i].groupID == g
  }

  /** For each group, the first of the n rows that has it, in row order. */
  ghost function FirstRows(rows: seq<JoinRow>, n: nat): seq<JoinRow>
    requires n <= |rows|
  {
    if n == 0 then []
    else if HasGroup(rows, n - 1, rows[n - 1].groupID) then FirstRows(rows, n - 1)
    else FirstRows(rows, n - 1) + [rows[n - 1]]
  }

  /** The nodes are the groups of the given rows, in order. */
  ghost predicate ReadFrom(neighbors: seq<Group>, firsts: seq<JoinRow>) {
    |neighbors| == |firsts|
    && forall k :: 0 <= k < |firsts| ==> neighbors[k].id == firsts[k].groupID && neighbors[k].name == firsts[k].name
  }

  /** The first n neighbors that account a is joined with. */
  ghost function JoinedWith(neighbors: seq<Group>, n: nat, rows: seq<JoinRow>, a: int): seq<Group>
    requires n <= |neighbors|
  {
    if n == 0 then []
    else JoinedWith(neighbors, n - 1, rows, a)
         + if Joins(rows, |rows|, a, neighbors[n - 1].id) then [neighbors[n - 1]] else []
  }

  /** The last of the first n nodes that has the ID. */
  ghost function Holder(nodes: seq<Account>, n: nat, id: int): (a: Account?)
    requires n <= |nodes|
    ensures a != null ==> a in nodes && a.id == id
  {
    if n == 0 then null
    else if nodes[n - 1].id == id then nodes[n - 1]
    else Holder(nodes, n - 1, id)
  }

  /** The IDs of the first n nodes. */
  ghost function Keys(nodes: seq<Account>, n: nat): set<int>
    requires n <= |nodes|
  {
    set i | 0 <= i < n :: nodes[i].id
  }

  /** byID maps each ID of the first n nodes to its holder. */
  ghost predicate ByID(nodes: seq<Account>, n: nat, byID: map<int, Account>)
    requires n <= |nodes|
  {
    && byID.Keys == Keys(nodes, n)
    && (forall id :: id in byID ==> Holder(nodes, n, id) == byID[id])
  }

  /** The nodes of the accounts that the first n rows join with group g. */
  ghost function Sharers(rows: seq<JoinRow>, n: nat, byID: map<int, Account>, g: int): set<Account>
    requires n <= |rows| && forall r :: r in rows ==> r.accountID in byID
  {
    set i | 0 <= i < n && rows[i].groupID == g :: byID[rows[i].accountID]
  }

  /** nids after n rows: its keys are the groups seen, each with the accounts seen with it. */
  ghost predicate Shares(rows: seq<JoinRow>, n: nat, byID: map<int, Account>, nids: map<int, set<Account>>)
    requires n <= |rows| && forall r :: r in rows ==> r.accountID in byID
  {
    && (forall g :: g in nids <==> HasGroup(rows, n, g))
    && (forall g :: g in nids ==> nids[g] == Sharers(rows, n, byID, g))
  }

  /** The loop that collects the keys and resets the edge. */
  method CollectKeys(nodes: seq<Account>) returns (edgeIDs: set<int>, byID: map<int, Account>)
    modifies nodes`groups
    ensures ByID(nodes, |nodes|, byID) && edgeIDs == Keys(nodes, |nodes|)
    ensures forall n :: n in nodes ==> n.groups == []
  {
    edgeIDs, byID := {}, map[];
    for i := 0 to |nodes|
      invariant ByID(nodes, i, byID) && edgeIDs == Keys(nodes, i)
      invariant forall j :: 0 <= j < i ==> nodes[j].groups == []
    {
      var node := nodes[i];
      edgeIDs := edgeIDs + {node.id};
      byID := byID[node.id := node];
      node.groups := [];
    }
  }

  lemma SharesNext(rows: seq<JoinRow>, n: nat, byID: map<int, Account>, nids: map<int, set<Account>>)
    requires n < |rows| && (forall r :: r in rows ==> r.accountID in byID) && Shares(rows, n, byID, nids)
    ensures var g, a := rows[n].groupID, byID[rows[n].accountID];
            Shares(rows, n + 1, byID, nids[g := (if g in nids then nids[g] else {}) + {a}])
  {}

  /** The joined query with the wrapped Assign: group nodes are created once, and their sharers noted. */
  method ScanJoin(rows: seq<JoinRow>, byID: map<int, Account>)
    returns (neighbors: seq<Group>, nids: map<int, set<Account>>)
    requires forall r :: r in rows ==> r.accountID in byID
    ensures Shares(rows, |rows|, byID, nids)
    ensures ReadFrom(neighbors, FirstRows(rows, |rows|))
    ensures forall g :: g in neighbors ==> fresh(g)
  {
    neighbors, nids := [], map[];
    for n := 0 to |rows|
      invariant Shares(rows, n, byID, nids)
      invariant ReadFrom(neighbors, FirstRows(rows, n))
      invariant forall g :: g in neighbors ==> fresh(g)
    {
      var outValue, inValue := rows[n].accountID, rows[n].groupID;
      SharesNext(rows, n, byID, nids);
      if inValue !in nids {
        nids := nids[inValue := {byID[outValue]}];
        var node := new Group(inValue, rows[n].name);
        neighbors := neighbors + [node];
      } else {
        nids := nids[inValue := nids[inValue] + {byID[outValue]}];
      }
    }
  }

  /** The first k neighbors that `nids` shares with node a. */
  ghost function Given(neighbors: seq<Group>, k: nat, nids: map<int, set<Account>>, a: Account): seq<Group>
    requires k <= |neighbors|
  {
    if k == 0 then []
    else Given(neighbors, k - 1, nids, a)
         + if neighbors[k - 1].id in nids && a in nids[neighbors[k - 1].id] then [neighbors[k - 1]] else []
  }

  /** The last pass: each neighbor goes to its sharers, which are visited in any order. */
  method Distribute(nodes: seq<Account>, neighbors: seq<Group>, nids: map<int, set<Account>>)
    returns (err: Option<QueryError>)
    requires forall g, a :: g in nids && a in nids[g] ==> a in nodes
    requires forall n :: n in nodes ==> n.groups == []
    modifies nodes`groups
    ensures err.None? <==> forall k :: 0 <= k < |neighbors| ==> neighbors[k].id in nids
    ensures err.None? ==> forall n :: n in nodes ==> n.groups == Given(neighbors, |neighbors|, nids, n)
  {
    for k := 0 to |neighbors|
      invariant forall j :: 0 <= j < k ==> neighbors[j].id in nids
      invariant forall n :: n in nodes ==> n.groups == Given(neighbors, k, nids, n)
    {
      var n := neighbors[k];
      if n.id !in nids {
        return Some(UnexpectedNode("groups", n.id));
      }
      var todo := nids[n.id];
      while todo != {}
        invariant todo <= nids[n.id]
        invariant forall a :: a in nodes ==>
          a.groups == Given(neighbors, k, nids, a) + if a in nids[n.id] && a !in todo then [n] else []
        decreases |todo|
      {
        var kn :| kn in todo;
        assert kn in nids[n.id] && kn in nodes;
        kn.groups := kn.groups + [n];
        todo := todo - {kn};
      }
    }
    return None;
  }

  lemma {:induction false} FirstRowsComplete(rows: seq<JoinRow>, n: nat)
    requires n <= |rows|
    ensures forall r :: r in FirstRows(rows, n) ==> HasGroup(rows, n, r.groupID)
  {
    if n > 0 {
      FirstRowsComplete(rows, n - 1);
      assert HasGroup(rows, n, rows[n - 1].groupID);
      forall r | r in FirstRows(rows, n) ensures HasGroup(rows, n, r.groupID) {
        if HasGroup(rows, n - 1, r.groupID) {
          var i :| 0 <= i < n - 1 && rows[i].groupID == r.groupID;
        }
      }
    }
  }

  /** A node is among the sharers of g exactly when it holds its ID and its account is joined with g. */
  lemma SharerIsJoined(nodes: seq<Account>, rows: seq<JoinRow>, byID: map<int, Account>, g: int, a: Account)
    requires ByID(nodes, |nodes|, byID) && (forall r :: r in rows ==> r.accountID in byID) && a in nodes
    ensures a in Sharers(rows, |rows|, byID, g)
            <==> Holder(nodes, |nodes|, a.id) == a && Joins(rows, |rows|, a.id, g)
  {}

  lemma {:induction false} GivenIsJoined(nodes: seq<Account>, rows: seq<JoinRow>, byID: map<int, Account>,
                                         nids: map<int, set<Account>>, neighbors: seq<Group>, k: nat, a: Account)
    requires ByID(nodes, |nodes|, byID) && (forall r :: r in rows ==> r.accountID in byID) && a in nodes
    requires Shares(rows, |rows|, byID, nids)
    requires k <= |neighbors| && forall j :: 0 <= j < k ==> neighbors[j].id in nids
    ensures Given(neighbors, k, nids, a)
            == if Holder(nodes, |nodes|, a.id) == a then JoinedWith(neighbors, k, rows, a.id) else []
  {
    if k > 0 {
      GivenIsJoined(nodes, rows, byID, nids, neighbors, k - 1, a);
      SharerIsJoined(nodes, rows, byID, neighbors[k - 1].id, a);
    }
  }

  /** The rows of the table, or the failure of its query. */
  type Answer<T> = Result<seq<T>, QueryError>

  /** What the last pass gives each node, in terms of the rows alone. */
  lemma HandedOut(nodes: seq<Account>, rows: seq<JoinRow>, byID: map<int, Account>, nids: map<int, set<Account>>,
                  neighbors: seq<Group>)
    requires ByID(nodes, |nodes|, byID) && (forall r :: r in rows ==> r.accountID in byID)
    requires Shares(rows, |rows|, byID, nids) && forall j :: 0 <= j < |neighbors| ==> neighbors[j].id in nids
    requires forall n | n in nodes :: n.groups == Given(neighbors, |neighbors|, nids, n)
    ensures forall n | n in nodes
              :: n.groups == if Holder(nodes, |nodes|, n.id) == n
                             then JoinedWith(neighbors, |neighbors|, rows, n.id) else []
  {
    forall n | n in nodes
      ensures n.groups == if Holder(nodes, |nodes|, n.id) == n
                          then JoinedWith(neighbors, |neighbors|, rows, n.id) else []
    {
      GivenIsJoined(nodes, rows, byID, nids, neighbors, |neighbors|, n);
    }
  }

  /** The neighbors that were read, and the sharers noted, are all accounted for. */
  lemma AllShared(nodes: seq<Account>, rows: seq<JoinRow>, byID: map<int, Account>, nids: map<int, set<Account>>,
                  neighbors: seq<Group>)
    requires ByID(nodes, |nodes|, byID) && (forall r :: r in rows ==> r.accountID in byID)
    requires Shares(rows, |rows|, byID, nids) && ReadFrom(neighbors, FirstRows(rows, |rows|))
    ensures forall j :: 0 <= j < |neighbors| ==> neighbors[j].id in nids
    ensures forall g, a :: g in nids && a in nids[g] ==> a in nodes
  {
    FirstRowsComplete(rows, |rows|);
    forall j | 0 <= j < |neighbors| ensures neighbors[j].id in nids {
      assert FirstRows(rows, |rows|)[j] in FirstRows(rows, |rows|);
    }
  }

  /**
   loadGroups: the edge of each node that holds its ID becomes the groups its account is joined with by the
   returned rows, of nodes created once and shared; the error for an unexpected node is never returned.
   */
  method LoadGroups(nodes: seq<Account>, limit: nat, table: Answer<JoinRow>)
    returns (err: Option<QueryError>, ghost neighbors: seq<Group>)
    modifies nodes`groups
    ensures err == if table.Failure? then Some(table.error) else None
    ensures table.Success? ==>
              var rows := Fetched(table.value, JoinOwner, Keys(nodes, |nodes|), limit);
              && ReadFrom(neighbors, FirstRows(rows, |rows|))
              && (forall g :: g in neighbors ==> fresh(g))
              && forall n | n in nodes
                   :: n.groups == if Holder(nodes, |nodes|, n.id) == n
                                  then JoinedWith(neighbors, |neighbors|, rows, n.id) else []
  {
    neighbors := [];
    var edgeIDs, byID := CollectKeys(nodes);
    if table.Failure? {
      return Some(table.error), [];
    }
    var rows := Fetched(table.value, JoinOwner, edgeIDs, limit);
    assert forall r :: r in rows ==> r.accountID in byID;
    var groups, nids := ScanJoin(rows, byID);
    neighbors := groups;
    AllShared(nodes, rows, byID, nids, groups);
    err := Distribute(nodes, groups, nids);
    HandedOut(nodes, rows, byID, nids, groups);
  }
}
