/**
 The groups of an account in a batch against those it gets from a query of its own: which, in which order, and with
 which names. Everything here is about rows.
 */
module GroupOrder {
  import opened Wrappers
  import opened Entities
  import opened Rows
  import opened GroupJoin
  import opened JoinLaws

  function IDs(list: seq<JoinRow>): (ids: seq<int>)
    ensures |ids| == |list| && forall k :: 0 <= k < |list| ==> ids[k] == list[k].groupID
  {
    seq(|list|, k requires 0 <= k < |list| => list[k].groupID)
  }

  ghost predicate Rising(s: seq<int>) {
    forall k, l :: 0 <= k < l < |s| ==> s[k] < s[l]
  }

  /** Where a group first appears; |rows| if it does not. */
  function FirstIndex(rows: seq<JoinRow>, g: int): (i: nat)
    ensures i <= |rows| && (i < |rows| ==> rows[i].groupID == g)
    ensures forall j :: 0 <= j < i ==> rows[j].groupID != g
  {
    if rows == [] || rows[0].groupID == g then 0 else 1 + FirstIndex(rows[1..], g)
  }

  lemma AppearsIff(rows: seq<JoinRow>, g: int, h: int)
    ensures AppearsBefore(rows, g, h) <==> FirstIndex(rows, g) < FirstIndex(rows, h)
  {}

  /** The places in `rows` where the groups of a list first appear. */
  function Places(list: seq<JoinRow>, rows: seq<JoinRow>): (s: seq<int>)
    ensures |s| == |list| && forall k :: 0 <= k < |list| ==> s[k] == FirstIndex(rows, list[k].groupID)
  {
    seq(|list|, k requires 0 <= k < |list| => FirstIndex(rows, list[k].groupID))
  }

  lemma InOrderRises(list: seq<JoinRow>, rows: seq<JoinRow>)
    ensures InOrder(list, rows) <==> Rising(Places(list, rows))
  {
    forall k, l | 0 <= k < l < |list|
      ensures AppearsBefore(rows, list[k].groupID, list[l].groupID) <==> Places(list, rows)[k] < Places(list, rows)[l]
    {
      AppearsIff(rows, list[k].groupID, list[l].groupID);
    }
  }

  ghost predicate Included(a: seq<int>, b: seq<int>) {
    forall k :: 0 <= k < |a| ==> a[k] in b
  }

  lemma TailIncluded(a: seq<int>, b: seq<int>)
    requires a != [] && b != [] && a[0] == b[0] && Rising(a) && Included(a, b)
    ensures Included(a[1..], b[1..]) && Rising(a[1..])
  {}

  lemma SameLeast(a: seq<int>, b: seq<int>)
    requires Rising(a) && Rising(b) && a != [] && b != [] && a[0] in b && b[0] in a
    ensures a[0] == b[0]
  {}

  /** A rising list is determined by its elements. */
  lemma {:induction false} RisingUnique(a: seq<int>, b: seq<int>)
    requires Rising(a) && Rising(b) && Included(a, b) && Included(b, a)
    ensures a == b
  {
    assert |a| > 0 ==> a[0] in b;
    assert |b| > 0 ==> b[0] in a;
    if a != [] {
      SameLeast(a, b);
      TailIncluded(a, b);
      TailIncluded(b, a);
      RisingUnique(a[1..], b[1..]);
      SameHeadTail(a, b);
    }
  }

  lemma SameHeadTail(a: seq<int>, b: seq<int>)
    requires a != [] && b != [] && a[0] == b[0] && a[1..] == b[1..]
    ensures a == b
  {
    assert a == [a[0]] + a[1..] && b == [b[0]] + b[1..];
  }

  lemma PlacesIncluded(list: seq<JoinRow>, list': seq<JoinRow>, rows: seq<JoinRow>)
    requires forall g :: Lists(list, g) ==> Lists(list', g)
    ensures Included(Places(list, rows), Places(list', rows))
  {
    forall k | 0 <= k < |list| ensures Places(list, rows)[k] in Places(list', rows) {
      assert Lists(list, list[k].groupID);
      var l :| 0 <= l < |list'| && list'[l].groupID == list[k].groupID;
      assert Places(list', rows)[l] == Places(list, rows)[k];
    }
  }

  // ----- When two lists of rows give an account the same groups -----

  /** The account is joined with the same groups. */
  ghost predicate JoinsKept(own: seq<JoinRow>, batch: seq<JoinRow>, a: int) {
    forall g :: Joins(own, |own|, a, g) <==> Joins(batch, |batch|, a, g)
  }

  /** Two of the account's groups appear in the batch in the order in which they appear among its own rows. */
  ghost predicate OrderKept(own: seq<JoinRow>, batch: seq<JoinRow>, a: int) {
    forall g, h :: Joins(own, |own|, a, g) && Joins(own, |own|, a, h) && AppearsBefore(own, g, h)
                   ==> AppearsBefore(batch, g, h)
  }

  lemma JoinedAppears(rows: seq<JoinRow>, a: int, g: int)
    requires Joins(rows, |rows|, a, g)
    ensures FirstIndex(rows, g) < |rows|
  {}

  /** Joined groups that first appear in the same place are the same. */
  lemma SamePlaces(list: seq<JoinRow>, list': seq<JoinRow>, rows: seq<JoinRow>)
    requires Places(list, rows) == Places(list', rows)
    requires forall k :: 0 <= k < |list| ==> FirstIndex(rows, list[k].groupID) < |rows|
    ensures IDs(list) == IDs(list')
  {
    forall k | 0 <= k < |list| ensures list[k].groupID == list'[k].groupID {
      assert Places(list, rows)[k] == Places(list', rows)[k];
    }
  }

  lemma KeptAgrees(own: seq<JoinRow>, batch: seq<JoinRow>, a: int)
    requires JoinsKept(own, batch, a) && OrderKept(own, batch, a)
    ensures IDs(GroupsOf(own, a)) == IDs(GroupsOf(batch, a))
  {
    var alone, together := GroupsOf(own, a), GroupsOf(batch, a);
    GroupsOfExact(own, a);
    GroupsOfExact(batch, a);
    forall k, l | 0 <= k < l < |alone| ensures AppearsBefore(batch, alone[k].groupID, alone[l].groupID) {
      assert Lists(alone, alone[k].groupID) && Lists(alone, alone[l].groupID);
    }
    InOrderRises(alone, batch);
    InOrderRises(together, batch);
    PlacesIncluded(together, alone, batch);
    PlacesIncluded(alone, together, batch);
    RisingUnique(Places(alone, batch), Places(together, batch));
    forall k | 0 <= k < |alone| ensures FirstIndex(batch, alone[k].groupID) < |batch| {
      assert Lists(alone, alone[k].groupID);
      JoinedAppears(batch, a, alone[k].groupID);
    }
    SamePlaces(alone, together, batch);
  }

  lemma SameListed(list: seq<JoinRow>, list': seq<JoinRow>, g: int)
    requires IDs(list) == IDs(list')
    ensures Lists(list, g) <==> Lists(list', g)
  {
    if k :| 0 <= k < |list| && list[k].groupID == g {
      assert IDs(list')[k] == g;
    }
    if k :| 0 <= k < |list'| && list'[k].groupID == g {
      assert IDs(list)[k] == g;
    }
  }

  lemma AgreeingKeepsJoins(own: seq<JoinRow>, batch: seq<JoinRow>, a: int)
    requires IDs(GroupsOf(own, a)) == IDs(GroupsOf(batch, a))
    ensures JoinsKept(own, batch, a)
  {
    GroupsOfExact(own, a);
    GroupsOfExact(batch, a);
    forall g ensures Joins(own, |own|, a, g) <==> Joins(batch, |batch|, a, g) {
      SameListed(GroupsOf(own, a), GroupsOf(batch, a), g);
    }
  }

  lemma AgreeingKeepsOrder(own: seq<JoinRow>, batch: seq<JoinRow>, a: int, g: int, h: int)
    requires IDs(GroupsOf(own, a)) == IDs(GroupsOf(batch, a))
    requires Joins(own, |own|, a, g) && Joins(own, |own|, a, h) && AppearsBefore(own, g, h)
    ensures AppearsBefore(batch, g, h)
  {
    var alone, together := GroupsOf(own, a), GroupsOf(batch, a);
    GroupsOfExact(own, a);
    GroupsOfExact(batch, a);
    assert Lists(alone, g) && Lists(alone, h);
    var k :| 0 <= k < |alone| && alone[k].groupID == g;
    var l :| 0 <= l < |alone| && alone[l].groupID == h;
    AppearsIff(own, g, h);
    AppearsIff(own, h, g);
    assert k < l;
    assert IDs(together)[k] == g && IDs(together)[l] == h;
  }

  /** An account has the same groups in the same order exactly when it is joined with the same, in the same order. */
  lemma SameGroupsIff(own: seq<JoinRow>, batch: seq<JoinRow>, a: int)
    ensures IDs(GroupsOf(own, a)) == IDs(GroupsOf(batch, a))
            <==> JoinsKept(own, batch, a) && OrderKept(own, batch, a)
  {
    if JoinsKept(own, batch, a) && OrderKept(own, batch, a) {
      KeptAgrees(own, batch, a);
    }
    if IDs(GroupsOf(own, a)) == IDs(GroupsOf(batch, a)) {
      AgreeingKeepsJoins(own, batch, a);
      forall g, h | Joins(own, |own|, a, g) && Joins(own, |own|, a, h) && AppearsBefore(own, g, h)
        ensures AppearsBefore(batch, g, h)
      {
        AgreeingKeepsOrder(own, batch, a, g, h);
      }
    }
  }

  // ----- Names -----

  /** The lists have the same groups with the same names. */
  ghost predicate SameFaces(list: seq<JoinRow>, list': seq<JoinRow>) {
    |list| == |list'|
    && forall k :: 0 <= k < |list| ==> list[k].groupID == list'[k].groupID && list[k].name == list'[k].name
  }

  /** The first rows of each of the account's groups have the same name. */
  ghost predicate NamesKept(own: seq<JoinRow>, batch: seq<JoinRow>, a: int) {
    forall g :: Joins(own, |own|, a, g) && Joins(batch, |batch|, a, g)
                ==> own[FirstIndex(own, g)].name == batch[FirstIndex(batch, g)].name
  }

  lemma {:induction false} FirstRowsAreFirst(rows: seq<JoinRow>, n: nat, r: JoinRow)
    requires n <= |rows| && r in FirstRows(rows, n)
    ensures FirstIndex(rows, r.groupID) < |rows| && r == rows[FirstIndex(rows, r.groupID)]
  {
    if !HasGroup(rows, n - 1, rows[n - 1].groupID) && r == rows[n - 1] {
      assert FirstIndex(rows, r.groupID) == n - 1;
    } else {
      FirstRowsAreFirst(rows, n - 1, r);
    }
  }

  lemma GroupRowIsFirst(rows: seq<JoinRow>, a: int, k: nat)
    requires k < |GroupsOf(rows, a)|
    ensures var r := GroupsOf(rows, a)[k];
            && Joins(rows, |rows|, a, r.groupID)
            && FirstIndex(rows, r.groupID) < |rows| && r == rows[FirstIndex(rows, r.groupID)]
  {
    var firsts, list := FirstRows(rows, |rows|), GroupsOf(rows, a);
    FirstRowsExact(rows, |rows|);
    JoinedRowsExact(firsts, |firsts|, rows, a);
    assert firsts[..|firsts|] == firsts;
    GroupsOfExact(rows, a);
    assert list[k] in firsts && Lists(list, list[k].groupID);
    FirstRowsAreFirst(rows, |rows|, list[k]);
  }

  lemma NamesKeptFaces(own: seq<JoinRow>, batch: seq<JoinRow>, a: int)
    requires IDs(GroupsOf(own, a)) == IDs(GroupsOf(batch, a)) && NamesKept(own, batch, a)
    ensures SameFaces(GroupsOf(own, a), GroupsOf(batch, a))
  {
    var alone, together := GroupsOf(own, a), GroupsOf(batch, a);
    forall k | 0 <= k < |alone|
      ensures alone[k].groupID == together[k].groupID && alone[k].name == together[k].name
    {
      assert IDs(alone)[k] == IDs(together)[k];
      GroupRowIsFirst(own, a, k);
      GroupRowIsFirst(batch, a, k);
    }
  }

  lemma SameFacesNames(own: seq<JoinRow>, batch: seq<JoinRow>, a: int, g: int)
    requires SameFaces(GroupsOf(own, a), GroupsOf(batch, a)) && Joins(own, |own|, a, g) && Joins(batch, |batch|, a, g)
    ensures own[FirstIndex(own, g)].name == batch[FirstIndex(batch, g)].name
  {
    var alone := GroupsOf(own, a);
    GroupsOfExact(own, a);
    assert Lists(alone, g);
    var k :| 0 <= k < |alone| && alone[k].groupID == g;
    GroupRowIsFirst(own, a, k);
    GroupRowIsFirst(batch, a, k);
  }

  /** Names included: the same groups, order and names. */
  lemma SameFacesIff(own: seq<JoinRow>, batch: seq<JoinRow>, a: int)
    ensures SameFaces(GroupsOf(own, a), GroupsOf(batch, a))
            <==> JoinsKept(own, batch, a) && OrderKept(own, batch, a) && NamesKept(own, batch, a)
  {
    var alone, together := GroupsOf(own, a), GroupsOf(batch, a);
    SameGroupsIff(own, batch, a);
    if IDs(alone) == IDs(together) && NamesKept(own, batch, a) {
      NamesKeptFaces(own, batch, a);
    }
    if SameFaces(alone, together) {
      assert IDs(alone) == IDs(together);
      forall g | Joins(own, |own|, a, g) && Joins(batch, |batch|, a, g)
        ensures own[FirstIndex(own, g)].name == batch[FirstIndex(batch, g)].name
      {
        SameFacesNames(own, batch, a, g);
      }
    }
  }

  /** The rows of a group are joined with one and the same group. */
  ghost predicate NamesByID(table: seq<JoinRow>) {
    forall r, r' :: r in table && r' in table && r.groupID == r'.groupID ==> r.name == r'.name
  }

  /** Since group IDs are unique, names are always kept. */
  lemma NamesAreKept(table: seq<JoinRow>, keys: set<int>, limit: nat, a: int)
    requires NamesByID(table)
    ensures NamesKept(Fetched(table, JoinOwner, {a}, limit), Fetched(table, JoinOwner, keys, limit), a)
  {
    var own, batch := Fetched(table, JoinOwner, {a}, limit), Fetched(table, JoinOwner, keys, limit);
    forall g | Joins(own, |own|, a, g) && Joins(batch, |batch|, a, g)
      ensures own[FirstIndex(own, g)].name == batch[FirstIndex(batch, g)].name
    {
      JoinedAppears(own, a, g);
      JoinedAppears(batch, a, g);
      assert own[FirstIndex(own, g)] in own && batch[FirstIndex(batch, g)] in batch;
    }
  }

  // ----- Without a limit -----

  lemma BatchJoinsKept(table: seq<JoinRow>, keys: set<int>, a: int)
    requires a in keys
    ensures JoinsKept(Owned(table, JoinOwner, {a}), Owned(table, JoinOwner, keys), a)
  {
    var own, batch := Owned(table, JoinOwner, {a}), Owned(table, JoinOwner, keys);
    forall g ensures Joins(own, |own|, a, g) <==> Joins(batch, |batch|, a, g) {
      BatchKeepsJoins(table, {a}, a, g);
      BatchKeepsJoins(table, keys, a, g);
    }
  }

  /** Loaded in a batch or alone, an account gets its groups in the same order exactly when the batch keeps it. */
  lemma BatchOrderIff(table: seq<JoinRow>, keys: set<int>, a: int)
    requires a in keys
    ensures var own, batch := Owned(table, JoinOwner, {a}), Owned(table, JoinOwner, keys);
            IDs(GroupsOf(own, a)) == IDs(GroupsOf(batch, a)) <==> OrderKept(own, batch, a)
  {
    BatchJoinsKept(table, keys, a);
    SameGroupsIff(Owned(table, JoinOwner, {a}), Owned(table, JoinOwner, keys), a);
  }

  /** The rows come ordered by some rank of their group. */
  ghost predicate OrderedBy(rows: seq<JoinRow>, rank: int -> int) {
    forall i, j :: 0 <= i < j < |rows| ==> rank(rows[i].groupID) <= rank(rows[j].groupID)
  }

  lemma {:induction false} OwnedOrdered(table: seq<JoinRow>, keys: set<int>, rank: int -> int)
    requires OrderedBy(table, rank)
    ensures OrderedBy(Owned(table, JoinOwner, keys), rank)
  {
    if table != [] {
      var tail := Owned(table[1..], JoinOwner, keys);
      OwnedOrdered(table[1..], keys, rank);
      forall j | 0 <= j < |tail| ensures rank(table[0].groupID) <= rank(tail[j].groupID) {
        assert tail[j] in tail;
        var k :| 0 <= k < |table[1..]| && table[1..][k] == tail[j];
        assert table[k + 1] == tail[j];
      }
    }
  }

  lemma OrderedAppears(rows: seq<JoinRow>, rank: int -> int, a: int, g: int, h: int)
    requires OrderedBy(rows, rank) && (forall g, h :: rank(g) == rank(h) ==> g == h)
    requires Joins(rows, |rows|, a, g) && Joins(rows, |rows|, a, h)
    ensures AppearsBefore(rows, g, h) <==> rank(g) < rank(h)
  {
    AppearsIff(rows, g, h);
    var i, j := FirstIndex(rows, g), FirstIndex(rows, h);
    assert i < |rows| && j < |rows|;
  }

  /** In particular when the query orders its rows by group. */
  lemma BatchOrderIsOwnOrder(table: seq<JoinRow>, keys: set<int>, a: int, rank: int -> int)
    requires a in keys && OrderedBy(table, rank) && forall g, h :: rank(g) == rank(h) ==> g == h
    ensures var own, batch := Owned(table, JoinOwner, {a}), Owned(table, JoinOwner, keys);
            IDs(GroupsOf(own, a)) == IDs(GroupsOf(batch, a))
  {
    var own, batch := Owned(table, JoinOwner, {a}), Owned(table, JoinOwner, keys);
    OwnedOrdered(table, {a}, rank);
    OwnedOrdered(table, keys, rank);
    BatchJoinsKept(table, keys, a);
    forall g, h | Joins(own, |own|, a, g) && Joins(own, |own|, a, h) && AppearsBefore(own, g, h)
      ensures AppearsBefore(batch, g, h)
    {
      OrderedAppears(own, rank, a, g, h);
      OrderedAppears(batch, rank, a, g, h);
    }
    BatchOrderIff(table, keys, a);
  }

  /** Without that order the batch can change it: here account 1 alone has its groups the other way round. */
  lemma BatchOrderCanDiffer(t: seq<JoinRow>)
    requires t == [JoinRow(2, 10, "x"), JoinRow(1, 20, "y"), JoinRow(1, 10, "x")]
    ensures IDs(GroupsOf(Owned(t, JoinOwner, {1, 2}), 1)) == [10, 20]
    ensures IDs(GroupsOf(Owned(t, JoinOwner, {1}), 1)) == [20, 10]
  {
    MixedBatches(t);
    MixedTogether(t);
    OwnPair(t[1..]);
  }

  lemma MixedTogether(t: seq<JoinRow>)
    requires |t| == 3 && t[0].groupID == t[2].groupID == 10 && t[1].groupID == 20
    requires t[0].accountID == 2 && t[1].accountID == t[2].accountID == 1
    ensures GroupsOf(t, 1) == [t[0], t[1]]
  {
    FirstRowsOfTwo(t, t[0], t[1]);
    assert HasGroup(t, 2, 10);
    assert FirstRows(t, 3) == [t[0], t[1]];
    JoinedRowsOfTwo([t[0], t[1]], t, 1);
  }

  lemma OwnPair(own: seq<JoinRow>)
    requires |own| == 2 && own[0].groupID != own[1].groupID && own[0].accountID == own[1].accountID
    ensures GroupsOf(own, own[0].accountID) == own
  {
    FirstRowsOfTwo(own, own[0], own[1]);
    JoinedRowsOfTwo(own, own, own[0].accountID);
  }

  lemma MixedBatches(t: seq<JoinRow>)
    requires |t| == 3 && t[0].accountID == 2 && t[1].accountID == t[2].accountID == 1
    ensures Owned(t, JoinOwner, {1, 2}) == t && Owned(t, JoinOwner, {1}) == t[1..]
  {
    assert t == [t[0]] + t[1..] && t[1..] == [t[1]] + [t[2]] && t[1..][1..] == [t[2]];
    forall keys: set<int> | 1 in keys ensures Owned(t[1..], JoinOwner, keys) == t[1..] {
      assert Owned([t[2]], JoinOwner, keys) == [t[2]];
    }
  }

  lemma FirstRowsOfTwo(rows: seq<JoinRow>, r: JoinRow, r': JoinRow)
    requires 2 <= |rows| && rows[0] == r && rows[1] == r' && r.groupID != r'.groupID
    ensures FirstRows(rows, 2) == [r, r']
  {
    assert !HasGroup(rows, 0, r.groupID) && !HasGroup(rows, 1, r'.groupID);
    assert FirstRows(rows, 0) == [];
    assert FirstRows(rows, 1) == [r];
  }

  lemma JoinedRowsOfTwo(firsts: seq<JoinRow>, rows: seq<JoinRow>, a: int)
    requires |firsts| == 2 && Joins(rows, |rows|, a, firsts[0].groupID) && Joins(rows, |rows|, a, firsts[1].groupID)
    ensures JoinedRows(firsts, 2, rows, a) == firsts
  {
    assert JoinedRows(firsts, 0, rows, a) == [];
    assert JoinedRows(firsts, 1, rows, a) == [firsts[0]];
  }
}
