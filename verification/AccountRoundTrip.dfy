/**
 Reading a created account back: scanValues allocates a destination for each column, the driver fills it from
 the stored row, assignValues asserts its type and writes the node (backend/ent/account.go).
 */
module AccountRoundTrip {
  import opened Wrappers
  import opened AccountFields
  import opened AccountCreate
  import Upsert

  /** A filled scan destination: its type, and its value when the cell was not NULL. */
  datatype Scanned = Scanned(kind: Kind, value: Option<Value>)

  datatype ReadError = Mismatch | UnexpectedType(column: Column) | CannotScan(column: Column)

  method ScanValues(columns: seq<Column>) returns (dests: seq<Kind>)
    ensures |dests| == |columns| && forall i :: 0 <= i < |columns| ==> dests[i] == ScanKind(columns[i])
  {
    dests := [];
    for i := 0 to |columns|
      invariant |dests| == i && forall j :: 0 <= j < i ==> dests[j] == ScanKind(columns[j])
    {
      dests := dests + [ScanKind(columns[i])];
    }
  }

  /** What assignValues writes for one scanned value: a NULL is skipped, except that a NULL ID is read as 0. */
  function AssignOne(node: Node, c: Column, value: Option<Value>): Node {
    if c == ID then node[ID := Plain(value.GetOr(VInt(0)))]
    else if value.Some? then node[c := SlotOf(Nillable(c), value.value)]
    else node
  }

  function Assigned(columns: seq<Column>, values: seq<Scanned>, n: nat): Node
    requires n <= |columns| && n <= |values|
  {
    if n == 0 then map[] else AssignOne(Assigned(columns, values, n - 1), columns[n - 1], values[n - 1].value)
  }

  /** The last of the first n places that hold column c, and not NULL unless it is the ID; -1 if there is none. */
  function LastPlace(columns: seq<Column>, values: seq<Scanned>, n: nat, c: Column): (i: int)
    requires n <= |columns| && n <= |values|
    ensures -1 <= i < n
    ensures i >= 0 ==> columns[i] == c && (c == ID || values[i].value.Some?)
    ensures forall j :: i < j < n ==> columns[j] != c || (c != ID && values[j].value.None?)
  {
    if n == 0 then -1
    else if columns[n - 1] == c && (c == ID || values[n - 1].value.Some?) then n - 1
    else LastPlace(columns, values, n - 1, c)
  }

  /**
   A field is written exactly when its column is read and not NULL, with the last such value, behind a pointer where
   the field is one; the ID is written whenever it is read, a NULL as 0.
   */
  lemma {:induction false} AssignedExact(columns: seq<Column>, values: seq<Scanned>, n: nat, c: Column)
    requires n <= |columns| && n <= |values|
    ensures var node, i := Assigned(columns, values, n), LastPlace(columns, values, n, c);
            && (c in node <==> i >= 0)
            && (i >= 0 && c == ID ==> node[c] == Plain(values[i].value.GetOr(VInt(0))))
            && (i >= 0 && c != ID ==> node[c] == if Nillable(c) then Pointer(values[i].value.value)
                                                 else Plain(values[i].value.value))
  {
    if n > 0 {
      AssignedExact(columns, values, n - 1, c);
    }
  }

  /** The first destination of another type than asserted. */
  predicate FirstUnexpected(columns: seq<Column>, values: seq<Scanned>, i: nat)
    requires i < |columns| <= |values|
  {
    values[i].kind != AssignKind(columns[i]) && forall j :: 0 <= j < i ==> values[j].kind == AssignKind(columns[j])
  }

  /** assignValues on &Account{}. */
  method AssignValues(columns: seq<Column>, values: seq<Scanned>) returns (res: Result<Node, ReadError>)
    ensures res.Success? <==>
              |values| >= |columns| && forall i :: 0 <= i < |columns| ==> values[i].kind == AssignKind(columns[i])
    ensures res.Success? ==> res.value == Assigned(columns, values, |columns|)
    ensures |values| < |columns| ==> res == Failure(Mismatch)
    ensures res.Failure? && |values| >= |columns| ==>
              exists i :: 0 <= i < |columns| && FirstUnexpected(columns, values, i)
                          && res == Failure(UnexpectedType(columns[i]))
  {
    if |values| < |columns| {
      return Failure(Mismatch);
    }
    var node: Node := map[];
    for i := 0 to |columns|
      invariant forall j :: 0 <= j < i ==> values[j].kind == AssignKind(columns[j])
      invariant node == Assigned(columns, values, i)
    {
      if values[i].kind != AssignKind(columns[i]) {
        assert FirstUnexpected(columns, values, i);
        return Failure(UnexpectedType(columns[i]));
      }
      node := AssignOne(node, columns[i], values[i].value);
    }
    return Success(node);
  }

  // ----- The stored row -----

  /** The target of the proxy edge, which its insert writes to proxy_id. */
  function ProxyTarget(edges: seq<EdgeSpec>): Option<Value> {
    if edges == [] then None
    else if edges[0].rel == M2O && edges[0].column == "proxy_id" && edges[0].targets != []
    then Some(VInt(edges[0].targets[0]))
    else ProxyTarget(edges[1..])
  }

  /** The cell of the row that the insert stores under the ID the database gives it. */
  function Cell(spec: CreateSpec, id: int, c: Column): Option<Value> {
    if c == ID then Some(VInt(id))
    else if c == ProxyID then ProxyTarget(spec.edges)
    else if c in spec.fields then Some(spec.fields[c].1)
    else None
  }

  /** The destinations, filled from the row. */
  function Scans(columns: seq<Column>, dests: seq<Kind>, spec: CreateSpec, id: int): seq<Scanned>
    requires |dests| == |columns|
  {
    seq(|columns|, i requires 0 <= i < |columns| => Scanned(dests[i], Cell(spec, id, columns[i])))
  }

  /** The driver fills the destinations: it cannot put a value into one of another type. */
  method Scan(columns: seq<Column>, dests: seq<Kind>, spec: CreateSpec, id: int)
    returns (res: Result<seq<Scanned>, ReadError>)
    requires |dests| == |columns|
    ensures res.Success? <==>
              forall i :: 0 <= i < |columns| ==>
                var cell := Cell(spec, id, columns[i]); cell.Some? ==> KindOf(cell.value) == dests[i]
    ensures res.Success? ==> res.value == Scans(columns, dests, spec, id)
  {
    var values := [];
    for i := 0 to |columns|
      invariant |values| == i
      invariant forall j :: 0 <= j < i ==> values[j] == Scanned(dests[j], Cell(spec, id, columns[j]))
      invariant forall j :: 0 <= j < i ==>
                  var cell := Cell(spec, id, columns[j]); cell.Some? ==> KindOf(cell.value) == dests[j]
    {
      var cell := Cell(spec, id, columns[i]);
      if cell.Some? && KindOf(cell.value) != dests[i] {
        return Failure(CannotScan(columns[i]));
      }
      values := values + [Scanned(dests[i], cell)];
    }
    return Success(values);
  }

  // ----- The round trip -----

  /** What createSpec returned, once the ID is known. */
  function SavedNode(m: Mutation, id: int): Node {
    CreatedNode(m)[ID := Plain(VInt(id))]
  }

  lemma ProxyTargetOf(rt: Runtime, m: Mutation)
    ensures ProxyTarget(CreatedEdges(rt, m)) == if m.proxy.Some? then Some(VInt(m.proxy.value)) else None
  {
    var edges := CreatedEdges(rt, m);
    if m.proxy.Some? {
      var tail := if m.groups != [] then edges[1..] else edges;
      assert tail[0] == EdgeSpec(M2O, "proxy_id", [m.proxy.value], []);
      assert ProxyTarget(edges) == ProxyTarget(tail);
    } else {
      var logs := if m.usageLogs != [] then [EdgeSpec(O2M, "account_id", m.usageLogs, [])] else [];
      assert logs != [] ==> logs[1..] == [];
      assert ProxyTarget(logs) == None;
      assert edges == if m.groups != [] then [edges[0]] + logs else logs;
    }
  }

  /** The cell of a column holds what the node holds, in the type that scanning and assigning expect. */
  lemma CellIsSlot(rt: Runtime, os: seq<Upsert.ConflictOption>, m: Mutation, id: int, c: Column)
    requires Typed(m.fields)
    ensures var cell := Cell(CreatedSpec(rt, os, m), id, c);
            && (cell.Some? <==> c in SavedNode(m, id))
            && (cell.Some? ==> SavedNode(m, id)[c] == SlotOf(Nillable(c), cell.value)
                               && KindOf(cell.value) == ScanKind(c) == AssignKind(c))
  {
    TablesAgree(c);
    ProxyTargetOf(rt, m);
  }

  /** The node holds what the saved node does on these columns, and nothing else. */
  ghost predicate HoldsOn(node: Node, saved: Node, columns: seq<Column>) {
    && (forall c :: c in node <==> c in columns && c in saved)
    && (forall c :: c in node ==> node[c] == saved[c])
  }

  lemma HoldsOnNext(node: Node, saved: Node, columns: seq<Column>, c: Column, value: Option<Value>)
    requires HoldsOn(node, saved, columns) && (value.Some? <==> c in saved) && (c == ID ==> value.Some?)
    requires value.Some? ==> saved[c] == if c == ID then Plain(value.value) else SlotOf(Nillable(c), value.value)
    ensures HoldsOn(AssignOne(node, c, value), saved, columns + [c])
  {}

  /** Reading any columns of the row gives the node on these columns, and nothing else. */
  lemma {:induction false} AssignedIsSaved(rt: Runtime, os: seq<Upsert.ConflictOption>, m: Mutation, id: int,
                                           columns: seq<Column>, values: seq<Scanned>, n: nat)
    requires Typed(m.fields) && n <= |columns| == |values|
    requires forall i :: 0 <= i < |columns| ==> values[i].value == Cell(CreatedSpec(rt, os, m), id, columns[i])
    ensures HoldsOn(Assigned(columns, values, n), SavedNode(m, id), columns[..n])
  {
    if n > 0 {
      AssignedIsSaved(rt, os, m, id, columns, values, n - 1);
      CellIsSlot(rt, os, m, id, columns[n - 1]);
      assert columns[..n] == columns[..n - 1] + [columns[n - 1]];
      HoldsOnNext(Assigned(columns, values, n - 1), SavedNode(m, id), columns[..n - 1],
                  columns[n - 1], values[n - 1].value);
    }
  }

  /**
   The row that createSpec describes, selected by any columns, is read without a type error into the node that
   createSpec built, on these columns: unset optional fields are nil on both sides.
   */
  method ReadBack(columns: seq<Column>, spec: CreateSpec, id: int,
                  ghost rt: Runtime, ghost os: seq<Upsert.ConflictOption>, ghost m: Mutation)
    returns (res: Result<Node, ReadError>)
    requires Typed(m.fields) && spec == CreatedSpec(rt, os, m)
    ensures res.Success?
    ensures forall c :: c in res.value <==> c in columns && c in SavedNode(m, id)
    ensures forall c :: c in res.value ==> res.value[c] == SavedNode(m, id)[c]
    ensures (forall c: Column :: c in columns) ==> res.value == SavedNode(m, id)
  {
    var dests := ScanValues(columns);
    forall i | 0 <= i < |columns|
      ensures dests[i] == AssignKind(columns[i])
      ensures var cell := Cell(spec, id, columns[i]); cell.Some? ==> KindOf(cell.value) == dests[i]
    {
      CellIsSlot(rt, os, m, id, columns[i]);
      TablesAgree(columns[i]);
    }
    var scanned := Scan(columns, dests, spec, id);
    AssignedIsSaved(rt, os, m, id, columns, scanned.value, |columns|);
    assert columns[..|columns|] == columns;
    res := AssignValues(columns, scanned.value);
  }
}
