/**
 Upserting an account (OnConflict and the upsert builders in backend/ent/account_create.go): a list of conflict
 options, folded over a map from column to action when the insert runs; a later write to a column replaces an
 earlier one. The law: created_at keeps the value of the first insert.
 */
module Upsert {
  import opened Wrappers
  import opened AccountFields

  /** What a conflicting insert does to one column of the existing row. */
  datatype Action = SetTo(v: Value) | Excluded | Null | Keep | Plus(v: Value)

  type UpdateSet = map<Column, Action>

  /**
   A conflict option. KeepCreatedAt is the function that UpdateNewValues appends: it looks at the mutation when
   the insert runs. Writes is any other function on the update set.
   */
  datatype ConflictOption =
    | Target(columns: seq<Column>)
    | ResolveWithNewValues
    | ResolveWithIgnore
    | DoNothing
    | KeepCreatedAt
    | Writes(column: Column, action: Action)

  /** One option, for an insert of the given columns; `isSet` tells whether a mutation sets created_at. */
  function Fold(u: UpdateSet, o: ConflictOption, columns: set<Column>, isSet: bool): UpdateSet {
    match o
    case Target(_) => u
    case DoNothing => u
    case ResolveWithNewValues => u + map c | c in columns :: Excluded
    case ResolveWithIgnore => u + map c | c in columns :: Keep
    case KeepCreatedAt => if isSet then u[CreatedAt := Keep] else u
    case Writes(c, a) => u[c := a]
  }

  function FoldAll(u: UpdateSet, os: seq<ConflictOption>, columns: set<Column>, isSet: bool): UpdateSet {
    if os == [] then u
    else Fold(FoldAll(u, os[..|os| - 1], columns, isSet), os[|os| - 1], columns, isSet)
  }

  /** A column of an existing row after a conflicting insert that proposed another value for it. */
  function CellAfter(u: UpdateSet, nothing: bool, c: Column, existing: Option<Value>, proposed: Option<Value>)
    : Option<Value>
  {
    if nothing || c !in u then existing
    else match u[c]
      case Keep => existing
      case SetTo(v) => Some(v)
      case Excluded => proposed
      case Null => None
      case Plus(v) => Some(Sum(existing, v))
  }

  /** COALESCE(column, 0) + v, on the numeric columns. */
  function Sum(existing: Option<Value>, v: Value): Value {
    match (existing, v)
    case (Some(VInt(i)), VInt(j)) => VInt(i + j)
    case (Some(VFloat(x)), VFloat(y)) => VFloat(x + y)
    case _ => v
  }

  predicate DoesNothing(os: seq<ConflictOption>) {
    DoNothing in os
  }

  // ----- The builder -----

  /** The setters of AccountUpsert: SetX, UpdateX, ClearX, AddX. */
  datatype Setter =
    | Set(column: Column, v: Value) | Update(column: Column) | Clear(column: Column) | Add(column: Column, v: Value)

  /** What AccountUpsert has for a column: SetX and UpdateX with the type of X, and perhaps ClearX and AddX. */
  datatype Offer = Offer(kind: Kind, clear: bool, add: bool)

  /** The 73 setters, column by column. */
  function SettersOf(c: Column): Option<Offer> {
    match c
    case UpdatedAt => Some(Offer(KTime, false, false))
    case DeletedAt => Some(Offer(KTime, true, false))
    case Name => Some(Offer(KString, false, false))
    case Notes => Some(Offer(KString, true, false))
    case Platform => Some(Offer(KString, false, false))
    case Type => Some(Offer(KString, false, false))
    case Credentials => Some(Offer(KJson, false, false))
    case Extra => Some(Offer(KJson, false, false))
    case ProxyID => Some(Offer(KInt, true, false))
    case Concurrency => Some(Offer(KInt, false, true))
    case LoadFactor => Some(Offer(KInt, true, true))
    case Priority => Some(Offer(KInt, false, true))
    case RateMultiplier => Some(Offer(KFloat, false, true))
    case Status => Some(Offer(KString, false, false))
    case ErrorMessage => Some(Offer(KString, true, false))
    case LastUsedAt => Some(Offer(KTime, true, false))
    case ExpiresAt => Some(Offer(KTime, true, false))
    case AutoPauseOnExpired => Some(Offer(KBool, false, false))
    case Schedulable => Some(Offer(KBool, false, false))
    case RateLimitedAt => Some(Offer(KTime, true, false))
    case RateLimitResetAt => Some(Offer(KTime, true, false))
    case OverloadUntil => Some(Offer(KTime, true, false))
    case TempUnschedulableUntil => Some(Offer(KTime, true, false))
    case TempUnschedulableReason => Some(Offer(KString, true, false))
    case SessionWindowStart => Some(Offer(KTime, true, false))
    case SessionWindowEnd => Some(Offer(KTime, true, false))
    case SessionWindowStatus => Some(Offer(KString, true, false))
    case _ => None
  }

  /** The setter exists, and its argument has the type it is declared with. */
  predicate IsSetter(s: Setter) {
    match SettersOf(s.column)
    case None => false
    case Some(offer) =>
      match s
      case Set(_, v) => KindOf(v) == offer.kind
      case Update(_) => true
      case Clear(_) => offer.clear
      case Add(_, v) => offer.add && KindOf(v) == offer.kind
  }

  /**
   The table against the entity: there are setters for every column but the ID and created_at, of its type; exactly
   the nillable columns can be cleared, and only numbers added to.
   */
  lemma SettersTable(c: Column)
    ensures SettersOf(c).None? <==> c == ID || c == CreatedAt
    ensures SettersOf(c).Some? ==>
              && SettersOf(c).value.kind == MutationKind(c)
              && (SettersOf(c).value.clear <==> Nillable(c))
              && (SettersOf(c).value.add ==> MutationKind(c) == KInt || MutationKind(c) == KFloat)
  {}

  function OptionOf(s: Setter): ConflictOption {
    match s
    case Set(c, v) => Writes(c, SetTo(v))
    case Update(c) => Writes(c, Excluded)
    case Clear(c) => Writes(c, Null)
    case Add(c, v) => Writes(c, Plus(v))
  }

  /** A call on the upsert builder. OnConflict replaces the options; every other call appends. */
  datatype Call =
    | OnConflict(options: seq<ConflictOption>)
    | OnConflictColumns(columns: seq<Column>)
    | UpdateNewValues
    | Ignore
    | CallDoNothing
    | CallSetter(s: Setter)

  function After(conflict: seq<ConflictOption>, call: Call): seq<ConflictOption> {
    match call
    case OnConflict(options) => options
    case OnConflictColumns(columns) => conflict + [Target(columns)]
    case UpdateNewValues => conflict + [ResolveWithNewValues, KeepCreatedAt]
    case Ignore => conflict + [ResolveWithIgnore]
    case CallDoNothing => conflict + [DoNothing]
    case CallSetter(s) => conflict + [OptionOf(s)]
  }

  function AfterAll(calls: seq<Call>): seq<ConflictOption> {
    if calls == [] then [] else After(AfterAll(calls[..|calls| - 1]), calls[|calls| - 1])
  }

  /** Whatever was called before an OnConflict is forgotten. */
  lemma {:induction false} OnConflictForgets(before: seq<Call>, options: seq<ConflictOption>, later: seq<Call>)
    ensures AfterAll(before + [OnConflict(options)] + later) == AfterAll([OnConflict(options)] + later)
  {
    var long, short := before + [OnConflict(options)] + later, [OnConflict(options)] + later;
    if later == [] {
      assert long[|long| - 1] == short[|short| - 1] == OnConflict(options);
    } else {
      var n := |later| - 1;
      OnConflictForgets(before, options, later[..n]);
      assert long[..|long| - 1] == before + [OnConflict(options)] + later[..n];
      assert short[..|short| - 1] == [OnConflict(options)] + later[..n];
    }
  }

  // ----- created_at -----

  /** The action leaves created_at alone. */
  predicate Spares(u: UpdateSet) {
    CreatedAt in u ==> u[CreatedAt] == Keep
  }

  /** The options leave created_at alone in every insert whose columns tell whether a mutation sets it. */
  ghost predicate Safe(conflict: seq<ConflictOption>) {
    forall columns, e :: (CreatedAt in columns <==> e) ==> Spares(FoldAll(map[], conflict, columns, e))
  }

  /** The calls of the generated API: OnConflict is given conflict targets only, setters are those that exist. */
  predicate Generated(call: Call) {
    match call
    case OnConflict(options) => forall o :: o in options ==> o.Target?
    case CallSetter(s) => IsSetter(s)
    case _ => true
  }

  /** The conflict list of a create builder, which the upsert builder appends to. */
  class UpsertBuilder {
    var conflict: seq<ConflictOption>

    constructor ()
      ensures conflict == [] && Safe(conflict)
    {
      conflict := [];
    }

    /**
     UpdateNewValues: on top of what was chosen before, every inserted column takes its new value, except that
     created_at keeps its old one.
     */
    method UpdateNewValues()
      modifies this
      ensures conflict == After(old(conflict), Call.UpdateNewValues)
      ensures forall columns, e :: (e ==> CreatedAt in columns) ==>
                FoldAll(map[], conflict, columns, e)
                == FoldAll(map[], old(conflict), columns, e) + NewValues(columns, e)
      ensures old(Safe(conflict)) ==> Safe(conflict)
    {
      ghost var before := conflict;
      conflict := conflict + [ResolveWithNewValues];
      conflict := conflict + [KeepCreatedAt];
      assert conflict == before + [ResolveWithNewValues, KeepCreatedAt];
      forall columns, e | e ==> CreatedAt in columns
        ensures FoldAll(map[], conflict, columns, e) == FoldAll(map[], before, columns, e) + NewValues(columns, e)
      {
        PairFolds(before, columns, e);
      }
    }

    /** Runs the calls in order. */
    method Perform(calls: seq<Call>)
      requires conflict == []
      modifies this
      ensures conflict == AfterAll(calls)
      ensures (forall call :: call in calls ==> Generated(call)) ==> Safe(conflict)
    {
      for i := 0 to |calls|
        invariant conflict == AfterAll(calls[..i])
      {
        assert calls[..i + 1][..i] == calls[..i];
        match calls[i] {
          case OnConflict(options) => conflict := options;
          case OnConflictColumns(columns) => conflict := conflict + [Target(columns)];
          case UpdateNewValues => UpdateNewValues();
          case Ignore => conflict := conflict + [ResolveWithIgnore];
          case CallDoNothing => conflict := conflict + [DoNothing];
          case CallSetter(s) => conflict := conflict + [OptionOf(s)];
        }
      }
      assert calls[..|calls|] == calls;
      if forall call :: call in calls ==> Generated(call) {
        CallsSafe(calls);
      }
    }
  }

  /** The actions of UpdateNewValues. */
  function NewValues(columns: set<Column>, e: bool): UpdateSet {
    map c | c in columns :: if c == CreatedAt && e then Keep else Excluded
  }

  lemma {:induction false} TargetsFold(u: UpdateSet, os: seq<ConflictOption>, columns: set<Column>, e: bool)
    requires forall o :: o in os ==> o.Target?
    ensures FoldAll(u, os, columns, e) == u
  {
    if os != [] {
      TargetsFold(u, os[..|os| - 1], columns, e);
    }
  }

  lemma FoldOne(u: UpdateSet, os: seq<ConflictOption>, o: ConflictOption, columns: set<Column>, e: bool)
    ensures FoldAll(u, os + [o], columns, e) == Fold(FoldAll(u, os, columns, e), o, columns, e)
  {}

  lemma PairOn(u: UpdateSet, columns: set<Column>, e: bool)
    requires e ==> CreatedAt in columns
    ensures Fold(Fold(u, ResolveWithNewValues, columns, e), KeepCreatedAt, columns, e) == u + NewValues(columns, e)
  {}

  /** The pair that UpdateNewValues appends writes created_at and takes it back. */
  lemma PairFolds(conflict: seq<ConflictOption>, columns: set<Column>, e: bool)
    requires e ==> CreatedAt in columns
    ensures FoldAll(map[], conflict + [ResolveWithNewValues, KeepCreatedAt], columns, e)
            == FoldAll(map[], conflict, columns, e) + NewValues(columns, e)
  {
    assert conflict + [ResolveWithNewValues] + [KeepCreatedAt] == conflict + [ResolveWithNewValues, KeepCreatedAt];
    calc {
      FoldAll(map[], conflict + [ResolveWithNewValues, KeepCreatedAt], columns, e);
      { FoldOne(map[], conflict + [ResolveWithNewValues], KeepCreatedAt, columns, e); }
      Fold(FoldAll(map[], conflict + [ResolveWithNewValues], columns, e), KeepCreatedAt, columns, e);
      { FoldOne(map[], conflict, ResolveWithNewValues, columns, e); }
      Fold(Fold(FoldAll(map[], conflict, columns, e), ResolveWithNewValues, columns, e), KeepCreatedAt, columns, e);
      { PairOn(FoldAll(map[], conflict, columns, e), columns, e); }
      FoldAll(map[], conflict, columns, e) + NewValues(columns, e);
    }
  }

  lemma PairSpares(conflict: seq<ConflictOption>, columns: set<Column>, e: bool)
    requires (CreatedAt in columns <==> e) && Spares(FoldAll(map[], conflict, columns, e))
    ensures Spares(FoldAll(map[], conflict + [ResolveWithNewValues, KeepCreatedAt], columns, e))
  {
    PairFolds(conflict, columns, e);
  }

  /** The options that cannot overwrite created_at. */
  predicate Harmless(o: ConflictOption) {
    !o.ResolveWithNewValues? && (o.Writes? ==> o.column != CreatedAt)
  }

  lemma HarmlessSpares(conflict: seq<ConflictOption>, o: ConflictOption, columns: set<Column>, e: bool)
    requires Harmless(o) && Spares(FoldAll(map[], conflict, columns, e))
    ensures Spares(FoldAll(map[], conflict + [o], columns, e))
  {}

  /** No setter there is writes created_at. */
  lemma SetterHarmless(s: Setter)
    requires IsSetter(s)
    ensures Harmless(OptionOf(s))
  {
    SettersTable(s.column);
  }

  /** One call keeps created_at spared, whatever columns are inserted, as long as they tell whether it is set. */
  lemma CallSpares(conflict: seq<ConflictOption>, call: Call, columns: set<Column>, e: bool)
    requires Generated(call) && (CreatedAt in columns <==> e)
    requires Spares(FoldAll(map[], conflict, columns, e))
    ensures Spares(FoldAll(map[], After(conflict, call), columns, e))
  {
    match call {
      case OnConflict(options) => TargetsFold(map[], options, columns, e);
      case OnConflictColumns(cs) => HarmlessSpares(conflict, Target(cs), columns, e);
      case UpdateNewValues => PairSpares(conflict, columns, e);
      case Ignore => HarmlessSpares(conflict, ResolveWithIgnore, columns, e);
      case CallDoNothing => HarmlessSpares(conflict, DoNothing, columns, e);
      case CallSetter(s) =>
        SetterHarmless(s);
        HarmlessSpares(conflict, OptionOf(s), columns, e);
    }
  }

  /** Every list of options that the generated calls build is safe. */
  lemma {:induction false} CallsSafe(calls: seq<Call>)
    requires forall call :: call in calls ==> Generated(call)
    ensures Safe(AfterAll(calls))
  {
    if calls != [] {
      var before := AfterAll(calls[..|calls| - 1]);
      CallsSafe(calls[..|calls| - 1]);
      forall columns, e | CreatedAt in columns <==> e
        ensures Spares(FoldAll(map[], AfterAll(calls), columns, e))
      {
        CallSpares(before, calls[|calls| - 1], columns, e);
      }
    }
  }

  // ----- What the last call does to a conflicting row -----

  /** The cell of column c after a conflict, for a list of options. */
  function CellOf(os: seq<ConflictOption>, columns: set<Column>, e: bool, c: Column, existing: Option<Value>,
                  proposed: Option<Value>): Option<Value>
  {
    CellAfter(FoldAll(map[], os, columns, e), DoesNothing(os), c, existing, proposed)
  }

  lemma OneMoreOption(os: seq<ConflictOption>, o: ConflictOption, columns: set<Column>, e: bool, c: Column,
                      existing: Option<Value>, proposed: Option<Value>)
    requires !o.DoNothing?
    ensures CellOf(os + [o], columns, e, c, existing, proposed)
            == CellAfter(Fold(FoldAll(map[], os, columns, e), o, columns, e), DoesNothing(os), c, existing, proposed)
  {
    FoldOne(map[], os, o, columns, e);
    assert DoesNothing(os + [o]) <==> DoesNothing(os);
  }

  /**
   A setter called last decides its column, whatever was called before: SetX the given value, UpdateX the proposed
   one, ClearX NULL, AddX the existing number (0 for NULL) plus the given one.
   */
  lemma SetterDecides(os: seq<ConflictOption>, s: Setter, columns: set<Column>, e: bool, existing: Option<Value>,
                      proposed: Option<Value>)
    requires !DoesNothing(os)
    ensures var cell := CellOf(After(os, CallSetter(s)), columns, e, s.column, existing, proposed);
            match s
            case Set(_, v) => cell == Some(v)
            case Update(_) => cell == proposed
            case Clear(_) => cell == None
            case Add(_, v) =>
              && (existing.None? ==> cell == Some(v))
              && (forall i, j :: v == VInt(j) && existing == Some(VInt(i)) ==> cell == Some(VInt(i + j)))
              && (forall x, y :: v == VFloat(y) && existing == Some(VFloat(x)) ==> cell == Some(VFloat(x + y)))
  {
    OneMoreOption(os, OptionOf(s), columns, e, s.column, existing, proposed);
  }

  lemma FoldElsewhere(u: UpdateSet, s: Setter, nothing: bool, columns: set<Column>, e: bool, c: Column,
                      existing: Option<Value>, proposed: Option<Value>)
    requires c != s.column
    ensures CellAfter(Fold(u, OptionOf(s), columns, e), nothing, c, existing, proposed)
            == CellAfter(u, nothing, c, existing, proposed)
  {
    var o := OptionOf(s);
    assert o.Writes? && o.column == s.column;
  }

  /** And only its column. */
  lemma SetterSparesOthers(os: seq<ConflictOption>, s: Setter, columns: set<Column>, e: bool, c: Column,
                           existing: Option<Value>, proposed: Option<Value>)
    requires c != s.column
    ensures CellOf(After(os, CallSetter(s)), columns, e, c, existing, proposed)
            == CellOf(os, columns, e, c, existing, proposed)
  {
    OneMoreOption(os, OptionOf(s), columns, e, c, existing, proposed);
    FoldElsewhere(FoldAll(map[], os, columns, e), s, DoesNothing(os), columns, e, c, existing, proposed);
  }

  lemma MergedCell(u: UpdateSet, chosen: UpdateSet, c: Column, existing: Option<Value>, proposed: Option<Value>)
    ensures CellAfter(u + chosen, false, c, existing, proposed)
            == CellAfter(if c in chosen then chosen else u, false, c, existing, proposed)
  {
    assert c in u + chosen <==> c in u || c in chosen;
  }

  lemma ChosenCell(columns: set<Column>, c: Column, existing: Option<Value>, proposed: Option<Value>)
    requires c in columns
    ensures CellAfter(NewValues(columns, CreatedAt in columns), false, c, existing, proposed)
            == if c == CreatedAt then existing else proposed
  {}

  lemma NewValuesCell(u: UpdateSet, columns: set<Column>, c: Column, existing: Option<Value>, proposed: Option<Value>)
    ensures var e := CreatedAt in columns;
            CellAfter(u + NewValues(columns, e), false, c, existing, proposed)
            == if c == CreatedAt && e then existing
               else if c in columns then proposed
               else CellAfter(u, false, c, existing, proposed)
  {
    MergedCell(u, NewValues(columns, CreatedAt in columns), c, existing, proposed);
    if c in columns {
      ChosenCell(columns, c, existing, proposed);
    }
  }

  lemma PairDoesSomething(os: seq<ConflictOption>)
    requires !DoesNothing(os)
    ensures !DoesNothing(After(os, Call.UpdateNewValues))
  {}

  /** UpdateNewValues called last: every inserted column takes the proposed value, but created_at, if set, stays. */
  lemma UpdateNewValuesDecides(os: seq<ConflictOption>, columns: set<Column>, c: Column, existing: Option<Value>,
                               proposed: Option<Value>)
    requires !DoesNothing(os)
    ensures var e := CreatedAt in columns;
            CellOf(After(os, Call.UpdateNewValues), columns, e, c, existing, proposed)
            == if c == CreatedAt && e then existing
               else if c in columns then proposed
               else CellOf(os, columns, e, c, existing, proposed)
  {
    var e := CreatedAt in columns;
    var before, after := FoldAll(map[], os, columns, e), FoldAll(map[], After(os, Call.UpdateNewValues), columns, e);
    PairDoesSomething(os);
    assert after == before + NewValues(columns, e) by {
      PairFolds(os, columns, e);
    }
    NewValuesCell(before, columns, c, existing, proposed);
  }

  /** Ignore called last: every inserted column stays. */
  lemma IgnoreDecides(os: seq<ConflictOption>, columns: set<Column>, e: bool, c: Column, existing: Option<Value>,
                      proposed: Option<Value>)
    ensures CellOf(After(os, Call.Ignore), columns, e, c, existing, proposed)
            == if c in columns then existing else CellOf(os, columns, e, c, existing, proposed)
  {
    OneMoreOption(os, ResolveWithIgnore, columns, e, c, existing, proposed);
  }

  /** A conflict target has no effect on the row. */
  lemma TargetDecides(os: seq<ConflictOption>, columns: set<Column>, e: bool, c: Column, existing: Option<Value>,
                      proposed: Option<Value>, target: seq<Column>)
    ensures CellOf(After(os, OnConflictColumns(target)), columns, e, c, existing, proposed)
            == CellOf(os, columns, e, c, existing, proposed)
  {
    OneMoreOption(os, Target(target), columns, e, c, existing, proposed);
  }

  /** DoNothing keeps the whole row. */
  lemma DoNothingDecides(os: seq<ConflictOption>, columns: set<Column>, e: bool, c: Column, existing: Option<Value>,
                         proposed: Option<Value>)
    ensures CellOf(After(os, CallDoNothing), columns, e, c, existing, proposed) == existing
  {
    assert (os + [DoNothing])[|os|] == DoNothing;
  }

  // ----- Histories of a row -----

  /** An insert of one or more accounts: the calls on its builder, and the columns each mutation sets. */
  datatype Attempt = Attempt(calls: seq<Call>, sets: seq<set<Column>>, proposed: Option<Value>)

  /** The columns of the (batch) insert. */
  function InsertColumns(sets: seq<set<Column>>): set<Column> {
    set i, c | 0 <= i < |sets| && c in sets[i] :: c
  }

  /** Whether some builder's mutation sets created_at. */
  predicate SomeSets(sets: seq<set<Column>>) {
    exists i :: 0 <= i < |sets| && CreatedAt in sets[i]
  }

  /** created_at of the row after one conflicting attempt. */
  function CreatedAtAfter(existing: Option<Value>, a: Attempt): Option<Value> {
    var os := AfterAll(a.calls);
    var u := FoldAll(map[], os, InsertColumns(a.sets), SomeSets(a.sets));
    CellAfter(u, DoesNothing(os), CreatedAt, existing, a.proposed)
  }

  function CreatedAtAfterAll(first: Option<Value>, history: seq<Attempt>): Option<Value> {
    if history == [] then first
    else CreatedAtAfter(CreatedAtAfterAll(first, history[..|history| - 1]), history[|history| - 1])
  }

  /** Over every run of upserts made with the generated calls, single or bulk, created_at keeps its first value. */
  lemma {:induction false} CreatedAtNeverChanges(first: Option<Value>, history: seq<Attempt>)
    requires forall a, call :: a in history && call in a.calls ==> Generated(call)
    ensures CreatedAtAfterAll(first, history) == first
  {
    if history != [] {
      var last := history[|history| - 1];
      CreatedAtNeverChanges(first, history[..|history| - 1]);
      CallsSafe(last.calls);
    }
  }

  /** The option takes created_at over: with the new values when it is inserted, or by a write of another value. */
  predicate Takes(o: ConflictOption, columns: set<Column>) {
    || (o.ResolveWithNewValues? && CreatedAt in columns)
    || (o.Writes? && o.column == CreatedAt && o.action != Keep)
  }

  /** The option gives it back: by ignoring the inserted columns, as UpdateNewValues does, or by a write of Keep. */
  predicate Returns(o: ConflictOption, columns: set<Column>, e: bool) {
    || (o.ResolveWithIgnore? && CreatedAt in columns)
    || (o.KeepCreatedAt? && e)
    || (o.Writes? && o.column == CreatedAt && o.action == Keep)
  }

  /** Every option that takes created_at over is followed by one that gives it back. */
  ghost predicate Returned(os: seq<ConflictOption>, columns: set<Column>, e: bool) {
    forall i :: 0 <= i < |os| && Takes(os[i], columns) ==> exists j :: i < j < |os| && Returns(os[j], columns, e)
  }

  lemma ReturnedSnoc(os: seq<ConflictOption>, o: ConflictOption, columns: set<Column>, e: bool)
    ensures Returned(os + [o], columns, e)
            <==> !Takes(o, columns) && (Returns(o, columns, e) || Returned(os, columns, e))
  {
    var all := os + [o];
    assert all[|os|] == o && forall i :: 0 <= i < |os| ==> all[i] == os[i];
    if Returned(all, columns, e) && !Returns(o, columns, e) {
      forall i | 0 <= i < |os| && Takes(os[i], columns) ensures exists j :: i < j < |os| && Returns(os[j], columns, e) {
        assert Takes(all[i], columns);
        var j :| i < j < |all| && Returns(all[j], columns, e);
        assert j < |os|;
      }
    }
    if !Takes(o, columns) && Returned(os, columns, e) {
      forall i | 0 <= i < |all| && Takes(all[i], columns)
        ensures exists j :: i < j < |all| && Returns(all[j], columns, e)
      {
        var j :| i < j < |os| && Returns(os[j], columns, e);
        assert Returns(all[j], columns, e);
      }
    }
  }

  lemma SparesStep(u: UpdateSet, o: ConflictOption, columns: set<Column>, e: bool)
    ensures Spares(Fold(u, o, columns, e)) <==> !Takes(o, columns) && (Returns(o, columns, e) || Spares(u))
  {}

  /** The fold of a list leaves created_at alone exactly when the list gives it back after every taking over. */
  lemma {:induction false} SparesIff(os: seq<ConflictOption>, columns: set<Column>, e: bool)
    ensures Spares(FoldAll(map[], os, columns, e)) <==> Returned(os, columns, e)
  {
    if os != [] {
      var rest, o := os[..|os| - 1], os[|os| - 1];
      assert os == rest + [o];
      SparesIff(rest, columns, e);
      ReturnedSnoc(rest, o, columns, e);
      SparesStep(FoldAll(map[], rest, columns, e), o, columns, e);
    }
  }

  /** An action other than Keep changes some value of created_at. */
  lemma UnsparedChanges(u: UpdateSet)
    requires !Spares(u)
    ensures exists existing, proposed ::
              existing != None && CellAfter(u, false, CreatedAt, existing, proposed) != existing
  {
    var given := match u[CreatedAt] case SetTo(VTime(t)) => t case Plus(VTime(t)) => t case _ => 0;
    var existing, proposed := Some(VTime(given + 1)), Some(VTime(given));
    assert CellAfter(u, false, CreatedAt, existing, proposed) != existing;
  }

  /**
   For any options at all: created_at survives every conflict exactly when the list says to do nothing, or gives
   created_at back after every option that takes it over.
   */
  lemma CreatedAtSurvivesIff(os: seq<ConflictOption>, columns: set<Column>, e: bool)
    ensures (forall existing, proposed :: existing != None ==>
               CellAfter(FoldAll(map[], os, columns, e), DoesNothing(os), CreatedAt, existing, proposed) == existing)
            <==> DoesNothing(os) || Returned(os, columns, e)
  {
    SparesIff(os, columns, e);
    if !Returned(os, columns, e) {
      UnsparedChanges(FoldAll(map[], os, columns, e));
    }
  }

  /**
   The documentation of UpdateNewValues calls it equivalent to OnConflict(ResolveWithNewValues()). It is, except
   for created_at, which the plain option overwrites: the two leave the same rows exactly when the insert proposes
   the created_at the row has, or does not set it.
   */
  lemma UpdateNewValuesDiffers(columns: set<Column>, c: Column, existing: Option<Value>, proposed: Option<Value>)
    ensures var e := CreatedAt in columns;
            var documented := FoldAll(map[], [ResolveWithNewValues], columns, e);
            var actual := FoldAll(map[], AfterAll([UpdateNewValues]), columns, e);
            CellAfter(documented, false, c, existing, proposed) == CellAfter(actual, false, c, existing, proposed)
            <==> c != CreatedAt || c !in columns || existing == proposed
  {}
}
