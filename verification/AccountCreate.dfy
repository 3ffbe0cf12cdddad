/**
 Creating one account (backend/ent/account_create.go): defaults, check and createSpec, and the read path
 scanValues and assignValues (backend/ent/account.go) that must give the created node back.
 The source writes one statement per column; here each such run of statements is a loop over its table.
 */
module AccountCreate {
  import opened Wrappers
  import opened AccountFields
  import Upsert

  /** The new values of a mutation: its non-nil pointers, and the IDs of its edges. */
  datatype Mutation = Mutation(fields: map<Column, Value>, proxy: Option<int>, groups: seq<int>, usageLogs: seq<int>)

  /** Go's static types: each pointer holds a value of its type; proxy_id is held by the edge. */
  ghost predicate Typed(fields: map<Column, Value>) {
    forall c :: c in fields ==> c != ID && c != ProxyID && KindOf(fields[c]) == MutationKind(c)
  }

  /**
   What the init of package runtime installs, all of it at once: the defaults (of accounts, and of the rows of the
   join table) and the validators. Where the package is not imported they are zero, or nil functions.
   */
  datatype Runtime =
    | NotInstalled
    | Installed(
        createdAt: int,
        updatedAt: int,
        credentials: Json,
        extra: Json,
        concurrency: int,
        priority: int,
        rateMultiplier: real,
        status: string,
        autoPauseOnExpired: bool,
        schedulable: bool,
        joinPriority: int,
        joinCreatedAt: int,
        valid: (Column, Value) -> bool)

  // ----- defaults -----

  /** The place of a column among the statements of defaults; 10 where there is none. */
  function Rank(c: Column): nat {
    match c
    case CreatedAt => 0
    case UpdatedAt => 1
    case Credentials => 2
    case Extra => 3
    case Concurrency => 4
    case Priority => 5
    case RateMultiplier => 6
    case Status => 7
    case AutoPauseOnExpired => 8
    case Schedulable => 9
    case _ => 10
  }

  /** The column of the n-th statement. */
  function ColumnAt(n: nat): Column
    requires n < 10
    ensures Rank(ColumnAt(n)) == n
  {
    match n
    case 0 => CreatedAt
    case 1 => UpdatedAt
    case 2 => Credentials
    case 3 => Extra
    case 4 => Concurrency
    case 5 => Priority
    case 6 => RateMultiplier
    case 7 => Status
    case 8 => AutoPauseOnExpired
    case 9 => Schedulable
  }

  lemma OneOfRank(c: Column)
    ensures Rank(c) <= 10
    ensures Rank(c) < 10 ==> c == ColumnAt(Rank(c))
  {}

  /** The default of a column; None when its function is nil. */
  function DefaultOf(rt: Runtime, c: Column): Option<Value> {
    match rt
    case NotInstalled => (
      match c
      case Concurrency | Priority => Some(VInt(0))
      case RateMultiplier => Some(VFloat(0.0))
      case Status => Some(VString(""))
      case AutoPauseOnExpired | Schedulable => Some(VBool(false))
      case _ => None)
    case Installed(_, _, _, _, _, _, _, _, _, _, _, _, _) => (
      match c
      case CreatedAt => Some(VTime(rt.createdAt))
      case UpdatedAt => Some(VTime(rt.updatedAt))
      case Credentials => Some(VJson(rt.credentials))
      case Extra => Some(VJson(rt.extra))
      case Concurrency => Some(VInt(rt.concurrency))
      case Priority => Some(VInt(rt.priority))
      case RateMultiplier => Some(VFloat(rt.rateMultiplier))
      case Status => Some(VString(rt.status))
      case AutoPauseOnExpired => Some(VBool(rt.autoPauseOnExpired))
      case Schedulable => Some(VBool(rt.schedulable))
      case _ => None)
  }

  function Defaults(rt: Runtime): Column -> Option<Value> {
    c => DefaultOf(rt, c)
  }

  /** The column is unset and its default function is nil. */
  predicate Stuck(rt: Runtime, fields: map<Column, Value>, c: Column) {
    Rank(c) < 10 && c !in fields && DefaultOf(rt, c).None?
  }

  /** The fields, and the defaults of the unset columns of rank below n. */
  function Extended(fields: map<Column, Value>, defaultOf: Column -> Option<Value>, rank: Column -> nat, n: nat)
    : map<Column, Value>
  {
    map c: Column | c in fields || (rank(c) < n && defaultOf(c).Some?)
      :: if c in fields then fields[c] else defaultOf(c).value
  }

  lemma ExtendedNext(fields: map<Column, Value>, defaultOf: Column -> Option<Value>, rank: Column -> nat,
                     c: Column, n: nat)
    requires rank(c) == n && forall c' :: rank(c') == n ==> c' == c
    ensures c in Extended(fields, defaultOf, rank, n) <==> c in fields
    ensures Extended(fields, defaultOf, rank, n + 1)
            == if c !in fields && defaultOf(c).Some?
               then Extended(fields, defaultOf, rank, n)[c := defaultOf(c).value]
               else Extended(fields, defaultOf, rank, n)
  {}

  /** fields after the first n statements of defaults: the unset columns among theirs have their defaults. */
  function WithDefaults(rt: Runtime, fields: map<Column, Value>, n: nat): map<Column, Value> {
    Extended(fields, Defaults(rt), Rank, n)
  }

  lemma OnlyOfRank(c: Column, c': Column)
    requires Rank(c) == Rank(c') < 10
    ensures c == c'
  {}

  /** What the n-th statement adds. */
  lemma WithDefaultsNext(rt: Runtime, fields: map<Column, Value>, c: Column, n: nat)
    requires Rank(c) == n < 10
    ensures c in WithDefaults(rt, fields, n) <==> c in fields
    ensures WithDefaults(rt, fields, n + 1)
            == if c !in fields && DefaultOf(rt, c).Some?
               then WithDefaults(rt, fields, n)[c := DefaultOf(rt, c).value]
               else WithDefaults(rt, fields, n)
  {
    forall c' | Rank(c') == n ensures c' == c {
      OnlyOfRank(c, c');
    }
    ExtendedNext(fields, Defaults(rt), Rank, c, n);
  }

  /** The column at which the statements from the n-th on stop: the first stuck one. */
  function FirstStuck(rt: Runtime, fields: map<Column, Value>, n: nat): Option<Column>
    requires n <= 10
    decreases 10 - n
  {
    if n == 10 then None
    else if Stuck(rt, fields, ColumnAt(n)) then Some(ColumnAt(n))
    else FirstStuck(rt, fields, n + 1)
  }

  /** The fields that defaults leaves behind. */
  function Defaulted(rt: Runtime, fields: map<Column, Value>): map<Column, Value> {
    var stop := FirstStuck(rt, fields, 0);
    WithDefaults(rt, fields, if stop.Some? then Rank(stop.value) else 10)
  }

  // ----- check -----

  datatype ValidationError = MissingField(column: Column) | Rejected(column: Column)

  /** How check ends; a call of a nil validator panics. */
  datatype Verdict = Passes | Fails(error: ValidationError) | Panics

  /** The validator of the column refuses its value, if there is a validator and a value. */
  predicate Refused(rt: Runtime, fields: map<Column, Value>, c: Column) {
    c in fields && rt.Installed? && !rt.valid(c, fields[c])
  }

  function Present(fields: map<Column, Value>, c: Column): Verdict {
    if c in fields then Passes else Fails(MissingField(c))
  }

  /** The call of the validator on the value, if the column is set. */
  function Validate(rt: Runtime, fields: map<Column, Value>, c: Column): Verdict {
    if c !in fields then Passes
    else if rt.NotInstalled? then Panics
    else if rt.valid(c, fields[c]) then Passes
    else Fails(Rejected(c))
  }

  function Then(first: Verdict, rest: Verdict): Verdict {
    if first.Passes? then rest else first
  }

  /** A required column with a validator. */
  function PresentAndValid(rt: Runtime, fields: map<Column, Value>, c: Column): Verdict {
    Then(Present(fields, c), Validate(rt, fields, c))
  }

  /** check: the tests in the order of the source, the first that does not pass ends it. */
  function Check(rt: Runtime, fields: map<Column, Value>): Verdict {
    Then(Present(fields, CreatedAt),
    Then(Present(fields, UpdatedAt),
    Then(PresentAndValid(rt, fields, Name),
    Then(PresentAndValid(rt, fields, Platform),
    Then(PresentAndValid(rt, fields, Type),
    Then(Present(fields, Credentials),
    Then(Present(fields, Extra),
    Then(Present(fields, Concurrency),
    Then(Present(fields, Priority),
    Then(Present(fields, RateMultiplier),
    Then(PresentAndValid(rt, fields, Status),
    Then(Present(fields, AutoPauseOnExpired),
    Then(Present(fields, Schedulable),
      Validate(rt, fields, SessionWindowStatus))))))))))))))
  }

  /** The columns that check demands, and those it has a validator for. */
  const REQUIRED := {CreatedAt, UpdatedAt, Name, Platform, Type, Credentials, Extra, Concurrency, Priority,
                     RateMultiplier, Status, AutoPauseOnExpired, Schedulable}

  const VALIDATED := {Name, Platform, Type, Status, SessionWindowStatus}

  lemma CheckInstalled(rt: Runtime, fields: map<Column, Value>)
    requires rt.Installed?
    ensures !Check(rt, fields).Panics?
    ensures Check(rt, fields).Passes? <==>
              REQUIRED <= fields.Keys && forall c :: c in VALIDATED ==> !Refused(rt, fields, c)
  {}

  lemma CheckNotInstalled(rt: Runtime, fields: map<Column, Value>)
    requires rt.NotInstalled?
    ensures !Check(rt, fields).Passes?
    ensures Check(rt, fields).Panics? <==> {CreatedAt, UpdatedAt, Name} <= fields.Keys
  {}

  /**
   check passes exactly when the validators are installed, every required column is set and every validator accepts;
   it panics exactly when they are not and the tests get as far as the first of them.
   */
  lemma CheckExact(rt: Runtime, fields: map<Column, Value>)
    ensures Check(rt, fields).Passes? <==>
              && rt.Installed? && REQUIRED <= fields.Keys
              && forall c :: c in VALIDATED ==> !Refused(rt, fields, c)
    ensures Check(rt, fields).Panics? <==> rt.NotInstalled? && {CreatedAt, UpdatedAt, Name} <= fields.Keys
  {
    if rt.Installed? {
      CheckInstalled(rt, fields);
    } else {
      CheckNotInstalled(rt, fields);
    }
  }

  predicate Accepted(rt: Runtime, fields: map<Column, Value>, c: Column)
    requires rt.Installed?
  {
    c in fields && rt.valid(c, fields[c])
  }

  /** The same, column by column. */
  lemma CheckByName(rt: Runtime, fields: map<Column, Value>)
    requires rt.Installed?
    ensures Check(rt, fields).Passes? <==>
              && CreatedAt in fields && UpdatedAt in fields && Accepted(rt, fields, Name)
              && Accepted(rt, fields, Platform) && Accepted(rt, fields, Type) && Credentials in fields
              && Extra in fields && Concurrency in fields && Priority in fields && RateMultiplier in fields
              && Accepted(rt, fields, Status) && AutoPauseOnExpired in fields && Schedulable in fields
              && (SessionWindowStatus in fields ==> Accepted(rt, fields, SessionWindowStatus))
  {}

  /** The order in which check tests the columns. */
  const TESTED: seq<Column> := [
    CreatedAt, UpdatedAt, Name, Platform, Type, Credentials, Extra, Concurrency, Priority, RateMultiplier, Status,
    AutoPauseOnExpired, Schedulable, SessionWindowStatus]

  /** The column is required and unset, or its validator refuses it. */
  predicate Bad(rt: Runtime, fields: map<Column, Value>, c: Column) {
    (c in REQUIRED && c !in fields) || (c in VALIDATED && Refused(rt, fields, c))
  }

  /** The tests of one column. */
  function TestOf(rt: Runtime, fields: map<Column, Value>, c: Column): Verdict {
    Then(if c in REQUIRED then Present(fields, c) else Passes,
         if c in VALIDATED then Validate(rt, fields, c) else Passes)
  }

  /** The tests of the columns from the k-th on. */
  function TestsFrom(rt: Runtime, fields: map<Column, Value>, k: nat): Verdict
    requires k <= |TESTED|
    decreases |TESTED| - k
  {
    if k == |TESTED| then Passes else Then(TestOf(rt, fields, TESTED[k]), TestsFrom(rt, fields, k + 1))
  }

  lemma {:induction false} FirstTest(rt: Runtime, fields: map<Column, Value>, k: nat, i: nat)
    requires k <= i < |TESTED| && !TestOf(rt, fields, TESTED[i]).Passes?
    requires forall j :: k <= j < i ==> TestOf(rt, fields, TESTED[j]).Passes?
    ensures TestsFrom(rt, fields, k) == TestOf(rt, fields, TESTED[i])
    decreases i - k
  {
    if k < i {
      FirstTest(rt, fields, k + 1, i);
    }
  }

  lemma CheckIsTests(rt: Runtime, fields: map<Column, Value>)
    ensures Check(rt, fields) == TestsFrom(rt, fields, 0)
  {
    assert TestsFrom(rt, fields, 14) == Passes;
    assert TestsFrom(rt, fields, 13) == Validate(rt, fields, SessionWindowStatus);
    assert TestsFrom(rt, fields, 11)
           == Then(Present(fields, AutoPauseOnExpired), Then(Present(fields, Schedulable), TestsFrom(rt, fields, 13)));
    assert TestsFrom(rt, fields, 9)
           == Then(Present(fields, RateMultiplier),
              Then(PresentAndValid(rt, fields, Status), TestsFrom(rt, fields, 11)));
    assert TestsFrom(rt, fields, 7)
           == Then(Present(fields, Concurrency), Then(Present(fields, Priority), TestsFrom(rt, fields, 9)));
    assert TestsFrom(rt, fields, 5)
           == Then(Present(fields, Credentials), Then(Present(fields, Extra), TestsFrom(rt, fields, 7)));
    assert TestsFrom(rt, fields, 3)
           == Then(PresentAndValid(rt, fields, Platform),
              Then(PresentAndValid(rt, fields, Type), TestsFrom(rt, fields, 5)));
    assert TestsFrom(rt, fields, 1)
           == Then(Present(fields, UpdatedAt), Then(PresentAndValid(rt, fields, Name), TestsFrom(rt, fields, 3)));
  }

  /** Where validators are installed, check complains about the first bad column: that it is unset, or refused. */
  lemma CheckFirst(rt: Runtime, fields: map<Column, Value>, i: nat)
    requires rt.Installed? && i < |TESTED| && Bad(rt, fields, TESTED[i])
    requires forall j :: 0 <= j < i ==> !Bad(rt, fields, TESTED[j])
    ensures var c := TESTED[i];
            Check(rt, fields) == Fails(if c in fields then Rejected(c) else MissingField(c))
  {
    assert forall k :: 0 <= k < i ==> TestOf(rt, fields, TESTED[k]).Passes?;
    var c := TESTED[i];
    assert TestOf(rt, fields, c) == Fails(if c in fields then Rejected(c) else MissingField(c));
    CheckIsTests(rt, fields);
    FirstTest(rt, fields, 0, i);
  }

  /** Where they are not, about the first of three columns that is unset, if there is one. */
  lemma CheckFirstUnset(rt: Runtime, fields: map<Column, Value>)
    requires rt.NotInstalled?
    ensures CreatedAt !in fields ==> Check(rt, fields) == Fails(MissingField(CreatedAt))
    ensures CreatedAt in fields && UpdatedAt !in fields ==> Check(rt, fields) == Fails(MissingField(UpdatedAt))
    ensures CreatedAt in fields && UpdatedAt in fields && Name !in fields ==>
              Check(rt, fields) == Fails(MissingField(Name))
  {}

  lemma {:induction false} FirstStuckExact(rt: Runtime, fields: map<Column, Value>, n: nat)
    requires n <= 10
    ensures var stop := FirstStuck(rt, fields, n);
            if stop.None? then forall c :: Rank(c) >= n ==> !Stuck(rt, fields, c)
            else Stuck(rt, fields, stop.value) && Rank(stop.value) >= n
    decreases 10 - n
  {
    if n < 10 && !Stuck(rt, fields, ColumnAt(n)) {
      FirstStuckExact(rt, fields, n + 1);
      forall c | Rank(c) == n ensures c == ColumnAt(n) {
        OneOfRank(c);
      }
    }
  }

  /**
   defaults fails exactly when some column is stuck, and what it leaves behind is still stuck there;
   otherwise exactly the columns with a default are added.
   */
  lemma DefaultsExact(rt: Runtime, fields: map<Column, Value>)
    ensures var stop := FirstStuck(rt, fields, 0);
            if stop.None?
            then && (forall c :: !Stuck(rt, fields, c))
                 && (forall c :: c in Defaulted(rt, fields) <==> c in fields || Rank(c) < 10)
            else Stuck(rt, Defaulted(rt, fields), stop.value)
  {
    FirstStuckExact(rt, fields, 0);
  }

  /** Column c is set: as it was before, or else to the default v. */
  predicate KeptOr(before: map<Column, Value>, after: map<Column, Value>, c: Column, v: Value) {
    c in after && after[c] == if c in before then before[c] else v
  }

  /**
   What successful defaults come to, column by column: each of the ten columns is set, as it was or to its own
   default; every other column is as it was.
   */
  ghost predicate HasDefaults(rt: Runtime, before: map<Column, Value>, after: map<Column, Value>) {
    && (if rt.Installed? then
          && KeptOr(before, after, CreatedAt, VTime(rt.createdAt))
          && KeptOr(before, after, UpdatedAt, VTime(rt.updatedAt))
          && KeptOr(before, after, Credentials, VJson(rt.credentials))
          && KeptOr(before, after, Extra, VJson(rt.extra))
          && KeptOr(before, after, Concurrency, VInt(rt.concurrency))
          && KeptOr(before, after, Priority, VInt(rt.priority))
          && KeptOr(before, after, RateMultiplier, VFloat(rt.rateMultiplier))
          && KeptOr(before, after, Status, VString(rt.status))
          && KeptOr(before, after, AutoPauseOnExpired, VBool(rt.autoPauseOnExpired))
          && KeptOr(before, after, Schedulable, VBool(rt.schedulable))
        else
          && {CreatedAt, UpdatedAt, Credentials, Extra} <= before.Keys
          && KeptOr(before, after, Concurrency, VInt(0)) && KeptOr(before, after, Priority, VInt(0))
          && KeptOr(before, after, RateMultiplier, VFloat(0.0)) && KeptOr(before, after, Status, VString(""))
          && KeptOr(before, after, AutoPauseOnExpired, VBool(false))
          && KeptOr(before, after, Schedulable, VBool(false)))
    && (forall c :: c in before ==> c in after && after[c] == before[c])
    && (forall c :: c in after ==>
          c in before || c in {CreatedAt, UpdatedAt, Credentials, Extra, Concurrency, Priority, RateMultiplier, Status,
                               AutoPauseOnExpired, Schedulable})
  }

  lemma ExtendedKeeps(fields: map<Column, Value>, defaultOf: Column -> Option<Value>, rank: Column -> nat, n: nat)
    ensures var after := Extended(fields, defaultOf, rank, n);
            && (forall c :: c in fields ==> c in after && after[c] == fields[c])
            && (forall c :: c in after ==> c in fields || rank(c) < n)
  {}

  lemma ExtendedSets(fields: map<Column, Value>, defaultOf: Column -> Option<Value>, rank: Column -> nat, n: nat,
                     c: Column, v: Value)
    requires rank(c) < n && defaultOf(c) == Some(v)
    ensures KeptOr(fields, Extended(fields, defaultOf, rank, n), c, v)
  {}

  lemma RanksListed(c: Column)
    ensures Rank(c) < 10 <==>
              c in {CreatedAt, UpdatedAt, Credentials, Extra, Concurrency, Priority, RateMultiplier, Status,
                    AutoPauseOnExpired, Schedulable}
    ensures Rank(c) < 4 <==> c in {CreatedAt, UpdatedAt, Credentials, Extra}
  {}

  lemma DefaultKept(rt: Runtime, fields: map<Column, Value>, c: Column, v: Value)
    requires Rank(c) < 10 && DefaultOf(rt, c) == Some(v)
    ensures KeptOr(fields, WithDefaults(rt, fields, 10), c, v)
  {
    ExtendedSets(fields, Defaults(rt), Rank, 10, c, v);
  }

  lemma InstalledFunctions(rt: Runtime, fields: map<Column, Value>)
    requires rt.Installed?
    ensures var after := WithDefaults(rt, fields, 10);
            && KeptOr(fields, after, CreatedAt, VTime(rt.createdAt))
            && KeptOr(fields, after, UpdatedAt, VTime(rt.updatedAt))
            && KeptOr(fields, after, Credentials, VJson(rt.credentials))
            && KeptOr(fields, after, Extra, VJson(rt.extra))
  {
    DefaultKept(rt, fields, CreatedAt, VTime(rt.createdAt));
    DefaultKept(rt, fields, UpdatedAt, VTime(rt.updatedAt));
    DefaultKept(rt, fields, Credentials, VJson(rt.credentials));
    DefaultKept(rt, fields, Extra, VJson(rt.extra));
  }

  lemma InstalledConstants(rt: Runtime, fields: map<Column, Value>)
    requires rt.Installed?
    ensures var after := WithDefaults(rt, fields, 10);
            && KeptOr(fields, after, Concurrency, VInt(rt.concurrency))
            && KeptOr(fields, after, Priority, VInt(rt.priority))
            && KeptOr(fields, after, RateMultiplier, VFloat(rt.rateMultiplier))
            && KeptOr(fields, after, Status, VString(rt.status))
            && KeptOr(fields, after, AutoPauseOnExpired, VBool(rt.autoPauseOnExpired))
            && KeptOr(fields, after, Schedulable, VBool(rt.schedulable))
  {
    DefaultKept(rt, fields, Concurrency, VInt(rt.concurrency));
    DefaultKept(rt, fields, Priority, VInt(rt.priority));
    DefaultKept(rt, fields, RateMultiplier, VFloat(rt.rateMultiplier));
    DefaultKept(rt, fields, Status, VString(rt.status));
    DefaultKept(rt, fields, AutoPauseOnExpired, VBool(rt.autoPauseOnExpired));
    DefaultKept(rt, fields, Schedulable, VBool(rt.schedulable));
  }

  lemma ZeroDefaults(rt: Runtime, fields: map<Column, Value>)
    requires rt.NotInstalled?
    ensures var after := WithDefaults(rt, fields, 10);
            && KeptOr(fields, after, Concurrency, VInt(0)) && KeptOr(fields, after, Priority, VInt(0))
            && KeptOr(fields, after, RateMultiplier, VFloat(0.0)) && KeptOr(fields, after, Status, VString(""))
            && KeptOr(fields, after, AutoPauseOnExpired, VBool(false))
            && KeptOr(fields, after, Schedulable, VBool(false))
  {
    DefaultKept(rt, fields, Concurrency, VInt(0));
    DefaultKept(rt, fields, Priority, VInt(0));
    DefaultKept(rt, fields, RateMultiplier, VFloat(0.0));
    DefaultKept(rt, fields, Status, VString(""));
    DefaultKept(rt, fields, AutoPauseOnExpired, VBool(false));
    DefaultKept(rt, fields, Schedulable, VBool(false));
  }

  lemma DefaultTyped(rt: Runtime, c: Column)
    requires DefaultOf(rt, c).Some?
    ensures c != ID && c != ProxyID && KindOf(DefaultOf(rt, c).value) == MutationKind(c)
  {}

  /** The defaults have the Go types of their columns. */
  lemma DefaultsTyped(rt: Runtime, fields: map<Column, Value>)
    requires Typed(fields)
    ensures Typed(Defaulted(rt, fields))
  {
    forall c | c !in fields && DefaultOf(rt, c).Some?
      ensures c != ID && c != ProxyID && KindOf(DefaultOf(rt, c).value) == MutationKind(c)
    {
      DefaultTyped(rt, c);
    }
  }

  /** The columns whose default is a function. */
  const FUNCTION_DEFAULTS := {CreatedAt, UpdatedAt, Credentials, Extra}

  lemma StuckIff(rt: Runtime, fields: map<Column, Value>, c: Column)
    ensures Stuck(rt, fields, c) <==> rt.NotInstalled? && c in FUNCTION_DEFAULTS && c !in fields
  {
    if rt.NotInstalled? {
      assert c in FUNCTION_DEFAULTS <==> Rank(c) < 4;
    }
  }

  /** defaults fails exactly when nothing is installed and one of the four columns with a function is unset. */
  lemma DefaultsFailIff(rt: Runtime, fields: map<Column, Value>)
    ensures FirstStuck(rt, fields, 0).Some? <==> rt.NotInstalled? && !(FUNCTION_DEFAULTS <= fields.Keys)
  {
    FirstStuckExact(rt, fields, 0);
    forall c ensures Stuck(rt, fields, c) <==> rt.NotInstalled? && c in FUNCTION_DEFAULTS && c !in fields {
      StuckIff(rt, fields, c);
    }
  }

  /** Successful defaults give every column its own default. */
  lemma DefaultsMean(rt: Runtime, fields: map<Column, Value>)
    requires FirstStuck(rt, fields, 0).None?
    ensures HasDefaults(rt, fields, Defaulted(rt, fields))
  {
    ExtendedKeeps(fields, Defaults(rt), Rank, 10);
    forall c | c in Defaulted(rt, fields) && c !in fields
      ensures c in {CreatedAt, UpdatedAt, Credentials, Extra, Concurrency, Priority, RateMultiplier, Status,
                    AutoPauseOnExpired, Schedulable}
    {
      RanksListed(c);
    }
    if rt.Installed? {
      InstalledFunctions(rt, fields);
      InstalledConstants(rt, fields);
    } else {
      ZeroDefaults(rt, fields);
      DefaultsFailIff(rt, fields);
    }
  }

  /** The first of the four columns with a default function that is unset. */
  function FirstUnset(fields: map<Column, Value>): Option<Column> {
    if CreatedAt !in fields then Some(CreatedAt)
    else if UpdatedAt !in fields then Some(UpdatedAt)
    else if Credentials !in fields then Some(Credentials)
    else if Extra !in fields then Some(Extra)
    else None
  }

  /** Failing defaults leave the fields as they were and name the first of these columns: nothing comes before them. */
  lemma FailedDefaultsMean(rt: Runtime, fields: map<Column, Value>)
    requires FirstStuck(rt, fields, 0).Some?
    ensures FirstStuck(rt, fields, 0) == FirstUnset(fields) && Defaulted(rt, fields) == fields
  {
    var c := FirstStuck(rt, fields, 0).value;
    FirstStuckExact(rt, fields, 0);
    StuckIff(rt, fields, c);
    StuckOrder(rt, fields);
    ExtendedKeeps(fields, Defaults(rt), Rank, Rank(c));
    forall c' | c' in Defaulted(rt, fields) ensures c' in fields {
      RanksListed(c');
      RanksListed(c);
    }
  }

  lemma StuckOrder(rt: Runtime, fields: map<Column, Value>)
    requires rt.NotInstalled?
    ensures FirstUnset(fields).Some? ==> FirstStuck(rt, fields, 0) == FirstUnset(fields)
  {
    assert ColumnAt(0) == CreatedAt && ColumnAt(1) == UpdatedAt && ColumnAt(2) == Credentials && ColumnAt(3) == Extra;
    assert FirstStuck(rt, fields, 0) == if CreatedAt !in fields then Some(CreatedAt) else FirstStuck(rt, fields, 1);
    assert FirstStuck(rt, fields, 1) == if UpdatedAt !in fields then Some(UpdatedAt) else FirstStuck(rt, fields, 2);
    assert FirstStuck(rt, fields, 2) == if Credentials !in fields then Some(Credentials) else FirstStuck(rt, fields, 3);
    assert Extra !in fields ==> FirstStuck(rt, fields, 3) == Some(Extra);
  }

  /** Both at once. */
  lemma DefaultsOutcome(rt: Runtime, fields: map<Column, Value>)
    ensures FirstStuck(rt, fields, 0).None? ==> HasDefaults(rt, fields, Defaulted(rt, fields))
    ensures FirstStuck(rt, fields, 0).Some? ==>
              FirstStuck(rt, fields, 0) == FirstUnset(fields) && Defaulted(rt, fields) == fields
  {
    if FirstStuck(rt, fields, 0).None? {
      DefaultsMean(rt, fields);
    } else {
      FailedDefaultsMean(rt, fields);
    }
  }

  /**
   Where defaults fails, nothing is installed, so that check cannot pass afterwards, however the fields are edited
   in between: it complains, or it panics.
   */
  lemma DefaultsFailCheckFails(rt: Runtime, fields: map<Column, Value>, edited: map<Column, Value>)
    requires FirstStuck(rt, fields, 0).Some?
    ensures rt.NotInstalled? && !Check(rt, edited).Passes?
    ensures Check(rt, edited).Panics? <==> {CreatedAt, UpdatedAt, Name} <= edited.Keys
  {
    DefaultsFailIff(rt, fields);
    CheckExact(rt, edited);
  }

  /**
   Where defaults succeeds, what is left to pass check is a name, platform and type and accepting validators, if
   validators are installed; if not, it never passes.
   */
  lemma CheckAfterDefaults(rt: Runtime, fields: map<Column, Value>)
    requires FirstStuck(rt, fields, 0).None?
    ensures Check(rt, Defaulted(rt, fields)).Passes? <==>
              && rt.Installed? && {Name, Platform, Type} <= fields.Keys
              && forall c :: c in VALIDATED ==> !Refused(rt, Defaulted(rt, fields), c)
  {
    DefaultsExact(rt, fields);
    CheckExact(rt, Defaulted(rt, fields));
  }

  // ----- createSpec -----

  datatype Relation = M2M | M2O | O2M

  /** A field written to a row, with the type it is declared with. */
  datatype FieldSpec = FieldSpec(column: string, kind: Kind, value: Value)

  /** An edge; the fields are those of the rows that the edge inserts into a join table. */
  datatype EdgeSpec = EdgeSpec(rel: Relation, column: string, targets: seq<int>, fields: seq<FieldSpec>)

  /** The insert: each set column with its declared type and its value, the edges, and the conflict options. */
  datatype CreateSpec = Insert(
    fields: map<Column, (Kind, Value)>,
    edges: seq<EdgeSpec>,
    onConflict: seq<Upsert.ConflictOption>)

  /** The fields of the node that the statements write. */
  function CopiedSlots(fields: map<Column, Value>, statements: Column -> Option<Statement>): Node {
    map c | c in fields && statements(c).Some? :: SlotOf(statements(c).value.address, fields[c])
  }

  /** The node createSpec returns for a mutation. */
  function CreatedNode(m: Mutation): Node {
    var node := CopiedSlots(m.fields, CreateStatement);
    if m.proxy.Some? then node[ProxyID := Pointer(VInt(m.proxy.value))] else node
  }

  function CreatedFields(fields: map<Column, Value>, statements: Column -> Option<Statement>)
    : map<Column, (Kind, Value)>
  {
    map c | c in fields && statements(c).Some? :: (statements(c).value.kind, fields[c])
  }

  /** What the defaults of an account-group builder put into its spec (backend/ent/accountgroup_create.go). */
  function JoinFields(rt: Runtime): seq<FieldSpec> {
    match rt
    case NotInstalled => []
    case Installed(_, _, _, _, _, _, _, _, _, _, priority, createdAt, _) =>
      [FieldSpec("priority", KInt, VInt(priority)), FieldSpec("created_at", KTime, VTime(createdAt))]
  }

  function CreatedEdges(rt: Runtime, m: Mutation): seq<EdgeSpec> {
    (if m.groups != [] then [EdgeSpec(M2M, "account_id", m.groups, JoinFields(rt))] else [])
    + (match m.proxy case None => [] case Some(id) => [EdgeSpec(M2O, "proxy_id", [id], [])])
    + (if m.usageLogs != [] then [EdgeSpec(O2M, "account_id", m.usageLogs, [])] else [])
  }

  function CreatedSpec(rt: Runtime, conflict: seq<Upsert.ConflictOption>, m: Mutation): CreateSpec {
    Insert(CreatedFields(m.fields, CreateStatement), CreatedEdges(rt, m), conflict)
  }

  /** The node, column by column: what is set, as a pointer where the field of the node is one. */
  lemma NodeOfMutation(m: Mutation, c: Column)
    requires Typed(m.fields)
    ensures c in CreatedNode(m) <==> c in m.fields || (c == ProxyID && m.proxy.Some?)
    ensures c in m.fields ==> CreatedNode(m)[c] == if Nillable(c) then Pointer(m.fields[c]) else Plain(m.fields[c])
    ensures m.proxy.Some? ==> CreatedNode(m)[ProxyID] == Pointer(VInt(m.proxy.value))
  {
    TablesAgree(c);
  }

  /** The columns of the insert: what is set, under its declared type; and the builder's conflict options. */
  lemma FieldsOfMutation(rt: Runtime, conflict: seq<Upsert.ConflictOption>, m: Mutation, c: Column)
    requires Typed(m.fields)
    ensures var spec := CreatedSpec(rt, conflict, m);
            && spec.onConflict == conflict
            && (c in spec.fields <==> c in m.fields)
            && (c in m.fields ==> spec.fields[c] == (MutationKind(c), m.fields[c]))
  {
    TablesAgree(c);
  }

  /** The edges of the insert: one for the groups, one for the proxy, one for the logs, where there are any. */
  lemma EdgesOfMutation(rt: Runtime, m: Mutation)
    requires rt.Installed?
    ensures forall e :: e in CreatedEdges(rt, m) <==>
              || (m.groups != []
                  && e.rel == M2M && e.column == "account_id" && e.targets == m.groups
                  && e.fields == [FieldSpec("priority", KInt, VInt(rt.joinPriority)),
                                  FieldSpec("created_at", KTime, VTime(rt.joinCreatedAt))])
              || (m.proxy.Some?
                  && e.rel == M2O && e.column == "proxy_id" && e.targets == [m.proxy.value] && e.fields == [])
              || (m.usageLogs != []
                  && e.rel == O2M && e.column == "account_id" && e.targets == m.usageLogs && e.fields == [])
    ensures var edges := CreatedEdges(rt, m);
            forall i, j :: 0 <= i < j < |edges| ==>
                             edges[i].rel != edges[j].rel && edges[i].rel != O2M && edges[j].rel != M2M
  {}

  /** The create builder of one account, with its mutation and its conflict options. */
  class Builder {
    var mutation: Mutation
    var conflict: seq<Upsert.ConflictOption>

    constructor (mutation: Mutation)
      ensures this.mutation == mutation && conflict == []
    {
      this.mutation, conflict := mutation, [];
    }

    /** The n-th statement of defaults. */
    method SetDefault(rt: Runtime, c: Column, ghost fields: map<Column, Value>, ghost n: nat) returns (ok: bool)
      requires mutation.fields == WithDefaults(rt, fields, n) && Rank(c) == n < 10
      modifies this`mutation
      ensures ok <==> !Stuck(rt, fields, c)
      ensures mutation.fields == WithDefaults(rt, fields, if ok then n + 1 else n)
      ensures mutation == old(mutation).(fields := mutation.fields)
    {
      WithDefaultsNext(rt, fields, c, n);
      if c !in mutation.fields {
        var default := DefaultOf(rt, c);
        if default.None? {
          return false;
        }
        mutation := mutation.(fields := mutation.fields[c := default.value]);
      }
      return true;
    }

    /** The statements of defaults, up to the first whose default is nil. */
    method RunDefaults(rt: Runtime) returns (err: Option<Column>)
      modifies this`mutation
      ensures err == FirstStuck(rt, old(mutation.fields), 0)
      ensures mutation == old(mutation).(fields := Defaulted(rt, old(mutation.fields)))
    {
      ghost var f := mutation.fields;
      for n := 0 to 10
        invariant mutation == old(mutation).(fields := WithDefaults(rt, f, n))
        invariant FirstStuck(rt, f, 0) == FirstStuck(rt, f, n)
      {
        var ok := SetDefault(rt, ColumnAt(n), f, n);
        if !ok {
          return Some(ColumnAt(n));
        }
      }
      return None;
    }

    /** defaults: an error names the column without a default; otherwise every column gets its own. */
    method Defaults(rt: Runtime) returns (err: Option<Column>)
      modifies this`mutation
      ensures err == FirstStuck(rt, old(mutation.fields), 0)
      ensures mutation == old(mutation).(fields := Defaulted(rt, old(mutation.fields)))
      ensures err.None? ==> HasDefaults(rt, old(mutation.fields), mutation.fields)
      ensures err.Some? ==> err == FirstUnset(old(mutation.fields)) && mutation == old(mutation)
    {
      ghost var fields := mutation.fields;
      err := RunDefaults(rt);
      DefaultsOutcome(rt, fields);
    }

    /** createSpec: the columns, then the edges; with groups, the default time of a join row must be installed. */
    method CreateSpec(rt: Runtime) returns (node: Node, spec: CreateSpec)
      requires rt.Installed? || mutation.groups == []
      ensures node == CreatedNode(mutation)
      ensures spec == CreatedSpec(rt, conflict, mutation)
    {
      var fields;
      node, fields := CopyFields(mutation.fields, CreateStatement);
      var edges := [];
      if |mutation.groups| > 0 {
        edges := edges + [EdgeSpec(M2M, "account_id", mutation.groups, JoinFields(rt))];
      }
      if mutation.proxy.Some? {
        edges := edges + [EdgeSpec(M2O, "proxy_id", [mutation.proxy.value], [])];
        node := node[ProxyID := Pointer(VInt(mutation.proxy.value))];
      }
      if |mutation.usageLogs| > 0 {
        edges := edges + [EdgeSpec(O2M, "account_id", mutation.usageLogs, [])];
      }
      spec := Insert(fields, edges, conflict);
    }
  }

  /** The statements of createSpec for the columns: they commute, so they are taken in any order. */
  method CopyFields(given: map<Column, Value>, statements: Column -> Option<Statement>)
    returns (node: Node, fields: map<Column, (Kind, Value)>)
    ensures node == CopiedSlots(given, statements)
    ensures fields == CreatedFields(given, statements)
  {
    node, fields := map[], map[];
    var todo := given.Keys;
    while todo != {}
      invariant todo <= given.Keys
      invariant node == CopiedSlots(given - todo, statements)
      invariant fields == CreatedFields(given - todo, statements)
      decreases |todo|
    {
      var c :| c in todo;
      var statement := statements(c);
      if statement.Some? {
        fields := fields[c := (statement.value.kind, given[c])];
        node := node[c := SlotOf(statement.value.address, given[c])];
      }
      todo := todo - {c};
    }
    assert given - {} == given;
  }
}
