/**
 What the bulk save promises, from its contract: a well-bracketed trace, hooks entered in index order, one batch
 or none, which error is returned, and what becomes of the dropped errors of defaults.
 */
module BulkLaws {
  import opened Wrappers
  import opened AccountFields
  import opened AccountCreate
  import opened BulkSave
  import AccountRoundTrip

  // ----- The shape of the trace -----

  predicate AllEnters(events: seq<Event>) {
    forall k :: 0 <= k < |events| ==> events[k].Enter?
  }

  /** The exits mirror the entries: the last hook entered is the first to leave. */
  lemma {:induction false} MirrorReverses(events: seq<Event>)
    requires AllEnters(events)
    ensures |Mirror(events)| == |events|
    ensures forall k :: 0 <= k < |events| ==>
              Mirror(events)[k] == Leave(events[|events| - 1 - k].builder, events[|events| - 1 - k].hook)
  {
    if events != [] {
      MirrorReverses(events[1..]);
    }
  }

  lemma {:induction false} OpeningEnters(ch: Chain, i: nat, h: nat, fields: map<Column, Value>)
    requires ch.Valid() && i < |ch.hooks| && h <= |ch.hooks[i]|
    ensures AllEnters(Opening(ch, i, h, fields))
    decreases |ch.hooks| - i, |ch.hooks[i]| - h
  {
    if h < |ch.hooks[i]| {
      if ch.hooks[i][h].before.None? {
        OpeningEnters(ch, i, h + 1, ch.hooks[i][h].edit(fields));
      }
    } else if i + 1 < |ch.hooks| {
      OpeningEnters(ch, i + 1, 0, ch.mutations[i + 1].fields);
    }
  }

  /** All hooks in index order: those of builder i from the h-th on, then those of the builders after it. */
  ghost function InOrder(hooks: seq<seq<Hook>>, i: nat, h: nat): seq<Event>
    requires i < |hooks| && h <= |hooks[i]|
    decreases |hooks| - i, |hooks[i]| - h
  {
    if h < |hooks[i]| then [Enter(i, h)] + InOrder(hooks, i, h + 1)
    else if i + 1 < |hooks| then InOrder(hooks, i + 1, 0)
    else []
  }

  /** The hooks entered are the first ones in index order; all of them when nothing stops the chain. */
  lemma {:induction false} OpeningInOrder(ch: Chain, i: nat, h: nat, fields: map<Column, Value>)
    requires ch.Valid() && i < |ch.hooks| && h <= |ch.hooks[i]|
    ensures Opening(ch, i, h, fields) <= InOrder(ch.hooks, i, h)
    ensures Stop(ch, i, h, fields).None? ==> Opening(ch, i, h, fields) == InOrder(ch.hooks, i, h)
    decreases |ch.hooks| - i, |ch.hooks[i]| - h
  {
    if h < |ch.hooks[i]| {
      var hook := ch.hooks[i][h];
      if hook.before.None? {
        OpeningInOrder(ch, i, h + 1, hook.edit(fields));
      }
    } else if i + 1 < |ch.hooks| {
      OpeningInOrder(ch, i + 1, 0, ch.mutations[i + 1].fields);
      assert StopRest(ch, i + 1) == Stop(ch, i + 1, 0, ch.mutations[i + 1].fields);
    }
  }

  function Batches(trace: seq<Event>): nat {
    if trace == [] then 0 else (if trace[0].BatchInsert? then 1 else 0) + Batches(trace[1..])
  }

  lemma {:induction false} BatchesConcat(a: seq<Event>, b: seq<Event>)
    ensures Batches(a + b) == Batches(a) + Batches(b)
  {
    if a == [] {
      assert a + b == b;
    } else {
      assert (a + b)[1..] == a[1..] + b;
      BatchesConcat(a[1..], b);
    }
  }

  lemma {:induction false} NoBatches(trace: seq<Event>)
    requires forall k :: 0 <= k < |trace| ==> !trace[k].BatchInsert?
    ensures Batches(trace) == 0
  {
    if trace != [] {
      NoBatches(trace[1..]);
    }
  }

  /**
   All or nothing: the calls of a save hold one batch insert when all builders get to their createSpec, and none
   otherwise; before it come entries only, after it the matching exits. After a panic there are entries only.
   */
  lemma OneBatchOrNone(ch: Chain)
    requires ch.Valid() && ch.hooks != []
    ensures Batches(Calls(ch)) == if RestReady(ch, 0) then 1 else 0
    ensures AllEnters(OpeningRest(ch, 0)) && OpeningRest(ch, 0) <= InOrder(ch.hooks, 0, 0)
    ensures RestReady(ch, 0) ==>
              Calls(ch) == InOrder(ch.hooks, 0, 0) + [BatchInsert(AllSpecs(ch))] + Mirror(InOrder(ch.hooks, 0, 0))
    ensures StopRest(ch, 0) == Some(Panic) ==> AllEnters(Calls(ch))
  {
    var opening, stop := OpeningRest(ch, 0), StopRest(ch, 0);
    var batch := if stop.None? then [BatchInsert(AllSpecs(ch))] else [];
    OpeningEnters(ch, 0, 0, ch.mutations[0].fields);
    OpeningInOrder(ch, 0, 0, ch.mutations[0].fields);
    StopExact(ch, 0);
    MirrorReverses(opening);
    NoBatches(opening);
    NoBatches(Exits(opening, stop));
    BatchesConcat(opening + batch, Exits(opening, stop));
    BatchesConcat(opening, batch);
    assert batch != [] ==> batch[1..] == [];
  }

  // ----- Which error is returned -----

  /** A blocked builder is stopped by its first hook that fails before next. */
  lemma {:induction false} FirstBlocker(steps: Steps, hooks: seq<Hook>, h: nat, fields: map<Column, Value>)
    returns (k: nat)
    requires Blocked(hooks, h)
    ensures h <= k < |hooks| && hooks[k].before.Some? && forall l :: h <= l < k ==> hooks[l].before.None?
    ensures StopOwn(steps, hooks, h, fields) == Some(HookFailed(hooks[k].before.value))
    decreases |hooks| - h
  {
    if hooks[h].before.Some? {
      k := h;
    } else {
      assert Blocked(hooks, h + 1);
      k := FirstBlocker(steps, hooks, h + 1, hooks[h].edit(fields));
    }
  }

  /** A builder that is not blocked is stopped by its check of the edited fields, or not at all. */
  lemma {:induction false} StoppedByCheck(steps: Steps, hooks: seq<Hook>, h: nat, fields: map<Column, Value>)
    requires !Blocked(hooks, h)
    ensures StopOwn(steps, hooks, h, fields)
            == match steps.check(Edited(hooks, h, fields))
               case Passes => None
               case Fails(error) => Some(Invalid(error))
               case Panics => Some(Panic)
    decreases |hooks| - h
  {
    if h < |hooks| {
      StoppedByCheck(steps, hooks, h + 1, hooks[h].edit(fields));
    }
  }

  /** When the batch is not issued, the error is that of the first builder that does not get to its createSpec. */
  lemma {:induction false} FirstStopped(ch: Chain, i: nat) returns (j: nat)
    requires ch.Valid() && i <= |ch.hooks| && !RestReady(ch, i)
    ensures i <= j < |ch.hooks| && !Ready(ch.steps, ch.hooks[j], 0, ch.mutations[j].fields)
    ensures forall k :: i <= k < j ==> Ready(ch.steps, ch.hooks[k], 0, ch.mutations[k].fields)
    ensures StopRest(ch, i) == StopOwn(ch.steps, ch.hooks[j], 0, ch.mutations[j].fields)
    decreases |ch.hooks| - i
  {
    StopOwnExact(ch.steps, ch.hooks[i], 0, ch.mutations[i].fields);
    if Ready(ch.steps, ch.hooks[i], 0, ch.mutations[i].fields) {
      j := FirstStopped(ch, i + 1);
    } else {
      j := i;
    }
  }

  lemma {:induction false} LastSpoiler(hooks: seq<Hook>, h: nat) returns (k: nat)
    requires Spoiled(hooks, h)
    ensures h <= k < |hooks| && hooks[k].after.Some? && !Spoiled(hooks, k + 1)
    ensures SpoilOwn(hooks, h) == Some(HookFailed(hooks[k].after.value))
    decreases |hooks| - h
  {
    SpoilOwnExact(hooks, h + 1);
    if Spoiled(hooks, h + 1) {
      k := LastSpoiler(hooks, h + 1);
    } else {
      k := h;
    }
  }

  /** When the batch is inserted and hooks fail afterwards, the error is that of the innermost of them. */
  lemma {:induction false} InnermostSpoiler(ch: Chain, i: nat) returns (j: nat, k: nat)
    requires i <= |ch.hooks| && !Unspoiled(ch, i)
    ensures i <= j < |ch.hooks| && k < |ch.hooks[j]| && ch.hooks[j][k].after.Some?
    ensures Unspoiled(ch, j + 1) && !Spoiled(ch.hooks[j], k + 1)
    ensures SpoilRest(ch.hooks, i) == Some(HookFailed(ch.hooks[j][k].after.value))
    decreases |ch.hooks| - i
  {
    SpoilExact(ch, i + 1);
    if Unspoiled(ch, i + 1) {
      j := i;
      k := LastSpoiler(ch.hooks[i], 0);
    } else {
      j, k := InnermostSpoiler(ch, i + 1);
    }
  }

  // ----- What is entered, edited and saved -----

  /** The hooks a builder enters from its h-th on: up to the first that fails before next, that one included. */
  function Entered(hooks: seq<Hook>, h: nat): nat
    decreases |hooks| - h
  {
    if h >= |hooks| then 0 else 1 + if hooks[h].before.Some? then 0 else Entered(hooks, h + 1)
  }

  lemma {:induction false} EnteredAll(hooks: seq<Hook>, h: nat)
    requires h <= |hooks| && !Blocked(hooks, h)
    ensures Entered(hooks, h) == |hooks| - h
    decreases |hooks| - h
  {
    if h < |hooks| {
      EnteredAll(hooks, h + 1);
    }
  }

  lemma {:induction false} EnteredTo(hooks: seq<Hook>, h: nat, k: nat)
    requires h <= k < |hooks| && hooks[k].before.Some? && forall l :: h <= l < k ==> hooks[l].before.None?
    ensures Entered(hooks, h) == k - h + 1
    decreases k - h
  {
    if h < k {
      EnteredTo(hooks, h + 1, k);
    }
  }

  /**
   How many hooks are entered: those of this builder up to one that fails before next, and if nothing stops it,
   those of the builders after it. With OpeningInOrder this fixes the entries.
   */
  lemma {:induction false} OpeningLength(ch: Chain, i: nat, h: nat, fields: map<Column, Value>)
    requires ch.Valid() && i < |ch.hooks| && h <= |ch.hooks[i]|
    ensures |Opening(ch, i, h, fields)|
            == Entered(ch.hooks[i], h)
               + if StopOwn(ch.steps, ch.hooks[i], h, fields).None? then |OpeningRest(ch, i + 1)| else 0
    decreases |ch.hooks[i]| - h
  {
    if h < |ch.hooks[i]| && ch.hooks[i][h].before.None? {
      OpeningLength(ch, i, h + 1, ch.hooks[i][h].edit(fields));
    }
  }

  /** The hooks of a builder edit its fields one after the other, each what the ones before it left. */
  lemma {:induction false} EditsCompose(hooks: seq<Hook>, hook: Hook, h: nat, fields: map<Column, Value>)
    requires h <= |hooks| && !Blocked(hooks, h)
    ensures Edited(hooks + [hook], h, fields) == hook.edit(Edited(hooks, h, fields))
    decreases |hooks| - h
  {
    if h < |hooks| {
      assert (hooks + [hook])[h] == hooks[h];
      EditsCompose(hooks, hook, h + 1, hooks[h].edit(fields));
    }
  }

  /** A saved account is the node that a read of its row gives back. */
  lemma SavedIsReadBack(m: Mutation, node: Node, n: int)
    requires Carries(node, CreatedNode(m), Some(n))
    ensures node == AccountRoundTrip.SavedNode(m, n)
  {
    assert forall c :: c in node <==> c in AccountRoundTrip.SavedNode(m, n);
  }

  // ----- The dropped errors of defaults -----

  /** The steps of the account builders; those of a bulk save have no conflict options of their own. */
  function AccountSteps(rt: Runtime): Steps {
    Steps(
      (fields: map<Column, Value>) => Defaulted(rt, fields),
      (fields: map<Column, Value>) => Check(rt, fields),
      CreatedNode,
      (m: Mutation) => CreatedSpec(rt, [], m))
  }

  /**
   Where nothing is installed no hooks can bring about the batch: the first builder is stopped, and the save panics
   exactly when its hooks let it get to check with created_at, updated_at and a name.
   */
  lemma NotInstalledStops(rt: Runtime, hooks: seq<seq<Hook>>, mutations: seq<Mutation>)
    requires rt.NotInstalled? && hooks != [] && |hooks| == |mutations|
    ensures var ch := ChainOf(AccountSteps(rt), hooks, mutations);
            var edited := Edited(hooks[0], 0, Defaulted(rt, mutations[0].fields));
            && StopRest(ch, 0).Some? && !RestReady(ch, 0)
            && (StopRest(ch, 0) == Some(Panic)
                <==> !Blocked(hooks[0], 0) && {CreatedAt, UpdatedAt, Name} <= edited.Keys)
  {
    var ch := ChainOf(AccountSteps(rt), hooks, mutations);
    var fields := Defaulted(rt, mutations[0].fields);
    StopExact(ch, 0);
    CheckExact(rt, Edited(hooks[0], 0, fields));
    if Blocked(hooks[0], 0) {
      var k := FirstBlocker(ch.steps, hooks[0], 0, fields);
    } else {
      StoppedByCheck(ch.steps, hooks[0], 0, fields);
    }
  }

  /** The bulk save drops the errors of defaults; even so it issues no batch when one of them failed. */
  lemma DroppedErrorStops(rt: Runtime, hooks: seq<seq<Hook>>, mutations: seq<Mutation>, i: nat)
    requires i < |hooks| == |mutations| && FirstStuck(rt, mutations[i].fields, 0).Some?
    ensures !RestReady(ChainOf(AccountSteps(rt), hooks, mutations), 0)
  {
    DefaultsFailIff(rt, mutations[i].fields);
    NotInstalledStops(rt, hooks, mutations);
  }

  // ----- Bulk and single -----

  /** The hook that package runtime installs for accounts: it lets every operation but a deletion through. */
  const SOFT_DELETE := Hook((fields: map<Column, Value>) => fields, None, None)

  /** The hooks of a builder that the client makes: its own, then the installed one, nil if it is not. */
  function ClientHooks(rt: Runtime, own: seq<Option<Hook>>): seq<Option<Hook>> {
    own + [if rt.Installed? then Some(SOFT_DELETE) else None]
  }

  datatype SingleError = NoDefault(column: Column) | UninitializedHook | Stopped(e: Error)

  function AsSingle(stop: Option<Error>): Option<SingleError> {
    match stop
    case None => None
    case Some(e) => Some(Stopped(e))
  }

  /** What keeps the Save of one builder (with withHooks and sqlSave) from its insert. */
  function SingleStop(rt: Runtime, hooks: seq<Option<Hook>>, fields: map<Column, Value>): Option<SingleError> {
    var stuck := FirstStuck(rt, fields, 0);
    if stuck.Some? then Some(NoDefault(stuck.value))
    else if HasNil(hooks) then Some(UninitializedHook)
    else AsSingle(StopOwn(AccountSteps(rt), Somes(hooks), 0, Defaulted(rt, fields)))
  }

  /** The errors of a single save before its hooks run: the first missing default, else a nil hook. */
  lemma SingleErrors(rt: Runtime, hooks: seq<Option<Hook>>, fields: map<Column, Value>)
    ensures rt.NotInstalled? && FirstUnset(fields).Some? ==>
              SingleStop(rt, hooks, fields) == Some(NoDefault(FirstUnset(fields).value))
    ensures (rt.Installed? || FirstUnset(fields).None?) && HasNil(hooks) ==>
              SingleStop(rt, hooks, fields) == Some(UninitializedHook)
  {
    DefaultsFailIff(rt, fields);
    DefaultsOutcome(rt, fields);
  }

  /** What keeps the bulk save of some builders from its batch. */
  function BulkStop(rt: Runtime, given: seq<seq<Option<Hook>>>, ms: seq<Mutation>): Option<Error>
    requires |given| == |ms|
  {
    if AnyNil(given) then Some(Panic) else StopRest(ChainOf(AccountSteps(rt), Wrapped(given), ms), 0)
  }

  /** Where no hook is nil, a builder inserts alone exactly when it gets to its createSpec in bulk. */
  lemma SingleIsReady(rt: Runtime, hooks: seq<Option<Hook>>, fields: map<Column, Value>)
    requires !HasNil(hooks)
    ensures SingleStop(rt, hooks, fields).None? <==> Ready(AccountSteps(rt), Somes(hooks), 0, Defaulted(rt, fields))
    ensures SingleStop(rt, hooks, fields) == AsSingle(StopOwn(AccountSteps(rt), Somes(hooks), 0, Defaulted(rt, fields)))
            <==> FirstStuck(rt, fields, 0).None?
  {
    StopOwnExact(AccountSteps(rt), Somes(hooks), 0, Defaulted(rt, fields));
    if FirstStuck(rt, fields, 0).Some? {
      DefaultsFailCheckFails(rt, fields, Edited(Somes(hooks), 0, Defaulted(rt, fields)));
    }
  }

  /** The same for builder i of a chain. */
  lemma SingleIsReadyInChain(rt: Runtime, given: seq<seq<Option<Hook>>>, ms: seq<Mutation>, i: nat)
    requires i < |given| == |ms| && !AnyNil(given)
    ensures var ch := ChainOf(AccountSteps(rt), Wrapped(given), ms);
            && (SingleStop(rt, given[i], ms[i].fields).None?
                <==> Ready(ch.steps, ch.hooks[i], 0, ch.mutations[i].fields))
            && (SingleStop(rt, given[i], ms[i].fields)
                == AsSingle(StopOwn(ch.steps, ch.hooks[i], 0, ch.mutations[i].fields))
                <==> FirstStuck(rt, ms[i].fields, 0).None?)
  {
    SingleIsReady(rt, given[i], ms[i].fields);
  }

  /** A bulk save issues its batch exactly when every one of its builders, saved alone, would be inserted. */
  lemma BulkAndSingles(rt: Runtime, given: seq<seq<Option<Hook>>>, ms: seq<Mutation>)
    requires |given| == |ms|
    ensures BulkStop(rt, given, ms).None? <==>
              forall i :: 0 <= i < |given| ==> SingleStop(rt, given[i], ms[i].fields).None?
  {
    if AnyNil(given) {
      var i :| 0 <= i < |given| && HasNil(given[i]);
      assert SingleStop(rt, given[i], ms[i].fields).Some?;
    } else {
      var ch := ChainOf(AccountSteps(rt), Wrapped(given), ms);
      StopExact(ch, 0);
      forall i | 0 <= i < |given|
        ensures SingleStop(rt, given[i], ms[i].fields).None?
                <==> Ready(ch.steps, ch.hooks[i], 0, ch.mutations[i].fields)
      {
        SingleIsReadyInChain(rt, given, ms, i);
      }
    }
  }

  /**
   Where it does not, and no hook is nil, it stops at the first builder that would not be inserted alone, with the
   error of that one's own save exactly when its defaults succeeds.
   */
  lemma BulkStopsAtFirst(rt: Runtime, given: seq<seq<Option<Hook>>>, ms: seq<Mutation>) returns (j: nat)
    requires |given| == |ms| && !AnyNil(given) && BulkStop(rt, given, ms).Some?
    ensures j < |given| && SingleStop(rt, given[j], ms[j].fields).Some?
    ensures forall i :: 0 <= i < j ==> SingleStop(rt, given[i], ms[i].fields).None?
    ensures AsSingle(BulkStop(rt, given, ms)) == SingleStop(rt, given[j], ms[j].fields)
            <==> FirstStuck(rt, ms[j].fields, 0).None?
  {
    var ch := ChainOf(AccountSteps(rt), Wrapped(given), ms);
    StopExact(ch, 0);
    j := FirstStopped(ch, 0);
    SingleIsReadyInChain(rt, given, ms, j);
    forall i | 0 <= i < j ensures SingleStop(rt, given[i], ms[i].fields).None? {
      SingleIsReadyInChain(rt, given, ms, i);
    }
  }

  /**
   Saving one builder alone or in bulk inserts in the same cases. The errors are the same exactly when defaults
   succeeds and no hook is nil: else the single save says what is missing, while the bulk save stops or panics later.
   */
  lemma SingleAndBulk(rt: Runtime, hooks: seq<Option<Hook>>, m: Mutation)
    ensures SingleStop(rt, hooks, m.fields).None? <==> BulkStop(rt, [hooks], [m]).None?
    ensures SingleStop(rt, hooks, m.fields) == AsSingle(BulkStop(rt, [hooks], [m]))
            <==> FirstStuck(rt, m.fields, 0).None? && !HasNil(hooks)
  {
    BulkAndSingles(rt, [hooks], [m]);
    assert AnyNil([hooks]) <==> HasNil(hooks);
    if !HasNil(hooks) && BulkStop(rt, [hooks], [m]).Some? {
      var j := BulkStopsAtFirst(rt, [hooks], [m]);
    }
  }

  /**
   Without the import of package runtime every builder the client made has a nil hook: a bulk save of any of them
   panics at the first builder, before any hook is called, where the single save returns an error.
   */
  lemma ClientBuildersPanic(rt: Runtime, own: seq<seq<Option<Hook>>>, given: seq<seq<Option<Hook>>>, m: Mutation)
    requires rt.NotInstalled? && own != [] && |own| == |given|
    requires forall i :: 0 <= i < |own| ==> given[i] == ClientHooks(rt, own[i])
    ensures AnyNil(given) && Reached(given, 0) == 1
    ensures SingleStop(rt, given[0], m.fields).Some? && !SingleStop(rt, given[0], m.fields).value.Stopped?
  {
    assert given[0][|own[0]|].None?;
  }

  /** Where it is installed, the hook changes nothing about a save. */
  lemma {:induction false} InstalledHookIsSilent(steps: Steps, own: seq<Hook>, h: nat, fields: map<Column, Value>)
    requires h <= |own|
    ensures StopOwn(steps, own + [SOFT_DELETE], h, fields) == StopOwn(steps, own, h, fields)
    ensures Edited(own + [SOFT_DELETE], h, fields) == Edited(own, h, fields)
    decreases |own| - h
  {
    if h < |own| && own[h].before.None? {
      InstalledHookIsSilent(steps, own, h + 1, own[h].edit(fields));
    }
  }

  /** The hooks keep the fields. */
  ghost predicate Keeping(hooks: seq<Hook>) {
    forall k, f :: 0 <= k < |hooks| ==> hooks[k].edit(f) == f
  }

  lemma {:induction false} KeptFields(hooks: seq<Hook>, h: nat, fields: map<Column, Value>)
    requires Keeping(hooks) && h <= |hooks|
    ensures Edited(hooks, h, fields) == fields
    decreases |hooks| - h
  {
    if h < |hooks| {
      KeptFields(hooks, h + 1, fields);
    }
  }

  /** With hooks that keep the fields and call next, the batch is issued exactly when every builder is fit to save. */
  lemma BatchIssuedIff(rt: Runtime, hooks: seq<seq<Hook>>, mutations: seq<Mutation>)
    requires |hooks| == |mutations|
    requires forall i :: 0 <= i < |hooks| ==> Keeping(hooks[i]) && !Blocked(hooks[i], 0)
    ensures RestReady(ChainOf(AccountSteps(rt), hooks, mutations), 0)
            <==> forall i :: 0 <= i < |hooks| ==>
                   && FirstStuck(rt, mutations[i].fields, 0).None?
                   && Check(rt, Defaulted(rt, mutations[i].fields)).Passes?
  {
    forall i | 0 <= i < |hooks|
      ensures Ready(AccountSteps(rt), hooks[i], 0, Defaulted(rt, mutations[i].fields))
              <==> FirstStuck(rt, mutations[i].fields, 0).None? && Check(rt, Defaulted(rt, mutations[i].fields)).Passes?
    {
      var fields := mutations[i].fields;
      KeptFields(hooks[i], 0, Defaulted(rt, fields));
      if FirstStuck(rt, fields, 0).Some? {
        DefaultsFailCheckFails(rt, fields, Defaulted(rt, fields));
      }
    }
  }
}
