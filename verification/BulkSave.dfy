/**
 Bulk create (AccountCreateBulk.Save in backend/ent/account_create.go). The source builds a chain of closures:
 mutator i, wrapped in the hooks of builder i, calls mutator i+1, and the last one issues the one batch insert.
 Here the chain is the recursion of Mutate over (builder, hook), with the calls recorded in a trace.
 Calling a nil hook or validator panics: that is the error Panic, which unwinds the chain without any exits.
 */
module BulkSave {
  import opened Wrappers
  import opened AccountFields
  import opened AccountCreate

  /** A hook: edits the fields, may fail before it calls next, and may fail after next succeeded. */
  datatype Hook = Hook(
    edit: map<Column, Value> -> map<Column, Value>,
    before: Option<string>,
    after: Option<string>)

  datatype Error =
    | BulkError(msg: string) | Invalid(cause: ValidationError) | HookFailed(msg: string) | Constraint | Driver | Panic

  datatype Event = Enter(builder: nat, hook: nat) | Leave(builder: nat, hook: nat) | BatchInsert(specs: seq<CreateSpec>)

  /** What the database makes of the batch: an ID for each spec (or none reported), or a refusal. */
  datatype Reply = Inserted(ids: seq<Option<int>>) | Refused(constraint: bool)

  /** A refusal is wrapped when it is a constraint error. */
  function ErrorOf(reply: Reply): Option<Error> {
    match reply
    case Inserted(_) => None
    case Refused(constraint) => Some(if constraint then Constraint else Driver)
  }

  // ----- What the chain does, on values -----

  /** What a builder does with its mutation: set the defaults, check it, and create its node and spec. */
  datatype Steps = Steps(
    defaults: map<Column, Value> -> map<Column, Value>,
    check: map<Column, Value> -> Verdict,
    node: Mutation -> Node,
    spec: Mutation -> CreateSpec)

  /** The chain at the start of a save: the hooks and the mutation of each builder. */
  datatype Chain = Chain(steps: Steps, hooks: seq<seq<Hook>>, mutations: seq<Mutation>) {
    ghost predicate Valid() {
      |hooks| == |mutations|
    }
  }

  /** Some hook from the h-th on fails before calling next. */
  ghost predicate Blocked(hooks: seq<Hook>, h: nat) {
    exists k :: h <= k < |hooks| && hooks[k].before.Some?
  }

  /** Some hook from the h-th on fails after its call of next succeeded. */
  ghost predicate Spoiled(hooks: seq<Hook>, h: nat) {
    exists k :: h <= k < |hooks| && hooks[k].after.Some?
  }

  /** The fields after the edits of the hooks from the h-th on, up to one that does not call next. */
  function Edited(hooks: seq<Hook>, h: nat, fields: map<Column, Value>): map<Column, Value>
    decreases |hooks| - h
  {
    if h >= |hooks| then fields
    else
      var fields' := hooks[h].edit(fields);
      if hooks[h].before.Some? then fields' else Edited(hooks, h + 1, fields')
  }

  /** The builder gets to its createSpec: no hook stops it and its check passes on the edited fields. */
  ghost predicate Ready(steps: Steps, hooks: seq<Hook>, h: nat, fields: map<Column, Value>) {
    !Blocked(hooks, h) && steps.check(Edited(hooks, h, fields)).Passes?
  }

  /** Builders i and later get to their createSpec. */
  ghost predicate RestReady(ch: Chain, i: nat)
    requires ch.Valid()
  {
    forall j :: i <= j < |ch.hooks| ==> Ready(ch.steps, ch.hooks[j], 0, ch.mutations[j].fields)
  }

  /** No hook of builder j or later fails after next. */
  ghost predicate Unspoiled(ch: Chain, j: nat) {
    forall k :: j <= k < |ch.hooks| ==> !Spoiled(ch.hooks[k], 0)
  }

  /** What builder j is created from. */
  function Final(ch: Chain, j: nat): Mutation
    requires |ch.hooks| == |ch.mutations| && j < |ch.hooks|
  {
    ch.mutations[j].(fields := Edited(ch.hooks[j], 0, ch.mutations[j].fields))
  }

  /** The hooks entered from here on, in order. */
  ghost function Opening(ch: Chain, i: nat, h: nat, fields: map<Column, Value>): seq<Event>
    requires ch.Valid() && i < |ch.hooks| && h <= |ch.hooks[i]|
    decreases |ch.hooks| - i, |ch.hooks[i]| - h, 1
  {
    if h < |ch.hooks[i]| then
      var hook := ch.hooks[i][h];
      [Enter(i, h)] + if hook.before.Some? then [] else Opening(ch, i, h + 1, hook.edit(fields))
    else if ch.steps.check(fields).Passes? then OpeningRest(ch, i + 1)
    else []
  }

  ghost function OpeningRest(ch: Chain, i: nat): seq<Event>
    requires ch.Valid()
    decreases if i < |ch.hooks| then |ch.hooks| - i else 0, if i < |ch.hooks| then |ch.hooks[i]| else 0, 2
  {
    if i < |ch.hooks| then Opening(ch, i, 0, ch.mutations[i].fields) else []
  }

  /** The matching exits, in reverse order. */
  function Mirror(events: seq<Event>): seq<Event> {
    if events == [] then []
    else Mirror(events[1..]) + match events[0]
      case Enter(i, h) => [Leave(i, h)]
      case e => [e]
  }

  // ----- How it ends -----

  /** What stops a builder before its createSpec: the first hook that fails before next, else its check. */
  function StopOwn(steps: Steps, hooks: seq<Hook>, h: nat, fields: map<Column, Value>): Option<Error>
    decreases |hooks| - h
  {
    if h < |hooks| then
      if hooks[h].before.Some? then Some(HookFailed(hooks[h].before.value))
      else StopOwn(steps, hooks, h + 1, hooks[h].edit(fields))
    else
      match steps.check(fields)
      case Passes => None
      case Fails(error) => Some(Invalid(error))
      case Panics => Some(Panic)
  }

  /** What stops the chain from the h-th hook of builder i on: the first builder in index order that is stopped. */
  function Stop(ch: Chain, i: nat, h: nat, fields: map<Column, Value>): Option<Error>
    requires |ch.hooks| == |ch.mutations| && i < |ch.hooks|
    decreases |ch.hooks| - i, 0
  {
    var own := StopOwn(ch.steps, ch.hooks[i], h, fields);
    if own.Some? then own else StopRest(ch, i + 1)
  }

  function StopRest(ch: Chain, i: nat): Option<Error>
    requires |ch.hooks| == |ch.mutations|
    decreases |ch.hooks| - i, 1
  {
    if i < |ch.hooks| then Stop(ch, i, 0, ch.mutations[i].fields) else None
  }

  /** The builders before this one are called, when the chain has come to builder i. */
  function Halt(ch: Chain, i: nat): (n: nat)
    requires |ch.hooks| == |ch.mutations| && i <= |ch.hooks|
    ensures i <= n <= |ch.hooks|
    decreases |ch.hooks| - i
  {
    if i == |ch.hooks| then i
    else if StopOwn(ch.steps, ch.hooks[i], 0, ch.mutations[i].fields).Some? then i + 1
    else Halt(ch, i + 1)
  }

  function HaltFrom(ch: Chain, i: nat, h: nat, fields: map<Column, Value>): nat
    requires |ch.hooks| == |ch.mutations| && i < |ch.hooks|
  {
    if StopOwn(ch.steps, ch.hooks[i], h, fields).Some? then i + 1 else Halt(ch, i + 1)
  }

  /** The innermost of a builder's hooks, from the h-th on, that fails after next. */
  function SpoilOwn(hooks: seq<Hook>, h: nat): (e: Option<Error>)
    ensures e.Some? ==> e.value.HookFailed?
    decreases |hooks| - h
  {
    if h >= |hooks| then None
    else if SpoilOwn(hooks, h + 1).Some? then SpoilOwn(hooks, h + 1)
    else if hooks[h].after.Some? then Some(HookFailed(hooks[h].after.value))
    else None
  }

  /** The innermost hook that fails after next, from the h-th hook of builder i on. */
  function Spoil(hooks: seq<seq<Hook>>, i: nat, h: nat): (e: Option<Error>)
    requires i < |hooks|
    ensures e.Some? ==> e.value.HookFailed?
    decreases |hooks| - i, 0
  {
    var rest := SpoilRest(hooks, i + 1);
    if rest.Some? then rest else SpoilOwn(hooks[i], h)
  }

  function SpoilRest(hooks: seq<seq<Hook>>, i: nat): (e: Option<Error>)
    ensures e.Some? ==> e.value.HookFailed?
    decreases |hooks| - i, 1
  {
    if i < |hooks| then Spoil(hooks, i, 0) else None
  }

  /** How the chain ends: stopped, or refused by the database, or spoiled, or well. */
  function Settled(stop: Option<Error>, reply: Reply, spoil: Option<Error>): Option<Error> {
    if stop.Some? then stop else if reply.Refused? then ErrorOf(reply) else spoil
  }

  /** The hooks of each builder as they are called, where none is nil. */
  function Wrapped(given: seq<seq<Option<Hook>>>): (hooks: seq<seq<Hook>>)
    requires !AnyNil(given)
    ensures |hooks| == |given| && forall i :: 0 <= i < |given| ==> hooks[i] == Somes(given[i])
  {
    seq(|given|, i requires 0 <= i < |given| => Somes(given[i]))
  }

  predicate HasNil(own: seq<Option<Hook>>) {
    exists h :: 0 <= h < |own| && own[h].None?
  }

  /** Some builder has a nil hook. */
  predicate AnyNil(given: seq<seq<Option<Hook>>>) {
    exists i :: 0 <= i < |given| && HasNil(given[i])
  }

  /** How many builders the loop of Save gets to: it ends in the first one that has a nil hook. */
  function Reached(given: seq<seq<Option<Hook>>>, i: nat): (n: nat)
    requires i <= |given|
    ensures i <= n <= |given|
    ensures forall k :: i <= k < n - 1 ==> !HasNil(given[k])
    ensures n == |given| || (i < n && HasNil(given[n - 1]))
    decreases |given| - i
  {
    if i == |given| then i else if HasNil(given[i]) then i + 1 else Reached(given, i + 1)
  }

  // ----- The save -----

  function WithID(node: Node, id: Option<int>): Node {
    if id.Some? then node[ID := Plain(VInt(id.value))] else node
  }

  /** The node holds the ID, if there is one, and is otherwise as it was built. */
  ghost predicate Carries(node: Node, built: Node, id: Option<int>) {
    match id
    case None => node == built
    case Some(n) =>
      && ID in node && node[ID] == Plain(VInt(n))
      && forall c :: c != ID ==> (c in node <==> c in built) && (c in node ==> node[c] == built[c])
  }

  /** The node of builder j; once saved it carries its ID, if the database reported one. */
  function NodeOf(ch: Chain, j: nat, id: Option<int>): Node
    requires |ch.hooks| == |ch.mutations| && j < |ch.hooks|
  {
    WithID(ch.steps.node(Final(ch, j)), id)
  }

  lemma NodeCarries(ch: Chain, j: nat, id: Option<int>)
    requires |ch.hooks| == |ch.mutations| && j < |ch.hooks|
    ensures Carries(NodeOf(ch, j, id), ch.steps.node(Final(ch, j)), id)
  {}

  class AccountCreateBulk {
    const steps: Steps
    const err: Option<string>
    const given: seq<seq<Option<Hook>>>
    const reply: Reply

    // The mutation of each builder, and its ID once the builder is done.
    var mutations: seq<Mutation>
    var done: seq<Option<int>>

    // The arrays that Save fills, the IDs the batch reports, and the calls made.
    var specs: seq<Option<CreateSpec>>
    var nodes: seq<Option<Node>>
    var ids: seq<Option<int>>
    var trace: seq<Event>

    constructor (steps: Steps, err: Option<string>, given: seq<seq<Option<Hook>>>, mutations: seq<Mutation>,
                 reply: Reply)
      ensures this.steps == steps && this.err == err && this.given == given && this.reply == reply
      ensures this.mutations == mutations && done == seq(|mutations|, _ => None) && trace == []
    {
      this.steps, this.err, this.given, this.reply, this.mutations := steps, err, given, reply, mutations;
      done, specs, nodes, ids, trace := seq(|mutations|, _ => None), [], [], [], [];
    }

    /** The database reports one ID for each spec. */
    ghost predicate Sound() {
      reply.Inserted? ==> |reply.ids| == |given|
    }

    /** The batch insert. */
    method BatchCreate() returns (err: Option<Error>)
      requires forall j :: 0 <= j < |specs| ==> specs[j].Some?
      modifies this`trace, this`ids
      ensures trace == old(trace) + [BatchInsert(Somes(specs))]
      ensures err == ErrorOf(reply)
      ensures reply.Inserted? ==> ids == reply.ids
    {
      trace := trace + [BatchInsert(Somes(specs))];
      match reply {
        case Inserted(given) =>
          ids := given;
          return None;
        case Refused(constraint) =>
          return Some(if constraint then Constraint else Driver);
      }
    }

    /** The chain describes this save, which has come to the h-th hook of builder i. */
    ghost predicate Poised(ch: Chain, i: nat, h: nat)
      reads this
    {
      && Sound() && ch.Valid() && ch.steps == steps
      && |given| == |ch.hooks| == |mutations| == |done| == |specs| == |nodes|
      && i < |ch.hooks| && h <= |ch.hooks[i]|
      && mutations[i + 1..] == ch.mutations[i + 1..]
      && mutations[i] == ch.mutations[i].(fields := mutations[i].fields)
      && Edited(ch.hooks[i], h, mutations[i].fields) == Final(ch, i).fields
      && forall j :: 0 <= j < i ==> specs[j].Some?
    }

    /** Builder j is done once the batch is in and no hook of a later builder fails. */
    ghost predicate Saves(ch: Chain, ready: bool, j: nat) {
      ready && reply.Inserted? && Unspoiled(ch, j + 1)
    }

    /** Builders i and later, when all were ready, have their spec and node in the arrays. */
    ghost predicate Arrayed(ch: Chain, i: nat)
      requires Sound() && ch.Valid() && |ch.hooks| == |given|
      reads this
    {
      |specs| == |nodes| == |given|
      && forall j :: i <= j < |given| ==>
           && specs[j] == Some(ch.steps.spec(Final(ch, j)))
           && nodes[j] == Some(NodeOf(ch, j, if Saves(ch, true, j) then reply.ids[j] else None))
    }

    /** Builder j ends up done, with its ID, or as it was. */
    ghost function DoneAt(ch: Chain, ready: bool, j: nat, before: Option<int>): Option<int>
      requires Sound() && j < |given|
    {
      if Saves(ch, ready, j) then Some(reply.ids[j].GetOr(0)) else before
    }

    /** What the chain from builder i on has done to the arrays, if all builders were `ready`. */
    twostate predicate Ran(ch: Chain, i: nat, ready: bool)
      requires Sound() && ch.Valid() && |ch.hooks| == |given|
      requires i <= |given| == |old(specs)| == |old(nodes)| == |old(done)|
      reads this
    {
      && |done| == |specs| == |nodes| == |given|
      && specs[..i] == old(specs)[..i] && nodes[..i] == old(nodes)[..i] && done[..i] == old(done)[..i]
      && (ready ==> Arrayed(ch, i))
      && (forall j :: i <= j < |given| ==> done[j] == DoneAt(ch, ready, j, old(done)[j]))
    }

    /** The mutations once builders i to n - 1 were called: theirs are edited, the others as they were. */
    twostate predicate Moved(ch: Chain, i: nat, n: nat)
      requires ch.Valid() && |ch.hooks| == |given| == |old(mutations)|
      reads this
    {
      |mutations| == |given|
      && forall j :: 0 <= j < |given| ==> mutations[j] == if i <= j < n then Final(ch, j) else old(mutations)[j]
    }

    /** The calls of a stretch of the chain: in, the batch if nothing stopped it, and out again, unless it panicked. */
    ghost predicate Traced(before: seq<Event>, opening: seq<Event>, stop: Option<Error>)
      reads this
    {
      && (stop.None? ==> forall j :: 0 <= j < |specs| ==> specs[j].Some?)
      && trace == before + opening + (if stop.None? then [BatchInsert(Somes(specs))] else []) + Exits(opening, stop)
    }

    /** How a stretch of the chain from builder i on ends: its error, and what it has done to the save. */
    twostate predicate Ended(ch: Chain, i: nat, new stop: Option<Error>, new spoil: Option<Error>,
                             new opening: seq<Event>, n: nat, new err: Option<Error>)
      requires Sound() && ch.Valid() && |ch.hooks| == |given|
      requires i <= |given| == |old(specs)| == |old(nodes)| == |old(done)| == |old(mutations)|
      reads this
    {
      && err == Settled(stop, reply, spoil)
      && Ran(ch, i, stop.None?)
      && Moved(ch, i, n)
      && Traced(old(trace), opening, stop)
      && (stop.None? && reply.Inserted? ==> ids == reply.ids)
    }

    /** The mutator of builder i, from its h-th hook on. */
    method Mutate(i: nat, h: nat, ch: Chain) returns (err: Option<Error>)
      requires Poised(ch, i, h)
      modifies this
      ensures var fields := old(mutations[i].fields);
              Ended(ch, i, Stop(ch, i, h, fields), Spoil(ch.hooks, i, h), Opening(ch, i, h, fields),
                    HaltFrom(ch, i, h, fields), err)
      decreases |ch.hooks| - i, |ch.hooks[i]| - h, 3
    {
      if h == |ch.hooks[i]| {
        err := Create(i, ch);
      } else if ch.hooks[i][h].before.Some? {
        err := Refuse(i, h, ch);
      } else {
        err := Pass(i, h, ch);
      }
    }

    /** A hook that edits the mutation and fails without calling next. */
    method Refuse(i: nat, h: nat, ch: Chain) returns (err: Option<Error>)
      requires Poised(ch, i, h) && h < |ch.hooks[i]| && ch.hooks[i][h].before.Some?
      modifies this
      ensures var fields := old(mutations[i].fields);
              Ended(ch, i, Stop(ch, i, h, fields), Spoil(ch.hooks, i, h), Opening(ch, i, h, fields),
                    HaltFrom(ch, i, h, fields), err)
    {
      var hook := ch.hooks[i][h];
      trace := trace + [Enter(i, h)];
      mutations := mutations[i := mutations[i].(fields := hook.edit(mutations[i].fields))];
      err := Some(HookFailed(hook.before.value));
      trace := trace + [Leave(i, h)];
      WrapTrace(old(trace), i, h, [], []);
    }

    /** A hook that edits the mutation and calls next, after which it may fail. */
    method Pass(i: nat, h: nat, ch: Chain) returns (err: Option<Error>)
      requires Poised(ch, i, h) && h < |ch.hooks[i]| && ch.hooks[i][h].before.None?
      modifies this
      ensures var fields := old(mutations[i].fields);
              Ended(ch, i, Stop(ch, i, h, fields), Spoil(ch.hooks, i, h), Opening(ch, i, h, fields),
                    HaltFrom(ch, i, h, fields), err)
      decreases |ch.hooks| - i, |ch.hooks[i]| - h, 2
    {
      var hook := ch.hooks[i][h];
      trace := trace + [Enter(i, h)];
      mutations := mutations[i := mutations[i].(fields := hook.edit(mutations[i].fields))];
      ghost var inner, stop := Opening(ch, i, h + 1, mutations[i].fields), Stop(ch, i, h + 1, mutations[i].fields);
      err := Mutate(i, h + 1, ch);
      WrapTrace(old(trace), i, h, inner, if stop.None? then [BatchInsert(Somes(specs))] else []);
      if err == Some(Panic) {
        return;
      }
      if err.None? && hook.after.Some? {
        err := Some(HookFailed(hook.after.value));
      }
      trace := trace + [Leave(i, h)];
    }

    /** The innermost function of mutator i: check, createSpec, the rest of the chain, and the marking. */
    method Create(i: nat, ch: Chain) returns (err: Option<Error>)
      requires i < |ch.hooks| && Poised(ch, i, |ch.hooks[i]|)
      modifies this
      ensures var h, fields := |ch.hooks[i]|, old(mutations[i].fields);
              Ended(ch, i, Stop(ch, i, h, fields), Spoil(ch.hooks, i, h), Opening(ch, i, h, fields),
                    HaltFrom(ch, i, h, fields), err)
      decreases |ch.hooks| - i, 0, 2
    {
      match steps.check(mutations[i].fields) {
        case Fails(error) => return Some(Invalid(error));
        case Panics => return Some(Panic);
        case Passes =>
      }
      err := Proceed(i, ch);
    }

    /** The rest of that function, once the check has passed. */
    method Proceed(i: nat, ch: Chain) returns (err: Option<Error>)
      requires i < |ch.hooks| && Poised(ch, i, |ch.hooks[i]|)
      modifies this
      ensures Ended(ch, i, StopRest(ch, i + 1), SpoilRest(ch.hooks, i + 1), OpeningRest(ch, i + 1),
                    Halt(ch, i + 1), err)
      decreases |ch.hooks| - i, 0, 1
    {
      err := Build(i, ch);
      SpoilExact(ch, i + 1);
      if err.None? {
        Finish(i);
      }
    }

    /** createSpec of builder i and the rest of the chain. */
    method Build(i: nat, ch: Chain) returns (err: Option<Error>)
      requires i < |ch.hooks| && Poised(ch, i, |ch.hooks[i]|)
      modifies this
      ensures err == Settled(StopRest(ch, i + 1), reply, SpoilRest(ch.hooks, i + 1))
      ensures |done| == |specs| == |nodes| == |given|
      ensures specs[..i] == old(specs)[..i] && nodes[..i] == old(nodes)[..i] && done[..i + 1] == old(done)[..i + 1]
      ensures specs[i] == Some(ch.steps.spec(Final(ch, i))) && nodes[i] == Some(ch.steps.node(Final(ch, i)))
      ensures StopRest(ch, i + 1).None? ==> Arrayed(ch, i + 1)
      ensures forall j :: i < j < |given| ==> done[j] == DoneAt(ch, StopRest(ch, i + 1).None?, j, old(done)[j])
      ensures Moved(ch, i, Halt(ch, i + 1))
      ensures Traced(old(trace), OpeningRest(ch, i + 1), StopRest(ch, i + 1))
      ensures StopRest(ch, i + 1).None? && reply.Inserted? ==> ids == reply.ids
      decreases |ch.hooks| - i, 0, 0
    {
      assert mutations[i] == Final(ch, i);
      nodes, specs := nodes[i := Some(steps.node(mutations[i]))], specs[i := Some(steps.spec(mutations[i]))];
      err := Next(i + 1, ch);
      assert specs[i] == specs[..i + 1][i] && nodes[i] == nodes[..i + 1][i];
      assert specs[..i] == specs[..i + 1][..i] && nodes[..i] == nodes[..i + 1][..i];
    }

    /** What mutator i does once the rest of the chain has succeeded: the ID, where one is reported, and done. */
    method Finish(i: nat)
      requires i < |done| == |nodes| == |ids| && nodes[i].Some?
      modifies this`done, this`nodes
      ensures done == old(done)[i := Some(ids[i].GetOr(0))]
      ensures nodes == old(nodes)[i := Some(WithID(old(nodes[i].value), ids[i]))]
    {
      done := done[i := Some(ids[i].GetOr(0))];
      if ids[i].Some? {
        nodes := nodes[i := Some(nodes[i].value[ID := Plain(VInt(ids[i].value))])];
      }
    }

    /** The call inside mutator i - 1: mutator i, or the batch insert when there is none. */
    method Next(i: nat, ch: Chain) returns (err: Option<Error>)
      requires i <= |ch.hooks| && Sound() && ch.Valid() && ch.steps == steps
      requires |given| == |ch.hooks| == |mutations| == |done| == |specs| == |nodes|
      requires mutations[i..] == ch.mutations[i..] && forall j :: 0 <= j < i ==> specs[j].Some?
      modifies this
      ensures Ended(ch, i, StopRest(ch, i), SpoilRest(ch.hooks, i), OpeningRest(ch, i), Halt(ch, i), err)
      decreases |ch.hooks| - i, if i < |ch.hooks| then |ch.hooks[i]| else 0, 4
    {
      if i < |ch.hooks| {
        assert mutations[i] == mutations[i..][0] && ch.mutations[i] == ch.mutations[i..][0];
        assert mutations[i + 1..] == mutations[i..][1..] && ch.mutations[i + 1..] == ch.mutations[i..][1..];
        err := Mutate(i, 0, ch);
      } else {
        err := BatchCreate();
      }
    }

    /** The hooks of a builder, wrapped from the last to the first; None when one is nil, whose call panics. */
    method Wrap(own: seq<Option<Hook>>) returns (wrapped: Option<seq<Hook>>)
      ensures wrapped.None? <==> HasNil(own)
      ensures wrapped.Some? ==> wrapped.value == Somes(own)
    {
      var hooks := [];
      for h := |own| downto 0
        invariant !HasNil(own[h..]) && hooks == Somes(own[h..])
      {
        if own[h].None? {
          return None;
        }
        assert own[h..] == [own[h]] + own[h + 1..];
        hooks := [own[h].value] + hooks;
      }
      assert own[0..] == own;
      return Some(hooks);
    }

    /**
     The loop of Save: fresh arrays, and for each builder its defaults, whose error is dropped, and its hooks;
     None when it panics at a nil hook.
     */
    method Prepare() returns (wrapped: Option<seq<seq<Hook>>>)
      requires |given| == |mutations|
      modifies this`mutations, this`specs, this`nodes
      ensures wrapped.None? <==> AnyNil(given)
      ensures wrapped.Some? ==> wrapped.value == Wrapped(given) && Reached(given, 0) == |given|
      ensures mutations == DefaultedTo(steps, old(mutations), Reached(given, 0))
      ensures |specs| == |nodes| == |given|
    {
      var n := |given|;
      specs, nodes := seq(n, _ => None), seq(n, _ => None);
      var hooks := [];
      for i := 0 to n
        invariant |mutations| == |specs| == |nodes| == n && Reached(given, 0) == Reached(given, i)
        invariant mutations == DefaultedTo(steps, old(mutations), i)
        invariant !AnyNil(given[..i]) && hooks == Wrapped(given[..i])
      {
        assert given[..i + 1] == given[..i] + [given[i]];
        mutations := mutations[i := mutations[i].(fields := steps.defaults(mutations[i].fields))];
        var own := Wrap(given[i]);
        if own.None? {
          return None;
        }
        hooks := hooks + [own.value];
      }
      assert given[..n] == given;
      return Some(hooks);
    }

    /** The part of Save that runs the chain, for at least one builder. */
    method RunChain(ch: Chain) returns (failure: Option<Error>)
      requires Sound() && ch.hooks != [] && ch.Valid() && ch.steps == steps && ch.mutations == mutations
      requires |given| == |ch.hooks| == |specs| == |nodes| == |done|
      modifies this
      ensures failure == Settled(StopRest(ch, 0), reply, SpoilRest(ch.hooks, 0))
      ensures trace == old(trace) + Calls(ch)
      ensures |done| == |nodes| == |given|
      ensures forall j :: 0 <= j < |given| ==> done[j] == DoneAt(ch, StopRest(ch, 0).None?, j, old(done)[j])
      ensures StopRest(ch, 0).None? ==> Arrayed(ch, 0)
      ensures |mutations| == |given|
      ensures forall j :: 0 <= j < |given| ==> mutations[j] == if j < Halt(ch, 0) then Final(ch, j) else ch.mutations[j]
    {
      failure := Next(0, ch);
      if StopRest(ch, 0).None? {
        assert Somes(specs) == AllSpecs(ch);
      }
    }

    /**
     The outcome of a save, spelled out. Not all builders ready: the error that stops the chain. Refused by the
     database: that error. A hook failing later: its error. Otherwise the nodes in the order of the builders: what
     each builder's node step makes of its mutation, after its defaults and its hooks' edits, with the ID that the
     database reported. A mutation is edited when all builders before it were ready, else it has its defaults only.
     A builder is done, with its ID, when the batch is in and no hook of a later builder fails.
     */
    ghost predicate Reported(ch: Chain, res: Result<seq<Node>, Error>, before: seq<Mutation>, wasDone: seq<Option<int>>)
      requires Sound() && ch.Valid() && |given| == |ch.hooks| == |before| == |wasDone|
      reads this
    {
      var ready := RestReady(ch, 0);
      && (!ready ==> StopRest(ch, 0).Some? && res == Failure(StopRest(ch, 0).value))
      && (ready && reply == Refused(true) ==> res == Failure(Constraint))
      && (ready && reply == Refused(false) ==> res == Failure(Driver))
      && (ready && reply.Inserted? && !Unspoiled(ch, 0) ==>
            SpoilRest(ch.hooks, 0).Some? && res == Failure(SpoilRest(ch.hooks, 0).value))
      && (ready && reply.Inserted? && Unspoiled(ch, 0) ==>
            && res.Success? && |res.value| == |given|
            && forall j :: 0 <= j < |given| ==>
                 && Final(ch, j) == before[j].(fields := Edited(ch.hooks[j], 0, steps.defaults(before[j].fields)))
                 && Carries(res.value[j], steps.node(Final(ch, j)), reply.ids[j]))
      && |mutations| == |given|
      && (forall j :: 0 <= j < |given| ==>
            mutations[j] == if ReadyBefore(ch, j) then Final(ch, j) else ch.mutations[j])
      && |done| == |given|
      && forall j :: 0 <= j < |given| ==>
           done[j] == if !ready || !reply.Inserted? || !Unspoiled(ch, j + 1) then wasDone[j]
                      else match reply.ids[j]
                        case Some(n) => Some(n)
                        case None => Some(0)
    }

    lemma OutcomeReported(ch: Chain, res: Result<seq<Node>, Error>, before: seq<Mutation>, wasDone: seq<Option<int>>)
      requires Sound() && |given| == |ch.hooks| == |before| == |wasDone| == |done| && ch.steps == steps
      requires ch == ChainOf(steps, ch.hooks, before)
      requires match Settled(StopRest(ch, 0), reply, SpoilRest(ch.hooks, 0))
               case Some(e) => res == Failure(e)
               case None =>
                 res.Success? && |res.value| == |given|
                 && forall j :: 0 <= j < |given| ==> res.value[j] == NodeOf(ch, j, reply.ids[j])
      requires forall j :: 0 <= j < |given| ==> done[j] == DoneAt(ch, RestReady(ch, 0), j, wasDone[j])
      requires |mutations| == |given|
      requires forall j :: 0 <= j < |given| ==>
                 mutations[j] == if j < Halt(ch, 0) then Final(ch, j) else ch.mutations[j]
      ensures Reported(ch, res, before, wasDone)
    {
      StopExact(ch, 0);
      SpoilExact(ch, 0);
      forall j | 0 <= j < |given| ensures j < Halt(ch, 0) <==> ReadyBefore(ch, j) {
        HaltExact(ch, 0, j);
      }
      if res.Success? {
        forall j | 0 <= j < |given| {
          NodeCarries(ch, j, reply.ids[j]);
        }
      }
    }

    /**
     Save. A nil hook makes it panic before anything is called. Otherwise the batch insert is issued exactly once if
     there is a builder and every builder gets to its createSpec, and then with the spec of every builder in its
     place, else never; and the error, if any, is the one of Settled.
     */
    method Save() returns (res: Result<seq<Node>, Error>)
      requires Sound() && |given| == |mutations| == |done|
      modifies this
      ensures err.Some? ==>
                && res == Failure(BulkError(err.value))
                && trace == old(trace) && mutations == old(mutations) && done == old(done)
      ensures err.None? && AnyNil(given) ==>
                && res == Failure(Panic) && trace == old(trace) && done == old(done)
                && mutations == DefaultedTo(steps, old(mutations), Reached(given, 0))
      ensures err.None? && given == [] ==> res == Success([]) && trace == old(trace)
      ensures err.None? && given != [] && !AnyNil(given) ==>
                var ch := ChainOf(steps, Wrapped(given), old(mutations));
                var failure := Settled(StopRest(ch, 0), reply, SpoilRest(ch.hooks, 0));
                && trace == old(trace) + Calls(ch)
                && (match failure
                    case Some(e) => res == Failure(e)
                    case None =>
                      res.Success? && |res.value| == |given|
                      && forall j :: 0 <= j < |given| ==> res.value[j] == NodeOf(ch, j, reply.ids[j]))
                && (res.Success? <==> RestReady(ch, 0) && reply.Inserted? && Unspoiled(ch, 0))
                && |done| == |given|
                && (forall j :: 0 <= j < |given| ==> done[j] == DoneAt(ch, RestReady(ch, 0), j, old(done)[j]))
                && Reported(ch, res, old(mutations), old(done))
    {
      if err.Some? {
        return Failure(BulkError(err.value));
      }
      var wrapped := Prepare();
      if wrapped.None? {
        return Failure(Panic);
      }
      if |given| == 0 {
        return Success([]);
      }
      var ch := Chain(steps, wrapped.value, mutations);
      StopExact(ch, 0);
      SpoilExact(ch, 0);
      var failure := RunChain(ch);
      res := if failure.Some? then Failure(failure.value) else Success(Somes(nodes));
      OutcomeReported(ch, res, old(mutations), old(done));
    }
  }

  /** The mutations after the defaults of the first n builders. */
  function DefaultedTo(steps: Steps, mutations: seq<Mutation>, n: nat): (ms: seq<Mutation>)
    ensures |ms| == |mutations|
  {
    seq(|mutations|, i requires 0 <= i < |mutations| =>
      if i < n then mutations[i].(fields := steps.defaults(mutations[i].fields)) else mutations[i])
  }

  /** The chain that Save runs for builders with these hooks and mutations. */
  function ChainOf(steps: Steps, hooks: seq<seq<Hook>>, mutations: seq<Mutation>): Chain {
    Chain(steps, hooks, DefaultedTo(steps, mutations, |mutations|))
  }

  /** The specs of all builders. */
  function AllSpecs(ch: Chain): seq<CreateSpec>
    requires |ch.hooks| == |ch.mutations|
  {
    seq(|ch.hooks|, j requires 0 <= j < |ch.hooks| => ch.steps.spec(Final(ch, j)))
  }

  /** The exits after these entries: all of them, unless a panic unwinds the chain. */
  function Exits(opening: seq<Event>, stop: Option<Error>): seq<Event> {
    if stop == Some(Panic) then [] else Mirror(opening)
  }

  /** The calls of a whole chain. */
  ghost function Calls(ch: Chain): seq<Event>
    requires ch.Valid()
  {
    OpeningRest(ch, 0) + (if StopRest(ch, 0).None? then [BatchInsert(AllSpecs(ch))] else [])
    + Exits(OpeningRest(ch, 0), StopRest(ch, 0))
  }

  lemma WrapTrace(before: seq<Event>, i: nat, h: nat, inner: seq<Event>, batch: seq<Event>)
    ensures before + [Enter(i, h)] + inner + batch + Mirror(inner) + [Leave(i, h)]
            == before + ([Enter(i, h)] + inner) + batch + Mirror([Enter(i, h)] + inner)
    ensures before + [Enter(i, h)] + inner == before + ([Enter(i, h)] + inner)
  {}

  // ----- The two descriptions agree -----

  lemma {:induction false} StopOwnExact(steps: Steps, hooks: seq<Hook>, h: nat, fields: map<Column, Value>)
    ensures StopOwn(steps, hooks, h, fields).None? <==> Ready(steps, hooks, h, fields)
    decreases |hooks| - h
  {
    if h < |hooks| {
      if hooks[h].before.None? {
        StopOwnExact(steps, hooks, h + 1, hooks[h].edit(fields));
        assert Blocked(hooks, h) <==> Blocked(hooks, h + 1);
      } else {
        assert Blocked(hooks, h);
      }
    }
  }

  /** Nothing stops the chain exactly when every builder gets to its createSpec. */
  lemma {:induction false} StopExact(ch: Chain, i: nat)
    requires ch.Valid() && i <= |ch.hooks|
    ensures StopRest(ch, i).None? <==> RestReady(ch, i)
    decreases |ch.hooks| - i
  {
    if i < |ch.hooks| {
      StopOwnExact(ch.steps, ch.hooks[i], 0, ch.mutations[i].fields);
      StopExact(ch, i + 1);
    }
  }

  /** All builders before the j-th get to their createSpec. */
  ghost predicate ReadyBefore(ch: Chain, j: nat)
    requires ch.Valid() && j <= |ch.hooks|
  {
    forall k :: 0 <= k < j ==> Ready(ch.steps, ch.hooks[k], 0, ch.mutations[k].fields)
  }

  lemma {:induction false} HaltExact(ch: Chain, i: nat, j: nat)
    requires ch.Valid() && i <= j < |ch.hooks| && ReadyBefore(ch, i)
    ensures j < Halt(ch, i) <==> ReadyBefore(ch, j)
    decreases j - i
  {
    StopOwnExact(ch.steps, ch.hooks[i], 0, ch.mutations[i].fields);
    if i < j && Ready(ch.steps, ch.hooks[i], 0, ch.mutations[i].fields) {
      HaltExact(ch, i + 1, j);
    }
  }

  lemma {:induction false} SpoilOwnExact(hooks: seq<Hook>, h: nat)
    ensures SpoilOwn(hooks, h).None? <==> !Spoiled(hooks, h)
    decreases |hooks| - h
  {
    if h < |hooks| {
      SpoilOwnExact(hooks, h + 1);
      assert Spoiled(hooks, h) <==> hooks[h].after.Some? || Spoiled(hooks, h + 1);
    }
  }

  lemma {:induction false} SpoilExact(ch: Chain, i: nat)
    requires i <= |ch.hooks|
    ensures SpoilRest(ch.hooks, i).None? <==> Unspoiled(ch, i)
    decreases |ch.hooks| - i
  {
    if i < |ch.hooks| {
      SpoilOwnExact(ch.hooks[i], 0);
      SpoilExact(ch, i + 1);
    }
  }

  function Somes<T>(s: seq<Option<T>>): (r: seq<T>)
    requires forall i :: 0 <= i < |s| ==> s[i].Some?
    ensures |r| == |s| && forall i :: 0 <= i < |s| ==> r[i] == s[i].value
  {
    seq(|s|, i requires 0 <= i < |s| => s[i].value)
  }
}
