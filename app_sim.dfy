/**
 * The app simulator: a state machine that keeps a canonical store per
 * (module, object type), draws random blocks of object updates, applies them to
 * the store and forwards them to a listener.
 *
 * The class `AppSimulator` holds the state the Go struct updates in place (the
 * block counter and the two levels of ordered maps); its methods are proved
 * against the pure functions `AfterApply`, `Block`, `AfterInitialize` and
 * `AfterNextBlock`, and the lemmas below state what those promise.
 *
 * The listener is outside the model: it is given by which of its four hooks are
 * set and by how it answers a call, which may depend on every call it received
 * before. `delivered` is the sequence of calls the listener has received.
 * The random engine is replaced by functions of the block seed (`Randomness`),
 * and `fmt.Sprintf("%v", key)` by an arbitrary deterministic `render`.
 */
module AppSim {
  import opened Wrappers
  import opened Errors
  import opened SchemaTypes
  import opened OrderedMaps
  import SchemaGen
  import ModuleSchemas

  /** A canonical store entry. */
  datatype Entry = Entry(key: Value, value: Value)

  /** An object type and its canonical store, keyed by the rendered key. */
  datatype ObjectState = ObjectState(objectType: ObjectType, objects: map<string, Entry>)

  /** A module's schema and its object states, ordered by object type name. */
  datatype ModuleState = ModuleState(moduleSchema: ModuleSchema, objects: OrderedMap<ObjectState>)

  /** A call the simulator makes on the listener. */
  datatype HookCall =
    | InitializeModuleSchema(moduleName: string, schema: ModuleSchema)
    | StartBlock(blockNum: int)
    | OnObjectUpdate(moduleName: string, update: ObjectUpdate)
    | Commit

  /** Which hooks the listener sets, and its answer to a call given the calls it received before. */
  datatype Listener = Listener(
    hasInitializeModuleSchema: bool,
    hasStartBlock: bool,
    hasOnObjectUpdate: bool,
    hasCommit: bool,
    respond: (seq<HookCall>, HookCall) -> Outcome<Error>)

  datatype Options = Options(
    appSchema: map<string, ModuleSchema>,
    listener: Listener,
    eventAlignedWrites: bool,
    maxUpdatesPerBlock: int,
    seed: int)

  /** What the `i`-th update of a block draws: two index choices and the update itself. */
  datatype StepDraw = StepDraw(moduleChoice: int, objectChoice: int, update: ObjectUpdate)

  /**
   * The random engine replayed from a seed: the choice behind the number of
   * updates, and the draws of the `i`-th update, which may depend on the
   * stores as they stand (the update generator is stateful).
   */
  datatype Randomness = Randomness(
    numUpdatesChoice: int -> int,
    step: (int, nat, OrderedMap<ModuleState>) -> StepDraw)

  /** The behaviour the simulator borrows from code outside this model. */
  datatype Externals = Externals(
    rng: Randomness,
    /** `fmt.Sprintf("%v", key)`; not assumed injective. */
    render: Value -> string,
    /** `ObjectType.ValidateObjectUpdate`. */
    checkUpdate: ModuleSchemas.UpdateValidator)

  /** The simulator state the pure functions speak about. */
  datatype Sim = Sim(modules: OrderedMap<ModuleState>, delivered: seq<HookCall>)

  /** An outcome and the state it leaves. */
  datatype Step = Step(outcome: Outcome<Error>, sim: Sim)

  const Uint64Modulus: int := 0x1_0000_0000_0000_0000

  ghost predicate ValidModules(m: OrderedMap<ModuleState>) {
    m.Valid() && forall name :: name in m.entries ==> m.entries[name].objects.Valid()
  }

  /** What a module state fixes for good: its schema, its object type names in order, and their object types. */
  datatype ModuleShape = ModuleShape(moduleSchema: ModuleSchema, typeNames: seq<string>, objectTypes: map<string, ObjectType>)

  ghost function ShapeOf(st: ModuleState): ModuleShape {
    ModuleShape(st.moduleSchema, st.objects.keys, map t | t in st.objects.entries :: st.objects.entries[t].objectType)
  }

  /** The shape of every module: everything but the stores. */
  ghost function Shape(m: OrderedMap<ModuleState>): map<string, ModuleShape> {
    map name | name in m.entries :: ShapeOf(m.entries[name])
  }

  /** Same modules in the same order, with the same schemas and object types; only the stores may differ. */
  ghost predicate SameShape(a: OrderedMap<ModuleState>, b: OrderedMap<ModuleState>) {
    a.keys == b.keys && Shape(a) == Shape(b)
  }

  /** The module `m` has an object type named `t`. */
  predicate Known(modules: OrderedMap<ModuleState>, m: string, t: string) {
    m in modules.entries && t in modules.entries[m].objects.entries
  }

  /** The canonical store of object type `t` in module `m`. */
  function StoreOf(modules: OrderedMap<ModuleState>, m: string, t: string): map<string, Entry>
    requires Known(modules, m, t)
  {
    modules.entries[m].objects.entries[t].objects
  }

  // ---------------------------------------------------------------- construction

  /** The object states of a new module: one per object type name, each with an empty store. */
  function InitialObjects(types: seq<ObjectType>): (r: OrderedMap<ObjectState>)
    ensures r.Valid()
  {
    if types == [] then Empty()
    else
      var last := types[|types| - 1];
      InitialObjects(types[..|types| - 1]).Set(last.name, ObjectState(last, map[]))
  }

  /** A new module has an object state for exactly the names of its object types. */
  lemma {:induction false} InitialObjectsNames(types: seq<ObjectType>)
    ensures forall t :: t in InitialObjects(types).entries <==> exists i :: 0 <= i < |types| && types[i].name == t
  {
    if types != [] {
      var init := types[..|types| - 1];
      InitialObjectsNames(init);
      assert forall i :: 0 <= i < |init| ==> init[i] == types[i];
    }
  }

  /** Each object state of a new module has an empty store and an object type of the schema bearing its name. */
  lemma {:induction false} InitialObjectsEmpty(types: seq<ObjectType>)
    ensures forall t :: t in InitialObjects(types).entries ==>
              var o := InitialObjects(types).entries[t];
              o.objects == map[] && o.objectType.name == t && o.objectType in types
  {
    if types != [] {
      var init := types[..|types| - 1];
      InitialObjectsEmpty(init);
      assert forall ty :: ty in init ==> ty in types;
    }
  }

  function InitialModuleState(schema: ModuleSchema): ModuleState {
    ModuleState(schema, InitialObjects(schema.objectTypes))
  }

  /** The inner loop of `NewAppSimulator`: one object state per object type, in schema order. */
  method NewModuleState(schema: ModuleSchema) returns (st: ModuleState)
    ensures st == InitialModuleState(schema)
  {
    var objects := Empty<ObjectState>();
    var i := 0;
    while i < |schema.objectTypes|
      invariant 0 <= i <= |schema.objectTypes|
      invariant objects == InitialObjects(schema.objectTypes[..i])
    {
      var objectType := schema.objectTypes[i];
      assert schema.objectTypes[..i + 1][..i] == schema.objectTypes[..i];
      objects := objects.Set(objectType.name, ObjectState(objectType, map[]));
      i := i + 1;
    }
    assert schema.objectTypes[..i] == schema.objectTypes;
    st := ModuleState(schema, objects);
  }

  // ---------------------------------------------------------------- applying one update

  /** The canonical store after one update: delete the rendered key, or replace its entry wholesale. */
  function StoreApply(store: map<string, Entry>, update: ObjectUpdate, render: Value -> string): (r: map<string, Entry>)
    ensures update.delete ==> render(update.key) !in r
    ensures !update.delete ==> render(update.key) in r && r[render(update.key)] == Entry(update.key, update.value)
    ensures forall k :: k != render(update.key) ==> (k in r <==> k in store) && (k in r ==> r[k] == store[k])
  {
    var keyStr := render(update.key);
    if update.delete then store - {keyStr} else store[keyStr := Entry(update.key, update.value)]
  }

  /**
   * `applyUpdate`: look up the module and the object type, update that one
   * store, then call `OnObjectUpdate` if it is set and return its answer.
   */
  function AfterApply(s: Sim, listener: Listener, render: Value -> string, moduleName: string, update: ObjectUpdate): (r: Step)
    requires ValidModules(s.modules)
    ensures ValidModules(r.sim.modules)
  {
    match s.modules.Get(moduleName)
    case None => Step(Fail(ModuleNotFound(moduleName)), s)
    case Some(modState) =>
      match modState.objects.Get(update.typeName)
      case None => Step(Fail(ObjectTypeNotFoundInModule(update.typeName, moduleName)), s)
      case Some(objState) =>
        var objState' := objState.(objects := StoreApply(objState.objects, update, render));
        var modState' := modState.(objects := modState.objects.Replace(update.typeName, objState'));
        var modules' := s.modules.Replace(moduleName, modState');
        if listener.hasOnObjectUpdate then
          var call := OnObjectUpdate(moduleName, update);
          Step(listener.respond(s.delivered, call), Sim(modules', s.delivered + [call]))
        else Step(Pass, Sim(modules', s.delivered))
  }

  /** An unknown module or object type is an error that changes nothing and calls nothing. */
  lemma AfterApplyUnknown(s: Sim, listener: Listener, render: Value -> string, moduleName: string, update: ObjectUpdate)
    requires ValidModules(s.modules)
    ensures moduleName !in s.modules.entries ==>
              AfterApply(s, listener, render, moduleName, update) == Step(Fail(ModuleNotFound(moduleName)), s)
    ensures moduleName in s.modules.entries && !Known(s.modules, moduleName, update.typeName) ==>
              AfterApply(s, listener, render, moduleName, update) == Step(Fail(ObjectTypeNotFoundInModule(update.typeName, moduleName)), s)
  {
  }

  /** Applying an update never changes the modules, their schemas or their object types. */
  lemma AfterApplyKeepsShape(s: Sim, listener: Listener, render: Value -> string, moduleName: string, update: ObjectUpdate)
    requires ValidModules(s.modules)
    ensures SameShape(s.modules, AfterApply(s, listener, render, moduleName, update).sim.modules)
  {
    if Known(s.modules, moduleName, update.typeName) {
      var modState := s.modules.entries[moduleName];
      var objState := modState.objects.entries[update.typeName];
      var objects' := modState.objects.Replace(update.typeName, objState.(objects := StoreApply(objState.objects, update, render)));
      var modState' := modState.(objects := objects');
      assert ShapeOf(modState') == ShapeOf(modState);
      var modules' := s.modules.Replace(moduleName, modState');
      assert Shape(modules') == Shape(s.modules);
    }
  }

  /** A known update changes exactly its own store, as `StoreApply` says, and no other. */
  lemma AfterApplyUpdatesOneStore(s: Sim, listener: Listener, render: Value -> string, moduleName: string, update: ObjectUpdate)
    requires ValidModules(s.modules) && Known(s.modules, moduleName, update.typeName)
    ensures var r := AfterApply(s, listener, render, moduleName, update);
      && Known(r.sim.modules, moduleName, update.typeName)
      && StoreOf(r.sim.modules, moduleName, update.typeName) == StoreApply(StoreOf(s.modules, moduleName, update.typeName), update, render)
      && forall m, t :: Known(s.modules, m, t) && (m, t) != (moduleName, update.typeName) ==>
           Known(r.sim.modules, m, t) && StoreOf(r.sim.modules, m, t) == StoreOf(s.modules, m, t)
  {
  }

  /**
   * A known update calls `OnObjectUpdate` once if it is set and returns its
   * answer as it is, whatever it is (the store update is not undone); without
   * the hook it calls nothing and succeeds.
   */
  lemma AfterApplyDelivers(s: Sim, listener: Listener, render: Value -> string, moduleName: string, update: ObjectUpdate)
    requires ValidModules(s.modules) && Known(s.modules, moduleName, update.typeName)
    ensures var r := AfterApply(s, listener, render, moduleName, update);
      && (listener.hasOnObjectUpdate ==>
            && r.sim.delivered == s.delivered + [OnObjectUpdate(moduleName, update)]
            && r.outcome == listener.respond(s.delivered, OnObjectUpdate(moduleName, update)))
      && (!listener.hasOnObjectUpdate ==> r.sim.delivered == s.delivered && r.outcome == Pass)
  {
  }

  /** Deleting a key the store does not hold leaves the store as it was. */
  lemma DeleteAbsentIsNoOp(store: map<string, Entry>, update: ObjectUpdate, render: Value -> string)
    requires update.delete && render(update.key) !in store
    ensures StoreApply(store, update, render) == store
  {
  }

  /** A store after a sequence of updates applied in order. */
  function ApplyAll(store: map<string, Entry>, updates: seq<ObjectUpdate>, render: Value -> string): map<string, Entry> {
    if updates == [] then store
    else StoreApply(ApplyAll(store, updates[..|updates| - 1], render), updates[|updates| - 1], render)
  }

  /** The index of the last update whose key renders to `k`. */
  function LastTouch(updates: seq<ObjectUpdate>, render: Value -> string, k: string): (r: Option<nat>)
    ensures r.Some? ==> r.value < |updates| && render(updates[r.value].key) == k
    ensures r.Some? ==> forall j :: r.value < j < |updates| ==> render(updates[j].key) != k
    ensures r.None? ==> forall j :: 0 <= j < |updates| ==> render(updates[j].key) != k
  {
    if updates == [] then None
    else if render(updates[|updates| - 1].key) == k then Some(|updates| - 1)
    else LastTouch(updates[..|updates| - 1], render, k)
  }

  /**
   * Replaying updates leaves every key as its last update says: absent after a
   * delete, the last written entry otherwise, and untouched keys as they were.
   */
  lemma {:induction false} ReplayKeepsLastWrite(store: map<string, Entry>, updates: seq<ObjectUpdate>, render: Value -> string, k: string)
    ensures match LastTouch(updates, render, k)
      case None =>
        (k in ApplyAll(store, updates, render) <==> k in store) &&
        (k in store ==> ApplyAll(store, updates, render)[k] == store[k])
      case Some(i) =>
        if updates[i].delete then k !in ApplyAll(store, updates, render)
        else k in ApplyAll(store, updates, render) &&
             ApplyAll(store, updates, render)[k] == Entry(updates[i].key, updates[i].value)
  {
    if updates != [] {
      ReplayKeepsLastWrite(store, updates[..|updates| - 1], render, k);
    }
  }

  // ---------------------------------------------------------------- delivering calls in order

  /** A sequence of calls delivered in order, stopping at the first error. */
  datatype Delivery = Delivery(outcome: Outcome<Error>, delivered: seq<HookCall>)

  function DeliverInOrder(history: seq<HookCall>, calls: seq<HookCall>, k: nat,
                          respond: (seq<HookCall>, HookCall) -> Outcome<Error>): Delivery
    requires k <= |calls|
  {
    if k == 0 then Delivery(Pass, history)
    else
      var prev := DeliverInOrder(history, calls, k - 1, respond);
      if prev.outcome.Fail? then prev
      else Delivery(respond(prev.delivered, calls[k - 1]), prev.delivered + [calls[k - 1]])
  }

  /** Each of the first `j` calls was accepted, given the calls delivered before it. */
  predicate AcceptedUpTo(history: seq<HookCall>, calls: seq<HookCall>, j: nat,
                         respond: (seq<HookCall>, HookCall) -> Outcome<Error>)
    requires j <= |calls|
  {
    forall i :: 0 <= i < j ==> respond(history + calls[..i], calls[i]).Pass?
  }

  /** `d` is the run that delivered calls `0..j`, accepted all before `j` and was stopped by call `j`'s error. */
  predicate RejectedAt(history: seq<HookCall>, calls: seq<HookCall>, j: nat, d: Delivery,
                       respond: (seq<HookCall>, HookCall) -> Outcome<Error>)
    requires j < |calls|
  {
    && AcceptedUpTo(history, calls, j, respond)
    && d.outcome == respond(history + calls[..j], calls[j])
    && d.outcome.Fail?
    && d.delivered == history + calls[..j + 1]
  }

  /**
   * On success every call was made, in order, and each was accepted; on failure
   * the calls were made up to and including the first rejected one, whose error
   * is returned.
   */
  lemma {:induction false} DeliverInOrderSpec(history: seq<HookCall>, calls: seq<HookCall>, k: nat,
                                              respond: (seq<HookCall>, HookCall) -> Outcome<Error>)
    requires k <= |calls|
    ensures DeliverInOrder(history, calls, k, respond).outcome.Pass? ==>
              && DeliverInOrder(history, calls, k, respond).delivered == history + calls[..k]
              && AcceptedUpTo(history, calls, k, respond)
    ensures DeliverInOrder(history, calls, k, respond).outcome.Fail? ==>
              exists j :: 0 <= j < k && RejectedAt(history, calls, j, DeliverInOrder(history, calls, k, respond), respond)
  {
    if k > 0 {
      DeliverInOrderSpec(history, calls, k - 1, respond);
      var prev := DeliverInOrder(history, calls, k - 1, respond);
      if prev.outcome.Pass? {
        assert calls[..k - 1] + [calls[k - 1]] == calls[..k];
        var d := DeliverInOrder(history, calls, k, respond);
        if d.outcome.Fail? {
          assert RejectedAt(history, calls, k - 1, d, respond);
        }
      }
    }
  }

  lemma {:induction false} DeliverInOrderStopped(history: seq<HookCall>, calls: seq<HookCall>, k: nat, n: nat,
                                                 respond: (seq<HookCall>, HookCall) -> Outcome<Error>)
    requires k <= n <= |calls| && DeliverInOrder(history, calls, k, respond).outcome.Fail?
    ensures DeliverInOrder(history, calls, n, respond) == DeliverInOrder(history, calls, k, respond)
    decreases n - k
  {
    if k < n {
      DeliverInOrderStopped(history, calls, k, n - 1, respond);
    }
  }

  // ---------------------------------------------------------------- Initialize

  /** The schema-initialization calls, one per module in ascending module-name order. */
  function InitCalls(modules: OrderedMap<ModuleState>): (calls: seq<HookCall>)
    requires modules.Valid()
    ensures |calls| == |modules.keys|
    ensures forall i :: 0 <= i < |calls| ==>
              calls[i] == InitializeModuleSchema(modules.keys[i], modules.entries[modules.keys[i]].moduleSchema)
  {
    seq(|modules.keys|, i requires 0 <= i < |modules.keys| =>
      InitializeModuleSchema(modules.keys[i], modules.entries[modules.keys[i]].moduleSchema))
  }

  /** `Initialize`: nothing without the hook, else the calls of `InitCalls`, stopping at the first error. */
  function AfterInitialize(s: Sim, listener: Listener): (r: Delivery)
    requires ValidModules(s.modules)
  {
    if !listener.hasInitializeModuleSchema then Delivery(Pass, s.delivered)
    else DeliverInOrder(s.delivered, InitCalls(s.modules), |s.modules.keys|, listener.respond)
  }

  /**
   * With the hook set, `Initialize` calls it once per moduleName in strictly
   * ascending name order and returns nil when all accept; otherwise it stops at
   * the first module whose call fails and returns that error.
   */
  lemma InitializeVisitsModulesInOrder(s: Sim, listener: Listener)
    requires ValidModules(s.modules) && listener.hasInitializeModuleSchema
    ensures forall i, j :: 0 <= i < j < |InitCalls(s.modules)| ==>
              Less(InitCalls(s.modules)[i].moduleName, InitCalls(s.modules)[j].moduleName)
    ensures AfterInitialize(s, listener).outcome.Pass? ==>
              && AfterInitialize(s, listener).delivered == s.delivered + InitCalls(s.modules)
              && AcceptedUpTo(s.delivered, InitCalls(s.modules), |s.modules.keys|, listener.respond)
    ensures AfterInitialize(s, listener).outcome.Fail? ==>
              exists j :: 0 <= j < |s.modules.keys| &&
                RejectedAt(s.delivered, InitCalls(s.modules), j, AfterInitialize(s, listener), listener.respond)
  {
    var calls := InitCalls(s.modules);
    forall i, j | 0 <= i < j < |calls|
      ensures Less(calls[i].moduleName, calls[j].moduleName)
    {
      SortedStrict(s.modules.keys, i, j);
    }
    DeliverInOrderSpec(s.delivered, calls, |calls|, listener.respond);
    assert calls[..|calls|] == calls;
  }

  /** Without the hook, `Initialize` calls nothing and returns nil. */
  lemma InitializeWithoutHook(s: Sim, listener: Listener)
    requires ValidModules(s.modules) && !listener.hasInitializeModuleSchema
    ensures AfterInitialize(s, listener) == Delivery(Pass, s.delivered)
  {
  }

  // ---------------------------------------------------------------- a block

  /** `maxUpdates`: the option when positive, 100 otherwise. */
  function MaxUpdates(options: Options): (n: int)
    ensures n >= 1
    ensures options.maxUpdatesPerBlock > 0 ==> n == options.maxUpdatesPerBlock
    ensures options.maxUpdatesPerBlock <= 0 ==> n == 100
  {
    if options.maxUpdatesPerBlock <= 0 then 100 else options.maxUpdatesPerBlock
  }

  /** `numUpdates`: between 1 and `maxUpdates`. */
  function NumUpdates(options: Options, rng: Randomness, seed: int): (n: nat)
    ensures 1 <= n <= MaxUpdates(options)
  {
    SchemaGen.InRange(rng.numUpdatesChoice(seed), 1, MaxUpdates(options))
  }

  /** The index draw as written: `rapid.IntRange(0, n)` includes `n` itself. */
  function DrawIndexAsWritten(c: int, n: nat): (i: int)
    ensures 0 <= i <= n
  {
    SchemaGen.InRange(c, 0, n)
  }

  /** For every length, some run draws the index one past the end, and the slice access panics. */
  lemma AsWrittenIndexCanOverrun(n: nat)
    ensures DrawIndexAsWritten(n, n) == n
  {
  }

  /** The index draw as intended: `rapid.IntRange(0, n - 1)`, every valid index reachable. */
  function DrawIndex(c: int, n: nat): (i: nat)
    requires n > 0
    ensures i < n
    ensures 0 <= c < n ==> i == c
  {
    SchemaGen.InRange(c, 0, n - 1)
  }

  /** `after` is `before` followed by exactly `n` calls, all of them `OnObjectUpdate`. */
  predicate UpdateCalls(before: seq<HookCall>, after: seq<HookCall>, n: nat) {
    && |after| == |before| + n
    && after[..|before|] == before
    && forall j :: |before| <= j < |after| ==> after[j].OnObjectUpdate?
  }

  /** One more step that made at most one `OnObjectUpdate` call extends a run of them. */
  lemma UpdateCallsExtend(a: seq<HookCall>, b: seq<HookCall>, c: seq<HookCall>, m: nat, k: nat)
    requires UpdateCalls(a, b, m)
    requires UpdateCalls(b, c, 0) || UpdateCalls(b, c, 1)
    ensures a <= c
    ensures UpdateCalls(b, c, k) ==> UpdateCalls(a, c, m + k)
  {
    assert c[..|a|] == c[..|b|][..|a|];
  }

  /** What the `i`-th update of a block works on: a module, one of its object types, and the drawn update. */
  datatype Target = Target(moduleName: string, objectType: ObjectType, update: ObjectUpdate)

  /**
   * The draws of the `i`-th update: a module, then one of its object types, then
   * the update. `None` when the module map, or the drawn module's object map, is
   * empty, so the slice access panics.
   */
  function Pick(s: Sim, seed: int, i: nat, ext: Externals): (t: Option<Target>)
    requires ValidModules(s.modules)
    ensures s.modules.Len() == 0 ==> t.None?
    ensures t.Some? ==> t.value.moduleName in s.modules.entries
    ensures t.Some? ==> t.value.update == ext.rng.step(seed, i, s.modules).update
  {
    var d := ext.rng.step(seed, i, s.modules);
    if s.modules.Len() == 0 then None
    else
      var name := s.modules.keys[DrawIndex(d.moduleChoice, s.modules.Len())];
      var objects := s.modules.entries[name].objects;
      if objects.Len() == 0 then None
      else Some(Target(name, objects.entries[objects.keys[DrawIndex(d.objectChoice, objects.Len())]].objectType, d.update))
  }

  /**
   * There is nothing to pick exactly when the module map is empty or the drawn
   * module has no object types; otherwise the object type is one of the drawn
   * module's own.
   */
  lemma PickTarget(s: Sim, seed: int, i: nat, ext: Externals)
    requires ValidModules(s.modules)
    ensures var d := ext.rng.step(seed, i, s.modules);
      Pick(s, seed, i, ext).None? <==>
        s.modules.Len() == 0 ||
        s.modules.entries[s.modules.keys[DrawIndex(d.moduleChoice, s.modules.Len())]].objects.Len() == 0
    ensures var t := Pick(s, seed, i, ext);
      t.Some? ==> exists k :: k in s.modules.entries[t.value.moduleName].objects.entries &&
                              s.modules.entries[t.value.moduleName].objects.entries[k].objectType == t.value.objectType
  {
    var d := ext.rng.step(seed, i, s.modules);
    if s.modules.Len() > 0 {
      var name := s.modules.keys[DrawIndex(d.moduleChoice, s.modules.Len())];
      var objects := s.modules.entries[name].objects;
      if objects.Len() > 0 {
        var k := objects.keys[DrawIndex(d.objectChoice, objects.Len())];
        assert k in objects.entries;
      }
    }
  }

  /**
   * The `i`-th update of a block: pick a module and one of its object types,
   * draw an update, check it with the object type's validator, apply it. An
   * empty map panics on the index; a failing `require.NoError` aborts.
   */
  function BlockStep(s: Sim, seed: int, i: nat, listener: Listener, ext: Externals): (r: Step)
    requires ValidModules(s.modules)
    ensures ValidModules(r.sim.modules)
  {
    match Pick(s, seed, i, ext)
    case None => Step(Fail(IndexOutOfRange(0, 0)), s)
    case Some(t) =>
      match ext.checkUpdate(t.objectType, t.update)
      case Fail(e) => Step(Fail(RequireFailed(e)), s)
      case Pass =>
        var r := AfterApply(s, listener, ext.render, t.moduleName, t.update);
        if r.outcome.Fail? then Step(Fail(RequireFailed(r.outcome.error)), r.sim) else r
  }

  /** With nothing to pick, the step fails on the slice index and changes nothing. */
  lemma BlockStepNoTarget(s: Sim, seed: int, i: nat, listener: Listener, ext: Externals)
    requires ValidModules(s.modules) && Pick(s, seed, i, ext).None?
    ensures BlockStep(s, seed, i, listener, ext) == Step(Fail(IndexOutOfRange(0, 0)), s)
  {
  }

  /**
   * An update the drawn object type's validator rejects is fatal to the block:
   * the step fails with `RequireFailed`, applies nothing and calls no hook.
   */
  lemma BlockStepRejects(s: Sim, seed: int, i: nat, listener: Listener, ext: Externals)
    requires ValidModules(s.modules)
    ensures var t := Pick(s, seed, i, ext);
      t.Some? && ext.checkUpdate(t.value.objectType, t.value.update).Fail? ==>
        BlockStep(s, seed, i, listener, ext) ==
          Step(Fail(RequireFailed(ext.checkUpdate(t.value.objectType, t.value.update).error)), s)
  {
  }

  /**
   * An accepted update is applied to the drawn module as `applyUpdate` does:
   * the step leaves `AfterApply`'s state, and fails with `RequireFailed` exactly
   * when `applyUpdate` returned an error.
   */
  lemma BlockStepAccepted(s: Sim, seed: int, i: nat, listener: Listener, ext: Externals)
    requires ValidModules(s.modules)
    ensures var t := Pick(s, seed, i, ext);
      t.Some? && ext.checkUpdate(t.value.objectType, t.value.update).Pass? ==>
      var a := AfterApply(s, listener, ext.render, t.value.moduleName, t.value.update);
      var r := BlockStep(s, seed, i, listener, ext);
      && r.sim == a.sim
      && (a.outcome.Pass? ==> r.outcome.Pass?)
      && (a.outcome.Fail? ==> r.outcome == Fail(RequireFailed(a.outcome.error)))
  {
  }

  /** One update changes the stores only. */
  lemma BlockStepKeepsShape(s: Sim, seed: int, i: nat, listener: Listener, ext: Externals)
    requires ValidModules(s.modules)
    ensures SameShape(s.modules, BlockStep(s, seed, i, listener, ext).sim.modules)
  {
    var t := Pick(s, seed, i, ext);
    if t.Some? {
      AfterApplyKeepsShape(s, listener, ext.render, t.value.moduleName, t.value.update);
    }
  }

  /**
   * One update calls the listener at most once, with an `OnObjectUpdate`. If it
   * succeeds, it made that call exactly when the hook is set.
   */
  lemma BlockStepDelivers(s: Sim, seed: int, i: nat, listener: Listener, ext: Externals)
    requires ValidModules(s.modules)
    ensures UpdateCalls(s.delivered, BlockStep(s, seed, i, listener, ext).sim.delivered, 0) ||
            UpdateCalls(s.delivered, BlockStep(s, seed, i, listener, ext).sim.delivered, 1)
    ensures BlockStep(s, seed, i, listener, ext).outcome.Pass? ==>
              UpdateCalls(s.delivered, BlockStep(s, seed, i, listener, ext).sim.delivered, if listener.hasOnObjectUpdate then 1 else 0)
  {
    assert s.delivered[..|s.delivered|] == s.delivered;
    var t := Pick(s, seed, i, ext);
    if t.Some? {
      var name := t.value.moduleName;
      if Known(s.modules, name, t.value.update.typeName) {
        AfterApplyDelivers(s, listener, ext.render, name, t.value.update);
        assert (s.delivered + [OnObjectUpdate(name, t.value.update)])[..|s.delivered|] == s.delivered;
      } else {
        AfterApplyUnknown(s, listener, ext.render, name, t.value.update);
      }
    }
  }

  /** A successful update's call, when the hook is set, carries the module and the update it drew and applied. */
  lemma BlockStepCallIsDrawnUpdate(s: Sim, seed: int, i: nat, listener: Listener, ext: Externals)
    requires ValidModules(s.modules)
    ensures BlockStep(s, seed, i, listener, ext).outcome.Pass? ==>
              && Pick(s, seed, i, ext).Some?
              && BlockStep(s, seed, i, listener, ext).sim.delivered ==
                   s.delivered + UpdateCall(Pick(s, seed, i, ext).value, listener)
  {
    var t := Pick(s, seed, i, ext);
    if t.Some? {
      var name := t.value.moduleName;
      if Known(s.modules, name, t.value.update.typeName) {
        AfterApplyDelivers(s, listener, ext.render, name, t.value.update);
      } else {
        AfterApplyUnknown(s, listener, ext.render, name, t.value.update);
      }
    }
  }

  /** The call an applied update makes: `OnObjectUpdate(module, update)` when that hook is set. */
  function UpdateCall(t: Target, listener: Listener): (calls: seq<HookCall>)
    ensures |calls| <= 1
  {
    if listener.hasOnObjectUpdate then [OnObjectUpdate(t.moduleName, t.update)] else []
  }

  /** The first `n` updates of a block, stopping at the first failure. */
  function Block(s: Sim, seed: int, n: nat, listener: Listener, ext: Externals): (r: Step)
    requires ValidModules(s.modules)
    ensures ValidModules(r.sim.modules)
  {
    if n == 0 then Step(Pass, s)
    else
      var prev := Block(s, seed, n - 1, listener, ext);
      if prev.outcome.Fail? then prev
      else BlockStep(prev.sim, seed, n - 1, listener, ext)
  }

  /** A block changes the stores only. */
  lemma {:induction false} BlockKeepsShape(s: Sim, seed: int, n: nat, listener: Listener, ext: Externals)
    requires ValidModules(s.modules)
    ensures SameShape(s.modules, Block(s, seed, n, listener, ext).sim.modules)
  {
    if n > 0 {
      BlockKeepsShape(s, seed, n - 1, listener, ext);
      var prev := Block(s, seed, n - 1, listener, ext);
      if prev.outcome.Pass? {
        BlockStepKeepsShape(prev.sim, seed, n - 1, listener, ext);
      }
    }
  }

  /**
   * A block only appends `OnObjectUpdate` calls. One that completes delivers
   * exactly one per update when that hook is set, and nothing otherwise.
   */
  lemma {:induction false} BlockDelivers(s: Sim, seed: int, n: nat, listener: Listener, ext: Externals)
    requires ValidModules(s.modules)
    ensures var r := Block(s, seed, n, listener, ext);
      && s.delivered <= r.sim.delivered
      && (r.outcome.Pass? ==> UpdateCalls(s.delivered, r.sim.delivered, if listener.hasOnObjectUpdate then n else 0))
  {
    if n == 0 {
      assert s.delivered[..|s.delivered|] == s.delivered;
    } else {
      BlockDelivers(s, seed, n - 1, listener, ext);
      var prev := Block(s, seed, n - 1, listener, ext);
      if prev.outcome.Pass? {
        var r := BlockStep(prev.sim, seed, n - 1, listener, ext);
        BlockStepDelivers(prev.sim, seed, n - 1, listener, ext);
        UpdateCallsExtend(s.delivered, prev.sim.delivered, r.sim.delivered,
                          if listener.hasOnObjectUpdate then n - 1 else 0, if listener.hasOnObjectUpdate then 1 else 0);
      }
    }
  }

  /** Once a block has failed, further updates change nothing: the result stays that of the failing update. */
  lemma {:induction false} BlockStopped(s: Sim, seed: int, k: nat, n: nat, listener: Listener, ext: Externals)
    requires ValidModules(s.modules) && k <= n
    ensures Block(s, seed, k, listener, ext).outcome.Fail? ==>
              Block(s, seed, n, listener, ext) == Block(s, seed, k, listener, ext)
    decreases n - k
  {
    if k < n {
      BlockStopped(s, seed, k, n - 1, listener, ext);
    }
  }

  // ---------------------------------------------------------------- NextBlock

  /** `Seed + int(blockNum)` in Go's 64-bit `int`. */
  function BlockSeed(seed: int, blockNum: nat): (r: int)
    ensures Int64Min <= r <= Int64Max
    ensures Int64Min <= seed + blockNum <= Int64Max ==> r == seed + blockNum
    ensures (r - (seed + blockNum)) % Uint64Modulus == 0
  {
    (seed + blockNum - Int64Min) % Uint64Modulus + Int64Min
  }

  /**
   * The calls of a block that succeeds: `StartBlock(blockNum)` if that hook is
   * set, then one `OnObjectUpdate` per update (`n` of them) if that hook is
   * set, then `Commit` if that hook is set, and nothing else.
   */
  predicate NextBlockCalls(before: seq<HookCall>, after: seq<HookCall>, blockNum: nat, l: Listener, n: nat) {
    var first := |before| + (if l.hasStartBlock then 1 else 0);
    var last := first + (if l.hasOnObjectUpdate then n else 0);
    && |after| == last + (if l.hasCommit then 1 else 0)
    && after[..|before|] == before
    && (l.hasStartBlock ==> after[|before|] == StartBlock(blockNum))
    && (forall j :: first <= j < last ==> after[j].OnObjectUpdate?)
    && (l.hasCommit ==> after[last] == Commit)
  }

  /**
   * `NextBlock`, given the already incremented block number: `StartBlock`, then
   * the block seeded with `Seed + blockNum`, then `Commit`; the first error ends it.
   */
  function AfterNextBlock(s: Sim, blockNum: nat, options: Options, ext: Externals): (r: Step)
    requires ValidModules(s.modules)
    ensures ValidModules(r.sim.modules)
  {
    var listener := options.listener;
    var started :=
      if listener.hasStartBlock then
        Step(listener.respond(s.delivered, StartBlock(blockNum)), s.(delivered := s.delivered + [StartBlock(blockNum)]))
      else Step(Pass, s);
    if started.outcome.Fail? then started
    else
      var seed := BlockSeed(options.seed, blockNum);
      var block := Block(started.sim, seed, NumUpdates(options, ext.rng, seed), listener, ext);
      if block.outcome.Fail? then block
      else if listener.hasCommit then
        Step(listener.respond(block.sim.delivered, Commit), block.sim.(delivered := block.sim.delivered + [Commit]))
      else block
  }

  /** A block changes the stores only. */
  lemma NextBlockKeepsShape(s: Sim, blockNum: nat, options: Options, ext: Externals)
    requires ValidModules(s.modules)
    ensures SameShape(s.modules, AfterNextBlock(s, blockNum, options, ext).sim.modules)
  {
    var seed := BlockSeed(options.seed, blockNum);
    var n := NumUpdates(options, ext.rng, seed);
    BlockKeepsShape(s, seed, n, options.listener, ext);
    BlockKeepsShape(s.(delivered := s.delivered + [StartBlock(blockNum)]), seed, n, options.listener, ext);
  }

  /**
   * A block that succeeds makes the calls `StartBlock(blockNum)` (if set), one
   * `OnObjectUpdate` per update of the seeded block (if set), then `Commit`
   * (if set), and nothing else.
   */
  lemma NextBlockCallOrder(s: Sim, blockNum: nat, options: Options, ext: Externals)
    requires ValidModules(s.modules)
    ensures AfterNextBlock(s, blockNum, options, ext).outcome.Pass? ==>
              NextBlockCalls(s.delivered, AfterNextBlock(s, blockNum, options, ext).sim.delivered, blockNum, options.listener,
                             NumUpdates(options, ext.rng, BlockSeed(options.seed, blockNum)))
  {
    var seed := BlockSeed(options.seed, blockNum);
    var n := NumUpdates(options, ext.rng, seed);
    BlockDelivers(s, seed, n, options.listener, ext);
    BlockDelivers(s.(delivered := s.delivered + [StartBlock(blockNum)]), seed, n, options.listener, ext);
  }

  /** A failing `StartBlock` ends the block before any update and before `Commit`. */
  lemma StartBlockFailureSkipsBlock(s: Sim, blockNum: nat, options: Options, ext: Externals)
    requires ValidModules(s.modules) && options.listener.hasStartBlock
    requires options.listener.respond(s.delivered, StartBlock(blockNum)).Fail?
    ensures var r := AfterNextBlock(s, blockNum, options, ext);
      && r.outcome == options.listener.respond(s.delivered, StartBlock(blockNum))
      && r.sim == Sim(s.modules, s.delivered + [StartBlock(blockNum)])
  {
  }

  /**
   * Once `StartBlock` has accepted (or is not set), the block seeded with
   * `Seed + blockNum` runs; if it completes, `Commit` (when set) is called
   * after it and its answer is returned; if it fails, its error is returned
   * and `Commit` is not called.
   */
  lemma CommitFollowsBlock(s: Sim, blockNum: nat, options: Options, ext: Externals)
    requires ValidModules(s.modules)
    requires options.listener.hasStartBlock ==> options.listener.respond(s.delivered, StartBlock(blockNum)).Pass?
    ensures var l := options.listener;
      var s1 := if l.hasStartBlock then s.(delivered := s.delivered + [StartBlock(blockNum)]) else s;
      var seed := BlockSeed(options.seed, blockNum);
      var block := Block(s1, seed, NumUpdates(options, ext.rng, seed), l, ext);
      var r := AfterNextBlock(s, blockNum, options, ext);
      && (block.outcome.Fail? ==> r == block)
      && (block.outcome.Pass? && l.hasCommit ==>
            r == Step(l.respond(block.sim.delivered, Commit), block.sim.(delivered := block.sim.delivered + [Commit])))
      && (block.outcome.Pass? && !l.hasCommit ==> r == block)
  {
  }

  // ---------------------------------------------------------------- the simulator

  class AppSimulator {
    const options: Options
    const ext: Externals
    var modules: OrderedMap<ModuleState>
    /** A Go `uint64`. */
    var blockNum: nat
    /** The calls the listener has received, oldest first. */
    var delivered: seq<HookCall>

    ghost predicate Valid()
      reads this
    {
      ValidModules(modules) && blockNum < Uint64Modulus
    }

    function State(): Sim
      reads this
    {
      Sim(modules, delivered)
    }

    /** The pair a simulator operation is specified by: what it returned and the state it left. */
    function StepOf(err: Outcome<Error>): Step
      reads this
    {
      Step(err, State())
    }

    /** `NewAppSimulator`: one module state per schema entry, holding one empty store per object type. */
    constructor (options: Options, ext: Externals)
      ensures Valid() && this.options == options && this.ext == ext
      ensures forall m :: m in modules.entries <==> m in options.appSchema
      ensures forall m :: m in modules.entries ==> modules.entries[m] == InitialModuleState(options.appSchema[m])
      ensures blockNum == 0 && delivered == []
    {
      this.options := options;
      this.ext := ext;
      var mods := Empty<ModuleState>();
      var remaining := options.appSchema.Keys;
      while remaining != {}
        invariant remaining <= options.appSchema.Keys
        invariant ValidModules(mods)
        invariant forall m :: m in mods.entries <==> m in options.appSchema && m !in remaining
        invariant forall m :: m in mods.entries ==> mods.entries[m] == InitialModuleState(options.appSchema[m])
        decreases remaining
      {
        var m :| m in remaining;
        var st := NewModuleState(options.appSchema[m]);
        mods := mods.Set(m, st);
        remaining := remaining - {m};
      }
      modules := mods;
      blockNum := 0;
      delivered := [];
    }

    /** `Initialize`. */
    method Initialize() returns (err: Outcome<Error>)
      requires Valid()
      modifies this`delivered
      ensures Valid() && modules == old(modules) && blockNum == old(blockNum)
      ensures Delivery(err, delivered) == AfterInitialize(old(State()), options.listener)
    {
      var listener := options.listener;
      if !listener.hasInitializeModuleSchema {
        return Pass;
      }
      var keys, entries := modules.keys, modules.entries;
      ghost var calls := InitCalls(modules);
      err := Pass;
      var i := 0;
      while i < |keys| && err.Pass?
        invariant 0 <= i <= |keys|
        invariant Delivery(err, delivered) == DeliverInOrder(old(delivered), calls, i, listener.respond)
      {
        var call := InitializeModuleSchema(keys[i], entries[keys[i]].moduleSchema);
        assert call == calls[i];
        err := listener.respond(delivered, call);
        delivered := delivered + [call];
        i := i + 1;
      }
      if err.Fail? {
        DeliverInOrderStopped(old(delivered), calls, i, |keys|, listener.respond);
      }
    }

    /** `applyUpdate`. */
    method ApplyUpdate(moduleName: string, update: ObjectUpdate) returns (err: Outcome<Error>)
      requires Valid()
      modifies this
      ensures Valid() && blockNum == old(blockNum)
      ensures StepOf(err) == AfterApply(old(State()), options.listener, ext.render, moduleName, update)
    {
      var modState := modules.Get(moduleName);
      if modState.None? {
        return Fail(ModuleNotFound(moduleName));
      }
      var objState := modState.value.objects.Get(update.typeName);
      if objState.None? {
        return Fail(ObjectTypeNotFoundInModule(update.typeName, moduleName));
      }
      var keyStr := ext.render(update.key);
      var store := objState.value.objects;
      if update.delete {
        store := store - {keyStr};
      } else {
        store := store[keyStr := Entry(update.key, update.value)];
      }
      var objects := modState.value.objects.Replace(update.typeName, objState.value.(objects := store));
      modules := modules.Replace(moduleName, modState.value.(objects := objects));
      if options.listener.hasOnObjectUpdate {
        var call := OnObjectUpdate(moduleName, update);
        err := options.listener.respond(delivered, call);
        delivered := delivered + [call];
        return err;
      }
      return Pass;
    }

    /**
     * One pass of `actionNewBlock`'s loop body: draw a module and an object type,
     * draw an update, validate it, apply it.
     */
    method UpdateOnce(ghost s0: Sim, seed: int, i: nat) returns (err: Outcome<Error>)
      requires Valid() && ValidModules(s0.modules)
      requires StepOf(Pass) == Block(s0, seed, i, options.listener, ext)
      modifies this
      ensures Valid() && blockNum == old(blockNum)
      ensures StepOf(err) == Block(s0, seed, i + 1, options.listener, ext)
    {
      var d := ext.rng.step(seed, i, modules);
      if modules.Len() == 0 {
        return Fail(IndexOutOfRange(0, 0));
      }
      var name := modules.keys[DrawIndex(d.moduleChoice, modules.Len())];
      var objects := modules.entries[name].objects;
      if objects.Len() == 0 {
        return Fail(IndexOutOfRange(0, 0));
      }
      var objState := objects.entries[objects.keys[DrawIndex(d.objectChoice, objects.Len())]];
      err := ext.checkUpdate(objState.objectType, d.update);
      if err.Fail? {
        return Fail(RequireFailed(err.error));
      }
      err := ApplyUpdate(name, d.update);
      if err.Fail? {
        err := Fail(RequireFailed(err.error));
      }
    }

    /** `newBlockFromSeed` running `actionNewBlock`: the counted loop of update applications. */
    method ActionNewBlock(seed: int) returns (err: Outcome<Error>)
      requires Valid()
      modifies this
      ensures Valid() && blockNum == old(blockNum)
      ensures StepOf(err) == Block(old(State()), seed, NumUpdates(options, ext.rng, seed), options.listener, ext)
    {
      var maxUpdates := options.maxUpdatesPerBlock;
      if maxUpdates <= 0 {
        maxUpdates := 100;
      }
      var numUpdates := SchemaGen.InRange(ext.rng.numUpdatesChoice(seed), 1, maxUpdates);
      assert numUpdates == NumUpdates(options, ext.rng, seed);
      ghost var s0 := State();
      err := Pass;
      var i := 0;
      while i < numUpdates && err.Pass?
        invariant 0 <= i <= numUpdates
        invariant Valid() && blockNum == old(blockNum) && ValidModules(s0.modules)
        invariant StepOf(err) == Block(s0, seed, i, options.listener, ext)
      {
        err := UpdateOnce(s0, seed, i);
        i := i + 1;
      }
      BlockStopped(s0, seed, i, numUpdates, options.listener, ext);
      assert StepOf(err) == Block(s0, seed, numUpdates, options.listener, ext);
    }

    /** `NextBlock`. */
    method NextBlock() returns (err: Outcome<Error>)
      requires Valid()
      modifies this
      ensures Valid()
      ensures blockNum == (old(blockNum) + 1) % Uint64Modulus
      ensures StepOf(err) == AfterNextBlock(old(State()), blockNum, options, ext)
    {
      blockNum := (blockNum + 1) % Uint64Modulus;
      var listener := options.listener;
      if listener.hasStartBlock {
        var call := StartBlock(blockNum);
        err := listener.respond(delivered, call);
        delivered := delivered + [call];
        if err.Fail? {
          return;
        }
      }
      err := ActionNewBlock(BlockSeed(options.seed, blockNum));
      if err.Fail? {
        return;
      }
      if listener.hasCommit {
        err := listener.respond(delivered, Commit);
        delivered := delivered + [Commit];
      }
    }
  }
}
