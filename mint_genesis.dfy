/**
 * Genesis import and export of the mint module's keeper. The keeper holds three
 * single-value stores: the minter, the module parameters and the epoch at which
 * the last provisions reduction started. `InitGenesis` writes a genesis state
 * into them, first overwriting the minter's epoch provisions with the genesis
 * value from the parameters; `ExportGenesis` reads them back.
 *
 * The stores are the keeper's fields. Whether an access fails for reasons of
 * the underlying key-value store is outside this model, so each access carries
 * a fixed possible error (`Faults`); reading a store that was never written
 * fails with `ItemNotFound`, as a `collections.Item` does.
 */
module MintGenesis {
  import opened Wrappers
  import opened Errors

  /** A `math.LegacyDec`; genesis only copies these, so their arithmetic is not modelled. */
  type Dec = int

  /** `types.Minter`: the epoch provisions, and the other fields, which genesis only copies. */
  datatype Minter = Minter(epochProvisions: Dec, otherFields: seq<int>)

  /** `types.Params`: the genesis epoch provisions, and the other parameters. */
  datatype Params = Params(genesisEpochProvisions: Dec, otherFields: seq<int>)

  /** The contents of a `types.GenesisState`. */
  datatype Genesis = Genesis(minter: Minter, params: Params, reductionStartedEpoch: int)

  /** What the three stores hold; `None` for a store never written. */
  datatype Stores = Stores(minter: Option<Minter>, params: Option<Params>, lastReductionEpoch: Option<int>)

  /** The error, if any, that each store access returns regardless of what it reads or writes. */
  datatype Faults = Faults(
    minterSet: Option<Error>, paramsSet: Option<Error>, epochSet: Option<Error>,
    minterGet: Option<Error>, paramsGet: Option<Error>, epochGet: Option<Error>)

  datatype InitResult = InitResult(outcome: Outcome<Error>, stores: Stores)

  /** The first error of a sequence of accesses, in order; `None` when every one succeeds. */
  function FirstError(errors: seq<Option<Error>>): (r: Option<Error>)
    ensures r.None? <==> forall i :: 0 <= i < |errors| ==> errors[i].None?
    ensures r.Some? ==> exists i :: 0 <= i < |errors| && errors[i] == r && forall j :: 0 <= j < i ==> errors[j].None?
  {
    if errors == [] then None
    else if errors[0].Some? then errors[0]
    else
      var rest := FirstError(errors[1..]);
      assert forall i :: 1 <= i < |errors| ==> errors[1..][i - 1] == errors[i];
      rest
  }

  function OutcomeOf(e: Option<Error>): Outcome<Error> {
    if e.Some? then Fail(e.value) else Pass
  }

  /** The writes of `InitGenesis`, in the order it makes them. */
  function WritePlan(faults: Faults): seq<Option<Error>> {
    [faults.minterSet, faults.paramsSet, faults.epochSet]
  }

  /** The genesis state as `InitGenesis` stores it: the minter's provisions replaced by the genesis provisions. */
  function WithGenesisProvisions(g: Genesis): Genesis {
    g.(minter := g.minter.(epochProvisions := g.params.genesisEpochProvisions))
  }

  /** `InitGenesis` on values: a nil state is refused; otherwise the three writes in order, stopping at the first error. */
  function AfterInitGenesis(st: Stores, faults: Faults, data: Option<Genesis>): InitResult {
    match data
    case None => InitResult(Fail(NilGenesisState), st)
    case Some(g) =>
      var a := WithGenesisProvisions(g);
      if faults.minterSet.Some? then InitResult(Fail(faults.minterSet.value), st)
      else
        var st1 := st.(minter := Some(a.minter));
        if faults.paramsSet.Some? then InitResult(Fail(faults.paramsSet.value), st1)
        else
          var st2 := st1.(params := Some(a.params));
          if faults.epochSet.Some? then InitResult(Fail(faults.epochSet.value), st2)
          else InitResult(Pass, st2.(lastReductionEpoch := Some(a.reductionStartedEpoch)))
  }

  /** A nil genesis state is an error and writes nothing. */
  lemma InitNilWritesNothing(st: Stores, faults: Faults)
    ensures AfterInitGenesis(st, faults, None).outcome.Fail?
    ensures AfterInitGenesis(st, faults, None).stores == st
  {
  }

  /**
   * `InitGenesis` returns the first write error, and a store holds its new value
   * exactly when its own write and every earlier one succeeded; the others keep
   * what they held.
   */
  lemma InitGenesisWritesInOrder(st: Stores, faults: Faults, g: Genesis)
    ensures var r := AfterInitGenesis(st, faults, Some(g));
      var plan := WritePlan(faults);
      var a := WithGenesisProvisions(g);
      && r.outcome == OutcomeOf(FirstError(plan))
      && r.stores.minter == (if FirstError(plan[..1]).None? then Some(a.minter) else st.minter)
      && r.stores.params == (if FirstError(plan[..2]).None? then Some(a.params) else st.params)
      && r.stores.lastReductionEpoch == (if FirstError(plan).None? then Some(a.reductionStartedEpoch) else st.lastReductionEpoch)
  {
    var plan := WritePlan(faults);
    assert plan[..1] == [faults.minterSet];
    assert plan[..2] == [faults.minterSet, faults.paramsSet];
    assert plan[1..] == [faults.paramsSet, faults.epochSet] && plan[1..][1..] == [faults.epochSet];
    assert FirstError([faults.epochSet]) == faults.epochSet;
  }

  /** `Item.Get`: the access error first, then not-found for a store never written. */
  function ReadItem<T>(item: Option<T>, fault: Option<Error>, name: string): (r: Result<T, Error>)
    ensures r.Success? <==> fault.None? && item.Some?
    ensures r.Success? ==> r.value == item.value
    ensures r.Failure? && fault.None? ==> r.error == ItemNotFound(name)
  {
    if fault.Some? then Failure(fault.value)
    else if item.None? then Failure(ItemNotFound(name))
    else Success(item.value)
  }

  function ReadError<T>(r: Result<T, Error>): Option<Error> {
    if r.Failure? then Some(r.error) else None
  }

  /** `ExportGenesis` on values: the three reads in order; the first error ends it. */
  function ExportedGenesis(st: Stores, faults: Faults): Result<Genesis, Error> {
    var m := ReadItem(st.minter, faults.minterGet, "Minter");
    if m.Failure? then Failure(m.error)
    else
      var p := ReadItem(st.params, faults.paramsGet, "Params");
      if p.Failure? then Failure(p.error)
      else
        var e := ReadItem(st.lastReductionEpoch, faults.epochGet, "LastReductionEpoch");
        if e.Failure? then Failure(e.error)
        else Success(Genesis(m.value, p.value, e.value))
  }

  /** The reads of `ExportGenesis` against `st`, in order, each as the error it returns if any. */
  function ReadErrors(st: Stores, faults: Faults): seq<Option<Error>> {
    [ReadError(ReadItem(st.minter, faults.minterGet, "Minter")),
     ReadError(ReadItem(st.params, faults.paramsGet, "Params")),
     ReadError(ReadItem(st.lastReductionEpoch, faults.epochGet, "LastReductionEpoch"))]
  }

  /** `ExportGenesis` fails with the first read error, and otherwise returns exactly what the stores hold. */
  lemma ExportReturnsFirstError(st: Stores, faults: Faults)
    ensures var r := ExportedGenesis(st, faults);
      && (r.Failure? <==> FirstError(ReadErrors(st, faults)).Some?)
      && (r.Failure? ==> FirstError(ReadErrors(st, faults)) == Some(r.error))
      && (r.Success? ==> Some(r.value.minter) == st.minter && Some(r.value.params) == st.params
                         && Some(r.value.reductionStartedEpoch) == st.lastReductionEpoch)
  {
    var errs := ReadErrors(st, faults);
    assert errs[1..] == [errs[1], errs[2]] && errs[1..][1..] == [errs[2]];
  }

  /**
   * Round trip: once `InitGenesis(g)` succeeds, and no read fails for reasons of
   * the store, `ExportGenesis` returns `g` with the minter's epoch provisions
   * set to the genesis epoch provisions of `g`'s parameters.
   */
  lemma ExportAfterInit(st: Stores, faults: Faults, g: Genesis)
    requires faults.minterGet.None? && faults.paramsGet.None? && faults.epochGet.None?
    requires AfterInitGenesis(st, faults, Some(g)).outcome.Pass?
    ensures var r := ExportedGenesis(AfterInitGenesis(st, faults, Some(g)).stores, faults);
      && r.Success?
      && r.value.minter.epochProvisions == g.params.genesisEpochProvisions
      && r.value.minter.otherFields == g.minter.otherFields
      && r.value.params == g.params
      && r.value.reductionStartedEpoch == g.reductionStartedEpoch
  {
  }

  /** A `*types.GenesisState`: `InitGenesis` updates the caller's minter in place. */
  class GenesisState {
    var minter: Minter
    var params: Params
    var reductionStartedEpoch: int

    function Value(): Genesis
      reads this
    {
      Genesis(minter, params, reductionStartedEpoch)
    }

    /** `types.NewGenesisState`. */
    constructor (minter: Minter, params: Params, reductionStartedEpoch: int)
      ensures Value() == Genesis(minter, params, reductionStartedEpoch)
    {
      this.minter := minter;
      this.params := params;
      this.reductionStartedEpoch := reductionStartedEpoch;
    }
  }

  class Keeper {
    const faults: Faults
    var minter: Option<Minter>
    var params: Option<Params>
    var lastReductionEpoch: Option<int>

    function Stored(): Stores
      reads this
    {
      Stores(minter, params, lastReductionEpoch)
    }

    /** A keeper whose stores were never written. */
    constructor (faults: Faults)
      ensures this.faults == faults && Stored() == Stores(None, None, None)
    {
      this.faults := faults;
      minter := None;
      params := None;
      lastReductionEpoch := None;
    }

    /** `keeper.Minter.Set`. */
    method SetMinter(m: Minter) returns (err: Outcome<Error>)
      modifies this
      ensures err == OutcomeOf(faults.minterSet)
      ensures Stored() == if err.Pass? then old(Stored()).(minter := Some(m)) else old(Stored())
    {
      if faults.minterSet.Some? {
        return Fail(faults.minterSet.value);
      }
      minter := Some(m);
      return Pass;
    }

    /** `keeper.Params.Set`. */
    method SetParams(p: Params) returns (err: Outcome<Error>)
      modifies this
      ensures err == OutcomeOf(faults.paramsSet)
      ensures Stored() == if err.Pass? then old(Stored()).(params := Some(p)) else old(Stored())
    {
      if faults.paramsSet.Some? {
        return Fail(faults.paramsSet.value);
      }
      params := Some(p);
      return Pass;
    }

    /** `keeper.setLastReductionEpochNum`. */
    method SetLastReductionEpochNum(epoch: int) returns (err: Outcome<Error>)
      modifies this
      ensures err == OutcomeOf(faults.epochSet)
      ensures Stored() == if err.Pass? then old(Stored()).(lastReductionEpoch := Some(epoch)) else old(Stored())
    {
      if faults.epochSet.Some? {
        return Fail(faults.epochSet.value);
      }
      lastReductionEpoch := Some(epoch);
      return Pass;
    }

    /** `InitGenesis`: refuse a nil state, adjust the minter in the caller's state, then write the three stores. */
    method InitGenesis(data: GenesisState?) returns (err: Outcome<Error>)
      modifies this, data
      ensures data != null ==>
                && data.Value() == WithGenesisProvisions(old(data.Value()))
      ensures InitResult(err, Stored()) ==
                AfterInitGenesis(old(Stored()), faults, if data == null then None else Some(old(data.Value())))
    {
      if data == null {
        return Fail(NilGenesisState);
      }
      data.minter := data.minter.(epochProvisions := data.params.genesisEpochProvisions);
      err := SetMinter(data.minter);
      if err.Fail? {
        return;
      }
      err := SetParams(data.params);
      if err.Fail? {
        return;
      }
      err := SetLastReductionEpochNum(data.reductionStartedEpoch);
      if err.Fail? {
        return;
      }
      return Pass;
    }

    /** `keeper.Minter.Get`. */
    method GetMinter() returns (r: Result<Minter, Error>)
      ensures r.Success? <==> faults.minterGet.None? && minter.Some?
      ensures r == ReadItem(minter, faults.minterGet, "Minter")
    {
      if faults.minterGet.Some? {
        return Failure(faults.minterGet.value);
      }
      if minter.None? {
        return Failure(ItemNotFound("Minter"));
      }
      return Success(minter.value);
    }

    /** `keeper.Params.Get`. */
    method GetParams() returns (r: Result<Params, Error>)
      ensures r.Success? <==> faults.paramsGet.None? && params.Some?
      ensures r == ReadItem(params, faults.paramsGet, "Params")
    {
      if faults.paramsGet.Some? {
        return Failure(faults.paramsGet.value);
      }
      if params.None? {
        return Failure(ItemNotFound("Params"));
      }
      return Success(params.value);
    }

    /** `keeper.getLastReductionEpochNum`. */
    method GetLastReductionEpochNum() returns (r: Result<int, Error>)
      ensures r.Success? <==> faults.epochGet.None? && lastReductionEpoch.Some?
      ensures r == ReadItem(lastReductionEpoch, faults.epochGet, "LastReductionEpoch")
    {
      if faults.epochGet.Some? {
        return Failure(faults.epochGet.value);
      }
      if lastReductionEpoch.None? {
        return Failure(ItemNotFound("LastReductionEpoch"));
      }
      return Success(lastReductionEpoch.value);
    }

    /** `ExportGenesis`: the three reads in order; a new genesis state on success, nil and the first error otherwise. */
    method ExportGenesis() returns (data: GenesisState?, err: Outcome<Error>)
      ensures data != null <==> err.Pass?
      ensures match ExportedGenesis(Stored(), faults)
              case Success(g) => err == Pass && data != null && fresh(data) && data.Value() == g
              case Failure(e) => err == Fail(e)
    {
      var m := GetMinter();
      if m.Failure? {
        return null, Fail(m.error);
      }
      var p := GetParams();
      if p.Failure? {
        return null, Fail(p.error);
      }
      var e := GetLastReductionEpochNum();
      if e.Failure? {
        return null, Fail(e.error);
      }
      data := new GenesisState(m.value, p.value, e.value);
      err := Pass;
    }
  }
}
