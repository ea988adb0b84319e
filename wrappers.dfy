/** Failure-carrying result types shared by every module of the model. */
module Wrappers {

  datatype Option<+T> = None | Some(value: T)

  /** The outcome of an operation that returns only an error (Go's `error`): nil is Pass. */
  datatype Outcome<+E> = Pass | Fail(error: E)

  datatype Result<+R, +E> = Success(value: R) | Failure(error: E)
}

/** The error values the modelled code produces or passes through. */
module Errors {

  datatype Error =
    /** `ModuleSchema.ValidateObjectUpdate`: no object type carries the update's type name. */
    | ObjectTypeNotFound(typeName: string)
    /** `AppSimulator.applyUpdate`: the module is not in the simulator. */
    | ModuleNotFound(moduleName: string)
    /** `AppSimulator.applyUpdate`: the module has no object type of that name. */
    | ObjectTypeNotFoundInModule(typeName: string, moduleName: string)
    /** A slice index outside its bounds, which makes the Go runtime panic. */
    | IndexOutOfRange(index: int, length: int)
    /** `require.NoError` failing inside a block: the test run is aborted. */
    | RequireFailed(cause: Error)
    /** A keeper store read before anything was written to it (`collections.ErrNotFound`). */
    | ItemNotFound(item: string)
    /** `Keeper.InitGenesis` called with a nil genesis state. */
    | NilGenesisState
}
