/** Result and error types shared by every component of the model. */
module Common {

  datatype Option<+T> = None | Some(value: T)

  /** Go's `(value, error)` pair: a value, or the error that was returned instead of it. */
  datatype Result<+T> = Ok(value: T) | Err(error: Error)

  datatype Error =
    | ValidationError(name: string)
    | MissingField(name: string)
    | MissingEdge(name: string)
    | ClearingRequiredEdge(name: string)
    | UninitializedInterceptor
    | UninitializedHook
    | UnexpectedMutationType
    | UnexpectedNodeType
    | TraverseError(reason: string)
    | UnexpectedForeignKey(column: string, key: string)
    | UnexpectedIdType
    | UnexpectedValueType(field: string)
    | MismatchedValues
    | NotFound(entity: string)
    | NotSingular(entity: string)
    | NotLoaded(edge: string)
    | CheckExistence(cause: Error)
    | ConstraintError(cause: Error)
    | DriverError(reason: string)
}
