/** Results of the rewriter: a value, or the reason processing of the file stops. */
module Outcomes {

  /** Why a rewrite stops.
      - TypeError: a JavaScript runtime error (reading a member of `undefined`,
        calling a method on a non-string, ...), not thrown on purpose.
      - InvalidValue: `throw new Error(`Invalid value ...`)` in the resolver.
      - SmallVariable: `throw new Error('sm not supported for variables')`.
      - MixedStyle: `throw new Error('Cannot have both style and use:ss')`.
      - StyleStringAndFields: `throw new Error('Cannot transform style string and style fields')`.
      - NotModelled: a style-DSL chain the model does not evaluate (see ChainParser). */
  datatype Error = TypeError | InvalidValue | SmallVariable | MixedStyle | StyleStringAndFields | NotModelled

  datatype Option<+T> = None | Some(value: T)

  datatype Result<+T> = Ok(value: T) | Err(error: Error) {
    predicate IsFailure() { Err? }

    function PropagateFailure<U>(): Result<U>
      requires Err?
    {
      Err(error)
    }

    function Extract(): T
      requires Ok?
    {
      value
    }
  }
}
