/** Option and Result wrappers and the error kinds of the lowering pass. */
module Base {

  /** A value that may be absent; `None` stands for the source's NIL term or null result. */
  datatype Option<+T> = None | Some(value: T) {
    predicate IsFailure() { None? }
    function PropagateFailure<U>(): Option<U> requires None? { None }
    function Extract(): T requires Some? { value }
  }

  /** The ways a lowering step can fail; each is a thrown exception or a null dereference in the source. */
  datatype Error =
    | MalformedTerm                   // an accessor met a node of the wrong kind
    | UnsupportedOperator(tag: string) // an operator tag no dispatch recognises
    | MalformedInsert                 // an INSERT whose value is not a two-element tuple
    | NotAnLval                       // an assignment target that is not an lvalue
    | UnresolvedTypeName(name: string) // a type definition the fixpoint cannot resolve

  datatype Result<+T> = Ok(value: T) | Err(error: Error) {
    predicate IsFailure() { Err? }
    function PropagateFailure<U>(): Result<U> requires Err? { Err(error) }
    function Extract(): T requires Ok? { value }
  }
}
