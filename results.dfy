/** Optional values, the errors the core raises, and a failure-compatible result type. */
module Results {

  datatype Option<+T> = None | Some(value: T)

  /** One constructor per exception the modelled code raises (or would raise). */
  datatype Error =
    | SingleTargetRequired        // a MultiControlledX target that is not exactly one wire
    | WorkWireConflict            // a work wire that is also a control or the target
    | ControlLengthMismatch       // a control string whose length is not the number of controls
    | ControlValueNotBinary       // a control string with a character other than 0 or 1
    | ControlValuesNotString      // control values given as something other than a string
    | EmptyBinaryLiteral          // int("", 2) on a control string with no digits
    | WorkWireRequired            // more than two controls to decompose and no work wire
    | IndexOutOfRange             // an IndexError from indexing an empty or too short wire list
    | WireOrderNotSpecified       // a quantum function given without a wire order
    | NotACircuit                 // an argument that is no tape, QNode or quantum function
    | NoQuantumOperation          // a function that records no operation
    | WireNotInOrder              // an operation acts on a wire that the wire order does not list
    | DuplicateWires              // a wire list or wire order that holds a label twice
    | NegativeDimension           // np.eye asked for a negative size
    | NoControlledForm            // a gate whose class defines no controlled form
    | WrongWireCount              // a gate of fixed arity given another number of wires

  datatype Result<+T> = Ok(value: T) | Err(error: Error) {
    predicate IsFailure() { Err? }

    function PropagateFailure<U>(): Result<U>
      requires Err?
    {
      Err(error)
    }

    function Extract(): T
      requires Ok?
    {
      value
    }
  }
}
