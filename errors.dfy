/** The failures the estimator raises, a result type that carries them, and Option. */
module Errors {
  datatype Error =
    | InvalidPrecision(pubIndex: nat)          // ValueError from `_validate_pubs`
    | RegisterConflict(name: string)           // QiskitError from `_create_measurement_circuits`
    | InvalidOutcome(key: string)              // ValueError from `int(outcome, 2)`
    | InvalidLabel(text: string)               // a label that is not a Pauli string
    | QubitOutOfRange(qubit: nat)              // measuring a qubit the circuit does not have
    | MissingMetadata                          // KeyError on a circuit without measurement metadata
    | MissingEstimate(paramIndex: seq<nat>, pauli: string)  // KeyError in `_postprocess_pub`

  datatype Result<+T> = Ok(value: T) | Err(error: Error)

  datatype Option<+T> = None | Some(value: T)
}
