/** Failure values of the surrogate pipeline.

    The source signals every failure by raising a Python exception. Each kind of
    exception that a modelled operation can raise is one constructor of `Error`;
    `Result` carries either a value or the error that aborted the computation. */
module Errors {

  datatype Error =
    | ModesNotAvailable         // check_input_modes: requested modes not a subset (ValueError)
    | MassDistanceUnpaired      // exactly one of M_tot, dist_mpc given (ValueError)
    | AnglesUnpaired            // exactly one of orb_phase, inclination given (ValueError)
    | ModeSumWithoutExtrinsics  // mode summation requested without the extrinsic values (ValueError)
    | PhiMissing                // evaluate_on_sphere: theta given, phi None (ValueError)
    | NonPositiveM              // generate_negative_m_mode: a key with m <= 0 (ValueError)
    | NegativePower             // numpy power(-1, l) with l < 0 (ValueError)
    | KeyMissing                // dictionary lookup of an absent key (KeyError)
    | IndexOutOfRange           // list or array index past the end (IndexError)
    | ShapeMismatch             // numpy operands that do not broadcast / align (ValueError)
    | DivisionByZero            // Python float division by zero (ZeroDivisionError)
    | UnboundName               // a local read before it was ever assigned (UnboundLocalError)
    | NoneOperand               // None used as an array or unpacked as a tuple (TypeError)
    | WrongArgumentCount        // a call with more arguments than the callee takes (TypeError)

  datatype Option<+T> = None | Some(value: T)

  datatype Result<+T> = Ok(value: T) | Err(error: Error) {
    predicate IsFailure() {
      Err?
    }

    function PropagateFailure<U>(): Result<U>
      requires Err?
    {
      Err(error)
    }

    function Extract(): T
      requires Ok?
    {
      value
    }
  }
}
