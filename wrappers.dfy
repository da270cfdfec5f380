/** Failure-carrying results shared by every module of the model.

    The host software reports failures by raising Python exceptions. The model
    returns them instead: `Raise(e)` names the kind of exception the source
    would raise at that point, and nothing after it is executed. */
module Wrappers {

  datatype Option<+T> = None | Some(value: T)

  /** The kinds of exception the modelled code can raise. */
  datatype Exn =
    | ValueError       // int()/float() parse failure, unknown enum value, max() of an empty list
    | TypeError        // wrong argument count, wrong operand type
    | IndexError       // list or bytes index out of range
    | KeyError         // missing dictionary or enum-name key
    | AttributeError   // missing attribute, or assignment to a read-only property
    | StructError      // struct.pack/unpack size or format mismatch

  datatype Result<+T> = Ok(value: T) | Raise(exn: Exn) {
    predicate IsFailure() { Raise? }

    function PropagateFailure<U>(): Result<U>
      requires Raise?
    {
      Raise(exn)
    }

    function Extract(): T
      requires Ok?
    {
      value
    }
  }
}
