/** Failure-carrying wrappers shared by every module of the model.

    `Option` stands for Python's "value or None"; `Result` stands for "value, or
    an exception that propagates out of the function". */
module Common {

  datatype Option<+T> = None | Some(value: T)

  /** The three marketplaces; `Name` is the tag the Python code passes around. */
  datatype Platform = Shopee | Tiki | Lazada {
    function Name(): string
    {
      match this
      case Shopee => "shopee"
      case Tiki => "tiki"
      case Lazada => "lazada"
    }
  }

  /** The Python exceptions the modelled code can raise, reduced to their kind. */
  datatype Exc =
    | KeyError(key: string)         // d[k] on a dict without k
    | TypeError(what: string)       // subscripting, merging or comparing the wrong kind of value
    | AttributeError(what: string)  // .get / .items on something that is not a dict
    | DecodeError(msg: string)      // json.loads / response.json() rejected its input
    | AggregateError(what: string)  // the aggregation engine rejected an operand

  datatype Result<+T> = Ok(value: T) | Raised(exc: Exc) {
    predicate IsFailure() { Raised? }

    function PropagateFailure<U>(): Result<U>
      requires Raised?
    {
      Raised(exc)
    }

    function Extract(): T
      requires Ok?
    {
      value
    }
  }
}
