/** Outcomes of the scripts' operations: a value, or the Python exception that ends the script. */
module Wrappers {

  /** The kinds of Python exception the modelled code can raise. */
  datatype Exception =
    | KeyError           // a dictionary lookup of a missing key
    | IndexError         // a list or array index out of range
    | ValueError         // an explicit `raise ValueError`, or `min` of an empty collection
    | ZeroDivisionError  // Python `/` with a zero divisor
    | NameError          // a local variable read before any assignment (UnboundLocalError)

  datatype Result<+T> = Ok(value: T) | Err(error: Exception) {
    predicate IsFailure() { Err? }

    function PropagateFailure<U>(): Result<U>
      requires Err?
    {
      Err(error)
    }

    function Extract(): T
      requires Ok?
    {
      value
    }
  }

  datatype Option<+T> = None | Some(value: T)

  /** `d[k]` on a dictionary: the stored value, or a KeyError for a missing key. */
  function Get<K, V>(d: map<K, V>, k: K): (r: Result<V>)
    ensures r.Err? <==> k !in d
    ensures r.Err? ==> r.error == KeyError
    ensures r.Ok? ==> r.value == d[k]
  {
    if k in d then Ok(d[k]) else Err(KeyError)
  }
}
