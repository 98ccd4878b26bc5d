/** Identifiers, optional values and the error outcomes shared by the whole model. */
module Common {

  /** Document identifiers (MongoDB ObjectIds), modelled as naturals handed out by the store. */
  type UserId = nat
  type ProductId = nat
  type CategoryId = nat
  type OrderId = nat
  type LineId = nat

  /** Money in integer paise (1 rupee = 100 paise). */
  type Paise = int

  /** A point in time, in milliseconds since the epoch. */
  type Time = int

  datatype Option<T> = None | Some(value: T) {
    function GetOr(default: T): T {
      match this
      case Some(v) => v
      case None => default
    }
  }

  /** Why a handler threw instead of answering: the exception is passed on to the error middleware. */
  datatype Cause =
    | ValidationFailed   // a schema validator refused the document on save
    | NullReference      // a property was read through null or undefined
    | UpstreamFailure    // the payment provider call failed
    | InvalidToken       // the JSON Web Token did not verify
    | DatabaseError      // the database refused the query (a negative skip)

  /** The failure side of a handler: an explicit error response, or an exception. */
  datatype Error =
    | Http(status: nat, message: string)
    | Thrown(cause: Cause)

  datatype Result<T> = Ok(value: T) | Err(error: Error)

  /** A field of a request body: absent, present with a value of the schema's type, or present but outside it. */
  datatype Input<T> = Missing | Given(value: T) | Malformed

  /** The elements of `s` that `keep` accepts, in their order in `s`: the reference for every in-order selection. */
  function Filter<T>(s: seq<T>, keep: T -> bool): seq<T> {
    if s == [] then [] else (if keep(s[0]) then [s[0]] else []) + Filter(s[1..], keep)
  }

  /** Filtering keeps order: the selection from `a + b` is the selection from `a` followed by that from `b`. */
  lemma {:induction false} FilterConcat<T>(a: seq<T>, b: seq<T>, keep: T -> bool)
    ensures Filter(a + b, keep) == Filter(a, keep) + Filter(b, keep)
  {
    if a == [] {
      assert a + b == b;
    } else {
      var c := if keep(a[0]) then [a[0]] else [];
      assert (a + b)[0] == a[0];
      assert (a + b)[1..] == a[1..] + b;
      assert Filter(a + b, keep) == c + Filter(a[1..] + b, keep);
      FilterConcat(a[1..], b, keep);
      assert c + (Filter(a[1..], keep) + Filter(b, keep)) == (c + Filter(a[1..], keep)) + Filter(b, keep);
    }
  }
}
