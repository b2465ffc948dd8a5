/** Shared value types: optional values, results with the application's error
    conditions, and the JSON values that serializers render. */
module Common {

  datatype Option<+T> = None | Some(value: T) {
    /** The value, or `default` when there is none. */
    function GetOr(default: T): T {
      if Some? then value else default
    }
  }

  /** The ways a request or a manager call can fail. */
  datatype Error =
    | MissingEmail                  // create_user without an email (ValueError)
    | DuplicateEmail                // unique constraint / unique validator on User.email
    | FieldRequired(field: string)  // a required serializer field is absent
    | FieldBlank(field: string)     // a non-blank field was given as whitespace only
    | FieldTooLong(field: string)   // a value exceeds the column's max_length
    | FieldNullCharacter(field: string)  // a text value contains a NUL character
    | UnknownCourse                 // a lesson payload names a course that does not exist
    | NotFound                      // the object is not in the caller's queryset
    | NotAuthenticated              // IsAuthenticated refused an anonymous caller

  datatype Result<+T> = Ok(value: T) | Err(error: Error) {
    predicate IsFailure() {
      Err?
    }

    function PropagateFailure<U>(): Result<U>
      requires Err?
    {
      Err(error)
    }

    function Extract(): T
      requires Ok?
    {
      value
    }
  }

  /** A rendered field value. */
  datatype Json = JStr(str: string) | JNat(num: nat) | JBool(flag: bool)

  /** Who sends a request: an anonymous client or an authenticated user (by id). */
  datatype Requester = Anonymous | Authenticated(user: nat)

  /** The set of elements of a list of field names. */
  function FieldSet(fields: seq<string>): (s: set<string>)
    ensures forall f :: f in s <==> f in fields
  {
    set f | f in fields
  }
}
