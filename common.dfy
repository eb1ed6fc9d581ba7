/** Small value types shared by the whole model. */
module Common {

  /** A nullable column or a nullable value (`None` is SQL NULL / Python `None`). */
  datatype Option<+T> = None | Some(value: T)

  /** One key of a JSON request body: the key is missing, present with `null`,
      or present with a value. The routes tell these three apart
      (`'k' in data`, `data['k'] is None`, truthiness). */
  datatype Field<+T> = Absent | Null | Value(v: T)
  {
    /** `'k' in data` */
    predicate IsPresent()
    {
      !Absent?
    }

    /** The stored value a present key carries: `null` becomes NULL. */
    function AsOption(): (r: Option<T>)
      requires IsPresent()
      ensures r.Some? <==> Value?
      ensures Value? ==> r == Some(v)
    {
      if Value? then Some(v) else None
    }
  }

  /** The outcome of an operation that can fail with an error of type `E`. */
  datatype Result<+T, +E> = Ok(value: T) | Err(error: E)

  /** Identifier of a user or a task: an opaque string. */
  type Id = string

  /** Why a request is refused with status 400. */
  datatype Rejection = MissingField(name: string) | InvalidTaskType | InvalidStatus
                     | UnknownResource | BadDateFormat

  /** An error response: 400 with its reason, 404 for a row that does not
      exist or belongs to someone else, 500 for an exception the route does
      not expect. */
  datatype Failure = BadRequest(why: Rejection) | NotFound | ServerError
  {
    function Status(): (code: int)
      ensures code == 400 <==> BadRequest?
      ensures code == 404 <==> NotFound?
      ensures code == 500 <==> ServerError?
    {
      match this
      case BadRequest(_) => 400
      case NotFound => 404
      case ServerError => 500
    }
  }
}
