/** Values shared by every route: nullable columns, JSON request fields with
    JavaScript truthiness, the four account roles, the authenticated caller
    and the HTTP response a handler sends. */
module Base {

  /** A nullable column (SQL NULL is None). */
  datatype Option<+T> = None | Some(value: T) {
    function GetOr(default: T): T {
      match this
      case Some(v) => v
      case None => default
    }
  }

  /** A field of a JSON request body or query: absent (undefined), an explicit
      null, or a value. The handlers distinguish the first two only where they
      compare against `undefined`. */
  datatype Field<+T> = Undefined | Null | Given(value: T) {
    /** `x ?? d`: the value unless the field is null or undefined. */
    function Or(default: T): T {
      if Given? then value else default
    }

    /** `x ?? null`, as stored in a nullable column. */
    function ToColumn(): Option<T> {
      if Given? then Some(value) else None
    }

    /** `x ?? existing`, for a nullable column that keeps its value when the
        field is null or undefined. */
    function OrColumn(existing: Option<T>): Option<T> {
      if Given? then Some(value) else existing
    }
  }

  /** JavaScript truthiness of a numeric field: `0`, null and undefined are falsy. */
  predicate TruthyInt(f: Field<int>) {
    f.Given? && f.value != 0
  }

  /** JavaScript truthiness of a string field: `""`, null and undefined are falsy. */
  predicate TruthyStr(f: Field<string>) {
    f.Given? && f.value != ""
  }

  datatype Role = Admin | Doctor | Patient | Pharmacy

  /** The role as stored in the `users.role` column and carried in tokens. */
  function RoleName(r: Role): string {
    match r
    case Admin => "admin"
    case Doctor => "doctor"
    case Patient => "patient"
    case Pharmacy => "pharmacy"
  }

  /** The identity a verified bearer token carries (`req.user`). */
  datatype AuthUser = AuthUser(id: int, name: string, email: string, role: Role)

  /** What a handler sends: a status with a body, or a status with `{ error }`. */
  datatype Response<+T> =
    | Success(status: int, body: T)
    | Failure(status: int, error: string)

  /** Express's answer when a statement throws (a violated column constraint,
      a property read on `undefined`). */
  const INTERNAL_ERROR := "Internal Server Error"
}
