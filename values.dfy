/** The Ruby values that cross the worker's process boundary, reduced to the
    shapes the Chef actor produces and inspects. */
module Values {

  datatype Option<+T> = None | Some(value: T)

  /** A computation that either yields a value or raises a Ruby exception. */
  datatype Result<+T> = Success(value: T) | Failure(error: Exception)

  /** A Ruby exception class, by name, and whether it descends from
      StandardError (the classes a bare `rescue` catches). */
  datatype ErrorClass = ErrorClass(name: string, isStandardError: bool)

  /** A Ruby exception object: its class and its message. */
  datatype Exception = Exception(cls: ErrorClass, message: string)

  /** The symbols the handlers use as hash keys:
      `:log`, `:resource`, `:resources` and `:log_level`. */
  datatype Key = LogKey | ResourceKey | ResourcesKey | LogLevelKey

  /** A Ruby object as far as this worker cares. Chef resources, nodes and
      collections are opaque and carried only by identity. */
  datatype Value =
    | Nil
    | Bool(b: bool)
    | Text(s: string)
    | Sym(name: string)
    | DomainObject(id: string)
    | List(items: seq<Value>)
    | Hash(entries: map<Key, Value>)
    | ExceptionObject(error: Exception)

  /** Ruby truthiness: everything except `nil` and `false`. */
  predicate Truthy(v: Value) {
    !(v.Nil? || v == Bool(false))
  }
}
