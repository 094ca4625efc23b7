/** The data the request validator works on: the `paths` section of an
    OpenAPI document, an incoming request, and the two foreign collaborators
    (`JSON.parse` and the z-schema validator), which the model takes as
    given functions rather than defining. */
module OasSpec {
  import opened Wrappers

  /** A parameter's schema object, as the specification document holds it.
      Only the validator looks inside it, so the model treats it as an
      opaque value, told apart by a tag. */
  datatype Schema = Schema(tag: string)

  /** One entry of an operation's `parameters` list: `name`, `in`
      (its location, such as `query` or `header`), `required` and `schema`. */
  datatype Param = Param(name: string, location: string, required: bool, schema: Schema)

  /** An operation (one method of one path). `parameters` is `None` when the
      operation object has no `parameters` field. */
  datatype Operation = Operation(parameters: Option<seq<Param>>)

  /** A `paths` table: URL -> method -> operation. */
  type Paths = map<string, map<string, Operation>>

  /** The specification document. Only its `paths` table is consulted:
      URL -> method -> operation. */
  datatype Spec = Spec(paths: Paths)

  /** The accessor `req[location][name]`: the raw string value of a
      parameter at a location, or `None` when it is undefined. */
  type ParamLookup = (string, string) -> Option<string>

  /** An incoming request: its raw `url` (path and query string), its raw
      `method` (as `httpMethod`), and its parameter accessor. */
  datatype Request = Request(url: string, httpMethod: string, param: ParamLookup)

  /** One schema-validation error as reported by the validator. */
  datatype SchemaError = SchemaError(code: string, message: string)

  /** The foreign collaborators, over an arbitrary type `J` of parsed JSON
      values: `parse` is `JSON.parse` (`None` when it throws), and
      `validate(v, schema)` is the validator's error list (empty when `v`
      conforms to `schema`). */
  datatype Oracle<!J> = Oracle(parse: string -> Option<J>, validate: (J, Schema) -> seq<SchemaError>)

  /** The parameter list of an operation; an operation without a
      `parameters` field declares none. */
  function DeclaredParams(op: Operation): seq<Param> {
    match op.parameters
    case None => []
    case Some(ps) => ps
  }
}
