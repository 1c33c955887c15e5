/** The Todo entity (src/domain/entities/Todo.ts). */
module TodoEntity {

  /** A property of a JavaScript object that may be declared optional: it is missing
      (`undefined`), explicitly `null`, or holds a value. The mapper treats the first
      two alike when writing a row but produces `null`, never `undefined`, when reading
      one, so the model keeps all three apart. */
  datatype JsOptional<+T> = Undefined | Null | Present(value: T)

  type TodoId = string

  /** One task. Timestamps are epoch milliseconds; coordinates are REAL values. */
  datatype Todo = Todo(
    id: TodoId,
    title: string,
    description: JsOptional<string>,
    imageUri: JsOptional<string>,
    completed: bool,
    latitude: JsOptional<real>,
    longitude: JsOptional<real>,
    createdAt: int,
    updatedAt: int)

  /** JavaScript truthiness of an optional string: `undefined`, `null` and `""` are falsy. */
  predicate Truthy(s: JsOptional<string>) {
    s.Present? && s.value != ""
  }
}
