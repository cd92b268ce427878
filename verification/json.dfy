/** What a reader of JSON can tell about a field before it looks at the value. */
module Json {

  /** A field that should hold a number. `Missing` stands for anything but a number or `null`. */
  datatype Field = Missing | Null | Number(n: int)

  /** A numeric field that may be left out. `Unusable` stands for anything but an integer. */
  datatype Entry = Omitted | Unusable | Integer(n: int)

  /** A field that should hold an object or an array. */
  datatype Record<T> = Undefined | NotAnObject | Record(value: T)
}
