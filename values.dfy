/** Values that flow between the command module and its callers: parsed
    argument values, the exceptions construction can throw, and the
    date-parsing collaborator (the `DateTime` module, which is not part of
    this model and is taken as a record of functions). */
module Values {
  import opened Wrappers
  import opened JsText

  /** A point in time as the `DateTime` collaborator returns it. */
  datatype Moment = Moment(epochMillis: int)

  /** The value bound to an argument or slot name in the `args` object
      handed to a command. `Supplier` is a zero-argument default-value
      function of a natural command's query; `Null` is JavaScript's `null`
      (or `undefined`). */
  datatype Value =
    | Null
    | Number(num: JsNum)
    | Numbers(nums: seq<JsNum>)
    | Text(text: string)
    | Texts(texts: seq<string>)
    | Bool(b: bool)
    | Time(moment: Moment)
    | Span(from: Moment, to: Moment)
    | Supplier(id: nat)

  /** An exception thrown while building or registering a command, by its
      JavaScript class and message. */
  datatype Thrown =
    | TypeError(message: string)
    | RangeError(message: string)
    | Error(message: string)

  /** The date-parsing collaborator.
      - `parse`: `DateTime.parse(value)` as `DateArg.parse` calls it;
      - `parseDuration`: `DateTime.parseDuration(value)`, its `from` and `to`;
      - `extract`: `DateTime.parse(text, true, filterIncludeEnding)`, a point in
        time found in the text and the text that remains;
      - `extractDuration`: `DateTime.parseDuration(text, true, filterIncludeEnding)`. */
  datatype DateTimeLib = DateTimeLib(
    parse: Option<string> -> Option<Moment>,
    parseDuration: Option<string> -> (Option<Moment>, Option<Moment>),
    extract: (string, bool) -> (Option<Moment>, string),
    extractDuration: (string, bool) -> (Option<Moment>, Option<Moment>, string))
}
