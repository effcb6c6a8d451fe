/** The result of reading a prefix of a text. */
module Parsing {
  datatype Parsed<+T> = Fail | Done(value: T, rest: string)
}
