/** An optional value: a spreadsheet cell that holds a number, or one that is
    blank or failed numeric coercion (pandas' NaN / None). */
module Wrappers {

  datatype Option<+T> = None | Some(value: T)
}
