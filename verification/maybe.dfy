/** Swift optionals (`URL?`, `String?`) as a plain Some/None datatype. */
module Maybe {

  datatype Option<+T> = None | Some(value: T)
}
