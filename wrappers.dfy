/** The value-or-nothing datatype used wherever the system returns an optional value or Java a nullable one. */
module Wrappers {

  datatype Option<+T> = None | Some(value: T)
}

/** Octets as the JDK's byte arrays carry them, read as unsigned values. */
module Octets {

  type byte = x: int | 0 <= x < 256
}
