/** Some lines of the program miss their intent. Each is modelled twice: as it is written,
    and repaired; a contract says what either build does. */
module Builds {
  datatype Build = AsWritten | Repaired
}
