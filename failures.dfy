/** The exceptions the Access class can raise, and a Result type for the
    operations that raise them. */
module Failures {

  /** One constructor per exception the modelled code raises.
      - TypeNotSupported: "Type not supported!" from the two type mappings;
      - EmptyTableName: "Can't create table without name!" from CreateTable;
      - ColumnNotFound: a row looked up by a column name the table lacks;
      - ConnectionNotOpen: a command or schema query on a connection that is not open;
      - NullConnection: a member called on the connection field while it is null. */
  datatype Error =
    | TypeNotSupported
    | EmptyTableName
    | ColumnNotFound
    | ConnectionNotOpen
    | NullConnection

  datatype Option<+T> = None | Some(value: T)

  datatype Result<+T> = Ok(value: T) | Err(error: Error)
}
