/**
 * The MySQL server error numbers that the error translator tests for, as the
 * `errorcode` module of the MySQL connector names them.
 */
module ErrorCodes {

  /** A row would repeat the value of a UNIQUE or PRIMARY KEY index. */
  const ER_DUP_ENTRY: int := 1062

  /** A foreign key refers to a parent row that does not exist (older form). */
  const ER_NO_REFERENCED_ROW: int := 1216

  /** A foreign key refers to a parent row that does not exist (current form). */
  const ER_NO_REFERENCED_ROW_2: int := 1452
}
