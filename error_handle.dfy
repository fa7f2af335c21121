/**
 * The database-error translator: it turns an error raised by the database
 * layer into the one message shown to the user.
 */
module ErrorHandle {
  import opened Wrappers
  import opened ErrorCodes
  import Decimal

  /**
   * What the translator can observe of a raised error.
   * `msg` is `Some(s)` when the error has a `msg` attribute that is a string,
   * and `None` when it has none or when it is not a string.
   * `isIntegrityError` is true when the error is an `IntegrityError` (or of a
   * class derived from it).
   * `errno` is the error's number, `None` when it carries none.
   */
  datatype DbError = DbError(msg: Option<string>, isIntegrityError: bool, errno: Option<int>)

  const DUPLICATE_ENTRY: string := "Duplicate entry."
  const INVALID_REFERENCE: string := "Invalid reference to another record."
  /** The generic message, written in two halves so that lemmas can inspect each half on its own. */
  const UNEXPECTED: string := UNEXPECTED_HEAD + UNEXPECTED_TAIL
  const UNEXPECTED_HEAD: string := "Unexpected database behavior. "
  const UNEXPECTED_TAIL: string := "Please check your inputs and try again."

  /** The three fixed messages the translator chooses among. */
  predicate IsCurated(s: string) {
    s == DUPLICATE_ENTRY || s == INVALID_REFERENCE || s == UNEXPECTED
  }

  /** The error number is one of the two "no referenced row" codes. */
  predicate IsNoReferencedRow(errno: Option<int>) {
    errno == Some(ER_NO_REFERENCED_ROW_2) || errno == Some(ER_NO_REFERENCED_ROW)
  }

  /**
   * The translator. A string message wins over everything else; then an
   * integrity error is recognised by its number; anything left gets the
   * generic message. It has no precondition and no failure path.
   */
  function HandleDbError(e: DbError): (r: string)
    ensures e.msg.Some? ==> r == e.msg.value
    ensures e.msg.None? ==> IsCurated(r)
  {
    if e.msg.Some? then
      e.msg.value
    else if e.isIntegrityError && e.errno == Some(ER_DUP_ENTRY) then
      DUPLICATE_ENTRY
    else if e.isIntegrityError && IsNoReferencedRow(e.errno) then
      INVALID_REFERENCE
    else
      UNEXPECTED
  }

  /**
   * Without a string message, each fixed message is produced exactly when
   * its condition holds: duplicate key, missing referenced row, or anything else.
   */
  lemma MessageNamesCause(e: DbError)
    requires e.msg.None?
    ensures HandleDbError(e) == DUPLICATE_ENTRY
      <==> e.isIntegrityError && e.errno == Some(ER_DUP_ENTRY)
    ensures HandleDbError(e) == INVALID_REFERENCE
      <==> e.isIntegrityError && IsNoReferencedRow(e.errno)
    ensures HandleDbError(e) == UNEXPECTED
      <==> !e.isIntegrityError || (e.errno != Some(ER_DUP_ENTRY) && !IsNoReferencedRow(e.errno))
  {
  }

  /**
   * A string message that is not one of the fixed texts can never be mistaken
   * for the result of an error without a string message.
   */
  lemma VerbatimNeverClassified(e1: DbError, e2: DbError)
    requires e1.msg.Some? && !IsCurated(e1.msg.value)
    requires e2.msg.None?
    ensures HandleDbError(e1) != HandleDbError(e2)
  {
  }

  /** None of the fixed messages contains a decimal digit. */
  lemma CuratedHasNoDigits(s: string)
    requires IsCurated(s)
    ensures Decimal.NoDigits(s)
  {
    if s == UNEXPECTED {
      UnexpectedHasNoDigits();
    }
  }

  // The generic message is long; it is checked in two halves, each in a lemma of its own.

  lemma UnexpectedHasNoDigits()
    ensures Decimal.NoDigits(UNEXPECTED)
  {
    HeadHasNoDigits();
    TailHasNoDigits();
    Decimal.NoDigitsConcat(UNEXPECTED_HEAD, UNEXPECTED_TAIL);
  }

  lemma HeadHasNoDigits()
    ensures Decimal.NoDigits(UNEXPECTED_HEAD)
  {
  }

  lemma TailHasNoDigits()
    ensures Decimal.NoDigits(UNEXPECTED_TAIL)
  {
  }

  /**
   * Without a string message, the error's number is never disclosed: its
   * decimal text does not occur in the message.
   */
  lemma ErrnoNotDisclosed(e: DbError)
    requires e.msg.None? && e.errno.Some?
    ensures !Decimal.Occurs(Decimal.IntText(e.errno.value), HandleDbError(e))
  {
    CuratedHasNoDigits(HandleDbError(e));
    Decimal.DigitTextNotIn(Decimal.IntText(e.errno.value), HandleDbError(e));
  }
}
