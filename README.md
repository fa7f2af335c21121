# Database-error translator of the airline-simulation web front end

The web front end collects form or JSON input, calls a stored procedure in
MySQL and shows the outcome. When the database raises an error, one small
function, `handle_db_error` (error_handle.py:3-11), turns it into the single
message the user sees. This project models that function in Dafny and proves
what it promises. The function checks, in this order:

1. The error has a `msg` attribute that is a string: that text is returned as it is.
2. The error is an `IntegrityError` with number `ER_DUP_ENTRY` (1062): "Duplicate entry."
3. The error is an `IntegrityError` with number `ER_NO_REFERENCED_ROW_2` (1452) or
   `ER_NO_REFERENCED_ROW` (1216): "Invalid reference to another record."
4. Anything else: "Unexpected database behavior. Please check your inputs and try again."

Files:

- `wrappers.dfy`: module `Wrappers`, the `Option` datatype.
- `error_codes.dfy`: module `ErrorCodes`, the three MySQL server error numbers as named constants.
- `decimal.dfy`: module `Decimal`, Python's `str` on integers and "occurs in" on strings. It is
  used only to state that, for an error without a string `msg`, the translator never
  discloses the error number.
- `error_handle.dfy`: module `ErrorHandle`, the error as a datatype, the translator and its lemmas.

The raised error is abstracted as `DbError(msg, isIntegrityError, errno)`:

- `msg` is `Some(s)` when the error has a `msg` attribute holding a string. It is `None` when
  the attribute is missing or holds something else. This is the `hasattr`/`isinstance` guard
  of error_handle.py:4.
- `isIntegrityError` stands for `isinstance(e, IntegrityError)`, subclasses included.
- `errno` is `None` when the error carries no number. Such an error matches none of the codes.

The code checks the message first (error_handle.py:4-5), and the model follows
the code. As a result, the two integrity branches are reached only by errors
without a string message. A string message is returned even when
it is empty.

Because of this order, an integrity error numbered `ER_DUP_ENTRY` that also has a
string `msg` shows that `msg`, and not "Duplicate entry.". The same holds for the
foreign-key codes. A `msg` that happens to equal one of the three fixed texts
cannot be told apart from a classified error.

The `msg` path passes on whatever the message holds, error numbers and table
names included. The rule that no error number is disclosed is therefore proved
only for the three branches taken by errors without a string `msg`.

## Model

| member | source | states |
|---|---|---|
| `ErrorHandle.HandleDbError` | error_handle.py:3-11 | Total, with no precondition. A string `msg` is returned verbatim whatever the error class or number, so it takes priority over a duplicate-key integrity error. Without one, the result is always one of the three fixed messages. |
| `ErrorHandle.MessageNamesCause` | error_handle.py:6-11 | Without a string `msg`, each direction of each iff holds, stated over the returned strings. The message is "Duplicate entry." iff the error is an integrity error numbered `ER_DUP_ENTRY`. It is "Invalid reference to another record." iff it is an integrity error numbered `ER_NO_REFERENCED_ROW_2` or `ER_NO_REFERENCED_ROW`. It is the generic message iff it is not an integrity error, or its number is none of the three codes (a missing number included). |
| `ErrorHandle.VerbatimNeverClassified` | error_handle.py:4-11 | For any two errors, one with a string `msg` that is not one of the fixed texts and one without a string `msg`, the two results differ. So a passed-on message is never mistaken for a classified cause. |
| `ErrorHandle.CuratedHasNoDigits` | error_handle.py:8-11 | None of the three fixed messages contains a decimal digit. |
| `ErrorHandle.ErrnoNotDisclosed` | error_handle.py:6-11 | Without a string `msg`, the decimal text of the error's number, as Python's `str` writes it, never occurs in the message shown to the user. |

## Left out

- app.py is not part of this model. It holds the Flask application, the environment
  configuration, the five-connection MySQL pool, the per-request connection and cursor
  hooks, the `/test-leg-time` route (whose arithmetic is the database function `leg_time`),
  the greeting route and `app.run`. All of it is I/O, resource handling or presentation
  over libraries whose code is not visible.
- The MySQL connector's exception classes and its `errorcode` module are not modelled. They
  become the `isIntegrityError` flag and three named integer constants. In particular, the
  model does not know which errors the connector gives a string `msg`. It takes that as an
  input.
- Python strings are modelled as sequences of characters. The `isinstance(e.msg, str)` test
  becomes the `Some`/`None` choice, and a `str` subclass counts as a string.
