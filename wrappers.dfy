/** Option and Result, the shapes the Python code expresses with `None` and
    with exceptions that the handlers catch and re-raise. */
module Wrappers {

  datatype Option<+T> = None | Some(value: T)

  /** Why an operation of the ledger did not complete. */
  datatype Failure =
    | InvalidPeriod      // `str_to_relativedelta` raised ValueError
    | UniqueViolation    // an INSERT hit an existing primary key
    | PanelRejected      // the panel answered with a non-ok status
    | MissingSession     // no payment session: `invoice_msg_id` is unbound
    | MissingUserRow     // `select_user_date` returned None where a number was needed
    | MissingHelper      // a call to a middleware function that does not exist

  datatype Result<+T> = Ok(value: T) | Err(error: Failure)
}
