/** Codes and states that the mux and its workers share. */
module Codes {

  // What an end of response (EOR) says about the worker.
  const EOR_FREE: nat := 0
  const EOR_IN_TRANSACTION: nat := 1
  const EOR_IN_CURSOR_IN_TRANSACTION: nat := 3
  const EOR_MORE_INCOMING: nat := 4

  datatype Status = Unset | Init | Acpt | Wait | Busy | Schd | Fnsh | Quce
}
