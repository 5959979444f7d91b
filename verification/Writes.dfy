/** How one durable write may end. */
module Writes {

  // It commits and is answered, it never happens, or it commits and the answer is lost.
  datatype Fault = Commit | Lost | LostReply
}
