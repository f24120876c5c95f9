/** The kinds of message a session produces. */
module SessionTypes {
  datatype Kind = Assistant | User | SystemNote | Tool | Result | Error | Followup
}
