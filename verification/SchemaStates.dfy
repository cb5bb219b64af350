/** The states that a column or an index goes through. */
module SchemaStates {
  datatype SchemaState = StateNone | DeleteOnly | WriteOnly | WriteReorg | Public | DeleteReorg
}
