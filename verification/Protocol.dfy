/** Identifiers of the app-server protocol that several components share. */
module Protocol {
  datatype RequestId = IntegerId(n: int) | StringId(s: string)
}
