/** The field checks the records rely on, kept abstract: every result below holds
    whatever strings these checks accept. */
module Checks {
  import opened Texts

  /** `opaqueId` also stands for the opaque-ref check, which is the same function;
      `hashRef` is the hash-bound ref check; `model` the concrete model id check;
      `clean` says that a string carries no forbidden raw payload. */
  datatype FieldChecks = FieldChecks(
    opaqueId: Text -> bool, hashRef: Text -> bool, model: Text -> bool, localDate: Text -> bool, clean: Text -> bool)

  predicate Parses(t: Stamp)
  {
    t.ms.Some?
  }
}
