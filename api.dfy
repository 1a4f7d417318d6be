/**
 * The records the pipeline passes between its stages: the candidate a parsed
 * block becomes, the record the store reports, and Go's wrapped errors.
 */
module Api {
  import opened SqlText

  /**
   * `api.MigrationProto`: one migration block as parsed from a SQL file,
   * before deduplication.  The creation timestamp is not modelled.
   */
  datatype MigrationProto = MigrationProto(
    namespace: Text,
    user: Text,
    comment: Text,
    ddl: Text,
    shouldSkip: bool,
    signature: bv64)

  /**
   * `api.Migration`: a record already in the store.  Its id is the signature
   * of the header that created it, so it is a 64-bit value here.
   */
  datatype Migration = Migration(id: bv64, namespace: Text, user: Text, comment: Text, ddl: Text)

  /** Which check of `parseMigrationHeader` rejected a header line. */
  datatype HeaderFault = NotEnoughParts | UserEmpty | NamespaceEmpty | CommentEmpty

  /**
   * A Go `error`.  The parser's own errors are kept as the data their
   * messages carry; any other error is its message, possibly wrapping a
   * cause as `fmt.Errorf("...: %w", cause)` does.
   */
  datatype Error =
    | Failure(message: string)
    | Wrapped(message: string, cause: Error)
    | InvalidHeader(fault: HeaderFault, line: Text)
    | MissingHeader
    | HeaderWithoutSql(comment: Text)
}
