/**
 * The error helpers every route handler uses (public/javascripts/customErrors.js).
 * A CustomErr carries a message meant for the user; any other error (a TypeError
 * from reading a field of a missing document, a validation error, a driver error)
 * is replaced by a fixed fallback message before it is shown.
 */
module CustomErrors {
  import opened Wrappers
  import UriComponent

  datatype Error =
    | CustomErr(message: string)
    /** Any other thrown error, with its JavaScript name ("TypeError", "ValidationError", ...). */
    | Unexpected(name: string, message: string)
  {
    function Name(): string {
      if CustomErr? then "CustomErr" else name
    }
  }

  /** What reading a field of a document that findById returned as null throws. */
  const NullDereference := Unexpected("TypeError", "Cannot read properties of null")

  /** What save throws when a required path is missing or empty. */
  const SchemaViolation := Unexpected("ValidationError", "Validation failed")

  /** setWildcardError: keep a CustomErr, turn anything else into CustomErr(errorMessage). */
  function SetWildcardError(error: Error, errorMessage: string := ""): (r: Error)
    ensures r.CustomErr? && r.Name() == "CustomErr"
    ensures error.CustomErr? ==> r == error
    ensures !error.CustomErr? ==> r.message == errorMessage
  {
    if error.CustomErr? then error else CustomErr(errorMessage)
  }

  /** Applying setWildcardError to its own result changes nothing, whatever the second fallback. */
  lemma SetWildcardErrorIdempotent(error: Error, first: string, second: string)
    ensures SetWildcardError(SetWildcardError(error, first), second) == SetWildcardError(error, first)
  {
  }

  const ErrorQuery := "?errorMessage="

  /** queryAppendError: `path?errorMessage=<encodeURIComponent(message)>`. */
  function QueryAppendError(path: string, error: Error): (r: string)
    ensures |path| + |ErrorQuery| <= |r|
    ensures r[..|path| + |ErrorQuery|] == path + ErrorQuery
    ensures UriComponent.Decode(r[|path| + |ErrorQuery|..]) == Some(error.message)
    ensures forall i :: |path| + |ErrorQuery| <= i < |r| ==> r[i] !in "&#=+? "
  {
    var encoded := UriComponent.Encode(error.message);
    UriComponent.DecodeEncode(error.message);
    var r := path + ErrorQuery + encoded;
    assert r[|path| + |ErrorQuery|..] == encoded;
    assert forall i :: |path| + |ErrorQuery| <= i < |r| ==> r[i] == encoded[i - |path| - |ErrorQuery|];
    forall c | c in encoded
      ensures c !in "&#=+? "
    {
      EncodedCharQuerySafe(c);
    }
    r
  }

  lemma EncodedCharQuerySafe(c: char)
    requires UriComponent.IsUnreserved(c) || c == '%' || c in UriComponent.HexDigits
    ensures c !in "&#=+? "
  {
  }

  /** The message a user is shown for an error a handler caught. */
  function UserMessage(error: Error, fallback: string): string {
    if error.CustomErr? then error.message else fallback
  }

  /**
   * The redirect every catch block issues: the query carries the CustomErr's own
   * message, or the handler's fallback for any other error.
   */
  function ErrorRedirect(path: string, error: Error, fallback: string): (r: string)
    ensures |path| + |ErrorQuery| <= |r|
    ensures r[..|path| + |ErrorQuery|] == path + ErrorQuery
    ensures UriComponent.Decode(r[|path| + |ErrorQuery|..])
            == Some(UserMessage(error, fallback))
  {
    QueryAppendError(path, SetWildcardError(error, fallback))
  }
}
