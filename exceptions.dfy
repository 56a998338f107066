/**
 * The error taxonomy the core raises, one constructor per Java exception
 * class it throws (com.marklogic.xcc.exceptions and java.lang / java.io).
 */
module Exceptions {

  /** The originating request; the Request class itself is not part of this model. */
  datatype RequestRef = RequestRef(id: nat)

  /** One frame of a server-side XQuery stack trace, kept as its location descriptor. */
  datatype StackFrame = StackFrame(location: string)

  /** The diagnostic record a server error carries. */
  datatype Diagnostic = Diagnostic(
    code: string,
    w3cCode: string,
    xqueryVersion: string,
    message: string,
    formatString: string,
    expr: string,
    retryable: bool,
    data: seq<string>,
    stack: seq<StackFrame>)

  datatype Error =
    | IllegalArgument                 // java.lang.IllegalArgumentException: input incompatible with the requested type
    | InternalError                   // java.lang.InternalError: a node kind the factory cannot build
    | IllegalState                    // java.lang.IllegalStateException: an atomic kind the factory cannot build
    | IOFailure(message: string)      // java.io.IOException
    | RetryableXQuery(request: RequestRef, diagnostic: Diagnostic)
    | UnimplementedFeature(message: string)

  /** The retryable flag a server diagnostic carries; an error without a diagnostic has none. */
  predicate IsRetryable(e: Error) {
    e.RetryableXQuery? && e.diagnostic.retryable
  }

  /**
   * The RetryableXQueryException constructor. Every argument is kept as given,
   * including the retryable flag: the class does not force it to true.
   */
  function NewRetryableXQueryException(
    request: RequestRef, code: string, w3cCode: string, xqueryVersion: string, message: string,
    formatString: string, expr: string, retryable: bool, data: seq<string>, stack: seq<StackFrame>): (e: Error)
    ensures e.RetryableXQuery? && e.request == request
    ensures e.diagnostic == Diagnostic(code, w3cCode, xqueryVersion, message, formatString, expr, retryable, data, stack)
    ensures IsRetryable(e) == retryable
  {
    RetryableXQuery(request, Diagnostic(code, w3cCode, xqueryVersion, message, formatString, expr, retryable, data, stack))
  }

  /** The UnimplementedFeatureException constructor: a message and nothing else, never retryable. */
  function NewUnimplementedFeatureException(message: string): (e: Error)
    ensures e.UnimplementedFeature? && e.message == message
    ensures !IsRetryable(e)
  {
    UnimplementedFeature(message)
  }
}
