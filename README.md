# XCC value construction, eval request policy and the empty part cursor

This project is a Dafny model of three parts of the MarkLogic XCC Java client, with proofs about them:

- **ValueFactory** (`value_factory.dfy`, `value_factory_laws.dfy`) builds XDM values from a requested
  `ValueType` and an untyped Java object. The dispatch has two levels. The kind's category (sequence,
  node or atomic) picks `newSequenceValue`, `newNodeValue` or `newAtomicValue`, and that function then
  tests the exact kind. Each kind accepts some runtime forms of the input: String, byte[], InputStream,
  a W3C DOM node of some interface, Boolean, XdmDuration, XdmValue[]. Every other form is refused with
  `IllegalArgumentException`.
  - `NewValue` is a total function into `Result<XdmValue, Error>`.
  - `Accepts` is a reference table of the inputs each kind takes, read off the `instanceof` tests of the
    factory's branches. Only newElement, newDocumentNode, newTextNode, newCommentNode and
    newProcessingInstructionNode list their accepted forms in their Javadoc. The contracts of
    `NewValue`, `NewNodeValue`, `NewAtomicValue`, the six node factories and the boolean, duration and
    hexBinary branches relate their results to that table. `AssertStringArg`, `StringAtomic` and
    `NewSequenceValue` state their acceptance directly on the input's form.
  - The laws state, kind by kind, which inputs are accepted, what the value keeps (the text, the very
    byte[] or InputStream given, or a new array the factory made) and which error a refusal gives.
    A byte[] is known by its identity as well as its contents, so the model can state that a binary
    node shares the caller's array (`ByteArrayInputStream` does not copy it).
  - `XdmVar` is the immutable variable. Its `equals` and `hashCode` look at the name only.
- **EvalRequestController** (`eval_request_controller.dfy`) is one attempt of an eval request.
  - The status-code table is built by the same registration calls as the class's static initialiser,
    in the same order, with a default entry.
  - `interTryDelay` is the delay before a retry.
  - `buildChannel` sets the channel's metadata.
  - `serverDialog` is a method of the `EvalRequestController` class. It takes the `Session` object and
    modifies it: it updates the session's server version and cookies, then dispatches to the handler
    for the status code. It also returns the trace of the steps it took. The two session steps each
    record the whole session just after them, and the dispatch records the session the handler is
    given. So the contract checks the order of these three against the session itself: the version is
    set before the cookies are read, and both happen before the dispatch. The other four steps
    (channel, write, read code, timeout) change no modelled state. Their place in the trace is
    fixed by the trace the method returns, not checked against its statements.
- **NullPartSplitter** (`null_part_splitter.dfy`) is the multipart cursor used when a response has no
  parts. It is a class with no fields, and its methods change nothing (no `modifies`). Every observer
  returns a constant.

Supporting modules:

- `types.dfy` holds the value kinds and their categories, the input forms and the XDM values.
- `exceptions.dfy` holds the Java exceptions the core throws, as one error datatype.
- `utf8.dfy` models `String.getBytes("UTF-8")`, used by `newBinaryNode`. It has a decoder and proves the
  round trip. It also models Java's `String.length()` (UTF-16 code units), used by `buildChannel`.
- `bytes.dfy` holds the octet type.
- `wrappers.dfy` holds `Option`, `Result` and `Outcome`.

Collaborators are modelled as values or parameters:

- `ContentFactory.bytesFromW3cNode` and DOM `getNodeValue()` are fields of the DOM node value (its
  serialised bytes and its node value).
- `XdmDuration.toString()` is the duration's lexical form.
- `XName.hashCode()` is a function parameter of `HashCode`.
- What the HTTP channel reports in an attempt (status code, server version, cookies) is a
  `ServerReply` parameter.

Where the documentation and the code differ, the model follows the code:

- A String given for an element, document, text, comment or processing-instruction node is kept as
  the String.
- An InputStream is wrapped as given, not read.
- A DOM Element or Document becomes a stream over its serialised bytes.
- A DOM Text, Comment or ProcessingInstruction keeps its node value.
- A DOM CDATASection is a `Text` in Java, so it is accepted for TEXT.
- The RetryableXQueryException Javadoc says the exception is always retryable. The constructor passes
  the caller's `retryable` flag through unchanged, and so does the model
  (`NewRetryableXQueryException`).

## Model

| member | source | states |
|---|---|---|
| ValueFactory.NewValue | com/marklogic/xcc/ValueFactory.java:133-147 | accepted exactly when the input's form is one the kind accepts; the result carries the resolved kind (NODE as ELEMENT) in the same category; a refusal is IllegalArgument, except for a node kind the factory has no branch for (ATTRIBUTE), which is InternalError |
| ValueFactory.NewSequenceValue | com/marklogic/xcc/ValueFactory.java:572-578 | succeeds exactly on an XdmValue[], with a sequence of exactly those values; anything else is IllegalArgument |
| ValueFactory.NewSequence | com/marklogic/xcc/ValueFactory.java:549-551 | a SEQUENCE value whose items are exactly the given values, in order |
| ValueFactory.NewNodeValue | com/marklogic/xcc/ValueFactory.java:580-616 | for every node kind but ATTRIBUTE: acceptance agrees with the table and the tag is the resolved kind; NODE gives exactly newElement's result; ATTRIBUTE and non-node kinds give InternalError |
| ValueFactory.NewElement | com/marklogic/xcc/ValueFactory.java:190-207 | accepts exactly a String, an InputStream or a DOM Element; the String is kept, the stream is wrapped as given, the Element becomes a stream over its serialised bytes; otherwise IllegalArgument |
| ValueFactory.NewDocumentNode | com/marklogic/xcc/ValueFactory.java:222-239 | as newElement, with a DOM Document in place of an Element |
| ValueFactory.NewTextNode | com/marklogic/xcc/ValueFactory.java:252-269 | accepts exactly a String, an InputStream or a DOM Text (CDATA included); a Text node gives its node value; otherwise IllegalArgument |
| ValueFactory.NewCommentNode | com/marklogic/xcc/ValueFactory.java:282-299 | accepts exactly a String, an InputStream or a DOM Comment, whose node value is kept; otherwise IllegalArgument |
| ValueFactory.NewProcessingInstructionNode | com/marklogic/xcc/ValueFactory.java:312-329 | accepts exactly a String, an InputStream or a DOM ProcessingInstruction, whose node value is kept; otherwise IllegalArgument |
| ValueFactory.NewBinaryNode | com/marklogic/xcc/ValueFactory.java:331-355 | accepts exactly a String (stored as a new array of its UTF-8 bytes), a byte[] (the caller's own array, wrapped without a copy) or an InputStream (wrapped as given); otherwise IllegalArgument |
| ValueFactory.AssertStringArg | com/marklogic/xcc/ValueFactory.java:811-817 | succeeds exactly when the input is a String, and gives that String; otherwise IllegalArgument |
| ValueFactory.StringAtomic | com/marklogic/xcc/ValueFactory.java:619-623 | an assertStringArg-guarded branch: succeeds exactly on a String, which becomes the value's lexical form |
| ValueFactory.NewBooleanAtomic | com/marklogic/xcc/ValueFactory.java:641-650 | a Boolean is kept as the value, a String as its lexical form, anything else is IllegalArgument |
| ValueFactory.NewDurationAtomic | com/marklogic/xcc/ValueFactory.java:670-698 | for the three duration kinds: an XdmDuration gives its toString() as the lexical form, a String is kept, anything else is IllegalArgument |
| ValueFactory.NewHexBinaryAtomic | com/marklogic/xcc/ValueFactory.java:763-771 | a byte[] is kept as the bytes, a String as its lexical form, anything else is IllegalArgument |
| ValueFactory.AtomicKindGroups | com/marklogic/xcc/ValueFactory.java:618-809 | the atomic kinds are exactly those the branches of newAtomicValue name: numeric, boolean, the durations, hexBinary and the String-only kinds |
| ValueFactory.NewAtomicValue | com/marklogic/xcc/ValueFactory.java:618-809 | for an atomic kind: acceptance agrees with the table, the tag is the kind, and a refusal is IllegalArgument; any other kind is IllegalState |
| ValueFactory.NewXSDuration | com/marklogic/xcc/ValueFactory.java:513-515 | an xs:duration whose lexical form is the given String |
| ValueFactory.NewXSDurationFromDuration | com/marklogic/xcc/ValueFactory.java:525-527 | the same value as newXSDuration(d.toString()), and the same as newValue(XS_DURATION, d) |
| ValueFactory.NewVariable | com/marklogic/xcc/ValueFactory.java:566-568 | the variable's name and value are the ones given |
| ValueFactory.XdmVar.GetName | com/marklogic/xcc/ValueFactory.java:830-832 | the name the variable was made with |
| ValueFactory.XdmVar.GetValue | com/marklogic/xcc/ValueFactory.java:834-836 | the value the variable was made with |
| ValueFactory.XdmVar.Equals | com/marklogic/xcc/ValueFactory.java:840-849 | true exactly for another variable whose name equals this one's, whatever the values |
| ValueFactory.XdmVar.HashCode | com/marklogic/xcc/ValueFactory.java:851-854 | the name's hash and nothing else |
| ValueFactoryLaws.SequenceFromArrayOnly | com/marklogic/xcc/ValueFactory.java:572-578 | SEQUENCE refuses every input but an XdmValue[] with IllegalArgument, and yields exactly the array's values in order (the empty array included) |
| ValueFactoryLaws.NodeIsElement | com/marklogic/xcc/ValueFactory.java:581-587 | NODE and ELEMENT give the same result for every input |
| ValueFactoryLaws.MarkupNodeInputs | com/marklogic/xcc/ValueFactory.java:190-239 | ELEMENT and DOCUMENT accept exactly a String, an InputStream or the matching DOM node, and a DOM node is stored as a stream over bytesFromW3cNode |
| ValueFactoryLaws.TextLikeNodeInputs | com/marklogic/xcc/ValueFactory.java:252-329 | for a DOM input: TEXT accepts exactly a Text or CDATA node, COMMENT exactly a Comment, PROCESSING_INSTRUCTION exactly a processing instruction |
| ValueFactoryLaws.BinaryInputs | com/marklogic/xcc/ValueFactory.java:331-355 | BINARY accepts exactly a String, a byte[] or an InputStream |
| ValueFactoryLaws.BinaryFromStringKeepsText | com/marklogic/xcc/ValueFactory.java:332-343 | a String given for BINARY is stored as its UTF-8 bytes, and those bytes decode back to the same String |
| ValueFactoryLaws.BinaryByteArrayIsShared | com/marklogic/xcc/ValueFactory.java:345-347 | a byte[] given for BINARY is wrapped as the caller's very array (same identity, same contents), while a String gets a new array |
| ValueFactoryLaws.BinaryFromStringInjective | com/marklogic/xcc/ValueFactory.java:332-343 | two Strings that give the same binary node are the same String |
| ValueFactoryLaws.StreamIsWrappedNotCopied | com/marklogic/xcc/ValueFactory.java:195-351 | every node kind that takes an InputStream accepts one and wraps that very stream |
| ValueFactoryLaws.StringOnlyKinds | com/marklogic/xcc/ValueFactory.java:619-806 | every kind guarded only by assertStringArg accepts exactly a String, refuses anything else with IllegalArgument, and keeps the String as its lexical form |
| ValueFactoryLaws.BooleanInputs | com/marklogic/xcc/ValueFactory.java:641-650 | xs:boolean accepts exactly a Boolean or a String, and keeps a Boolean's value |
| ValueFactoryLaws.HexBinaryInputs | com/marklogic/xcc/ValueFactory.java:763-771 | xs:hexBinary accepts exactly a byte[] or a String, and keeps a byte[]'s bytes |
| ValueFactoryLaws.Base64BinaryInputs | com/marklogic/xcc/ValueFactory.java:773-782 | xs:base64Binary accepts exactly a String; a byte[] is refused with IllegalArgument |
| ValueFactoryLaws.DurationIsItsString | com/marklogic/xcc/ValueFactory.java:670-698 | for the three duration kinds, an XdmDuration d gives the same result as d.toString() |
| ValueFactoryLaws.NumericKindsAcceptAll | com/marklogic/xcc/ValueFactory.java:625-639 | the four numeric kinds accept every input and pass it to the constructor unchanged |
| ValueFactoryLaws.FactoryErrorsAreNotRetryable | com/marklogic/xcc/ValueFactory.java:133-147 | every error a factory failure gives is IllegalArgument, InternalError or IllegalState, and none of them carries a retryable flag |
| ValueFactoryLaws.VariableEqualityIsByName | com/marklogic/xcc/ValueFactory.java:840-849 | two variables are equal exactly when their names are equal, whatever their values; a non-variable is never equal |
| ValueFactoryLaws.VariableEqualityIsEquivalence | com/marklogic/xcc/ValueFactory.java:840-849 | variable equality is reflexive, symmetric and transitive |
| ValueFactoryLaws.VariableHashAgreesWithEquals | com/marklogic/xcc/ValueFactory.java:840-854 | equal variables have equal hash codes, for any hash function on names |
| ValueFactoryLaws.RebindingKeepsIdentity | com/marklogic/xcc/ValueFactory.java:566-568 | two variables made from the same name are equal, whatever values they bind |
| Utf8.Encode | com/marklogic/xcc/ValueFactory.java:332-343 | the UTF-8 bytes of a String: between one and four bytes per character, and exactly one per character when every character is ASCII |
| Utf8.DecodeEncode | com/marklogic/xcc/ValueFactory.java:332-343 | decoding the UTF-8 bytes of a String gives the String back |
| Utf8.EncodeInjective | com/marklogic/xcc/ValueFactory.java:332-343 | different Strings have different UTF-8 bytes |
| Utf8.Utf16Length | com/marklogic/xcc/impl/handlers/EvalRequestController.java:103 | Java's String.length(): between one and two code units per character, never more than the UTF-8 byte count, and equal to it exactly for an ASCII String |
| Exceptions.NewRetryableXQueryException | com/marklogic/xcc/exceptions/RetryableXQueryException.java:30-33 | every argument is kept; the exception is retryable exactly when the flag passed in says so |
| Exceptions.NewUnimplementedFeatureException | com/marklogic/xcc/exceptions/UnimplementedFeatureException.java:25-27 | carries the given message and is never retryable |
| Handlers.EvalHandlers | com/marklogic/xcc/impl/handlers/EvalRequestController.java:36-44 | the table the static initialiser builds: entries for exactly 503, 500, 401, 404, 400 and 200, and UnrecognizedCodeHandler as the default |
| Handlers.AddDefaultHandler | com/marklogic/xcc/impl/handlers/EvalRequestController.java:37 | sets the default entry and leaves the code entries as they were |
| Handlers.AddHandler | com/marklogic/xcc/impl/handlers/EvalRequestController.java:38-43 | maps the code to the handler, keeps every other entry and the default, and adds only this code |
| Handlers.FindHandler | com/marklogic/xcc/impl/handlers/EvalRequestController.java:34-44 | 503, 500, 401, 404, 400 and 200 go to their registered handlers (404 and 400 both to NotFoundCodeHandler); every other code goes to UnrecognizedCodeHandler |
| Handlers.HandlerPreimages | com/marklogic/xcc/impl/handlers/EvalRequestController.java:36-44 | for each handler, exactly which codes reach it, in both directions |
| Handlers.InterTryDelay | com/marklogic/xcc/impl/handlers/EvalRequestController.java:89-95 | 0 before the first try, 0 for a non-positive delay, otherwise exactly the delay; equivalently max(0, delay) after the first try |
| Handlers.DelayIsFixed | com/marklogic/xcc/impl/handlers/EvalRequestController.java:89-95 | every try after the first waits the same, never less than 0 and never more than a positive delay |
| Handlers.BuildChannel | com/marklogic/xcc/impl/handlers/EvalRequestController.java:99-112 | a POST to the path, with the body's Java length as content length (its byte count when ASCII), form-urlencoded content type, the options' timeout, and close-output-if-no-content-length set |
| Handlers.ShapeOrdersUpdatesFirst | com/marklogic/xcc/impl/handlers/EvalRequestController.java:72-83 | in a trace of the attempt's shape, the server version and the cookies are updated before the dispatch, and only the last step dispatches |
| Handlers.AttemptUpdatesSessionFirst | com/marklogic/xcc/impl/handlers/EvalRequestController.java:64-84 | for every status code, error codes included, an attempt updates the server version and cookies before it dispatches, and dispatches once, last, to FindHandler of the code with a session already holding the reply's version and the merged cookies |
| Handlers.Session.SetServerVersion | com/marklogic/xcc/impl/handlers/EvalRequestController.java:78 | the session's server version becomes the response's; the cookies are unchanged |
| Handlers.Session.ReadCookieValues | com/marklogic/xcc/impl/handlers/EvalRequestController.java:79 | the response's cookies are merged into the session's (a new value replaces an old one of the same name); the server version is unchanged |
| Handlers.EvalRequestController.constructor | com/marklogic/xcc/impl/handlers/EvalRequestController.java:53-58 | keeps the path and the body |
| Handlers.EvalRequestController.ServerDialog | com/marklogic/xcc/impl/handlers/EvalRequestController.java:64-84 | afterwards the session holds the response's server version and its cookies merged in; the handler is FindHandler of the status code; the steps are exactly channel, write, read code, version update, cookie update, timeout, and dispatch to that handler; the version step records the new version with the old cookies, the cookie step the new version with the merged cookies, and the dispatch the updated session, so the method must set the version, then read the cookies, then dispatch |
| Http.NullPartSplitter.GetTotalBytesRead | com/marklogic/http/NullPartSplitter.java:21-23 | always 0 |
| Http.NullPartSplitter.HasNext | com/marklogic/http/NullPartSplitter.java:25-27 | always false |
| Http.NullPartSplitter.Next | com/marklogic/http/NullPartSplitter.java:29-31 | always fails with an I/O error whose message is "Empty result" |
| Http.NullPartSplitter.Read | com/marklogic/http/NullPartSplitter.java:33-35 | always -1 |
| Http.NullPartSplitter.ReadInto | com/marklogic/http/NullPartSplitter.java:37-39 | always -1, for any buffer (null included), offset and length; it may write nothing |
| Http.NullPartSplitter.GetBufferSize | com/marklogic/http/NullPartSplitter.java:49-51 | always 0 |
| Http.NullPartSplitter.Close | com/marklogic/http/NullPartSplitter.java:41-43 | does nothing: an empty body and no modifies clause, so it can change no state |
| Http.NullPartSplitter.SetBufferSize | com/marklogic/http/NullPartSplitter.java:45-47 | has no effect: an empty body and no modifies clause, so it can change no state |
| Http.ReadLeavesBuffer | com/marklogic/http/NullPartSplitter.java:37-39 | read(buffer, offset, length) returns -1 and leaves every byte of the buffer as it was |
| Http.ObserveAfterClose | com/marklogic/http/NullPartSplitter.java:41-51 | after setBufferSize and close, every observer still returns its constant: no next part, -1 from both reads, 0 bytes read, buffer size 0 |

`ObserveAfterClose` states what the empty `Close` and `SetBufferSize` mean for the observers.

## Left out

- Transport I/O is not modelled: the `HttpChannel`, the socket write in `issueRequest`, `getResponseCode`,
  `setConnectionTimeout` and logging. They appear only as abstract steps in the attempt's trace, and
  the reply is a parameter.
- Handlers.AttemptUpdatesSessionFirst: because transport I/O is not modelled, an `IOException` from
  `writeString` (line 122) or from `getResponseCode` (line 72) is not represented. In Java such an
  exception ends the attempt before lines 78-79, so the session is not updated and no handler runs.
  "Error codes included" covers error status codes only, not transport failures. The same holds for
  Handlers.EvalRequestController.ServerDialog.
- Handlers.EvalRequestController.ServerDialog: the open, write, read-code and timeout steps change no
  modelled state. Their order among themselves and against the session steps is given by the
  returned trace, not checked against the method's statements. Only the order of the version update,
  the cookie update and the dispatch is checked against the session.
- Handlers.AddHandler, Handlers.AddDefaultHandler, Handlers.FindHandler: `addHandler`, `addDefaultHandler`,
  `findHandler` and `setConnectionTimeout` are defined in AbstractRequestController, which is not part of
  this model. The model assumes three things. `addHandler` is a map put by status code and
  `addDefaultHandler` sets a single default entry. `findHandler` returns the code's own entry, or the
  default when the code has none. `setConnectionTimeout` has no effect on the session.
- `addCommonHeaders` (called by `buildChannel`) is not modelled. It lives in AbstractRequestController,
  which is not part of this model.
- The retry loop that calls `interTryDelay` is not modelled, because it also lives in
  AbstractRequestController.
- Handlers.EvalRequestController.ServerDialog returns the handler it dispatches to, not the
  ResultSequence that handler would produce. The handler implementations are not part of this model
  and appear only as tags.
- The static `HashMap` filled by the static initialiser is an immutable table value built by the same
  registration calls.
- Handlers.Session.ReadCookieValues: SessionImpl is not part of this model. Reading cookies is taken to
  be a map override by cookie name.
- GoodInsertResponseHandler only logs and returns null, so it is not modelled.
- XsGYearMonthImpl and all date, time and calendar parsing (including the TimeZone and Locale defaults
  of the dateTime, date and time branches) are not modelled. These values keep only their lexical
  String. As a result, acceptance here is only the factory's own `instanceof` test. XsGYearMonthImpl's
  constructor parses its String and rejects a malformed one. `NewValue` accepts that String. The other
  value classes, whose code is not part of this model, may reject malformed Strings the same way.
- ValueFactoryLaws.NumericKindsAcceptAll: the numeric constructors' own checks of their Object argument
  are not part of this model. The input is kept unchanged, so a failure inside one of those constructors
  is not represented.
- `bytesFromW3cNode` and `getNodeValue()` are foreign calls. Each DOM node value carries their
  results as fields.
- Error message texts are not modelled, only the kind of error. So the messages that name the wrong type
  (the comment, processing-instruction and binary branches) are not reflected.
- ValueFactory.NewBooleanAtomic: a null input for xs:boolean would raise a NullPointerException while
  the error message is built. It is modelled as IllegalArgument, like every other refused input.
- ValueFactory.NewBinaryNode: the fallback for an UnsupportedEncodingException from
  `getBytes("UTF-8")` is not modelled. That encoding is always present.
- ValueFactory.NewValue: a null ValueType is not modelled, because a kind here is never null. In Java,
  `newValue(null, value)` fails all three `instanceof` tests (lines 134-142) and throws the
  "Unrecognized ValueType" IllegalArgumentException at line 146. That path is dropped. Every kind in the
  model has a category.
- ATTRIBUTE is included as a value kind (it is named in the commented-out branch of `newNodeValue`), so
  the InternalError of `newNodeValue` is reachable. ValueType is not part of this model. The model
  assumes that its enumeration is closed: its atomic kinds are exactly the ones the branches of
  `newAtomicValue` name. Under that assumption, `NewValue` never reaches the IllegalStateException. It
  is reached only by calling `NewAtomicValue` directly with a kind that is not atomic.
- ValueFactory.NewBinaryNode: the node shares the caller's byte[]. The model records which array that
  is, with its contents at construction (`BinaryByteArrayIsShared`). The byte[] is a value here, not
  mutable state, so later writes to the array, which the node would see, are not modelled.
- ValueFactory.NewHexBinaryAtomic: whether XsHexBinaryImpl copies the byte[] is not known, because that
  class is not part of this model. The value keeps the array's contents only.
- ValueFactory.NewVariable: a null name is not modelled, because an XName here is never null.
  `newVariable` does not check for null, and `equals` and `hashCode` on such a variable would throw
  NullPointerException.
- SequenceImpl internals are not modelled. A sequence is just its items.
- An XName is compared structurally. Its `hashCode` is a parameter.
- ValueFactoryLaws.VariableEqualityIsByName: a Java object compared with a variable is either an XdmVar or
  not a variable at all. Other implementations of XdmVariable are not modelled.
- Utf8.Encode: unpaired UTF-16 surrogates are not modelled. A Dafny `char` is a Unicode scalar value, so
  Java's replacement of a lone surrogate does not arise.
- The convenience factories (`newXSString`, `newXSInteger`, `newXSBoolean`, `newCtsBox`, `newCtsCircle`,
  `newCtsPoint`, `newCtsPolygon`, `newXSDateTime`, `newXSDate`, `newXSTime`, `newDuration`) are not
  modelled, apart from the two `newXSDuration` overloads. They are outside the core.
