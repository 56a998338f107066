/**
 * The XDM data model the value factory builds: the closed enumeration of
 * value types, the runtime forms a caller may pass, and the immutable values.
 */
module Types {
  import opened Bytes

  /** Every ValueType the factory dispatches on. */
  datatype ValueKind =
    | Sequence
    // node types
    | Node | Element | Text | Binary | Attribute | Comment | Document | ProcessingInstruction
    // atomic types
    | XsString | XsInteger | XsDecimal | XsDouble | XsFloat | XsBoolean
    | XsAnyUri | XsQName | XsUntypedAtomic
    | XsDuration | XsDayTimeDuration | XsYearMonthDuration
    | XsDateTime | XsDate | XsTime | XsGDay | XsGMonth | XsGMonthDay | XsGYear | XsGYearMonth
    | XsHexBinary | XsBase64Binary
    | CtsBox | CtsCircle | CtsPoint | CtsPolygon

  /** The first dispatch level: SequenceType, NodeType or AtomicType. */
  datatype Category = SequenceCategory | NodeCategory | AtomicCategory

  function CategoryOf(k: ValueKind): Category {
    match k
    case Sequence => SequenceCategory
    case Node | Element | Text | Binary | Attribute | Comment | Document | ProcessingInstruction => NodeCategory
    case _ => AtomicCategory
  }

  type AtomicKind = k: ValueKind | CategoryOf(k) == AtomicCategory witness XsString

  /** The atomic kinds whose only accepted input is a String (guarded by assertStringArg alone). */
  predicate IsStringOnlyKind(k: ValueKind) {
    match k
    case XsString | XsAnyUri | XsQName | XsUntypedAtomic | XsDateTime | XsDate | XsTime
       | XsGDay | XsGMonth | XsGMonthDay | XsGYear | XsGYearMonth | XsBase64Binary
       | CtsBox | CtsCircle | CtsPoint | CtsPolygon => true
    case _ => false
  }

  predicate IsDurationKind(k: ValueKind) {
    match k
    case XsDuration | XsDayTimeDuration | XsYearMonthDuration => true
    case _ => false
  }

  predicate IsNumericKind(k: ValueKind) {
    match k
    case XsInteger | XsDecimal | XsDouble | XsFloat => true
    case _ => false
  }

  // ---------------------------------------------------------------------
  // Runtime forms of the input object

  /**
   * The byte[] a ByteArrayInputStream reads. A ByteArrayInputStream does not
   * copy its array: it is either the caller's own array, known by its identity
   * and its contents, or an array the factory has just made.
   */
  datatype ByteBuffer = CallerArray(id: nat, contents: seq<byte>) | NewArray(contents: seq<byte>)

  /** An InputStream: one supplied by the caller, or a ByteArrayInputStream over a byte[]. */
  datatype InputStream = CallerStream(id: nat) | ByteArrayStream(buffer: ByteBuffer)

  /** The W3C DOM interface a node object implements. A CDATASection is also a Text. */
  datatype DomKind =
    | DomElement | DomDocument | DomText | DomCDataSection | DomComment
    | DomProcessingInstruction | DomAttr | DomOtherNode

  /**
   * A W3C DOM node. The DOM library's serializer (ContentFactory.bytesFromW3cNode)
   * and getNodeValue() are deterministic foreign calls; the node carries their results.
   */
  datatype DomNode = DomNode(kind: DomKind, serialized: seq<byte>, nodeValue: string)

  function BytesFromW3cNode(n: DomNode): seq<byte> {
    n.serialized
  }

  /** An XdmDuration object, known here through its toString() image. */
  datatype XdmDuration = XdmDuration(lexical: string) {
    function ToString(): string {
      lexical
    }
  }

  /** The runtime form of the `Object value` argument. */
  datatype Input =
    | Null
    | JString(s: string)
    | JByteArray(id: nat, bytes: seq<byte>)  // a byte[]: its identity and its contents
    | JInputStream(stream: InputStream)
    | Dom(node: DomNode)
    | JBoolean(b: bool)
    | Duration(duration: XdmDuration)
    | ValueArray(values: seq<XdmValue>)        // XdmValue[] (or an array of any XdmValue subtype)
    | OtherObject(className: string)          // Long, BigInteger, Date, ...

  /** The `instanceof` class an input is checked against. */
  datatype InputForm =
    | NullForm | StringForm | ByteArrayForm | InputStreamForm
    | ElementForm | DocumentForm | TextForm | CommentForm | ProcessingInstructionForm | OtherDomForm
    | BooleanForm | DurationForm | ValueArrayForm | OtherForm

  /** The DOM interface `instanceof` sees; a CDATASection passes the Text check. */
  function DomFormOf(k: DomKind): InputForm {
    match k
    case DomElement => ElementForm
    case DomDocument => DocumentForm
    case DomText | DomCDataSection => TextForm
    case DomComment => CommentForm
    case DomProcessingInstruction => ProcessingInstructionForm
    case _ => OtherDomForm
  }

  function FormOf(i: Input): InputForm {
    match i
    case Null => NullForm
    case JString(_) => StringForm
    case JByteArray(_, _) => ByteArrayForm
    case JInputStream(_) => InputStreamForm
    case Dom(n) => DomFormOf(n.kind)
    case JBoolean(_) => BooleanForm
    case Duration(_) => DurationForm
    case ValueArray(_) => ValueArrayForm
    case OtherObject(_) => OtherForm
  }

  // ---------------------------------------------------------------------
  // Values

  /** What a node was constructed from: a markup String or an InputStream (kept, not copied). */
  datatype NodeContent = FromString(text: string) | FromStream(stream: InputStream)

  /** What an atomic value was constructed from. */
  datatype AtomicContent =
    | Lexical(text: string)           // a String, parsed by the value class
    | BooleanValue(b: bool)           // a java.lang.Boolean
    | HexBytes(bytes: seq<byte>)      // a byte[] for xs:hexBinary
    | Numeric(input: Input)           // whatever was passed to a numeric constructor

  datatype XdmValue =
    | SequenceValue(items: seq<XdmValue>)
    | ElementValue(content: NodeContent)
    | DocumentValue(content: NodeContent)
    | TextValue(content: NodeContent)
    | CommentValue(content: NodeContent)
    | ProcessingInstructionValue(content: NodeContent)
    | BinaryValue(stream: InputStream)
    | AtomicValue(kind: AtomicKind, atomic: AtomicContent)

  /** The ValueType of a value's runtime class. */
  function TagOf(v: XdmValue): ValueKind {
    match v
    case SequenceValue(_) => Sequence
    case ElementValue(_) => Element
    case DocumentValue(_) => Document
    case TextValue(_) => Text
    case CommentValue(_) => Comment
    case ProcessingInstructionValue(_) => ProcessingInstruction
    case BinaryValue(_) => Binary
    case AtomicValue(k, _) => k
  }

  /** A namespaced name: XName with its (possibly empty) namespace URI. */
  datatype XName = XName(namespace: string, localName: string)
}
