/**
 * ValueFactory: the static factory that builds XDM values and variables from
 * a requested ValueType and an untyped input object. Dispatch is two-level:
 * first the category of the ValueType, then the exact kind; each kind accepts
 * only some runtime forms of input and rejects the rest with
 * IllegalArgumentException.
 */
module ValueFactory {
  import opened Wrappers
  import opened Utf8
  import opened Types
  import opened Exceptions

  // ---------------------------------------------------------------------
  // Reference definitions

  /**
   * The input forms each kind accepts, read off the instanceof tests of the
   * factory's branches (only the five markup and text-like node factories list
   * theirs in their Javadoc).
   */
  predicate Accepts(kind: ValueKind, form: InputForm) {
    match CategoryOf(kind)
    case SequenceCategory => form == ValueArrayForm
    case NodeCategory => NodeAccepts(kind, form)
    case AtomicCategory => AtomicAccepts(kind, form)
  }

  /** The node kinds: markup and text-like nodes take a String, an InputStream or the matching DOM node. */
  predicate NodeAccepts(kind: ValueKind, form: InputForm) {
    match kind
    case Node | Element => (form == StringForm || form == InputStreamForm || form == ElementForm)
    case Document => (form == StringForm || form == InputStreamForm || form == DocumentForm)
    case Text => (form == StringForm || form == InputStreamForm || form == TextForm)
    case Comment => (form == StringForm || form == InputStreamForm || form == CommentForm)
    case ProcessingInstruction => (form == StringForm || form == InputStreamForm || form == ProcessingInstructionForm)
    case Binary => (form == StringForm || form == ByteArrayForm || form == InputStreamForm)
    case _ => false
  }

  /** The atomic kinds: numbers take anything, four groups take one extra form, the rest a String only. */
  predicate AtomicAccepts(kind: ValueKind, form: InputForm) {
    if IsNumericKind(kind) then true
    else if kind == XsBoolean then (form == BooleanForm || form == StringForm)
    else if IsDurationKind(kind) then (form == DurationForm || form == StringForm)
    else if kind == XsHexBinary then (form == ByteArrayForm || form == StringForm)
    else form == StringForm
  }

  /** The kind of value the factory builds for a requested kind: NODE stands for ELEMENT. */
  function Resolve(kind: ValueKind): ValueKind {
    if kind == Node then Element else kind
  }

  /** The InputStream a value wraps, if it was built over one. */
  function StreamOf(v: XdmValue): Option<InputStream> {
    match v
    case ElementValue(FromStream(st)) => Some(st)
    case DocumentValue(FromStream(st)) => Some(st)
    case TextValue(FromStream(st)) => Some(st)
    case CommentValue(FromStream(st)) => Some(st)
    case ProcessingInstructionValue(FromStream(st)) => Some(st)
    case BinaryValue(st) => Some(st)
    case _ => None
  }

  /** The lexical text an atomic value was built from, if any. */
  function LexicalOf(v: XdmValue): Option<string> {
    if v.AtomicValue? && v.atomic.Lexical? then Some(v.atomic.text) else None
  }

  // ---------------------------------------------------------------------
  // The factory

  /**
   * assertStringArg: succeeds exactly on a String. It returns the String so
   * that the caller's cast is part of the same step.
   */
  function AssertStringArg(value: Input): (r: Result<string, Error>)
    ensures r.Success? <==> FormOf(value) == StringForm
    ensures r.Success? ==> value == JString(r.value)
    ensures r.Failure? ==> r.error == IllegalArgument
  {
    if value.JString? then Success(value.s) else Failure(IllegalArgument)
  }

  /** Element construction from a markup String, an InputStream or a DOM Element. */
  function NewElement(value: Input): (r: Result<XdmValue, Error>)
    ensures r.Success? <==> Accepts(Element, FormOf(value))
    ensures value.JString? ==> r == Success(ElementValue(FromString(value.s)))
    ensures value.JInputStream? ==> r == Success(ElementValue(FromStream(value.stream)))
    ensures FormOf(value) == ElementForm ==>
              r == Success(ElementValue(FromStream(ByteArrayStream(NewArray(BytesFromW3cNode(value.node))))))
    ensures r.Failure? ==> r.error == IllegalArgument
  {
    if value.JString? then Success(ElementValue(FromString(value.s)))
    else if value.JInputStream? then Success(ElementValue(FromStream(value.stream)))
    else if FormOf(value) == ElementForm then
      Success(ElementValue(FromStream(ByteArrayStream(NewArray(BytesFromW3cNode(value.node))))))
    else Failure(IllegalArgument)
  }

  /** Document construction from a markup String, an InputStream or a DOM Document. */
  function NewDocumentNode(value: Input): (r: Result<XdmValue, Error>)
    ensures r.Success? <==> Accepts(Document, FormOf(value))
    ensures value.JString? ==> r == Success(DocumentValue(FromString(value.s)))
    ensures value.JInputStream? ==> r == Success(DocumentValue(FromStream(value.stream)))
    ensures FormOf(value) == DocumentForm ==>
              r == Success(DocumentValue(FromStream(ByteArrayStream(NewArray(BytesFromW3cNode(value.node))))))
    ensures r.Failure? ==> r.error == IllegalArgument
  {
    if value.JString? then Success(DocumentValue(FromString(value.s)))
    else if value.JInputStream? then Success(DocumentValue(FromStream(value.stream)))
    else if FormOf(value) == DocumentForm then
      Success(DocumentValue(FromStream(ByteArrayStream(NewArray(BytesFromW3cNode(value.node))))))
    else Failure(IllegalArgument)
  }

  /** Text construction from a String, an InputStream or a DOM Text (the node's value is kept). */
  function NewTextNode(value: Input): (r: Result<XdmValue, Error>)
    ensures r.Success? <==> Accepts(Text, FormOf(value))
    ensures value.JString? ==> r == Success(TextValue(FromString(value.s)))
    ensures value.JInputStream? ==> r == Success(TextValue(FromStream(value.stream)))
    ensures FormOf(value) == TextForm ==> r == Success(TextValue(FromString(value.node.nodeValue)))
    ensures r.Failure? ==> r.error == IllegalArgument
  {
    if value.JString? then Success(TextValue(FromString(value.s)))
    else if value.JInputStream? then Success(TextValue(FromStream(value.stream)))
    else if FormOf(value) == TextForm then Success(TextValue(FromString(value.node.nodeValue)))
    else Failure(IllegalArgument)
  }

  /** Comment construction from a String, an InputStream or a DOM Comment (the node's value is kept). */
  function NewCommentNode(value: Input): (r: Result<XdmValue, Error>)
    ensures r.Success? <==> Accepts(Comment, FormOf(value))
    ensures value.JString? ==> r == Success(CommentValue(FromString(value.s)))
    ensures value.JInputStream? ==> r == Success(CommentValue(FromStream(value.stream)))
    ensures FormOf(value) == CommentForm ==> r == Success(CommentValue(FromString(value.node.nodeValue)))
    ensures r.Failure? ==> r.error == IllegalArgument
  {
    if value.JString? then Success(CommentValue(FromString(value.s)))
    else if value.JInputStream? then Success(CommentValue(FromStream(value.stream)))
    else if FormOf(value) == CommentForm then Success(CommentValue(FromString(value.node.nodeValue)))
    else Failure(IllegalArgument)
  }

  /** Processing-instruction construction from a String, an InputStream or a DOM ProcessingInstruction. */
  function NewProcessingInstructionNode(value: Input): (r: Result<XdmValue, Error>)
    ensures r.Success? <==> Accepts(ProcessingInstruction, FormOf(value))
    ensures value.JString? ==> r == Success(ProcessingInstructionValue(FromString(value.s)))
    ensures value.JInputStream? ==> r == Success(ProcessingInstructionValue(FromStream(value.stream)))
    ensures FormOf(value) == ProcessingInstructionForm ==>
              r == Success(ProcessingInstructionValue(FromString(value.node.nodeValue)))
    ensures r.Failure? ==> r.error == IllegalArgument
  {
    if value.JString? then Success(ProcessingInstructionValue(FromString(value.s)))
    else if value.JInputStream? then Success(ProcessingInstructionValue(FromStream(value.stream)))
    else if FormOf(value) == ProcessingInstructionForm then
      Success(ProcessingInstructionValue(FromString(value.node.nodeValue)))
    else Failure(IllegalArgument)
  }

  /**
   * Binary construction: a String is stored as a new array of its UTF-8 bytes,
   * a byte[] is wrapped as it is (the caller's array, not a copy), an InputStream as given.
   */
  function NewBinaryNode(value: Input): (r: Result<XdmValue, Error>)
    ensures r.Success? <==> Accepts(Binary, FormOf(value))
    ensures value.JString? ==> r == Success(BinaryValue(ByteArrayStream(NewArray(Encode(value.s)))))
    ensures value.JByteArray? ==> r == Success(BinaryValue(ByteArrayStream(CallerArray(value.id, value.bytes))))
    ensures value.JInputStream? ==> r == Success(BinaryValue(value.stream))
    ensures r.Failure? ==> r.error == IllegalArgument
  {
    if value.JString? then Success(BinaryValue(ByteArrayStream(NewArray(Encode(value.s)))))
    else if value.JByteArray? then Success(BinaryValue(ByteArrayStream(CallerArray(value.id, value.bytes))))
    else if value.JInputStream? then Success(BinaryValue(value.stream))
    else Failure(IllegalArgument)
  }

  /** newSequence: a sequence of exactly the given values, in order, possibly empty. */
  function NewSequence(values: seq<XdmValue>): (r: XdmValue)
    ensures TagOf(r) == Sequence && r.items == values
  {
    SequenceValue(values)
  }

  /** newSequenceValue: only an XdmValue[] is accepted. */
  function NewSequenceValue(value: Input): (r: Result<XdmValue, Error>)
    ensures r.Success? <==> FormOf(value) == ValueArrayForm
    ensures r.Success? ==> r.value == SequenceValue(value.values)
    ensures r.Failure? ==> r.error == IllegalArgument
  {
    if value.ValueArray? then Success(NewSequence(value.values)) else Failure(IllegalArgument)
  }

  /**
   * newNodeValue: NODE is built as ELEMENT; ATTRIBUTE (and any kind that is
   * not a node kind) falls through to InternalError.
   */
  function NewNodeValue(kind: ValueKind, value: Input): (r: Result<XdmValue, Error>)
    ensures CategoryOf(kind) == NodeCategory && kind != Attribute ==>
              (r.Success? <==> Accepts(kind, FormOf(value))) &&
              (r.Success? ==> TagOf(r.value) == Resolve(kind)) &&
              (r.Failure? ==> r.error == IllegalArgument)
    ensures kind == Node ==> r == NewElement(value)
    ensures kind == Attribute || CategoryOf(kind) != NodeCategory ==> r == Failure(InternalError)
  {
    if kind == Element then NewElement(value)
    else if kind == Node then NewElement(value)
    else if kind == Text then NewTextNode(value)
    else if kind == Binary then NewBinaryNode(value)
    else if kind == Comment then NewCommentNode(value)
    else if kind == Document then NewDocumentNode(value)
    else if kind == ProcessingInstruction then NewProcessingInstructionNode(value)
    else Failure(InternalError)
  }

  /** The branch shared by the kinds guarded by assertStringArg alone: the String is the lexical form. */
  function StringAtomic(kind: AtomicKind, value: Input): (r: Result<XdmValue, Error>)
    ensures r.Success? <==> FormOf(value) == StringForm
    ensures r.Success? ==> r.value == AtomicValue(kind, Lexical(value.s))
    ensures r.Failure? ==> r.error == IllegalArgument
  {
    var s :- AssertStringArg(value);
    Success(AtomicValue(kind, Lexical(s)))
  }

  /** xs:boolean: a Boolean is kept as the value, a String as its lexical form; nothing else. */
  function NewBooleanAtomic(value: Input): (r: Result<XdmValue, Error>)
    ensures r.Success? <==> Accepts(XsBoolean, FormOf(value))
    ensures value.JBoolean? ==> r == Success(AtomicValue(XsBoolean, BooleanValue(value.b)))
    ensures value.JString? ==> r == Success(AtomicValue(XsBoolean, Lexical(value.s)))
    ensures r.Failure? ==> r.error == IllegalArgument
  {
    if value.JBoolean? then Success(AtomicValue(XsBoolean, BooleanValue(value.b)))
    else if value.JString? then Success(AtomicValue(XsBoolean, Lexical(value.s)))
    else Failure(IllegalArgument)
  }

  /** The three duration kinds: an XdmDuration is taken as its toString(), otherwise a String is required. */
  function NewDurationAtomic(kind: AtomicKind, value: Input): (r: Result<XdmValue, Error>)
    requires IsDurationKind(kind)
    ensures r.Success? <==> Accepts(kind, FormOf(value))
    ensures value.Duration? ==> r == Success(AtomicValue(kind, Lexical(value.duration.ToString())))
    ensures value.JString? ==> r == Success(AtomicValue(kind, Lexical(value.s)))
    ensures r.Failure? ==> r.error == IllegalArgument
  {
    if value.Duration? then Success(AtomicValue(kind, Lexical(value.duration.ToString())))
    else StringAtomic(kind, value)
  }

  /** xs:hexBinary: a byte[] is kept as the bytes, otherwise a String is required. */
  function NewHexBinaryAtomic(value: Input): (r: Result<XdmValue, Error>)
    ensures r.Success? <==> Accepts(XsHexBinary, FormOf(value))
    ensures value.JByteArray? ==> r == Success(AtomicValue(XsHexBinary, HexBytes(value.bytes)))
    ensures value.JString? ==> r == Success(AtomicValue(XsHexBinary, Lexical(value.s)))
    ensures r.Failure? ==> r.error == IllegalArgument
  {
    if value.JByteArray? then Success(AtomicValue(XsHexBinary, HexBytes(value.bytes)))
    else StringAtomic(XsHexBinary, value)
  }

  /** The atomic kinds are exactly the numeric, boolean, duration, hexBinary and String-only kinds. */
  lemma AtomicKindGroups(kind: ValueKind)
    ensures CategoryOf(kind) == AtomicCategory <==>
              IsNumericKind(kind) || kind == XsBoolean || IsDurationKind(kind) || kind == XsHexBinary || IsStringOnlyKind(kind)
  {
  }

  /**
   * newAtomicValue: the chain of ValueType tests, with the kinds that share a
   * branch taken together. The numeric constructors take any Object and their
   * checks are not part of this model: the input is kept as given. A kind
   * that is not atomic falls through to IllegalStateException.
   */
  function NewAtomicValue(kind: ValueKind, value: Input): (r: Result<XdmValue, Error>)
    ensures CategoryOf(kind) == AtomicCategory ==>
              (r.Success? <==> Accepts(kind, FormOf(value))) &&
              (r.Success? ==> TagOf(r.value) == kind) &&
              (r.Failure? ==> r.error == IllegalArgument)
    ensures CategoryOf(kind) != AtomicCategory ==> r == Failure(IllegalState)
  {
    AtomicKindGroups(kind);
    if IsNumericKind(kind) then Success(AtomicValue(kind, Numeric(value)))
    else if kind == XsBoolean then NewBooleanAtomic(value)
    else if IsDurationKind(kind) then NewDurationAtomic(kind, value)
    else if kind == XsHexBinary then NewHexBinaryAtomic(value)
    else if IsStringOnlyKind(kind) then StringAtomic(kind, value)
    else Failure(IllegalState)
  }

  /**
   * newValue: category first, then kind. The result is accepted exactly when
   * the input's form is one the kind accepts, and then carries the requested
   * kind (ELEMENT for NODE); every rejection is IllegalArgumentException except
   * ATTRIBUTE, which no branch constructs.
   */
  function NewValue(kind: ValueKind, value: Input): (r: Result<XdmValue, Error>)
    ensures r.Success? <==> Accepts(kind, FormOf(value))
    ensures r.Success? ==> TagOf(r.value) == Resolve(kind) && CategoryOf(TagOf(r.value)) == CategoryOf(kind)
    ensures r.Failure? ==> r.error == (if kind == Attribute then InternalError else IllegalArgument)
  {
    match CategoryOf(kind)
    case SequenceCategory => NewSequenceValue(value)
    case NodeCategory => NewNodeValue(kind, value)
    case AtomicCategory => NewAtomicValue(kind, value)
  }

  /** newXSDuration(String). */
  function NewXSDuration(value: string): (r: XdmValue)
    ensures TagOf(r) == XsDuration && LexicalOf(r) == Some(value)
  {
    AtomicValue(XsDuration, Lexical(value))
  }

  /** newXSDuration(XdmDuration): the duration's string form. */
  function NewXSDurationFromDuration(duration: XdmDuration): (r: XdmValue)
    ensures r == NewXSDuration(duration.ToString())
    ensures Success(r) == NewValue(XsDuration, Duration(duration))
  {
    NewXSDuration(duration.ToString())
  }

  // ---------------------------------------------------------------------
  // Variables

  /** A Java object compared against a variable by equals(). */
  datatype JavaObject = VariableObject(variable: XdmVar) | NonVariableObject

  /** XdmVar: an immutable (name, value) pair whose identity is its name. */
  datatype XdmVar = XdmVar(name: XName, value: XdmValue) {
    /** getName: the name the variable was made with. */
    function GetName(): (n: XName)
      ensures n == name
    {
      name
    }

    /** getValue: the value the variable was made with. */
    function GetValue(): (v: XdmValue)
      ensures v == value
    {
      value
    }

    /** equals(): true exactly for another variable with an equal name. */
    predicate Equals(obj: JavaObject)
      ensures obj.VariableObject? && obj.variable.GetName() == GetName() ==> Equals(obj)
      ensures Equals(obj) ==> obj.VariableObject? && obj.variable.GetName() == GetName()
    {
      obj.VariableObject? && name == obj.variable.GetName()
    }

    /** hashCode(): the name's hash; XName.hashCode itself is not part of this model. */
    function HashCode(nameHash: XName -> int): (h: int)
      ensures h == nameHash(GetName())
    {
      nameHash(name)
    }
  }

  /** newVariable: binds any value, including a sequence, to the name. */
  function NewVariable(name: XName, value: XdmValue): (v: XdmVar)
    ensures v.GetName() == name && v.GetValue() == value
  {
    XdmVar(name, value)
  }
}
