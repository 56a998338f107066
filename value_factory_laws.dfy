/** Properties of ValueFactory that relate several calls or several kinds. */
module ValueFactoryLaws {
  import opened Wrappers
  import opened Bytes
  import opened Utf8
  import opened Types
  import opened Exceptions
  import opened ValueFactory

  /** SEQUENCE accepts only an XdmValue[] and yields exactly those values, in order (an empty array included). */
  lemma SequenceFromArrayOnly(value: Input)
    ensures !value.ValueArray? ==> NewValue(Sequence, value) == Failure(IllegalArgument)
    ensures value.ValueArray? ==> NewValue(Sequence, value) == Success(NewSequence(value.values))
    ensures value.ValueArray? ==>
              var items := NewValue(Sequence, value).value.items;
              |items| == |value.values| && forall i | 0 <= i < |items| :: items[i] == value.values[i]
  {
  }

  /** NODE is treated as ELEMENT: the same inputs accepted, with the same result. */
  lemma NodeIsElement(value: Input)
    ensures NewValue(Node, value) == NewValue(Element, value)
  {
  }

  /**
   * Element and document construction accept only a String, an InputStream or
   * the matching DOM node, and a DOM node is stored as the bytes its serializer gives.
   */
  lemma MarkupNodeInputs(kind: ValueKind, value: Input)
    requires kind == Element || kind == Document
    ensures NewValue(kind, value).Success? <==>
              value.JString? || value.JInputStream? ||
              (value.Dom? && value.node.kind == (if kind == Element then DomElement else DomDocument))
    ensures value.Dom? && NewValue(kind, value).Success? ==>
              StreamOf(NewValue(kind, value).value) == Some(ByteArrayStream(NewArray(BytesFromW3cNode(value.node))))
  {
  }

  /**
   * Text, comment and processing-instruction construction take the DOM node's
   * value; a CDATA section passes the Text check.
   */
  lemma TextLikeNodeInputs(value: Input)
    requires value.Dom?
    ensures NewValue(Text, value).Success? <==> (value.node.kind == DomText || value.node.kind == DomCDataSection)
    ensures NewValue(Comment, value).Success? <==> value.node.kind == DomComment
    ensures NewValue(ProcessingInstruction, value).Success? <==> value.node.kind == DomProcessingInstruction
  {
  }

  /** Binary construction accepts a String, a byte[] or an InputStream and nothing else. */
  lemma BinaryInputs(value: Input)
    ensures NewValue(Binary, value).Success? <==> value.JString? || value.JByteArray? || value.JInputStream?
  {
  }

  /**
   * A String given for a binary node is stored as its UTF-8 bytes, and those
   * bytes decode back to the same String: nothing of the text is lost.
   */
  lemma BinaryFromStringKeepsText(s: string)
    ensures NewValue(Binary, JString(s)) == Success(BinaryValue(ByteArrayStream(NewArray(Encode(s)))))
    ensures Decode(NewValue(Binary, JString(s)).value.stream.buffer.contents) == Some(s)
  {
    assert NewValue(Binary, JString(s)) == NewBinaryNode(JString(s));
    DecodeEncode(s);
  }

  /**
   * A byte[] given for a binary node is wrapped, not copied: the node reads the
   * caller's own array, so it sees what is in that array. A String instead gets
   * an array of its own.
   */
  lemma BinaryByteArrayIsShared(id: nat, bytes: seq<byte>, s: string)
    ensures NewValue(Binary, JByteArray(id, bytes)) == Success(BinaryValue(ByteArrayStream(CallerArray(id, bytes))))
    ensures NewValue(Binary, JString(s)).Success? && NewValue(Binary, JString(s)).value.stream.buffer.NewArray?
  {
  }

  /** Two different Strings never give the same binary node. */
  lemma BinaryFromStringInjective(s: string, t: string)
    requires NewValue(Binary, JString(s)) == NewValue(Binary, JString(t))
    ensures s == t
  {
    EncodeInjective(s, t);
  }

  /** An InputStream is wrapped as given, never copied, by every node kind that takes one. */
  lemma StreamIsWrappedNotCopied(kind: ValueKind, st: InputStream)
    requires CategoryOf(kind) == NodeCategory && kind != Attribute
    ensures NewValue(kind, JInputStream(st)).Success?
    ensures StreamOf(NewValue(kind, JInputStream(st)).value) == Some(st)
  {
  }

  /**
   * Every kind guarded by assertStringArg alone rejects anything but a String,
   * and a value built from a String keeps exactly that text.
   */
  lemma StringOnlyKinds(kind: ValueKind, value: Input)
    requires IsStringOnlyKind(kind)
    ensures NewValue(kind, value).Success? <==> value.JString?
    ensures !value.JString? ==> NewValue(kind, value) == Failure(IllegalArgument)
    ensures value.JString? ==> LexicalOf(NewValue(kind, value).value) == Some(value.s)
  {
  }

  /** xs:boolean accepts a Boolean or a String only. */
  lemma BooleanInputs(value: Input)
    ensures NewValue(XsBoolean, value).Success? <==> value.JBoolean? || value.JString?
    ensures value.JBoolean? ==> NewValue(XsBoolean, value) == Success(AtomicValue(XsBoolean, BooleanValue(value.b)))
  {
  }

  /** xs:hexBinary accepts a byte[] or a String, and keeps the bytes of a byte[]. */
  lemma HexBinaryInputs(value: Input)
    ensures NewValue(XsHexBinary, value).Success? <==> value.JByteArray? || value.JString?
    ensures value.JByteArray? ==> NewValue(XsHexBinary, value) == Success(AtomicValue(XsHexBinary, HexBytes(value.bytes)))
  {
  }

  /** xs:base64Binary accepts a String only: a byte[] is refused, not coerced. */
  lemma Base64BinaryInputs(value: Input)
    ensures NewValue(XsBase64Binary, value).Success? <==> value.JString?
    ensures value.JByteArray? ==> NewValue(XsBase64Binary, value) == Failure(IllegalArgument)
  {
  }

  /** For the three duration kinds, an XdmDuration gives the same value as its toString(). */
  lemma DurationIsItsString(kind: ValueKind, d: XdmDuration)
    requires IsDurationKind(kind)
    ensures NewValue(kind, Duration(d)) == NewValue(kind, JString(d.ToString()))
  {
  }

  /** The numeric kinds accept every input and keep it for their own constructor. */
  lemma NumericKindsAcceptAll(kind: ValueKind, value: Input)
    requires IsNumericKind(kind)
    ensures NewValue(kind, value) == Success(AtomicValue(kind, Numeric(value)))
  {
  }

  /** A factory failure is a local input error: none of its errors carries a retryable flag. */
  lemma FactoryErrorsAreNotRetryable(kind: ValueKind, value: Input)
    ensures NewValue(kind, value).Failure? ==>
              NewValue(kind, value).error in {IllegalArgument, InternalError, IllegalState}
    ensures NewValue(kind, value).Failure? ==> !IsRetryable(NewValue(kind, value).error)
  {
  }

  // ---------------------------------------------------------------------
  // Variables

  /** Two variables are equal exactly when their names are, whatever their values. */
  lemma VariableEqualityIsByName(a: XdmVar, b: XdmVar)
    ensures a.Equals(VariableObject(b)) <==> a.GetName() == b.GetName()
    ensures !a.Equals(NonVariableObject)
  {
  }

  /** Variable equality is an equivalence relation. */
  lemma VariableEqualityIsEquivalence(a: XdmVar, b: XdmVar, c: XdmVar)
    ensures a.Equals(VariableObject(a))
    ensures a.Equals(VariableObject(b)) ==> b.Equals(VariableObject(a))
    ensures a.Equals(VariableObject(b)) && b.Equals(VariableObject(c)) ==> a.Equals(VariableObject(c))
  {
  }

  /** Equal variables have equal hash codes, for any hash function on names. */
  lemma VariableHashAgreesWithEquals(a: XdmVar, b: XdmVar, nameHash: XName -> int)
    requires a.Equals(VariableObject(b))
    ensures a.HashCode(nameHash) == b.HashCode(nameHash)
  {
  }

  /** Rebinding a name to another value gives a variable equal to the first. */
  lemma RebindingKeepsIdentity(name: XName, v1: XdmValue, v2: XdmValue)
    ensures NewVariable(name, v1).Equals(VariableObject(NewVariable(name, v2)))
  {
  }
}
