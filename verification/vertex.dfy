/** `Vertex` of model/vertex.py: an immutable wrapper around one element, compared,
    hashed and printed through that element. Elements in this program are integers
    (the generated network numbers its nodes) or strings (labels typed by a user). */
module Vertices {
  import opened Text

  datatype Element = IntElement(i: int) | StrElement(s: string)

  /** `str(element)`. */
  function ElementString(e: Element): string
  {
    match e
    case IntElement(i) => IntToString(i)
    case StrElement(s) => s
  }

  /** A vertex; the datatype destructor `element` is the accessor `element()`, and
      datatype equality is `__eq__` between two vertices (equal elements). */
  datatype Vertex = Vertex(element: Element)

  /** Any Python value a vertex may be compared with. */
  datatype PyObject = VertexObject(vertex: Vertex) | PlainObject(value: Element)

  /** `v == other`: true only for a vertex whose element equals v's. */
  function Equals(v: Vertex, other: PyObject): (r: bool)
    ensures r <==> other == VertexObject(v)
    ensures other.PlainObject? ==> !r
  {
    other.VertexObject? && other.vertex.element == v.element
  }

  /** `hash(v)`: the element's hash; Python's hash of an element is a parameter. */
  function Hash(v: Vertex, elementHash: Element -> int): int
  {
    elementHash(v.element)
  }

  /** Equal vertices hash alike, whatever the element hash is. */
  lemma EqualsImpliesEqualHash(v: Vertex, w: Vertex, elementHash: Element -> int)
    requires Equals(v, VertexObject(w))
    ensures Hash(v, elementHash) == Hash(w, elementHash)
  {
  }

  /** `str(v)`. */
  function Str(v: Vertex): string
  {
    ElementString(v.element)
  }

  /** `str(o)` of any value a vertex may be compared with. */
  function ObjectString(o: PyObject): string
  {
    match o
    case VertexObject(v) => Str(v)
    case PlainObject(e) => ElementString(e)
  }

  /** The string form does not identify a vertex: the integer 1 and the string "1"
      print alike although the two vertices differ. */
  lemma StrNotInjective()
    ensures Str(Vertex(IntElement(1))) == Str(Vertex(StrElement("1")))
    ensures !Equals(Vertex(IntElement(1)), VertexObject(Vertex(StrElement("1"))))
  {
    assert NatToString(1) == "1";
  }

  /** Distinct non-negative integers have distinct decimal forms: the form determines its
      value. */
  lemma NatToStringInjective(a: nat, b: nat)
    requires NatToString(a) == NatToString(b)
    ensures a == b
  {
    NatToStringValue(a);
    NatToStringValue(b);
  }

  /** Among integer elements, `str` is injective: distinct integer vertices print differently. */
  lemma IntStrInjective(v: Vertex, w: Vertex)
    requires v.element.IntElement? && w.element.IntElement?
    requires Str(v) == Str(w)
    ensures v == w
  {
    IntToStringInjective(v.element.i, w.element.i);
  }

  /** Distinct integers print differently: the sign and the digits determine the value. */
  lemma IntToStringInjective(i: int, j: int)
    requires IntToString(i) == IntToString(j)
    ensures i == j
  {
    IntToStringValue(i);
    IntToStringValue(j);
  }

  /** Integer vertices print with digits and a sign only, so never contain `mark` otherwise. */
  lemma IntStrAvoids(v: Vertex, mark: char)
    requires v.element.IntElement?
    requires mark != '-' && !('0' <= mark <= '9')
    ensures Avoids(Str(v), mark)
  {
    var i := v.element.i;
    if i < 0 {
      assert Str(v) == "-" + NatToString(-i);
    }
  }
}
