/**
 * The C++ array type of the type-representation library: an element type
 * with cv-qualifiers and a length, a checked downcast from the general type
 * representation, and the generation of the array's C++ spelling.
 */
module CxxArrayType {
  import opened Wrappers
  import Decimal

  /** `unsigned long`, the width of the stored length. */
  type ULong = x: nat | x < 0x1_0000_0000_0000_0000

  /** The kind tag of a type representation. */
  datatype RepresentationType = ArrayTypeId | OtherTypeId(kind: string)

  /**
   * A reference to some type together with its const and volatile flags.
   * The referenced type itself lives outside this model; it is named by `id`.
   */
  datatype CvQualifiedType = CvQualifiedType(id: nat, isConst: bool, isVolatile: bool)

  /** An array type: the element type and the number of elements. */
  datatype ArrayType = ArrayType(elementType: CvQualifiedType, length: ULong)

  /** A type representation: an array, or a type of some other kind. */
  datatype Type = Array(arrayType: ArrayType) | Other(kind: string)

  /** What a failed downcast throws: the type it was given and the kind it wanted. */
  datatype TypeDownCastException = TypeDownCastException(from: Option<Type>, to: RepresentationType)

  /**
   * How the element type spells itself: given the element, the indirection
   * to wrap and the const/volatile flags, its C++ spelling. It is code this
   * model does not see, so it is a parameter.
   */
  type ElementNamer = (CvQualifiedType, string, bool, bool) -> string

  /** The constructor: the element type and length are stored unchanged. */
  function NewArrayType(elementType: CvQualifiedType, length: ULong): (a: ArrayType)
    ensures a.elementType == elementType && a.length == length
  {
    ArrayType(elementType, length)
  }

  /** The kind tag each representation reports; an array reports `ArrayTypeId`. */
  function GetRepresentationType(t: Type): (r: RepresentationType)
    ensures r == ArrayTypeId <==> t.Array?
  {
    match t
    case Array(_) => ArrayTypeId
    case Other(kind) => OtherTypeId(kind)
  }

  /**
   * The checked downcast. The type is passed by pointer, `None` standing for
   * the null pointer; both the const and the non-const overload behave so.
   */
  function SafeDownCast(t: Option<Type>): (r: Result<ArrayType, TypeDownCastException>)
    ensures r.Success? <==> t.Some? && GetRepresentationType(t.value) == ArrayTypeId
    ensures r.Success? ==> t == Some(Array(r.value))
    ensures r.Failure? ==> r.error == TypeDownCastException(t, ArrayTypeId)
  {
    if t.Some? && t.value.Array? then Success(t.value.arrayType)
    else Failure(TypeDownCastException(t, ArrayTypeId))
  }

  /**
   * The C++ spelling of the array with `indirection` applied, as the source
   * builds it: the parenthesised indirection is computed and then not used.
   */
  function GenerateName(a: ArrayType, elementName: ElementNamer, indirection: string,
                        isConst: bool, isVolatile: bool): (name: string)
    ensures elementName(a.elementType, "", isConst, isVolatile) + indirection <= name
    ensures |name| >= |Decimal.Decimal(a.length)| + 2
    ensures name[|name| - |Decimal.Decimal(a.length)| - 2..] == "[" + Decimal.Decimal(a.length) + "]"
  {
    var lengthStr := Decimal.Decimal(a.length);
    var indirect := if |indirection| > 0 then "(" + indirection + ")" else "";
    elementName(a.elementType, "", isConst, isVolatile) + indirection + "[" + lengthStr + "]"
  }

  /** The spelling as intended: a non-empty indirection is parenthesised. */
  function GenerateNameParenthesised(a: ArrayType, elementName: ElementNamer, indirection: string,
                                     isConst: bool, isVolatile: bool): (name: string)
    ensures |indirection| > 0 ==> elementName(a.elementType, "", isConst, isVolatile) + "(" + indirection + ")" <= name
    ensures |indirection| == 0 ==> name == GenerateName(a, elementName, indirection, isConst, isVolatile)
    ensures |name| >= |Decimal.Decimal(a.length)| + 2
    ensures name[|name| - |Decimal.Decimal(a.length)| - 2..] == "[" + Decimal.Decimal(a.length) + "]"
  {
    var lengthStr := Decimal.Decimal(a.length);
    var indirect := if |indirection| > 0 then "(" + indirection + ")" else "";
    elementName(a.elementType, "", isConst, isVolatile) + indirect + "[" + lengthStr + "]"
  }

  /** The last index of `c` in `s`, if any. */
  function LastIndexOf(s: string, c: char): (r: Option<nat>)
    ensures r.Some? ==> r.value < |s| && s[r.value] == c && forall k :: r.value < k < |s| ==> s[k] != c
    ensures r.None? ==> forall k :: 0 <= k < |s| ==> s[k] != c
  {
    if |s| == 0 then None
    else if s[|s| - 1] == c then Some(|s| - 1)
    else LastIndexOf(s[..|s| - 1], c)
  }

  /** The length an array spelling declares: the digits between its last `[` and the final `]`. */
  function DeclaredLength(name: string): (r: Option<nat>)
    ensures r.Some? ==> exists k :: 0 <= k < |name| - 1 && name[k] == '[' && name[|name| - 1] == ']'
  {
    if |name| == 0 || name[|name| - 1] != ']' then None
    else
      match LastIndexOf(name, '[')
      case None => None
      case Some(k) =>
        var digits := name[k + 1..|name| - 1];
        if |digits| > 0 && Decimal.AllDigits(digits) then Some(Decimal.Atoi(digits)) else None
  }

  /** A spelling that ends in `[` + the decimal length + `]` declares that length. */
  lemma DeclaredLengthOfSuffix(prefix: string, n: nat)
    ensures DeclaredLength(prefix + "[" + Decimal.Decimal(n) + "]") == Some(n)
  {
    var ds := Decimal.Decimal(n);
    var name := prefix + "[" + ds + "]";
    assert name[|prefix|] == '[';
    forall k | |prefix| < k < |name| - 1
      ensures name[k] != '['
    {
      assert name[k] == ds[k - |prefix| - 1];
    }
    assert LastIndexOf(name, '[') == Some(|prefix|);
    assert name[|prefix| + 1..|name| - 1] == ds;
    Decimal.AtoiDecimal(n, []);
    assert ds + [] == ds;
  }

  /** The generated spelling gives back the array's length. */
  lemma LengthRoundTrip(a: ArrayType, elementName: ElementNamer, indirection: string,
                        isConst: bool, isVolatile: bool)
    ensures DeclaredLength(GenerateName(a, elementName, indirection, isConst, isVolatile)) == Some(a.length)
  {
    DeclaredLengthOfSuffix(elementName(a.elementType, "", isConst, isVolatile) + indirection, a.length);
  }

  /**
   * The indirection is spliced in verbatim, just before the `[`, into the
   * spelling of the array itself.
   */
  lemma IndirectionVerbatim(a: ArrayType, elementName: ElementNamer, indirection: string,
                            isConst: bool, isVolatile: bool)
    ensures var base := GenerateName(a, elementName, "", isConst, isVolatile);
      var k := |base| - |Decimal.Decimal(a.length)| - 2;
      0 <= k && GenerateName(a, elementName, indirection, isConst, isVolatile) == base[..k] + indirection + base[k..]
  {
    var e := elementName(a.elementType, "", isConst, isVolatile);
    var tail := "[" + Decimal.Decimal(a.length) + "]";
    var base := GenerateName(a, elementName, "", isConst, isVolatile);
    assert base == e + tail;
    assert base[..|e|] == e && base[|e|..] == tail;
  }

  /**
   * The element is always spelled with no indirection and the flags given:
   * namers that agree there give the same array spelling.
   */
  lemma ElementSpelledPlain(a: ArrayType, n1: ElementNamer, n2: ElementNamer, indirection: string,
                            isConst: bool, isVolatile: bool)
    requires n1(a.elementType, "", isConst, isVolatile) == n2(a.elementType, "", isConst, isVolatile)
    ensures GenerateName(a, n1, indirection, isConst, isVolatile) == GenerateName(a, n2, indirection, isConst, isVolatile)
  {
  }

  /** An element namer for two element types: `int` (id 0) and pointer to `int` (any other id). */
  function IntNamer(e: CvQualifiedType, indirection: string, isConst: bool, isVolatile: bool): (s: string)
    ensures "int" <= s
  {
    (if e.id == 0 then "int" else "int*") + indirection
  }

  /**
   * As written, a pointer to an array of ten `int` and an array of ten
   * pointers to `int` get the same spelling, `int*[10]`.
   */
  lemma PointerToArrayAmbiguous()
    ensures GenerateName(ArrayType(CvQualifiedType(0, false, false), 10), IntNamer, "*", false, false)
         == GenerateName(ArrayType(CvQualifiedType(1, false, false), 10), IntNamer, "", false, false)
    ensures GenerateName(ArrayType(CvQualifiedType(0, false, false), 10), IntNamer, "*", false, false) == "int*[10]"
  {
    assert Decimal.Decimal(10) == Decimal.Decimal(1) + [Decimal.DigitChar(0)];
  }

  /** Two spellings that end in a bracketed length and are equal declare the same length. */
  lemma SameSpellingSameLength(x: string, y: string, m: nat, n: nat)
    requires x + "[" + Decimal.Decimal(m) + "]" == y + "[" + Decimal.Decimal(n) + "]"
    ensures m == n && x == y
  {
    var dm := Decimal.Decimal(m);
    var dn := Decimal.Decimal(n);
    var s := x + "[" + dm + "]";
    var t := y + "[" + dn + "]";
    forall k | |x| < k < |s|
      ensures s[k] != '['
    {
      if k < |s| - 1 {
        assert s[k] == dm[k - |x| - 1];
      }
    }
    forall k | |y| < k < |t|
      ensures t[k] != '['
    {
      if k < |t| - 1 {
        assert t[k] == dn[k - |y| - 1];
      }
    }
    assert s[|x|] == '[' && t[|y|] == '[';
    assert |x| == |y|;
    assert s[..|x|] == x && t[..|y|] == y;
    assert s[|x| + 1..|s| - 1] == dm && t[|y| + 1..|t| - 1] == dn;
    Decimal.DecimalInjective(m, n);
  }

  /**
   * With the parentheses, a pointer to an array can no longer be spelled
   * like an array whose element spelling does not end in `)`.
   */
  lemma ParenthesisedDistinguishes(a1: ArrayType, a2: ArrayType, elementName: ElementNamer,
                                   indirection: string, isConst: bool, isVolatile: bool)
    requires |indirection| > 0
    requires var e2 := elementName(a2.elementType, "", isConst, isVolatile); |e2| == 0 || e2[|e2| - 1] != ')'
    ensures GenerateNameParenthesised(a1, elementName, indirection, isConst, isVolatile)
         != GenerateNameParenthesised(a2, elementName, "", isConst, isVolatile)
  {
    var e1 := elementName(a1.elementType, "", isConst, isVolatile);
    var e2 := elementName(a2.elementType, "", isConst, isVolatile);
    var p1 := e1 + "(" + indirection + ")";
    var n1 := GenerateNameParenthesised(a1, elementName, indirection, isConst, isVolatile);
    var n2 := GenerateNameParenthesised(a2, elementName, "", isConst, isVolatile);
    assert n1 == p1 + "[" + Decimal.Decimal(a1.length) + "]";
    assert n2 == e2 + "[" + Decimal.Decimal(a2.length) + "]";
    if n1 == n2 {
      SameSpellingSameLength(p1, e2, a1.length, a2.length);
    }
  }
}
