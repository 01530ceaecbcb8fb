/**
 * A test read back from the adapter's result file, and the fully qualified
 * name it is known by in the test platform (KarmaTestAdapter/TestResults/Test.cs).
 *
 * The XML attribute lookups and the `Suite` class are outside this model: a
 * test carries the values its getters return, and its parent suite is given
 * by that suite's own fully qualified name.
 */
module TestResults {
  import opened Wrappers
  import opened Text

  /** The hierarchy separator of a qualified name. */
  const Separator: char := '.'

  /** What takes the place of a separator inside a test's own name. */
  const Placeholder: char := '-'

  /** A test node: its name, the qualified name of its parent suite (if any) and its attributes. */
  datatype Test = Test(
    name: string,
    parentSuite: Option<string>,
    framework: string,
    line: Option<int>,
    column: Option<int>,
    index: Option<int>)

  /** The test's name with every separator replaced by the placeholder. */
  function SanitizedName(name: string): (r: string)
    ensures |r| == |name| && Separator !in r
  {
    Replace(name, Separator, Placeholder)
  }

  /**
   * The test's own segment of its qualified name: the sanitised name, '#', and the
   * index as `string.Format` renders an `int?` (nothing at all when it is null).
   */
  function Segment(name: string, index: Option<int>): (r: string)
    ensures Separator !in r
    ensures |r| > |name|
    ensures r[..|name|] == SanitizedName(name) && r[|name|] == '#'
    ensures index.None? <==> r[|r| - 1] == '#'
  {
    var digits := FormatNullableInt(index);
    var r := SanitizedName(name) + "#" + digits;
    assert r[|name| + 1..] == digits;
    r
  }

  /** Test.FullyQualifiedName: the segment, prefixed by the parent suite's qualified name and a separator. */
  function FullyQualifiedName(t: Test): (q: string)
    ensures var segment := Segment(t.name, t.index);
      |q| >= |segment| && q[|q| - |segment|..] == segment
    ensures Separator in q <==> t.parentSuite.Some?
  {
    var segment := Segment(t.name, t.index);
    match t.parentSuite
    case None => segment
    case Some(parent) => parent + [Separator] + segment
  }

  /** The pieces a qualified name is made of. */
  datatype NameParts = NameParts(parentSuite: Option<string>, sanitizedName: string, index: Option<int>)

  /**
   * Splits a qualified name at its last separator (the parent's name before it)
   * and the segment at its last '#' (the index after it).
   */
  function ParseQualifiedName(q: string): (r: Option<NameParts>)
  {
    match LastIndexOf(q, Separator)
    case None => ParseSegment(None, q)
    case Some(d) => ParseSegment(Some(q[..d]), q[d + 1..])
  }

  function ParseSegment(parent: Option<string>, segment: string): (r: Option<NameParts>)
  {
    match LastIndexOf(segment, '#')
    case None => None
    case Some(h) =>
      match ParseNullableInt(segment[h + 1..])
      case None => None
      case Some(index) => Some(NameParts(parent, segment[..h], index))
  }

  /** A segment reads back as its sanitised name and its index. */
  lemma SegmentParts(parent: Option<string>, name: string, index: Option<int>)
    ensures ParseSegment(parent, Segment(name, index)) == Some(NameParts(parent, SanitizedName(name), index))
  {
    var digits := FormatNullableInt(index);
    assert Segment(name, index) == SanitizedName(name) + ['#'] + digits;
    LastIndexOfSplit(SanitizedName(name), '#', digits);
    FormatNullableIntRoundTrip(index);
  }

  /** The qualified name determines the parent's name, the sanitised name and the index. */
  lemma QualifiedNameRoundTrip(t: Test)
    ensures ParseQualifiedName(FullyQualifiedName(t))
         == Some(NameParts(t.parentSuite, SanitizedName(t.name), t.index))
  {
    var segment := Segment(t.name, t.index);
    SegmentParts(t.parentSuite, t.name, t.index);
    if t.parentSuite.None? {
      assert FullyQualifiedName(t) == segment;
      assert LastIndexOf(segment, Separator) == None;
    } else {
      var parent := t.parentSuite.value;
      assert FullyQualifiedName(t) == parent + [Separator] + segment;
      ParseNested(parent, segment);
    }
  }

  /** A name with a separator splits at it when the part after it holds no separator. */
  lemma ParseNested(parent: string, segment: string)
    requires Separator !in segment
    ensures ParseQualifiedName(parent + [Separator] + segment) == ParseSegment(Some(parent), segment)
  {
    var q := parent + [Separator] + segment;
    LastIndexOfSplit(parent, Separator, segment);
    assert q[..|parent|] == parent;
    assert q[|parent| + 1..] == segment;
  }

  /**
   * Two tests get the same qualified name exactly when they have the same parent,
   * the same sanitised name and the same index.
   */
  lemma QualifiedNameInjective(t1: Test, t2: Test)
    ensures FullyQualifiedName(t1) == FullyQualifiedName(t2)
        <==> t1.parentSuite == t2.parentSuite
             && SanitizedName(t1.name) == SanitizedName(t2.name)
             && t1.index == t2.index
  {
    QualifiedNameRoundTrip(t1);
    QualifiedNameRoundTrip(t2);
    if t1.parentSuite == t2.parentSuite && SanitizedName(t1.name) == SanitizedName(t2.name) {
      assert |t1.name| == |t2.name|;
      assert Segment(t1.name, t1.index) == SanitizedName(t1.name) + "#" + FormatNullableInt(t1.index);
      assert Segment(t2.name, t2.index) == SanitizedName(t2.name) + "#" + FormatNullableInt(t2.index);
    }
  }

  /** Tests with the same name under the same suite are told apart by their index. */
  lemma IndexDisambiguates(t1: Test, t2: Test)
    requires t1.name == t2.name && t1.parentSuite == t2.parentSuite
    ensures FullyQualifiedName(t1) == FullyQualifiedName(t2) <==> t1.index == t2.index
  {
    QualifiedNameInjective(t1, t2);
  }

  /** Without a parent suite the qualified name is the segment alone and holds no separator. */
  lemma TopLevelName(t: Test)
    requires t.parentSuite.None?
    ensures FullyQualifiedName(t) == SanitizedName(t.name) + "#" + FormatNullableInt(t.index)
    ensures Separator !in FullyQualifiedName(t)
  {
  }

  /** Under a parent suite the qualified name is the parent's name, a separator, and the segment. */
  lemma NestedName(t: Test)
    requires t.parentSuite.Some?
    ensures var q := FullyQualifiedName(t);
      |q| > |t.parentSuite.value|
      && q[..|t.parentSuite.value|] == t.parentSuite.value
      && q[|t.parentSuite.value|] == Separator
      && q[|t.parentSuite.value| + 1..] == Segment(t.name, t.index)
  {
    var q := FullyQualifiedName(t);
    assert q == t.parentSuite.value + [Separator] + Segment(t.name, t.index);
  }

  /** A null index leaves a bare '#' at the end of the qualified name. */
  lemma NullIndexEndsWithHash(t: Test)
    requires t.index.None?
    ensures var q := FullyQualifiedName(t); |q| > 0 && q[|q| - 1] == '#'
  {
  }

  /** Only the parent, the name and the index enter the qualified name. */
  lemma QualifiedNameIgnoresAttributes(t1: Test, t2: Test)
    requires t1.name == t2.name && t1.parentSuite == t2.parentSuite && t1.index == t2.index
    ensures FullyQualifiedName(t1) == FullyQualifiedName(t2)
  {
  }

  /**
   * Sanitising is not injective: "a.b" and "a-b" under one suite, each the first test
   * of its name, get the same qualified name.
   */
  lemma SanitizingCollides(parent: Option<string>)
    ensures FullyQualifiedName(Test("a.b", parent, "jasmine", None, None, Some(0)))
         == FullyQualifiedName(Test("a-b", parent, "jasmine", None, None, Some(0)))
  {
    QualifiedNameInjective(Test("a.b", parent, "jasmine", None, None, Some(0)),
                           Test("a-b", parent, "jasmine", None, None, Some(0)));
  }

  /** The spec "Spec 2" in suite path ["suite1", "suite2"], first of its name. */
  lemma ExampleName()
    ensures FullyQualifiedName(Test("Spec 2", Some("suite1.suite2"), "jasmine", Some(8), Some(13), Some(0)))
         == "suite1.suite2.Spec 2#0"
  {
    assert SanitizedName("Spec 2") == "Spec 2";
    assert FormatNullableInt(Some(0)) == "0";
    assert Segment("Spec 2", Some(0)) == "Spec 2#0";
    var t := Test("Spec 2", Some("suite1.suite2"), "jasmine", Some(8), Some(13), Some(0));
    assert FullyQualifiedName(t) == "suite1.suite2" + [Separator] + "Spec 2#0";
  }
}
