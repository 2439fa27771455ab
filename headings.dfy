/**
 * getHeadingGeometry (headings.js): the parameters of the extruded text made
 * for a page heading h1, h2 or h3. The text geometry itself, built by the
 * font library, is not part of this model; its parameters are.
 */
module Headings {
  import opened Text

  /** Font size by heading level: FONT_SIZES[level - 1]. */
  const FontSizes: seq<real> := [25.0, 20.0, 15.0]

  /** The options handed to the text geometry, with the text to extrude. */
  datatype TextParams = TextParams(
    text: string,
    size: real,
    depth: real,
    bevelEnabled: bool,
    bevelThickness: real,
    bevelSize: real,
    bevelOffset: real,
    bevelSegments: nat)

  /**
   * The heading level read off the tag name: lower-case it, drop its first
   * 'h' and read the rest as a number. None when the rest is not a number.
   */
  function HeadingLevel(tagName: string): (level: Option<nat>)
    ensures level.Some? <==> AllDigits(Trim(RemoveFirst(Lower(tagName), 'h')))
  {
    ParseNumber(RemoveFirst(Lower(tagName), 'h'))
  }

  /** The tag name of a heading of level n, as the document reports it. */
  function TagName(n: nat): string
    requires n <= 9
  {
    ['H', DigitChar(n)]
  }

  /** Reading the level back from a tag name H1 ... H9 gives its digit. */
  lemma HeadingLevelOfTagName(n: nat)
    requires n <= 9
    ensures HeadingLevel(TagName(n)) == Some(n)
  {
    var d := DigitChar(n);
    var lowered := Lower(TagName(n));
    assert lowered == ['h', d];
    assert RemoveFirst(lowered, 'h') == [d] by {
      RemoveFirstAt(lowered, 'h', 0);
    }
    assert Trim([d]) == [d] by {
      DigitIsNotWhitespace(d);
    }
    assert DecimalValue([d]) == n by {
      assert [d][..0] == [];
    }
  }

  /** Lower-case and upper-case tag names name the same level. */
  lemma HeadingLevelIgnoresCase(tagName: string)
    ensures HeadingLevel(Upper(tagName)) == HeadingLevel(tagName)
  {
    LowerOfUpper(tagName);
  }

  /** The font size of a level: 25, 20 and 15 for h1, h2 and h3. */
  function FontSize(level: nat): (size: real)
    requires 1 <= level <= |FontSizes|
    ensures size > 0.0
    ensures size == 25.0 - 5.0 * (level - 1) as real
  {
    FontSizes[level - 1]
  }

  /** Deeper headings get smaller type. */
  lemma FontSizeDecreasing(i: nat, j: nat)
    requires 1 <= i < j <= |FontSizes|
    ensures FontSize(i) > FontSize(j)
  {
  }

  /**
   * The parameters for a heading: its text upper-cased, the level's font size,
   * a depth of two fifths of the size and a one-segment bevel of a fiftieth
   * of the size. None when the level has no font size (not h1, h2 or h3).
   */
  function HeadingGeometry(tagName: string, textContent: string): (r: Option<TextParams>)
    ensures r.Some? <==> HeadingLevel(tagName).Some? && 1 <= HeadingLevel(tagName).value <= 3
    ensures r.Some? ==> r.value.text == Upper(textContent)
                        && r.value.size == FontSize(HeadingLevel(tagName).value)
  {
    match HeadingLevel(tagName)
    case None => None
    case Some(level) =>
      if 1 <= level <= |FontSizes| then
        var size := FontSize(level);
        Some(TextParams(
          text := Upper(textContent),
          size := size,
          depth := 2.0 * size / 5.0,
          bevelEnabled := true,
          bevelThickness := size / 50.0,
          bevelSize := size / 50.0,
          bevelOffset := 0.0,
          bevelSegments := 1))
      else
        None
  }

  /** Every heading's extrusion keeps the same proportions, whatever its size. */
  lemma HeadingProportions(tagName: string, textContent: string)
    requires HeadingGeometry(tagName, textContent).Some?
    ensures var p := HeadingGeometry(tagName, textContent).value;
      p.depth == 20.0 * p.bevelSize
      && p.bevelThickness == p.bevelSize
      && p.size == 50.0 * p.bevelSize
      && p.bevelEnabled && p.bevelOffset == 0.0 && p.bevelSegments == 1
  {
  }

  /** An h1 heading: size 25, depth 10, bevel 0.5, text in capitals. */
  lemma FirstLevelHeading(textContent: string)
    ensures HeadingGeometry(TagName(1), textContent)
         == Some(TextParams(Upper(textContent), 25.0, 10.0, true, 0.5, 0.5, 0.0, 1))
  {
    HeadingLevelOfTagName(1);
  }

  /** The sizes of h1, h2 and h3 headings. */
  lemma HeadingSizes(textContent: string)
    ensures HeadingGeometry(TagName(1), textContent).Some?
         && HeadingGeometry(TagName(1), textContent).value.size == 25.0
    ensures HeadingGeometry(TagName(2), textContent).Some?
         && HeadingGeometry(TagName(2), textContent).value.size == 20.0
    ensures HeadingGeometry(TagName(3), textContent).Some?
         && HeadingGeometry(TagName(3), textContent).value.size == 15.0
  {
    HeadingLevelOfTagName(1);
    HeadingLevelOfTagName(2);
    HeadingLevelOfTagName(3);
  }

  /** Levels without a font size, such as h4 or h0, give no parameters. */
  lemma NoGeometryOutsideLevels(n: nat)
    requires n == 0 || 4 <= n <= 9
    ensures HeadingGeometry(TagName(n), []) == None
  {
    HeadingLevelOfTagName(n);
  }
}
