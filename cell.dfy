/**
 * The smallest unit of the screen grid (src/terminal/Grid.h): the CellFlags
 * style bitset, the graphics attributes a cell carries, and Cell itself, a
 * grapheme cluster of at most MaxCodepoints codepoints with a display width.
 */
module Cells {

  /** A char32_t. */
  newtype Codepoint = c: int | 0 <= c < 0x1_0000_0000

  /**
   * The display width the Unicode width table (unicode::width, a library that
   * is not part of this model) assigns to a codepoint: 0, 1 or 2 columns.
   */
  type Width = w: int | 0 <= w <= 2

  /** unicode::width, supplied by the caller of every operation that consults it. */
  type WidthTable = Codepoint -> Width

  /** Cell::MaxCodepoints: one base codepoint and up to eight combining ones. */
  const MaxCodepoints: nat := 9

  // {{{ CellFlags

  /**
   * enum class CellFlags : uint32_t, a bitset. It is modelled as the set of the
   * positions of its set bits: `|` is union, `&` intersection, `~` complement
   * within the 32 positions, and "no bit set" the empty set.
   */
  type CellFlags = s: set<nat> | forall i :: i in s ==> i < 32

  const Bold: CellFlags := {0}
  const Faint: CellFlags := {1}
  const Italic: CellFlags := {2}
  const Underline: CellFlags := {3}
  const Blinking: CellFlags := {4}
  const Inverse: CellFlags := {5}
  const Hidden: CellFlags := {6}
  const CrossedOut: CellFlags := {7}
  const DoublyUnderlined: CellFlags := {8}
  const CurlyUnderlined: CellFlags := {9}
  const DottedUnderline: CellFlags := {10}
  const DashedUnderline: CellFlags := {11}
  const Framed: CellFlags := {12}
  const Encircled: CellFlags := {13}
  const Overline: CellFlags := {14}
  const Image: CellFlags := {15}
  const Hover: CellFlags := {16}
  const CellSequenceStart: CellFlags := {17}
  const CellSequenceEnd: CellFlags := {18}

  /** All 32 bits set. */
  function AllFlags(): (r: CellFlags)
    ensures forall i: nat :: i in r <==> i < 32
  {
    {0, 1, 2, 3, 4, 5, 6, 7, 8, 9, 10, 11, 12, 13, 14, 15,
     16, 17, 18, 19, 20, 21, 22, 23, 24, 25, 26, 27, 28, 29, 30, 31}
  }

  /** operator& on CellFlags: whether the two sets share a bit. */
  predicate Intersects(a: CellFlags, b: CellFlags)
    ensures Intersects(a, b) <==> exists i :: i in a && i in b
  {
    assert (exists i :: i in a && i in b) ==> a * b != {} by {
      if exists i :: i in a && i in b {
        var i :| i in a && i in b;
        assert i in a * b;
      }
    }
    a * b != {}
  }

  /** contains_all: (base & test) == test, every bit of `test` is in `base`. */
  predicate ContainsAll(base: CellFlags, test: CellFlags)
    ensures ContainsAll(base, test) <==> forall i :: i in test ==> i in base
  {
    base * test == test
  }

  /** operator| and operator|=: the union of two flag sets. */
  function Merge(a: CellFlags, b: CellFlags): (r: CellFlags)
    ensures ContainsAll(r, a) && ContainsAll(r, b)
    ensures forall i :: i in r ==> i in a || i in b
  {
    a + b
  }

  /** operator&=: the bits both sets hold. */
  function Mask(a: CellFlags, b: CellFlags): (r: CellFlags)
    ensures ContainsAll(a, r) && ContainsAll(b, r)
    ensures forall i :: i in a && i in b ==> i in r
  {
    a * b
  }

  /** operator~: the complement of a flag set among the 32 bits. */
  function Invert(a: CellFlags): (r: CellFlags)
    ensures !Intersects(a, r)
    ensures Merge(a, r) == AllFlags()
  {
    AllFlags() - a
  }

  /** operator!: whether no bit at all is set. */
  predicate NoneSet(a: CellFlags)
    ensures NoneSet(a) <==> forall i :: i !in a
  {
    a == {}
  }

  /** A flag set with exactly one bit, such as each named flag above. */
  predicate IsSingleFlag(f: CellFlags) {
    exists i :: i in f && f == {i}
  }

  /** Testing a single flag with operator& and with contains_all agree. */
  lemma SingleFlagTest(a: CellFlags, f: CellFlags)
    requires IsSingleFlag(f)
    ensures Intersects(a, f) <==> ContainsAll(a, f)
  {
  }

  /** A set contains another exactly when merging the other in changes nothing. */
  lemma ContainsAllIffMergeAbsorbs(a: CellFlags, b: CellFlags)
    ensures ContainsAll(a, b) <==> Merge(a, b) == a
  {
  }

  /** A merged set meets `t` exactly when one of its parts does. */
  lemma IntersectsMerge(a: CellFlags, b: CellFlags, t: CellFlags)
    ensures Intersects(Merge(a, b), t) <==> Intersects(a, t) || Intersects(b, t)
  {
  }

  /** The union is the least set containing both parts, the meet the greatest set inside both. */
  lemma MergeLeastMaskGreatest(a: CellFlags, b: CellFlags, c: CellFlags)
    ensures ContainsAll(c, a) && ContainsAll(c, b) ==> ContainsAll(c, Merge(a, b))
    ensures ContainsAll(a, c) && ContainsAll(b, c) ==> ContainsAll(Mask(a, b), c)
  {
  }

  /** Complementing twice gives the set back; a set is empty exactly when it meets nothing. */
  lemma InvertInvolutive(a: CellFlags)
    ensures Invert(Invert(a)) == a
    ensures NoneSet(a) <==> !Intersects(a, AllFlags())
  {
  }
  // }}}

  // {{{ GraphicsAttributes

  /**
   * A colour reference (src/terminal/Color.h is not part of this model): the
   * terminal's default colour or some other colour, compared by equality.
   */
  datatype Color = DefaultColor | OtherColor(code: nat)

  /**
   * struct GraphicsAttributes. Its operator== compares the four fields, which
   * is the datatype's own equality.
   */
  datatype GraphicsAttributes = GraphicsAttributes(
    foregroundColor: Color,
    backgroundColor: Color,
    underlineColor: Color,
    styles: CellFlags)

  /** GraphicsAttributes{}: default colours, no style flags. */
  const DefaultAttributes := GraphicsAttributes(DefaultColor, DefaultColor, DefaultColor, {})
  // }}}

  /**
   * The width a cell takes when it is given a non-zero codepoint: the table's
   * width, but never less than one column (std::max(unicode::width(c), 1)).
   */
  function CharacterWidth(c: Codepoint, widthOf: WidthTable): (w: int)
    ensures 1 <= w <= 2
    ensures widthOf(c) == 0 ==> w == 1
    ensures widthOf(c) != 0 ==> w == widthOf(c)
  {
    if widthOf(c) < 1 then 1 else widthOf(c)
  }

  /** class Cell: a grid cell with its characters and graphics rendition. */
  class Cell {
    /** The grapheme cluster; empty for a blank cell. */
    var codepoints: seq<Codepoint>
    /** Number of columns the cell spans, a uint8_t. */
    var width: int
    var attributes: GraphicsAttributes

    ghost predicate Valid()
      reads this
    {
      |codepoints| <= MaxCodepoints && 0 <= width < 256
    }

    /** Whether this cell is blank with the given attributes, as reset leaves it. */
    ghost predicate IsResetTo(a: GraphicsAttributes)
      reads this
    {
      codepoints == [] && width == 1 && attributes == a
    }

    /** Cell(codepoint, attributes). */
    constructor (c: Codepoint, attrib: GraphicsAttributes, widthOf: WidthTable)
      ensures Valid()
      ensures c != 0 ==> codepoints == [c] && width == CharacterWidth(c, widthOf)
      ensures c == 0 ==> codepoints == [] && width == 1
      ensures attributes == attrib
    {
      codepoints := [];
      width := 1;
      attributes := attrib;
      if c != 0 {
        codepoints := [c];
        width := CharacterWidth(c, widthOf);
      }
    }

    /** Cell{}: blank, one column wide, default attributes. */
    constructor Blank()
      ensures Valid() && IsResetTo(DefaultAttributes)
    {
      codepoints := [];
      width := 1;
      attributes := DefaultAttributes;
    }

    /** The copy constructor Cell(Cell const&). */
    constructor Copy(other: Cell)
      requires other.Valid()
      ensures Valid()
      ensures codepoints == other.codepoints && width == other.width && attributes == other.attributes
    {
      codepoints := other.codepoints;
      width := other.width;
      attributes := other.attributes;
    }

    /** Cell::reset: clears the characters and sets the attributes. */
    method Reset(a: GraphicsAttributes := DefaultAttributes)
      modifies this
      ensures Valid() && IsResetTo(a)
    {
      attributes := a;
      width := 1;
      codepoints := [];
    }

    /** Cell::empty: a cell without codepoints. */
    predicate Empty()
      reads this
      ensures Empty() <==> codepoints == []
      ensures Empty() && width == 1 ==> IsResetTo(attributes)
    {
      |codepoints| == 0
    }

    /** Cell::setCharacter: the cell holds exactly `c`, or nothing when `c` is 0. */
    method SetCharacter(c: Codepoint, widthOf: WidthTable)
      modifies this
      ensures Valid()
      ensures c != 0 ==> codepoints == [c] && width == CharacterWidth(c, widthOf)
      ensures c == 0 ==> codepoints == [] && width == 1
      ensures attributes == old(attributes)
    {
      if c != 0 {
        codepoints := [c];
        width := CharacterWidth(c, widthOf);
      } else {
        codepoints := [];
        width := 1;
      }
    }

    /**
     * Cell::appendCharacter: adds a combining codepoint while there is room for
     * it. The width a variation selector would call for is never applied, since
     * AllowWidthChange is fixed to false, so the width stays and 0 is returned.
     */
    method AppendCharacter(c: Codepoint) returns (widthChange: int)
      requires Valid()
      modifies this
      ensures Valid()
      ensures widthChange == 0
      ensures old(|codepoints|) < MaxCodepoints ==> codepoints == old(codepoints) + [c]
      ensures old(|codepoints|) >= MaxCodepoints ==> codepoints == old(codepoints)
      ensures width == old(width) && attributes == old(attributes)
    {
      if |codepoints| < MaxCodepoints {
        codepoints := codepoints + [c];
      }
      widthChange := 0;
    }

    /** Cell::setWidth: the int is narrowed to the uint8_t field, modulo 256. */
    method SetWidth(w: int)
      requires Valid()
      modifies this
      ensures Valid()
      ensures width == w % 256
      ensures 0 <= w < 256 ==> width == w
      ensures codepoints == old(codepoints) && attributes == old(attributes)
    {
      width := w % 256;
    }

    /** Cell::setAttributes. */
    method SetAttributes(a: GraphicsAttributes)
      modifies this
      ensures attributes == a
      ensures codepoints == old(codepoints) && width == old(width)
    {
      attributes := a;
    }

    /**
     * operator==(Cell, Cell): equal codepoint counts, equal attributes, then
     * the codepoints compared one by one. The width takes no part.
     */
    method Equals(other: Cell) returns (equal: bool)
      ensures equal <==> codepoints == other.codepoints && attributes == other.attributes
    {
      if |codepoints| != |other.codepoints| {
        return false;
      }
      if attributes != other.attributes {
        return false;
      }
      var i := 0;
      while i < |codepoints|
        invariant 0 <= i <= |codepoints|
        invariant codepoints[..i] == other.codepoints[..i]
      {
        if codepoints[i] != other.codepoints[i] {
          return false;
        }
        i := i + 1;
      }
      assert codepoints == codepoints[..i];
      assert other.codepoints == other.codepoints[..i];
      return true;
    }
  }
}
