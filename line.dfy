/**
 * class Line of src/terminal/Grid.h: a buffer of cells plus a set of line
 * flags (Wrappable, Wrapped, Marked).
 */
module Lines {
  import Cells

  /**
   * enum class Line::Flags : uint8_t, modelled like CellFlags as the set of
   * its bit positions: None = {}, Wrappable = bit 0, Wrapped = bit 1, Marked = bit 2.
   */
  type LineFlags = s: set<nat> | forall i :: i in s ==> i < 8

  const NoFlags: LineFlags := {}
  const Wrappable: LineFlags := {0}
  const Wrapped: LineFlags := {1}
  const Marked: LineFlags := {2}

  /** The flags a line passes on to the lines it is split into or joined with. */
  const Inheritables: LineFlags := {0, 2}

  /** operator|(Line::Flags, Line::Flags). */
  function FlagsUnion(a: LineFlags, b: LineFlags): (r: LineFlags)
    ensures forall i :: i in r <==> i in a || i in b
  {
    a + b
  }

  /** operator&(Line::Flags, Line::Flags): whether the two share a flag. */
  predicate FlagsIntersect(a: LineFlags, b: LineFlags)
    ensures FlagsIntersect(a, b) <==> exists i :: i in a && i in b
  {
    assert (exists i :: i in a && i in b) ==> a * b != {} by {
      if exists i :: i in a && i in b {
        var i :| i in a && i in b;
        assert i in a * b;
      }
    }
    a * b != {}
  }

  /**
   * The flag word after setFlag(f, enable): f's bits are all set when enabling
   * and all cleared when disabling; every other bit keeps its value.
   */
  function WithFlag(flags: LineFlags, f: LineFlags, enable: bool): (r: LineFlags)
    ensures FlagsIntersect(r, f) <==> enable && f != NoFlags
    ensures enable ==> f <= r
    ensures r - f == flags - f
  {
    if enable then flags + f else flags - f
  }

  class Line {
    var buffer: seq<Cells.Cell>
    /** flags_: an `unsigned` that only ever receives bits of the uint8_t Flags. */
    var flags: LineFlags

    /** The cells are distinct objects, as the elements of a std::vector are. */
    ghost predicate Valid()
      reads this, buffer
    {
      && (forall i, j :: 0 <= i < j < |buffer| ==> buffer[i] != buffer[j])
      && (forall i :: 0 <= i < |buffer| ==> buffer[i].Valid())
    }

    /** Line(numCols, defaultCell, flags): numCols copies of the default cell. */
    constructor (numCols: nat, defaultCell: Cells.Cell, f: LineFlags)
      requires defaultCell.Valid()
      ensures Valid() && |buffer| == numCols && flags == f
      ensures forall i :: 0 <= i < numCols ==> fresh(buffer[i])
      ensures forall i :: 0 <= i < numCols ==>
                && buffer[i].codepoints == defaultCell.codepoints
                && buffer[i].width == defaultCell.width
                && buffer[i].attributes == defaultCell.attributes
    {
      var cells: seq<Cells.Cell> := [];
      while |cells| < numCols
        invariant |cells| <= numCols
        invariant forall i :: 0 <= i < |cells| ==> fresh(cells[i]) && cells[i].Valid()
        invariant forall i :: 0 <= i < |cells| ==>
                    && cells[i].codepoints == defaultCell.codepoints
                    && cells[i].width == defaultCell.width
                    && cells[i].attributes == defaultCell.attributes
        invariant forall i, j :: 0 <= i < j < |cells| ==> cells[i] != cells[j]
      {
        var c := new Cells.Cell.Copy(defaultCell);
        cells := cells + [c];
      }
      buffer := cells;
      flags := f;
    }

    /** Line::size. */
    function Size(): (n: nat)
      reads this
      ensures n == |buffer|
    {
      |buffer|
    }

    /**
     * Line::reset: every cell becomes blank with the given attributes; the
     * line keeps its cells, its size and its flags.
     */
    method Reset(a: Cells.GraphicsAttributes)
      requires Valid()
      modifies buffer
      ensures Valid()
      ensures buffer == old(buffer) && flags == old(flags)
      ensures forall i :: 0 <= i < |buffer| ==> buffer[i].IsResetTo(a)
    {
      var i := 0;
      while i < |buffer|
        invariant 0 <= i <= |buffer|
        invariant forall k :: 0 <= k < i ==> buffer[k].IsResetTo(a)
        invariant forall k :: 0 <= k < |buffer| ==> buffer[k].Valid()
      {
        buffer[i].Reset(a);
        i := i + 1;
      }
    }

    /** Line::flags: each named flag is in the word exactly when the line has it. */
    function Flags(): (r: LineFlags)
      reads this
      ensures Wrappable <= r <==> IsWrappable()
      ensures Wrapped <= r <==> IsWrapped()
      ensures Marked <= r <==> IsMarked()
      ensures InheritableFlags() <= r
    {
      flags
    }

    /** Line::isFlagEnabled: whether the line has any bit of `f`. */
    predicate IsFlagEnabled(f: LineFlags)
      reads this
      ensures IsFlagEnabled(f) <==> exists i :: i in f && i in flags
      ensures f == NoFlags ==> !IsFlagEnabled(f)
    {
      FlagsIntersect(flags, f)
    }

    /** Line::setFlag. */
    method SetFlag(f: LineFlags, enable: bool)
      modifies this
      ensures flags == WithFlag(old(flags), f, enable)
      ensures IsFlagEnabled(f) <==> enable && f != NoFlags
      ensures buffer == old(buffer)
    {
      if enable {
        flags := flags + f;
      } else {
        flags := flags - f;
      }
    }

    /** Line::inheritableFlags: the flags masked to Wrappable | Marked. */
    function InheritableFlags(): (r: LineFlags)
      reads this
      ensures !FlagsIntersect(r, Wrapped)
      ensures FlagsIntersect(r, Wrappable) <==> IsFlagEnabled(Wrappable)
      ensures FlagsIntersect(r, Marked) <==> IsFlagEnabled(Marked)
      ensures r <= flags && r <= Inheritables
    {
      flags * Inheritables
    }

    /** Line::marked: bit 2 of the flag word. */
    predicate IsMarked()
      reads this
      ensures IsMarked() <==> 2 in flags
    {
      IsFlagEnabled(Marked)
    }

    /** Line::wrapped: bit 1 of the flag word. */
    predicate IsWrapped()
      reads this
      ensures IsWrapped() <==> 1 in flags
    {
      IsFlagEnabled(Wrapped)
    }

    /** Line::wrappable: bit 0 of the flag word. */
    predicate IsWrappable()
      reads this
      ensures IsWrappable() <==> 0 in flags
    {
      IsFlagEnabled(Wrappable)
    }

    method SetMarked(enable: bool)
      modifies this
      ensures IsMarked() == enable
      ensures flags - Marked == old(flags) - Marked && buffer == old(buffer)
    {
      SetFlag(Marked, enable);
    }

    method SetWrapped(enable: bool)
      modifies this
      ensures IsWrapped() == enable
      ensures flags - Wrapped == old(flags) - Wrapped && buffer == old(buffer)
    {
      SetFlag(Wrapped, enable);
    }

    method SetWrappable(enable: bool)
      modifies this
      ensures IsWrappable() == enable
      ensures flags - Wrappable == old(flags) - Wrappable && buffer == old(buffer)
    {
      SetFlag(Wrappable, enable);
    }

    /** Line::wrappableFlag: Wrappable when the line is wrappable, else None. */
    function WrappableFlag(): (r: LineFlags)
      reads this
      ensures r == Wrappable || r == NoFlags
      ensures r == Wrappable <==> IsWrappable()
    {
      if IsWrappable() then Wrappable else NoFlags
    }

    /** Line::markedFlag: Marked when the line is marked, else None. */
    function MarkedFlag(): (r: LineFlags)
      reads this
      ensures r == Marked || r == NoFlags
      ensures r == Marked <==> IsMarked()
    {
      if IsMarked() then Marked else NoFlags
    }
  }

  /** The inheritable flags of a line are exactly its wrappable and marked flags. */
  lemma InheritableFlagsSplit(line: Line)
    ensures line.InheritableFlags() == FlagsUnion(line.WrappableFlag(), line.MarkedFlag())
  {
  }
}
