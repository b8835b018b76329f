# Terminal grid, control-sequence tables and string parsers, in Dafny

This project models three pieces of a VT terminal emulator's core.

- **The screen grid** (`src/terminal/Grid.h`):
  - `Margin::Range`, an inclusive range of rows or columns.
  - The `CellFlags` style bitset and its operators.
  - `Cell`, a grapheme cluster of at most nine codepoints with a display width and graphics attributes.
  - `Line`, a buffer of cells plus the line flags Wrappable, Wrapped and Marked.
  - `Grid`, one ordered list of lines with the scrollback history first and the visible page of `height` lines last. It covers the conversions between relative rows (1 at the top of the page, 0 and below in the scrollback) and absolute line numbers, cell addressing, the page and scrollback views, and the row-major `render` traversal, which pads short lines with blank cells.
- **The mode and colour tables and the `Sequence` builder** (`src/terminal/Sequencer.h`):
  - The ANSI (SM/RM) and DEC private (DECSET/DECRST) mode tables and their validity predicates.
  - The dynamic-colour OSC number table pair.
  - `Sequence`, the reusable builder for one parsed control function. It holds a category, a leader, parameters with sub-parameters, intermediate characters, a final character and a data string, and `selector()` reduces it to the key the function table is searched by.
- **The string parsers of `crispy/utils.h`**, as their test cases in `src/crispy/utils_test.cpp` pin them down: `splitKeyValuePairs`, `to_integer<2|10|16>` and `fromHexString`.

Files, one module each:

| file | module | contents |
|---|---|---|
| `wrappers.dfy` | `Wrappers` | `Option`, standing for `std::optional` |
| `margin.dfy` | `Margins` | `Margin::Range` |
| `cell.dfy` | `Cells` | `CellFlags`, `Color`, `GraphicsAttributes`, class `Cell` |
| `line.dfy` | `Lines` | `Line::Flags`, class `Line` |
| `grid.dfy` | `Grids` | class `Grid`, the page views, `render` |
| `sequencer.dfy` | `Sequencer` | `AnsiMode`, `DECMode`, `DynamicColorName`, class `Sequence` |
| `utils.dfy` | `Utils` | `splitKeyValuePairs`, `to_integer`, `fromHexString` |

How source types are represented:

- **Classes.** `Cell`, `Line`, `Grid` and `Sequence` update their fields in place in the source, so they are Dafny classes. Their mutators are methods with `modifies` clauses.
- **Values.** Flag sets, attributes, selectors and mode enumerations are datatypes or sets.
- **Bitsets.** A bitset such as `CellFlags` (a `uint32_t`) or `Line::Flags` is represented as the set of its set bit positions:
  - `|` is union and `&` is intersection;
  - `~` is complement within the 32 positions;
  - "no bit set" is the empty set.
- **Display widths.** The Unicode width table (`unicode::width`) is a library outside the model. Every operation that consults it takes it as a parameter `widthOf`, returning 0, 1 or 2 columns.
- **`render`.** In the source it calls a callback once per grid position. The model is a function that returns the sequence of `(coordinate, cell)` pairs the callback receives. A padding cell is `Blank`, the default-constructed `Cell{}`.

## Model

| member | source | states |
|---|---|---|
| `Margins.Range.Length` | src/terminal/Grid.h:60 | both ends count: a non-inverted range's length is the number of values it contains; length is at most 0 exactly when `to < from` |
| `Margins.Range.Contains` | src/terminal/Grid.h:64 | a value is contained exactly when it is among the integers `from..to`, which only a non-inverted range has |
| `Margins.Range.Members` | src/terminal/Grid.h:56-65 | the range's values ascend from `from` one by one, and a value is among them exactly when `contains` holds of it |
| `Margins.ContainsIffOffset` | src/terminal/Grid.h:60-64 | `contains(v)` holds exactly when v's offset from `from` is below `length()` |
| `Cells.AllFlags` | src/terminal/Grid.h:124-128 | the set `~` complements within holds exactly the 32 bit positions 0..31 |
| `Cells.Intersects` | src/terminal/Grid.h:110-114 | `a & b` holds exactly when some bit is in both |
| `Cells.ContainsAll` | src/terminal/Grid.h:116-119 | `contains_all(base, test)` holds exactly when every bit of `test` is in `base` |
| `Cells.NoneSet` | src/terminal/Grid.h:133-137 | `!a` holds exactly when no bit is in `a` |
| `Cells.Merge` | src/terminal/Grid.h:118-122 | `a \| b` contains all of `a` and all of `b`, and nothing else |
| `Cells.Mask` | src/terminal/Grid.h:104-108 | `a &= b` leaves a set inside both operands that keeps every bit they share |
| `Cells.Invert` | src/terminal/Grid.h:124-128 | `~a` shares no bit with `a`, and together they make up all 32 bits |
| `Cells.SingleFlagTest` | src/terminal/Grid.h:110-116 | for a single flag, the `&` test and `contains_all` agree |
| `Cells.ContainsAllIffMergeAbsorbs` | src/terminal/Grid.h:112-122 | `contains_all(a, b)` holds exactly when merging `b` into `a` changes nothing |
| `Cells.IntersectsMerge` | src/terminal/Grid.h:110-122 | a merged set meets `t` exactly when one of its parts does |
| `Cells.MergeLeastMaskGreatest` | src/terminal/Grid.h:98-122 | the union is the least set containing both operands; the meet is the greatest set inside both |
| `Cells.InvertInvolutive` | src/terminal/Grid.h:124-134 | complementing twice gives the set back; `!a` holds exactly when `a` meets no bit |
| `Cells.CharacterWidth` | src/terminal/Grid.h:212-215 | a non-zero codepoint takes its table width, but never less than one column |
| `Cells.Cell.constructor` | src/terminal/Grid.h:205-216 | a non-zero codepoint gives exactly that one codepoint and `max(width, 1)` columns; codepoint 0 gives a blank cell of width 1; the attributes are the given ones |
| `Cells.Cell.Blank` | src/terminal/Grid.h:218-222 | `Cell{}` is blank, one column wide, with default attributes |
| `Cells.Cell.Copy` | src/terminal/Grid.h:250 | the copy holds the original's codepoints, width and attributes |
| `Cells.Cell.Reset` | src/terminal/Grid.h:224-235 | afterwards the cell is empty, one column wide and carries the given attributes, which default to `GraphicsAttributes{}` |
| `Cells.Cell.SetCharacter` | src/terminal/Grid.h:300-315 | a non-zero codepoint leaves exactly that codepoint with width `max(width, 1)`; 0 leaves a blank cell of width 1; the attributes are kept |
| `Cells.Cell.AppendCharacter` | src/terminal/Grid.h:322-353 | the codepoint is appended exactly when fewer than 9 are held, so the count never exceeds 9; the width and attributes are kept and 0 is returned |
| `Cells.Cell.SetWidth` | src/terminal/Grid.h:317-320 | the stored width is the argument narrowed to `uint8_t`, which is the argument itself for 0..255 |
| `Cells.Cell.SetAttributes` | src/terminal/Grid.h:355-358 | only the attributes change |
| `Cells.Cell.Empty` | src/terminal/Grid.h:274 | a cell is empty exactly when it holds no codepoint; an empty cell one column wide is in the state `reset` leaves |
| `Cells.Cell.Equals` | src/terminal/Grid.h:387-400 | two cells compare equal exactly when their codepoint sequences and attributes are equal; the width is ignored |
| `Lines.FlagsUnion` | src/terminal/Grid.h:520-523 | `\|` on line flags holds exactly the bits of either operand |
| `Lines.FlagsIntersect` | src/terminal/Grid.h:525-528 | `&` on line flags holds exactly when some bit is in both |
| `Lines.WithFlag` | src/terminal/Grid.h:505-511 | after setting, the word meets `f` exactly when enabling a non-empty flag; enabling sets all of `f`; the bits outside `f` are unchanged |
| `Lines.Line.constructor` | src/terminal/Grid.h:418-421 | the line holds `numCols` fresh, distinct copies of the default cell, and the given flags |
| `Lines.Line.Size` | src/terminal/Grid.h:461 | the size is the number of cells in the buffer |
| `Lines.Line.Flags` | src/terminal/Grid.h:496 | Wrappable, Wrapped and Marked are each in the word exactly when the line has that flag, and the inheritable flags lie inside it |
| `Lines.Line.IsFlagEnabled` | src/terminal/Grid.h:513 | holds exactly when the line's word and `f` share a bit, so never for None |
| `Lines.Line.IsMarked` | src/terminal/Grid.h:479 | `marked()` is bit 2 of the flag word |
| `Lines.Line.IsWrapped` | src/terminal/Grid.h:482 | `wrapped()` is bit 1 of the flag word |
| `Lines.Line.IsWrappable` | src/terminal/Grid.h:485 | `wrappable()` is bit 0 of the flag word |
| `Lines.Line.Reset` | src/terminal/Grid.h:437-441 | the line keeps its cells, size and flags, and every cell is blank, one column wide, with the given attributes |
| `Lines.Line.SetFlag` | src/terminal/Grid.h:505-511 | `isFlagEnabled(f)` holds afterwards exactly when enabling a non-empty `f`; the other bits and the buffer are unchanged |
| `Lines.Line.InheritableFlags` | src/terminal/Grid.h:498-503 | the result never holds Wrapped; it holds Wrappable or Marked exactly when the line does; it lies inside both the line's flags and Wrappable \| Marked |
| `Lines.Line.SetMarked` | src/terminal/Grid.h:480 | `marked()` becomes the argument; the other flags and the buffer are unchanged |
| `Lines.Line.SetWrapped` | src/terminal/Grid.h:483 | `wrapped()` becomes the argument; the other flags and the buffer are unchanged |
| `Lines.Line.SetWrappable` | src/terminal/Grid.h:486 | `wrappable()` becomes the argument; the other flags and the buffer are unchanged |
| `Lines.Line.WrappableFlag` | src/terminal/Grid.h:488 | the result is Wrappable exactly when the line is wrappable, None otherwise |
| `Lines.Line.MarkedFlag` | src/terminal/Grid.h:489 | the result is Marked exactly when the line is marked, None otherwise |
| `Lines.InheritableFlagsSplit` | src/terminal/Grid.h:488-503 | the inheritable flags are exactly `wrappableFlag() \| markedFlag()` |
| `Grids.RenderRow` | src/terminal/Grid.h:676-680 | one rendered row has `max(size, width)` positions: column k+1 carries the line's k-th cell while there is one, and a blank cell after that |
| `Grids.RenderRows` | src/terminal/Grid.h:674-681 | every rendered position lies on one of the page's rows and at column 1 or beyond |
| `Grids.RenderRowsLength` | src/terminal/Grid.h:671-682 | rows of exactly `width` cells render to `width` positions each |
| `Grids.RenderRowsRowMajor` | src/terminal/Grid.h:671-682 | on rows of equal width, position `i * width + j` is column j+1 of row i+1 with the cell stored there |
| `Grids.RenderRowsSize` | src/terminal/Grid.h:671-682 | on rows of any size, each row takes `max(size, width)` positions |
| `Grids.RenderRowsLayout` | src/terminal/Grid.h:671-682 | on rows of any size, position k of row i, after the rows above it, is column k+1 with the line's k-th cell, or a blank past the line's end |
| `Grids.Grid.HistoryLineCount` | src/terminal/Grid.h:593 | when the page fits, the history is non-negative and together with the page makes up all stored lines |
| `Grids.Grid.AbsoluteLineAt` | src/terminal/Grid.h:684-693 | an absolute line number in `0..size-1` addresses a stored line (which one: `Grids.AbsoluteLineAtViews`) |
| `Grids.Grid.ToAbsoluteLine` | src/terminal/Grid.h:707-710 | the result is a stored line exactly when the relative row is in `1-historyLineCount..height`; row 1 is absolute line `historyLineCount` |
| `Grids.Grid.ToRelativeLine` | src/terminal/Grid.h:712-715 | as written, converting the result back to absolute lands one line above the input |
| `Grids.Grid.RelativeLine` | src/terminal/Grid.h:554-566 | the corrected conversion inverts `toAbsoluteLine`, and maps stored lines exactly onto rows `1-historyLineCount..height` |
| `Grids.Grid.LineAt` | src/terminal/Grid.h:695-705 | row r is the stored line at `toAbsoluteLine(r)`: rows 1..height are the main page in order, rows 0 and below the scrollback counted from its bottom |
| `Grids.Grid.At` | src/terminal/Grid.h:717-731 | both branches (page rows found from the back, scrollback rows from the front) address column c of `lineAt(r)` |
| `Grids.Grid.LineRange` | src/terminal/Grid.h:733-742 | the const `lines(start, end)` yields `end - start` consecutive stored lines starting at `start` |
| `Grids.Grid.MutableLineRange` | src/terminal/Grid.h:744-753 | the mutable `lines(start, end)` does the same and may also end at the end of storage |
| `Grids.Grid.PageAtScrollOffset` | src/terminal/Grid.h:755-764 | exactly `height` lines, consecutive from absolute line `offset` (or `historyLineCount` without one) |
| `Grids.Grid.MutablePageAtScrollOffset` | src/terminal/Grid.h:766-777 | runs from the offset to the end of storage, so the const page is a prefix of it, and the two agree without an offset |
| `Grids.Grid.MainPage` | src/terminal/Grid.h:779-782 | the main page is the last `height` stored lines |
| `Grids.Grid.MutableMainPage` | src/terminal/Grid.h:784-787 | the mutable main page is the same lines as the const one |
| `Grids.Grid.ScrollbackLines` | src/terminal/Grid.h:789-798 | the scrollback is the first `historyLineCount` lines, and followed by the main page it is all of storage |
| `Grids.Grid.Render` | src/terminal/Grid.h:671-682 | every position `render` visits is on a page row `1..height`, at column 1 or beyond (layout and padding: `Grids.RenderSize`, `Grids.RenderPadsShortRows`) |
| `Grids.PageRowsAreRelativeLines` | src/terminal/Grid.h:755-764 | row k+1 of the page at scroll offset o is `lineAt(o - historyLineCount + k + 1)` |
| `Grids.DefaultOffsetIsMainPage` | src/terminal/Grid.h:779-782 | with no offset the page is the one at offset `historyLineCount`, the main page |
| `Grids.AbsoluteLineAtViews` | src/terminal/Grid.h:684-693 | absolute line n is scrollback line n while n is below `historyLineCount`, and main page line `n - historyLineCount` after that |
| `Grids.RenderVisitsPage` | src/terminal/Grid.h:671-682 | on a grid whose lines are as wide as the page, position `(row-1)*width + (col-1)` of the traversal is `(row, col)` with the cell stored there |
| `Grids.RenderSize` | src/terminal/Grid.h:671-682 | on any grid, lines of any size included, the traversal takes `max(size, width)` positions for each page row |
| `Grids.RenderPadsShortRows` | src/terminal/Grid.h:675-680 | on any grid, column c of page row r, after the rows above it, carries the line's cell while the line has one, and a blank padding cell from `size + 1` up to the page width |
| `Grids.RenderLength` | src/terminal/Grid.h:671-682 | on such a grid the traversal visits exactly `height * width` positions |
| `Grids.RenderAgreesWithAt` | src/terminal/Grid.h:717-726 | on the main page, the cell rendered at `(row, col)` is the one `at` addresses |
| `Grids.ToRelativeLineLosesARow` | src/terminal/Grid.h:707-715 | `toRelativeLine(toAbsoluteLine(r)) == r - 1` for every r |
| `Grids.RelativeLineRoundTrip` | src/terminal/Grid.h:554-566 | the corrected conversion and `toAbsoluteLine` are inverse bijections |
| `Sequencer.ToAnsiModeNum` | src/terminal/Sequencer.h:231-241 | every ANSI mode's number is one of 2, 4, 12, 20 |
| `Sequencer.AnsiModeOfValue` | src/terminal/Sequencer.h:243-254 | the cast yields only the mode whose number is the argument |
| `Sequencer.IsValidAnsiMode` | src/terminal/Sequencer.h:243-254 | holds exactly for 2, 4, 12 and 20 |
| `Sequencer.AnsiModeValidity` | src/terminal/Sequencer.h:231-254 | every mode's number is valid and casts back to that mode |
| `Sequencer.AnsiModeNumInjective` | src/terminal/Sequencer.h:231-241 | distinct ANSI modes have distinct numbers |
| `Sequencer.DECModeOfValue` | src/terminal/Sequencer.h:102-189 | the cast yields only the enumerator whose underlying value is the argument |
| `Sequencer.DECModeValue` | src/terminal/Sequencer.h:102-189 | the 27 implicitly numbered enumerators take the values 0..26; the six explicit ones are above 1000 |
| `Sequencer.DECModeValueRoundTrip` | src/terminal/Sequencer.h:102-189 | every enumerator's underlying value casts back to it |
| `Sequencer.ToDECModeNum` | src/terminal/Sequencer.h:259-298 | for the explicitly numbered enumerators, MouseExtended through TextReflow, the mode number equals the underlying value |
| `Sequencer.IsValidDECMode` | src/terminal/Sequencer.h:300-340 | as written, holds exactly for 0..26, 1005, 1006, 1007, 1015, 2026 and 2027 |
| `Sequencer.IsValidDECModeRejectsModeNumbers` | src/terminal/Sequencer.h:300-340 | as written, it rejects the mode numbers 1000, 1049 and 2004 and 9999, and accepts 0, and 25 as SixelScrolling (mode number 80) although 25 is VisibleCursor's number |
| `Sequencer.DECModeFromNum` | src/terminal/Sequencer.h:259-298 | the corrected lookup yields only a mode whose number is the argument |
| `Sequencer.IsValidDECModeNum` | src/terminal/Sequencer.h:259-298 | the corrected test holds exactly for the 33 numbers of the `toDECModeNum` table |
| `Sequencer.DECModeNumRoundTrip` | src/terminal/Sequencer.h:259-298 | every DEC mode's number is valid under the corrected test and looks up that mode |
| `Sequencer.IsValidDECModeNumIffNamed` | src/terminal/Sequencer.h:259-298 | the corrected test holds exactly for the numbers `toDECModeNum` produces |
| `Sequencer.DECModeNumInjective` | src/terminal/Sequencer.h:259-298 | `toDECModeNum` is injective over all 33 enumerators |
| `Sequencer.GetChangeDynamicColorCommand` | src/terminal/Sequencer.h:344-358 | any number other than 10-14, 17 and 19 maps to DefaultForegroundColor |
| `Sequencer.SetDynamicColorCommand` | src/terminal/Sequencer.h:360-374 | every colour maps to one of 10-14, 17 and 19 |
| `Sequencer.DynamicColorRoundTrip` | src/terminal/Sequencer.h:344-374 | the two tables are inverse: on those seven numbers, and on every colour name |
| `Sequencer.Sequence.constructor` | src/terminal/Sequencer.h:478-484 | a new sequence has no parameters, intermediates or data, and leader and final 0 |
| `Sequencer.Sequence.Clear` | src/terminal/Sequencer.h:488-496 | afterwards the category is C0, the leader and final are 0, and there are no intermediates, parameters or data |
| `Sequencer.Sequence.SetCategory` | src/terminal/Sequencer.h:498 | only the category changes |
| `Sequencer.Sequence.SetLeader` | src/terminal/Sequencer.h:499 | only the leader changes |
| `Sequencer.Sequence.SetFinalChar` | src/terminal/Sequencer.h:502 | only the final character changes |
| `Sequencer.Sequence.Selector` | src/terminal/Sequencer.h:519-535 | OSC (which needs a non-empty first parameter) is keyed by the first parameter's value, with leader, intermediate and final 0; any other category by its leader, parameter count and final, with the intermediate only when there is exactly one |
| `Sequencer.Sequence.ParameterCount` | src/terminal/Sequencer.h:544 | the number of parameters |
| `Sequencer.Sequence.SubParameterCount` | src/terminal/Sequencer.h:545 | the parameter's size less one, which wraps to 2^64 - 1 for an empty parameter |
| `Sequencer.Sequence.Param` | src/terminal/Sequencer.h:560-565 | needs an existing, non-empty parameter; yields its value without sub-parameters |
| `Sequencer.Sequence.Subparam` | src/terminal/Sequencer.h:567-572 | needs `subIndex + 1 < size`; yields the sub-parameter after the value |
| `Sequencer.Sequence.ParamOpt` | src/terminal/Sequencer.h:547-553 | none exactly when the index is out of range or the value is 0, so 0 counts as absent; otherwise the non-zero `param(i)` |
| `Sequencer.Sequence.ParamOr` | src/terminal/Sequencer.h:555-558 | the default exactly where the parameter is missing or 0, `param(i)` otherwise |
| `Sequencer.Sequence.ContainsParameter` | src/terminal/Sequencer.h:574-580 | true exactly when some parameter's value equals the argument |
| `Sequencer.ClearedSelector` | src/terminal/Sequencer.h:488-535 | a cleared sequence selects C0 with no arguments and every character 0, and has no present parameter |
| `Sequencer.SelectorIgnoresParameterValues` | src/terminal/Sequencer.h:525-533 | outside OSC, sequences differing only in parameter values, sub-parameters or data select the same function |
| `Sequencer.SubparamDomain` | src/terminal/Sequencer.h:545-572 | sub-parameter j exists exactly when j is below `subParameterCount(i)` |
| `Sequencer.ParamOrIsParamOpt` | src/terminal/Sequencer.h:547-558 | `param_or(i, d)` is `param_opt(i).value_or(d)` |
| `Utils.Split` | src/crispy/utils_test.cpp:19-51 | a string splits into at least one segment, none holding the delimiter |
| `Utils.JoinSplit` | src/crispy/utils_test.cpp:19-51 | joining the segments with the delimiter gives the string back |
| `Utils.SplitJoin` | src/crispy/utils_test.cpp:19-51 | segments free of the delimiter are exactly what splitting their join gives |
| `Utils.MapOfDistinct` | src/crispy/utils_test.cpp:40-51 | entries with distinct keys give a map with one binding per entry, each entry's own |
| `Utils.SplitKeyValuePairs` | src/crispy/utils_test.cpp:19-51 | the map has one binding per non-empty segment, binding its key to its value, and no other key |
| `Utils.SplitKeyValuePairsEmpty` | src/crispy/utils_test.cpp:19-23 | the empty string gives the empty map |
| `Utils.SplitKeyValuePairsOne` | src/crispy/utils_test.cpp:25-38 | for any key and value, `key=value` alone, with two trailing delimiters or with two leading ones gives exactly `{key: value}` |
| `Utils.SplitKeyValuePairsTwo` | src/crispy/utils_test.cpp:40-51 | two pairs with distinct keys, separated by one or two delimiters, give exactly those two entries |
| `Utils.SplitKeyValuePairsTrailingCase` | src/crispy/utils_test.cpp:31-33 | `"foo=bar::"` gives exactly `{foo: bar}` |
| `Utils.DigitValue` | src/crispy/utils_test.cpp:104-125 | the digits 0-9, a-f and A-F, and no other character, have a value, below 16 |
| `Utils.AccumulateIsPositional` | src/crispy/utils_test.cpp:85-125 | reading digits most significant first yields their positional value |
| `Utils.ToInteger` | src/crispy/utils_test.cpp:79-125 | a value exactly for a non-empty string of base digits, and then the positional value; the base defaults to 10 |
| `Utils.PositionalValueByDigits` | src/crispy/utils_test.cpp:104-118 | strings whose digits have equal values position by position have equal value |
| `Utils.HexCaseInsensitive` | src/crispy/utils_test.cpp:104-118 | a hex string and its lower-case form give the same result |
| `Utils.LeadingZero` | src/crispy/utils_test.cpp:107-115 | a leading zero does not change the result |
| `Utils.ToIntegerBadCases` | src/crispy/utils_test.cpp:79-83 | `""` and `"bad"` give none in base 10 |
| `Utils.ToIntegerBase2Cases` | src/crispy/utils_test.cpp:85-90 | the base-2 test values |
| `Utils.ToIntegerBase10Cases` | src/crispy/utils_test.cpp:92-102 | the base-10 test values, also with the default base |
| `Utils.ToIntegerUpperHexCases` | src/crispy/utils_test.cpp:106-111 | the upper-case base-16 test values |
| `Utils.ToIntegerLowerHexCases` | src/crispy/utils_test.cpp:113-118 | the lower-case base-16 test values |
| `Utils.ToIntegerDecimalHexCases` | src/crispy/utils_test.cpp:120-124 | the base-16 test values written with decimal digits |
| `Utils.HexByte` | src/crispy/utils_test.cpp:133-134 | two hex digits spell the byte `16 * high + low` |
| `Utils.FromHexString` | src/crispy/utils_test.cpp:127-135 | a result exactly for even-length strings of hex digits, half as long, byte i spelled by digits 2i and 2i+1 |
| `Utils.FromHexStringInverse` | src/crispy/utils_test.cpp:127-135 | decoding inverts the two-digit hex spelling of every byte string |
| `Utils.FromHexStringCases` | src/crispy/utils_test.cpp:127-135 | `"abc"` and `"GX"` give none; `""`, `"61"` and `"4162"` give `""`, `"a"` and `"Ab"` |

## Left out

- `unicode::width` and the grapheme segmenter are a foreign library. The width table is a parameter returning 0, 1 or 2 columns.
- Hyperlinks and image fragments (`LIBTERMINAL_HYPERLINKS`, `LIBTERMINAL_IMAGES`) are left out. `Cell::empty` is "no codepoints".
- `Cells.Cell.AppendCharacter`: the width a variation selector would set (1 for U+FE0E, 2 for U+FE0F, else the table width) is computed in the source but never applied, because `AllowWidthChange` is fixed to `false`. The model leaves that branch out and follows the code: the width never changes and 0 is returned.
- `src/terminal/Color.h` is not part of this model. A colour is `DefaultColor` or an opaque `OtherColor(code)`, compared by equality. `GraphicsAttributes::getUnderlineColor`, `makeColors` and `setDynamicColorValue` are left out: they use palette lookup and floating point.
- These bodies are not in the headers, so they are not modelled:
  - the `Grid` constructor (so also `Grid()`, which delegates to it), `resize`, `scrollUp`, `scrollDown`, `clampHistory`, `appendNewLines`, `setMaxHistoryLineCount` and `clearHistory`;
  - the other `Line` constructors, `prepend`, `append`, `remove`, `shift_left`, `reflow`, `resize`, `blank`, `trim_blank_right`, `setText` and `toUtf8`.
- The const and mutable overloads of `lineAt`, `at` and `absoluteLineAt` address the same storage, so each is one function.
- `Lines.Line.constructor`: the source takes an `int` column count and casts it to `size_t`, so a negative count ends in `std::length_error` or `std::bad_alloc`; the model takes a natural number and leaves that error path out.
- `Grids.Grid.Render`: the callback becomes the returned sequence, so the order of the calls is the order of that sequence.
- `Sequence::text`, `raw` and `functionDefinition` are left out. They need the function table in `Functions.h`, which is not part of this model, and the same goes for the `Sequencer` class's event handlers. `FunctionCategory` and `FunctionSelector` are declared here with the shape `selector()` uses.
- `Sequence::parameters()`, `intermediateCharacters()` and `dataString()` hand out mutable references for the parser to append to. The model exposes the fields themselves.
- The capacity `Sequence()` reserves (`MaxParameters` times `MaxSubParameters`) has no observable effect, so it is not modelled.
- `Sequencer.Sequence.constructor`: the source leaves `category_` uninitialised, so the constructor promises nothing about the category.
- Integer widths: a `Sequence` parameter (`int`), `Grid` line counts and `Margin` ends are unbounded integers. The `uint8_t` cell width is narrowed explicitly in `SetWidth`, and the `size_t` wrap of `subParameterCount` is written out.
- `Utils.ToInteger`: results are unbounded naturals. The result type's width (`uint8_t`, `int`, `unsigned`, `uint64_t`) and overflow are not modelled, because the test cases pin no overflow behaviour. Digits at or above the base are rejected, which the tests do not pin either.
- `Utils.SplitKeyValuePairs`: defined only for inputs whose non-empty segments each hold exactly one `key=value` pair and whose keys are distinct. The test cases pin no other input.
- `Utils.FromHexString`: the decoded bytes are represented as characters below 256, not as a byte type.
- The literal `"foo=bar::fnord=tar"` test case has no lemma of its own. `Utils.SplitKeyValuePairsTwo` covers it, for all keys and values.
- The test `utils.to_integer.integer_type` checks only the C++ result types, and has no counterpart here.

## Findings

| source | as written | input that shows it | evidently intended | confidence | as-written member | corrected member |
|---|---|---|---|---|---|---|
| src/terminal/Sequencer.h:300-340 | `isValidDECMode` casts the number to `DECMode` and switches on the enumerator, so it accepts the enum's underlying values (0..26, 1005-1007, 1015, 2026, 2027) | 1049 (ExtendedAltScreen's mode number) is rejected; 25 is accepted as SixelScrolling, whose number is 80; 0 is accepted though no mode has it | accept exactly the mode numbers `toDECModeNum` produces | medium, not executed | `Sequencer.IsValidDECModeRejectsModeNumbers` | `Sequencer.IsValidDECModeNumIffNamed` |
| src/terminal/Grid.h:712-715 | `toRelativeLine(a)` returns `a - historyLineCount` | with 4 history lines, absolute line 4 is the page top, row 1 in the layout diagram at Grid.h:554-566, but converts to 0; in general `toRelativeLine(toAbsoluteLine(r)) == r - 1` | `a - historyLineCount + 1`, the inverse of `toAbsoluteLine` | medium, not executed | `Grids.ToRelativeLineLosesARow` | `Grids.RelativeLineRoundTrip` |
