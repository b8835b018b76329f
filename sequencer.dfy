/**
 * The mode and colour code tables of src/terminal/Sequencer.h and its
 * `Sequence` builder, which collects one parsed control function: its
 * category, leader, parameters with sub-parameters, intermediate characters,
 * final character and data string.
 */
module Sequencer {
  import opened Wrappers

  // {{{ AnsiMode

  /** enum class AnsiMode; each enumerator's underlying value is its mode number. */
  datatype AnsiMode = KeyboardAction | Insert | SendReceive | AutomaticNewLine

  /** toAnsiModeNum: the number that sets or resets the mode (SM/RM). */
  function ToAnsiModeNum(m: AnsiMode): (n: int)
    ensures n == 2 || n == 4 || n == 12 || n == 20
  {
    match m
    case KeyboardAction => 2
    case Insert => 4
    case SendReceive => 12
    case AutomaticNewLine => 20
  }

  /** static_cast<AnsiMode>(n): the enumerator whose underlying value is n, if any. */
  function AnsiModeOfValue(n: int): (m: Option<AnsiMode>)
    ensures m.Some? ==> ToAnsiModeNum(m.value) == n
  {
    match n
    case 2 => Some(KeyboardAction)
    case 4 => Some(Insert)
    case 12 => Some(SendReceive)
    case 20 => Some(AutomaticNewLine)
    case _ => None
  }

  /** isValidAnsiMode: whether n names an ANSI mode, which holds of 2, 4, 12 and 20 only. */
  predicate IsValidAnsiMode(n: int)
    ensures IsValidAnsiMode(n) <==> n == 2 || n == 4 || n == 12 || n == 20
  {
    AnsiModeOfValue(n).Some?
  }

  /** Every ANSI mode's number is valid and casts back to that mode. */
  lemma AnsiModeValidity(m: AnsiMode)
    ensures IsValidAnsiMode(ToAnsiModeNum(m))
    ensures AnsiModeOfValue(ToAnsiModeNum(m)) == Some(m)
  {
    match m
    case KeyboardAction =>
    case Insert =>
    case SendReceive =>
    case AutomaticNewLine =>
  }

  /** Distinct ANSI modes have distinct numbers. */
  lemma AnsiModeNumInjective(a: AnsiMode, b: AnsiMode)
    ensures ToAnsiModeNum(a) == ToAnsiModeNum(b) ==> a == b
  {
    AnsiModeValidity(a);
    AnsiModeValidity(b);
  }
  // }}}

  // {{{ DECMode

  /** enum class DECMode, in declaration order. */
  datatype DECMode =
    | UseApplicationCursorKeys
    | DesignateCharsetUSASCII
    | Columns132
    | SmoothScroll
    | ReverseVideo
    | MouseProtocolX10
    | MouseProtocolNormalTracking
    | MouseProtocolHighlightTracking
    | MouseProtocolButtonTracking
    | MouseProtocolAnyEventTracking
    | SaveCursor
    | ExtendedAltScreen
    | Origin
    | AutoWrap
    | PrinterExtend
    | LeftRightMargin
    | ShowToolbar
    | BlinkingCursor
    | VisibleCursor
    | ShowScrollbar
    | AllowColumns80to132
    | DebugLogging
    | UseAlternateScreen
    | BracketedPaste
    | FocusTracking
    | SixelScrolling
    | UsePrivateColorRegisters
    | MouseExtended
    | MouseSGR
    | MouseURXVT
    | MouseAlternateScroll
    | BatchedRendering
    | TextReflow

  /** The enumerators given an explicit value in the declaration. */
  predicate IsExplicitlyNumbered(m: DECMode) {
    m.MouseExtended? || m.MouseSGR? || m.MouseURXVT? || m.MouseAlternateScroll?
    || m.BatchedRendering? || m.TextReflow?
  }

  /**
   * The underlying value of each enumerator: the first 27 are numbered
   * implicitly 0..26 in declaration order, the rest explicitly.
   */
  function DECModeValue(m: DECMode): (v: int)
    ensures !IsExplicitlyNumbered(m) <==> 0 <= v <= 26
    ensures IsExplicitlyNumbered(m) ==> v > 1000
  {
    match m
    case UseApplicationCursorKeys => 0
    case DesignateCharsetUSASCII => 1
    case Columns132 => 2
    case SmoothScroll => 3
    case ReverseVideo => 4
    case MouseProtocolX10 => 5
    case MouseProtocolNormalTracking => 6
    case MouseProtocolHighlightTracking => 7
    case MouseProtocolButtonTracking => 8
    case MouseProtocolAnyEventTracking => 9
    case SaveCursor => 10
    case ExtendedAltScreen => 11
    case Origin => 12
    case AutoWrap => 13
    case PrinterExtend => 14
    case LeftRightMargin => 15
    case ShowToolbar => 16
    case BlinkingCursor => 17
    case VisibleCursor => 18
    case ShowScrollbar => 19
    case AllowColumns80to132 => 20
    case DebugLogging => 21
    case UseAlternateScreen => 22
    case BracketedPaste => 23
    case FocusTracking => 24
    case SixelScrolling => 25
    case UsePrivateColorRegisters => 26
    case MouseExtended => 1005
    case MouseSGR => 1006
    case MouseURXVT => 1015
    case MouseAlternateScroll => 1007
    case BatchedRendering => 2026
    case TextReflow => 2027
  }

  /** static_cast<DECMode>(n): the enumerator whose underlying value is n, if any. */
  function DECModeOfValue(n: int): (m: Option<DECMode>)
    ensures m.Some? ==> DECModeValue(m.value) == n
  {
    match n
    case 0 => Some(UseApplicationCursorKeys)
    case 1 => Some(DesignateCharsetUSASCII)
    case 2 => Some(Columns132)
    case 3 => Some(SmoothScroll)
    case 4 => Some(ReverseVideo)
    case 5 => Some(MouseProtocolX10)
    case 6 => Some(MouseProtocolNormalTracking)
    case 7 => Some(MouseProtocolHighlightTracking)
    case 8 => Some(MouseProtocolButtonTracking)
    case 9 => Some(MouseProtocolAnyEventTracking)
    case 10 => Some(SaveCursor)
    case 11 => Some(ExtendedAltScreen)
    case 12 => Some(Origin)
    case 13 => Some(AutoWrap)
    case 14 => Some(PrinterExtend)
    case 15 => Some(LeftRightMargin)
    case 16 => Some(ShowToolbar)
    case 17 => Some(BlinkingCursor)
    case 18 => Some(VisibleCursor)
    case 19 => Some(ShowScrollbar)
    case 20 => Some(AllowColumns80to132)
    case 21 => Some(DebugLogging)
    case 22 => Some(UseAlternateScreen)
    case 23 => Some(BracketedPaste)
    case 24 => Some(FocusTracking)
    case 25 => Some(SixelScrolling)
    case 26 => Some(UsePrivateColorRegisters)
    case 1005 => Some(MouseExtended)
    case 1006 => Some(MouseSGR)
    case 1015 => Some(MouseURXVT)
    case 1007 => Some(MouseAlternateScroll)
    case 2026 => Some(BatchedRendering)
    case 2027 => Some(TextReflow)
    case _ => None
  }

  /** toDECModeNum: the number that sets or resets the mode (DECSET/DECRST). */
  function ToDECModeNum(m: DECMode): (n: int)
    ensures IsExplicitlyNumbered(m) ==> n == DECModeValue(m)
  {
    match m
    case UseApplicationCursorKeys => 1
    case DesignateCharsetUSASCII => 2
    case Columns132 => 3
    case SmoothScroll => 4
    case ReverseVideo => 5
    case Origin => 6
    case AutoWrap => 7
    case MouseProtocolX10 => 9
    case ShowToolbar => 10
    case BlinkingCursor => 12
    case PrinterExtend => 19
    case VisibleCursor => 25
    case ShowScrollbar => 30
    case AllowColumns80to132 => 40
    case DebugLogging => 46
    case UseAlternateScreen => 47
    case LeftRightMargin => 69
    case MouseProtocolNormalTracking => 1000
    case MouseProtocolHighlightTracking => 1001
    case MouseProtocolButtonTracking => 1002
    case MouseProtocolAnyEventTracking => 1003
    case SaveCursor => 1048
    case ExtendedAltScreen => 1049
    case BracketedPaste => 2004
    case FocusTracking => 1004
    case SixelScrolling => 80
    case UsePrivateColorRegisters => 1070
    case MouseExtended => 1005
    case MouseSGR => 1006
    case MouseURXVT => 1015
    case MouseAlternateScroll => 1007
    case BatchedRendering => 2026
    case TextReflow => 2027
  }

  /**
   * isValidDECMode as written: it casts n to DECMode and asks whether the
   * result is an enumerator, so it accepts the underlying values 0..26 and the
   * six explicit ones, not mode numbers.
   */
  predicate IsValidDECMode(n: int)
    ensures IsValidDECMode(n) <==>
      (0 <= n <= 26 || n == 1005 || n == 1006 || n == 1007 || n == 1015 || n == 2026 || n == 2027)
  {
    DECModeOfValue(n).Some?
  }

  /**
   * The cast and DECModeValue are inverse: every enumerator's underlying value
   * is accepted and casts back to it.
   */
  lemma DECModeValueRoundTrip(m: DECMode)
    ensures DECModeOfValue(DECModeValue(m)) == Some(m)
  {
    match m
    case UseApplicationCursorKeys =>
    case DesignateCharsetUSASCII =>
    case Columns132 =>
    case SmoothScroll =>
    case ReverseVideo =>
    case MouseProtocolX10 =>
    case MouseProtocolNormalTracking =>
    case MouseProtocolHighlightTracking =>
    case MouseProtocolButtonTracking =>
    case MouseProtocolAnyEventTracking =>
    case SaveCursor =>
    case ExtendedAltScreen =>
    case Origin =>
    case AutoWrap =>
    case PrinterExtend =>
    case LeftRightMargin =>
    case ShowToolbar =>
    case BlinkingCursor =>
    case VisibleCursor =>
    case ShowScrollbar =>
    case AllowColumns80to132 =>
    case DebugLogging =>
    case UseAlternateScreen =>
    case BracketedPaste =>
    case FocusTracking =>
    case SixelScrolling =>
    case UsePrivateColorRegisters =>
    case MouseExtended =>
    case MouseSGR =>
    case MouseURXVT =>
    case MouseAlternateScroll =>
    case BatchedRendering =>
    case TextReflow =>
  }

  /**
   * The DEC mode a mode number names: the inverse of toDECModeNum, which is
   * what validating a number received in DECSET/DECRST calls for.
   */
  function DECModeFromNum(n: int): (m: Option<DECMode>)
    ensures m.Some? ==> ToDECModeNum(m.value) == n
  {
    match n
    case 1 => Some(UseApplicationCursorKeys)
    case 2 => Some(DesignateCharsetUSASCII)
    case 3 => Some(Columns132)
    case 4 => Some(SmoothScroll)
    case 5 => Some(ReverseVideo)
    case 6 => Some(Origin)
    case 7 => Some(AutoWrap)
    case 9 => Some(MouseProtocolX10)
    case 10 => Some(ShowToolbar)
    case 12 => Some(BlinkingCursor)
    case 19 => Some(PrinterExtend)
    case 25 => Some(VisibleCursor)
    case 30 => Some(ShowScrollbar)
    case 40 => Some(AllowColumns80to132)
    case 46 => Some(DebugLogging)
    case 47 => Some(UseAlternateScreen)
    case 69 => Some(LeftRightMargin)
    case 1000 => Some(MouseProtocolNormalTracking)
    case 1001 => Some(MouseProtocolHighlightTracking)
    case 1002 => Some(MouseProtocolButtonTracking)
    case 1003 => Some(MouseProtocolAnyEventTracking)
    case 1048 => Some(SaveCursor)
    case 1049 => Some(ExtendedAltScreen)
    case 2004 => Some(BracketedPaste)
    case 1004 => Some(FocusTracking)
    case 80 => Some(SixelScrolling)
    case 1070 => Some(UsePrivateColorRegisters)
    case 1005 => Some(MouseExtended)
    case 1006 => Some(MouseSGR)
    case 1015 => Some(MouseURXVT)
    case 1007 => Some(MouseAlternateScroll)
    case 2026 => Some(BatchedRendering)
    case 2027 => Some(TextReflow)
    case _ => None
  }

  /** The corrected validity test: n is the mode number of some DEC mode. */
  predicate IsValidDECModeNum(n: int)
    ensures IsValidDECModeNum(n) <==>
      n in {1, 2, 3, 4, 5, 6, 7, 9, 10, 12, 19, 25, 30, 40, 46, 47, 69, 80,
            1000, 1001, 1002, 1003, 1004, 1005, 1006, 1007, 1015, 1048, 1049, 1070,
            2004, 2026, 2027}
  {
    DECModeFromNum(n).Some?
  }

  /**
   * DECModeFromNum inverts toDECModeNum: every mode's number is valid and
   * names that mode again.
   */
  lemma DECModeNumRoundTrip(m: DECMode)
    ensures DECModeFromNum(ToDECModeNum(m)) == Some(m)
    ensures IsValidDECModeNum(ToDECModeNum(m))
  {
    match m
    case UseApplicationCursorKeys =>
    case DesignateCharsetUSASCII =>
    case Columns132 =>
    case SmoothScroll =>
    case ReverseVideo =>
    case MouseProtocolX10 =>
    case MouseProtocolNormalTracking =>
    case MouseProtocolHighlightTracking =>
    case MouseProtocolButtonTracking =>
    case MouseProtocolAnyEventTracking =>
    case SaveCursor =>
    case ExtendedAltScreen =>
    case Origin =>
    case AutoWrap =>
    case PrinterExtend =>
    case LeftRightMargin =>
    case ShowToolbar =>
    case BlinkingCursor =>
    case VisibleCursor =>
    case ShowScrollbar =>
    case AllowColumns80to132 =>
    case DebugLogging =>
    case UseAlternateScreen =>
    case BracketedPaste =>
    case FocusTracking =>
    case SixelScrolling =>
    case UsePrivateColorRegisters =>
    case MouseExtended =>
    case MouseSGR =>
    case MouseURXVT =>
    case MouseAlternateScroll =>
    case BatchedRendering =>
    case TextReflow =>
  }

  /** A number is a valid mode number exactly when some DEC mode has it. */
  lemma IsValidDECModeNumIffNamed(n: int)
    ensures IsValidDECModeNum(n) <==> exists m :: ToDECModeNum(m) == n
  {
    if exists m :: ToDECModeNum(m) == n {
      var m :| ToDECModeNum(m) == n;
      DECModeNumRoundTrip(m);
    }
  }

  /** toDECModeNum is injective over all 33 enumerators. */
  lemma DECModeNumInjective(a: DECMode, b: DECMode)
    ensures ToDECModeNum(a) == ToDECModeNum(b) ==> a == b
  {
    DECModeNumRoundTrip(a);
    DECModeNumRoundTrip(b);
  }

  /**
   * isValidDECMode as written rejects mode numbers toDECModeNum produces
   * (1000, 1049, 2004) and accepts 25 as SixelScrolling, whose mode number is
   * 80, while 25 is VisibleCursor's (DECTCEM) number.
   */
  lemma IsValidDECModeRejectsModeNumbers()
    ensures !IsValidDECMode(ToDECModeNum(MouseProtocolNormalTracking))
    ensures !IsValidDECMode(ToDECModeNum(ExtendedAltScreen))
    ensures !IsValidDECMode(ToDECModeNum(BracketedPaste))
    ensures IsValidDECMode(25) && DECModeOfValue(25) == Some(SixelScrolling)
    ensures ToDECModeNum(VisibleCursor) == 25 && ToDECModeNum(SixelScrolling) == 80
    ensures IsValidDECMode(0) && !IsValidDECModeNum(0)
    ensures !IsValidDECMode(9999)
  {
  }
  // }}}

  // {{{ dynamic colours

  /** enum class DynamicColorName: the colours OSC 10..19 query and set. */
  datatype DynamicColorName =
    | DefaultForegroundColor
    | DefaultBackgroundColor
    | TextCursorColor
    | MouseForegroundColor
    | MouseBackgroundColor
    | HighlightForegroundColor
    | HighlightBackgroundColor

  /** The OSC numbers that name a dynamic colour. */
  predicate IsDynamicColorCommand(v: int) {
    v == 10 || v == 11 || v == 12 || v == 13 || v == 14 || v == 17 || v == 19
  }

  /** getChangeDynamicColorCommand: the colour an OSC number names, DefaultForegroundColor otherwise. */
  function GetChangeDynamicColorCommand(v: int): (name: DynamicColorName)
    ensures !IsDynamicColorCommand(v) ==> name == DefaultForegroundColor
  {
    match v
    case 10 => DefaultForegroundColor
    case 11 => DefaultBackgroundColor
    case 12 => TextCursorColor
    case 13 => MouseForegroundColor
    case 14 => MouseBackgroundColor
    case 19 => HighlightForegroundColor
    case 17 => HighlightBackgroundColor
    case _ => DefaultForegroundColor
  }

  /** setDynamicColorCommand: the OSC number that sets a dynamic colour. */
  function SetDynamicColorCommand(name: DynamicColorName): (v: int)
    ensures IsDynamicColorCommand(v)
  {
    match name
    case DefaultForegroundColor => 10
    case DefaultBackgroundColor => 11
    case TextCursorColor => 12
    case MouseForegroundColor => 13
    case MouseBackgroundColor => 14
    case HighlightForegroundColor => 19
    case HighlightBackgroundColor => 17
  }

  /** The two tables are inverse on the seven dynamic colour numbers. */
  lemma DynamicColorRoundTrip(v: int, name: DynamicColorName)
    ensures IsDynamicColorCommand(v) ==> SetDynamicColorCommand(GetChangeDynamicColorCommand(v)) == v
    ensures GetChangeDynamicColorCommand(SetDynamicColorCommand(name)) == name
  {
    match name
    case DefaultForegroundColor =>
    case DefaultBackgroundColor =>
    case TextCursorColor =>
    case MouseForegroundColor =>
    case MouseBackgroundColor =>
    case HighlightForegroundColor =>
    case HighlightBackgroundColor =>
  }
  // }}}

  // {{{ Sequence

  /** FunctionCategory: the kind of control function a sequence is. */
  datatype FunctionCategory = C0 | ESC | CSI | OSC | DCS

  /**
   * FunctionSelector: the key a sequence is looked up by, made of its
   * category, leader, argument count (the code number for OSC), single
   * intermediate character and final character.
   */
  datatype FunctionSelector = FunctionSelector(
    category: FunctionCategory,
    leader: char,
    argc: int,
    intermediate: char,
    finalSymbol: char)

  /** size_t arithmetic wraps modulo 2^64. */
  const SizeModulus: int := 0x1_0000_0000_0000_0000

  /** class Sequence: the builder for one parsed control function. */
  class Sequence {
    var category: FunctionCategory
    var leaderSymbol: char
    /** Each parameter is its value followed by its sub-parameters. */
    var parameters: seq<seq<int>>
    var intermediateCharacters: string
    var finalChar: char
    var dataString: string

    static const MaxParameters: nat := 16
    static const MaxSubParameters: nat := 8
    static const MaxOscLength: nat := 512

    /** The state clear() leaves: category C0 and every other field zero or empty. */
    ghost predicate IsCleared()
      reads this
    {
      && category == C0
      && leaderSymbol == '\0'
      && parameters == []
      && intermediateCharacters == ""
      && finalChar == '\0'
      && dataString == ""
    }

    /**
     * Sequence(): no parameters, intermediates or data, leader and final 0.
     * The category is left uninitialised in the source, so nothing is promised of it.
     */
    constructor ()
      ensures leaderSymbol == '\0' && finalChar == '\0'
      ensures parameters == [] && intermediateCharacters == "" && dataString == ""
    {
      category := C0;
      leaderSymbol := '\0';
      parameters := [];
      intermediateCharacters := "";
      finalChar := '\0';
      dataString := "";
    }

    /** Sequence::clear: back to the cleared state, ready for the next sequence. */
    method Clear()
      modifies this
      ensures IsCleared()
    {
      category := C0;
      leaderSymbol := '\0';
      intermediateCharacters := "";
      parameters := [];
      finalChar := '\0';
      dataString := "";
    }

    method SetCategory(cat: FunctionCategory)
      modifies this
      ensures category == cat
      ensures leaderSymbol == old(leaderSymbol) && parameters == old(parameters)
      ensures intermediateCharacters == old(intermediateCharacters)
      ensures finalChar == old(finalChar) && dataString == old(dataString)
    {
      category := cat;
    }

    method SetLeader(ch: char)
      modifies this
      ensures leaderSymbol == ch
      ensures category == old(category) && parameters == old(parameters)
      ensures intermediateCharacters == old(intermediateCharacters)
      ensures finalChar == old(finalChar) && dataString == old(dataString)
    {
      leaderSymbol := ch;
    }

    method SetFinalChar(ch: char)
      modifies this
      ensures finalChar == ch
      ensures category == old(category) && leaderSymbol == old(leaderSymbol)
      ensures parameters == old(parameters)
      ensures intermediateCharacters == old(intermediateCharacters) && dataString == old(dataString)
    {
      finalChar := ch;
    }

    /**
     * Sequence::selector. An OSC is keyed by its code, the first value of its
     * first parameter; any other sequence by its category, leader, parameter
     * count, intermediate (only when there is exactly one) and final character.
     */
    function Selector(): (s: FunctionSelector)
      requires category == OSC ==> |parameters| > 0 && |parameters[0]| > 0
      reads this
      ensures s.category == category
      ensures category == OSC ==>
        s.leader == '\0' && s.argc == parameters[0][0] && s.intermediate == '\0' && s.finalSymbol == '\0'
      ensures category != OSC ==>
        s.leader == leaderSymbol && s.argc == |parameters| && s.finalSymbol == finalChar
      ensures category != OSC && |intermediateCharacters| == 1 ==> s.intermediate == intermediateCharacters[0]
      ensures category != OSC && |intermediateCharacters| != 1 ==> s.intermediate == '\0'
    {
      match category
      case OSC => FunctionSelector(category, '\0', parameters[0][0], '\0', '\0')
      case _ =>
        var intermediate := if |intermediateCharacters| == 1 then intermediateCharacters[0] else '\0';
        FunctionSelector(category, leaderSymbol, |parameters|, intermediate, finalChar)
    }

    /** Sequence::parameterCount. */
    function ParameterCount(): (n: nat)
      reads this
      ensures n == |parameters|
    {
      |parameters|
    }

    /**
     * Sequence::subParameterCount: the parameter's size less one, in size_t,
     * so an empty parameter wraps round to 2^64 - 1.
     */
    function SubParameterCount(i: nat): (n: int)
      requires i < |parameters|
      reads this
      ensures |parameters[i]| > 0 ==> n == |parameters[i]| - 1
      ensures |parameters[i]| == 0 ==> n == SizeModulus - 1
    {
      if |parameters[i]| == 0 then SizeModulus - 1 else |parameters[i]| - 1
    }

    /** Sequence::param: the value of parameter i, without its sub-parameters. */
    function Param(i: nat): (v: int)
      requires i < |parameters| && |parameters[i]| > 0
      reads this
      ensures v == parameters[i][0]
    {
      parameters[i][0]
    }

    /** Sequence::subparam: sub-parameter j of parameter i. */
    function Subparam(i: nat, j: nat): (v: int)
      requires i < |parameters| && j + 1 < |parameters[i]|
      reads this
      ensures v == parameters[i][j + 1]
    {
      parameters[i][j + 1]
    }

    /**
     * Sequence::param_opt: the value of parameter i, or none when there is no
     * such parameter or its value is 0, so 0 counts as absent.
     */
    function ParamOpt(i: nat): (r: Option<int>)
      requires i < |parameters| ==> |parameters[i]| > 0
      reads this
      ensures r.None? <==> i >= |parameters| || Param(i) == 0
      ensures r.Some? ==> r.value == Param(i) && r.value != 0
    {
      if i < |parameters| && parameters[i][0] != 0 then Some(parameters[i][0]) else None
    }

    /** Sequence::param_or: the value of parameter i, or `d` where param_opt gives none. */
    function ParamOr(i: nat, d: int): (v: int)
      requires i < |parameters| ==> |parameters[i]| > 0
      reads this
      ensures i < |parameters| && Param(i) != 0 ==> v == Param(i)
      ensures i >= |parameters| || Param(i) == 0 ==> v == d
    {
      ParamOpt(i).GetOr(d)
    }

    /** Sequence::containsParameter: whether some parameter's value is `value`. */
    method ContainsParameter(value: int) returns (found: bool)
      requires forall i :: 0 <= i < |parameters| ==> |parameters[i]| > 0
      ensures found <==> exists i :: 0 <= i < |parameters| && Param(i) == value
    {
      var i := 0;
      while i < ParameterCount()
        invariant 0 <= i <= |parameters|
        invariant forall k :: 0 <= k < i ==> Param(k) != value
      {
        if Param(i) == value {
          return true;
        }
        i := i + 1;
      }
      return false;
    }
  }

  /** A cleared sequence selects the C0 function with no arguments and all characters 0. */
  lemma ClearedSelector(s: Sequence)
    requires s.IsCleared()
    ensures s.Selector() == FunctionSelector(C0, '\0', 0, '\0', '\0')
    ensures forall i: nat :: s.ParamOpt(i) == None
  {
  }

  /**
   * Outside OSC the selector sees only the number of parameters: sequences that
   * differ in parameter values, sub-parameters or data select the same function.
   */
  lemma SelectorIgnoresParameterValues(s: Sequence, t: Sequence)
    requires s.category == t.category && s.category != OSC
    requires s.leaderSymbol == t.leaderSymbol && s.finalChar == t.finalChar
    requires s.intermediateCharacters == t.intermediateCharacters
    requires |s.parameters| == |t.parameters|
    ensures s.Selector() == t.Selector()
  {
  }

  /** Sub-parameter j of parameter i exists exactly when j is below subParameterCount(i). */
  lemma SubparamDomain(s: Sequence, i: nat, j: nat)
    requires i < |s.parameters| && |s.parameters[i]| > 0
    ensures j < s.SubParameterCount(i) <==> j + 1 < |s.parameters[i]|
  {
  }

  /** param_or falls back to its default exactly where param_opt gives none. */
  lemma ParamOrIsParamOpt(s: Sequence, i: nat, d: int)
    requires i < |s.parameters| ==> |s.parameters[i]| > 0
    ensures s.ParamOpt(i).Some? ==> s.ParamOr(i, d) == s.ParamOpt(i).value
    ensures s.ParamOpt(i).None? ==> s.ParamOr(i, d) == d
  {
  }
  // }}}
}
