/**
 * The string and number parsers of crispy/utils.h, as their test cases in
 * src/crispy/utils_test.cpp pin them down: splitKeyValuePairs,
 * to_integer<base> and fromHexString. Each maps a string to a fresh value.
 */
module Utils {
  import opened Wrappers

  // {{{ splitting

  /** The position of the first `c` in `s`. */
  function IndexOf(s: string, c: char): (i: nat)
    requires c in s
    ensures i < |s| && s[i] == c && c !in s[..i]
  {
    if s[0] == c then 0
    else
      assert s == [s[0]] + s[1..];
      var j := IndexOf(s[1..], c);
      assert s[..j + 1] == [s[0]] + s[1..][..j];
      j + 1
  }

  /** The segments of `s` between occurrences of the delimiter, empty ones included. */
  function Split(s: string, delimiter: char): (parts: seq<string>)
    ensures |parts| >= 1
    ensures forall i :: 0 <= i < |parts| ==> delimiter !in parts[i]
    decreases |s|
  {
    if delimiter !in s then [s]
    else
      var i := IndexOf(s, delimiter);
      [s[..i]] + Split(s[i + 1..], delimiter)
  }

  /** The segments put back together, one delimiter between neighbours. */
  function Join(parts: seq<string>, delimiter: char): string
    requires |parts| >= 1
  {
    if |parts| == 1 then parts[0] else parts[0] + [delimiter] + Join(parts[1..], delimiter)
  }

  /** Splitting loses nothing: joining the segments gives the string back. */
  lemma {:induction false} JoinSplit(s: string, delimiter: char)
    ensures Join(Split(s, delimiter), delimiter) == s
    decreases |s|
  {
    if delimiter in s {
      var i := IndexOf(s, delimiter);
      JoinSplit(s[i + 1..], delimiter);
      assert s == s[..i] + [delimiter] + s[i + 1..];
    }
  }

  /** Segments free of the delimiter are exactly what splitting their join gives. */
  lemma {:induction false} SplitJoin(parts: seq<string>, delimiter: char)
    requires |parts| >= 1
    requires forall i :: 0 <= i < |parts| ==> delimiter !in parts[i]
    ensures Split(Join(parts, delimiter), delimiter) == parts
  {
    if |parts| > 1 {
      SplitFirst(parts[0], delimiter, Join(parts[1..], delimiter));
      SplitJoin(parts[1..], delimiter);
      assert parts == [parts[0]] + parts[1..];
    }
  }

  /** A leading segment free of the delimiter is split off first. */
  lemma SplitFirst(a: string, delimiter: char, rest: string)
    requires delimiter !in a
    ensures Split(a + [delimiter] + rest, delimiter) == [a] + Split(rest, delimiter)
  {
    var s := a + [delimiter] + rest;
    var i := IndexOf(s, delimiter);
    assert s[|a|] == delimiter;
    assert s[..|a|] == a;
    assert s[..i] == a;
    assert s[i + 1..] == rest;
  }

  // }}}

  // {{{ splitKeyValuePairs

  /** A `key=value` segment: it holds exactly one '='. */
  predicate IsPairSegment(segment: string) {
    '=' in segment && '=' !in segment[IndexOf(segment, '=') + 1..]
  }

  /** The text before the '='. */
  function Key(segment: string): string
    requires IsPairSegment(segment)
  {
    segment[..IndexOf(segment, '=')]
  }

  /** The text after the '='. */
  function Value(segment: string): string
    requires IsPairSegment(segment)
  {
    segment[IndexOf(segment, '=') + 1..]
  }

  /** Every segment is empty or one `key=value` pair. */
  predicate AllPairSegments(segments: seq<string>) {
    forall i :: 0 <= i < |segments| ==> segments[i] == "" || IsPairSegment(segments[i])
  }

  /** The (key, value) entries of the non-empty segments, in order. */
  function Entries(segments: seq<string>): (e: seq<(string, string)>)
    requires AllPairSegments(segments)
    ensures |e| <= |segments|
  {
    if segments == [] then []
    else if segments[0] == "" then Entries(segments[1..])
    else [(Key(segments[0]), Value(segments[0]))] + Entries(segments[1..])
  }

  /** No two entries share a key. */
  predicate DistinctKeys(e: seq<(string, string)>) {
    forall i, j :: 0 <= i < j < |e| ==> e[i].0 != e[j].0
  }

  /** The keys of the entries. */
  function KeysOf(e: seq<(string, string)>): set<string> {
    set i | 0 <= i < |e| :: e[i].0
  }

  /** The map holding every entry. */
  function MapOf(e: seq<(string, string)>): (m: map<string, string>)
    ensures m.Keys == KeysOf(e)
  {
    if e == [] then map[]
    else
      assert KeysOf(e) == KeysOf(e[1..]) + {e[0].0} by {
        forall k | k in KeysOf(e)
          ensures k in KeysOf(e[1..]) + {e[0].0}
        {
          var i :| 0 <= i < |e| && e[i].0 == k;
          if i > 0 {
            assert e[1..][i - 1].0 == k;
          }
        }
      }
      MapOf(e[1..])[e[0].0 := e[0].1]
  }

  /** With distinct keys the map has one binding per entry, each entry's own. */
  lemma {:induction false} MapOfDistinct(e: seq<(string, string)>)
    requires DistinctKeys(e)
    ensures |MapOf(e)| == |e|
    ensures forall i :: 0 <= i < |e| ==> e[i].0 in MapOf(e) && MapOf(e)[e[i].0] == e[i].1
  {
    if e != [] {
      MapOfDistinct(e[1..]);
      assert e[0].0 !in KeysOf(e[1..]);
      forall i | 0 <= i < |e|
        ensures MapOf(e)[e[i].0] == e[i].1
      {
        if i > 0 {
          assert e[i] == e[1..][i - 1];
        }
      }
    }
  }

  /**
   * The inputs the test cases use: every segment between delimiters is empty
   * or a single `key=value` pair, and no key occurs twice.
   */
  predicate IsKeyValueList(s: string, delimiter: char) {
    AllPairSegments(Split(s, delimiter)) && DistinctKeys(Entries(Split(s, delimiter)))
  }

  /**
   * splitKeyValuePairs: the map from each key to its value. Empty segments
   * (from leading, trailing or doubled delimiters) contribute nothing.
   */
  function SplitKeyValuePairs(s: string, delimiter: char): (m: map<string, string>)
    requires IsKeyValueList(s, delimiter)
    ensures var e := Entries(Split(s, delimiter));
            && |m| == |e|
            && (forall i :: 0 <= i < |e| ==> e[i].0 in m && m[e[i].0] == e[i].1)
            && m.Keys == KeysOf(e)
  {
    var e := Entries(Split(s, delimiter));
    MapOfDistinct(e);
    MapOf(e)
  }

  /** A string without the delimiter is one segment. */
  lemma SplitWhole(s: string, delimiter: char)
    requires delimiter !in s
    ensures Split(s, delimiter) == [s]
  {
  }

  /** `key=value` with '=' in neither part is a pair segment with that key and value. */
  lemma PairSegment(key: string, value: string)
    requires '=' !in key && '=' !in value
    ensures IsPairSegment(key + "=" + value)
    ensures Key(key + "=" + value) == key && Value(key + "=" + value) == value
  {
    var s := key + "=" + value;
    var i := IndexOf(s, '=');
    assert s[|key|] == '=';
    assert s[..|key|] == key;
    assert s[..i] == key;
    assert s[i + 1..] == value;
  }

  /** A key or value as the test cases use them: neither '=' nor the delimiter occurs in it. */
  predicate IsPlainText(t: string, delimiter: char) {
    '=' !in t && delimiter !in t
  }

  /** Once the segments of `s` are known, so is the map. */
  lemma SplitKeyValuePairsOf(s: string, delimiter: char, segments: seq<string>)
    requires Split(s, delimiter) == segments
    requires AllPairSegments(segments) && DistinctKeys(Entries(segments))
    ensures IsKeyValueList(s, delimiter)
    ensures SplitKeyValuePairs(s, delimiter) == MapOf(Entries(segments))
  {
  }

  /** splitKeyValuePairs("", d) is empty. */
  lemma SplitKeyValuePairsEmpty(delimiter: char)
    ensures IsKeyValueList("", delimiter)
    ensures SplitKeyValuePairs("", delimiter) == map[]
  {
    SplitWhole("", delimiter);
  }

  /** `key=value` is a pair segment free of the delimiter. */
  lemma OnePairSegment(key: string, value: string, delimiter: char)
    requires IsPlainText(key, delimiter) && IsPlainText(value, delimiter) && delimiter != '='
    ensures IsPairSegment(key + "=" + value) && delimiter !in key + "=" + value
    ensures Key(key + "=" + value) == key && Value(key + "=" + value) == value
  {
    PairSegment(key, value);
  }

  /** Two trailing delimiters add two empty segments. */
  lemma SplitTrailing(p: string, delimiter: char)
    requires delimiter !in p
    ensures Split(p + [delimiter, delimiter], delimiter) == [p, "", ""]
  {
    var single: string := [delimiter];
    SplitWhole("", delimiter);
    SplitFirst("", delimiter, "");
    assert "" + [delimiter] + "" == single;
    assert Split(single, delimiter) == ["", ""];
    SplitFirst(p, delimiter, single);
    assert p + [delimiter] + single == p + [delimiter, delimiter];
    assert [p] + ["", ""] == [p, "", ""];
  }

  /** Two leading delimiters add two empty segments. */
  lemma SplitLeading(p: string, delimiter: char)
    requires delimiter !in p
    ensures Split([delimiter, delimiter] + p, delimiter) == ["", "", p]
  {
    SplitWhole(p, delimiter);
    SplitFirst("", delimiter, p);
    assert "" + [delimiter] + p == [delimiter] + p;
    SplitFirst("", delimiter, [delimiter] + p);
    assert "" + [delimiter] + ([delimiter] + p) == [delimiter, delimiter] + p;
  }

  /** One delimiter between two segments separates them; a second adds an empty one. */
  lemma SplitBetween(p1: string, p2: string, delimiter: char)
    requires delimiter !in p1 && delimiter !in p2
    ensures Split(p1 + [delimiter] + p2, delimiter) == [p1, p2]
    ensures Split(p1 + [delimiter, delimiter] + p2, delimiter) == [p1, "", p2]
  {
    SplitWhole(p2, delimiter);
    SplitFirst(p1, delimiter, p2);
    SplitFirst("", delimiter, p2);
    assert "" + [delimiter] + p2 == [delimiter] + p2;
    SplitFirst(p1, delimiter, [delimiter] + p2);
    assert p1 + [delimiter] + ([delimiter] + p2) == p1 + [delimiter, delimiter] + p2;
  }

  /** Empty segments contribute no entries, wherever they are. */
  lemma EntriesSkipEmpty(p1: string, p2: string)
    requires IsPairSegment(p1) && IsPairSegment(p2)
    ensures Entries([p1]) == [(Key(p1), Value(p1))]
    ensures Entries([p1, "", ""]) == [(Key(p1), Value(p1))]
    ensures Entries(["", "", p1]) == [(Key(p1), Value(p1))]
    ensures Entries([p1, p2]) == [(Key(p1), Value(p1)), (Key(p2), Value(p2))]
    ensures Entries([p1, "", p2]) == [(Key(p1), Value(p1)), (Key(p2), Value(p2))]
  {
    assert [p1, "", ""][1..] == ["", ""] && ["", ""][1..] == [""] && [""][1..] == [];
    assert ["", "", p1][1..] == ["", p1] && ["", p1][1..] == [p1];
    assert [p1, p2][1..] == [p2];
    assert [p1, "", p2][1..] == ["", p2] && ["", p2][1..] == [p2];
  }

  /**
   * One pair gives exactly {key: value}, alone, followed by two delimiters or
   * preceded by two delimiters.
   */
  lemma SplitKeyValuePairsOne(key: string, value: string, delimiter: char)
    requires IsPlainText(key, delimiter) && IsPlainText(value, delimiter) && delimiter != '='
    ensures var p := key + "=" + value;
            && IsKeyValueList(p, delimiter)
            && SplitKeyValuePairs(p, delimiter) == map[key := value]
            && IsKeyValueList(p + [delimiter, delimiter], delimiter)
            && SplitKeyValuePairs(p + [delimiter, delimiter], delimiter) == map[key := value]
            && IsKeyValueList([delimiter, delimiter] + p, delimiter)
            && SplitKeyValuePairs([delimiter, delimiter] + p, delimiter) == map[key := value]
  {
    var p := key + "=" + value;
    OnePairSegment(key, value, delimiter);
    EntriesSkipEmpty(p, p);
    assert MapOf([(key, value)]) == map[key := value];
    SplitWhole(p, delimiter);
    SplitKeyValuePairsOf(p, delimiter, [p]);
    SplitTrailing(p, delimiter);
    SplitKeyValuePairsOf(p + [delimiter, delimiter], delimiter, [p, "", ""]);
    SplitLeading(p, delimiter);
    SplitKeyValuePairsOf([delimiter, delimiter] + p, delimiter, ["", "", p]);
  }

  /**
   * Two pairs with distinct keys, separated by one delimiter or by two, give
   * exactly those two entries.
   */
  lemma SplitKeyValuePairsTwo(k1: string, v1: string, k2: string, v2: string, delimiter: char)
    requires IsPlainText(k1, delimiter) && IsPlainText(v1, delimiter) && delimiter != '='
    requires IsPlainText(k2, delimiter) && IsPlainText(v2, delimiter) && k1 != k2
    ensures var p1 := k1 + "=" + v1;
            var p2 := k2 + "=" + v2;
            && IsKeyValueList(p1 + [delimiter] + p2, delimiter)
            && SplitKeyValuePairs(p1 + [delimiter] + p2, delimiter) == map[k1 := v1, k2 := v2]
            && IsKeyValueList(p1 + [delimiter, delimiter] + p2, delimiter)
            && SplitKeyValuePairs(p1 + [delimiter, delimiter] + p2, delimiter) == map[k1 := v1, k2 := v2]
  {
    var p1 := k1 + "=" + v1;
    var p2 := k2 + "=" + v2;
    OnePairSegment(k1, v1, delimiter);
    OnePairSegment(k2, v2, delimiter);
    EntriesSkipEmpty(p1, p2);
    var e := [(k1, v1), (k2, v2)];
    assert MapOf(e) == map[k1 := v1, k2 := v2] by {
      assert e[1..] == [(k2, v2)];
    }
    SplitBetween(p1, p2, delimiter);
    SplitKeyValuePairsOf(p1 + [delimiter] + p2, delimiter, [p1, p2]);
    SplitKeyValuePairsOf(p1 + [delimiter, delimiter] + p2, delimiter, [p1, "", p2]);
  }

  /** The test case "foo=bar::" with delimiter ':'. */
  lemma SplitKeyValuePairsTrailingCase()
    ensures IsKeyValueList("foo=bar::", ':') && SplitKeyValuePairs("foo=bar::", ':') == map["foo" := "bar"]
  {
    SplitKeyValuePairsOne("foo", "bar", ':');
    assert "foo" + "=" + "bar" + [':', ':'] == "foo=bar::";
  }

  // }}}

  // {{{ to_integer

  /** The value of a digit in bases up to 16, either case; none for any other character. */
  function DigitValue(c: char): (v: Option<nat>)
    ensures v.Some? ==> v.value < 16
    ensures v.Some? <==> '0' <= c <= '9' || 'a' <= c <= 'f' || 'A' <= c <= 'F'
  {
    if '0' <= c <= '9' then Some(c as int - '0' as int)
    else if 'a' <= c <= 'f' then Some(c as int - 'a' as int + 10)
    else if 'A' <= c <= 'F' then Some(c as int - 'A' as int + 10)
    else None
  }

  /** A digit of the given base. */
  predicate IsDigit(c: char, base: nat) {
    DigitValue(c).Some? && DigitValue(c).value < base
  }

  /** Every character is a digit of the given base. */
  predicate AllDigits(s: string, base: nat) {
    forall i :: 0 <= i < |s| ==> IsDigit(s[i], base)
  }

  function Pow(base: nat, n: nat): nat {
    if n == 0 then 1 else base * Pow(base, n - 1)
  }

  /** The positional value of a digit string: digit i weighs base^(|s| - 1 - i). */
  function PositionalValue(s: string, base: nat): nat
    requires AllDigits(s, base)
  {
    if s == "" then 0
    else DigitValue(s[0]).value * Pow(base, |s| - 1) + PositionalValue(s[1..], base)
  }

  /** Reading the digits most significant first, multiplying the running value by the base. */
  function Accumulate(s: string, base: nat, acc: nat): nat
    requires AllDigits(s, base)
  {
    if s == "" then acc
    else Accumulate(s[1..], base, acc * base + DigitValue(s[0]).value)
  }

  lemma ShiftDigit(acc: nat, base: nat, d: nat, p: nat)
    ensures (acc * base + d) * p == acc * (base * p) + d * p
  {
  }

  /** Accumulating from `acc` shifts `acc` by |s| places and adds the digits' positional value. */
  lemma {:induction false} AccumulateIsPositional(s: string, base: nat, acc: nat)
    requires AllDigits(s, base)
    ensures Accumulate(s, base, acc) == acc * Pow(base, |s|) + PositionalValue(s, base)
  {
    if s != "" {
      var d := DigitValue(s[0]).value;
      var p := Pow(base, |s| - 1);
      AccumulateIsPositional(s[1..], base, acc * base + d);
      ShiftDigit(acc, base, d, p);
      assert Pow(base, |s|) == base * p;
    }
  }

  /**
   * to_integer<base>: the value of a non-empty string of base digits; none for
   * the empty string or any other character. The base defaults to 10.
   */
  function ToInteger(s: string, base: nat := 10): (r: Option<nat>)
    requires base == 2 || base == 10 || base == 16
    ensures r.Some? <==> s != "" && AllDigits(s, base)
    ensures r.Some? ==> r.value == PositionalValue(s, base)
  {
    if s == "" || !AllDigits(s, base) then None
    else
      AccumulateIsPositional(s, base, 0);
      Some(Accumulate(s, base, 0))
  }

  /** Strings whose digits have the same values, position by position, have the same value. */
  lemma {:induction false} PositionalValueByDigits(s: string, t: string, base: nat)
    requires |s| == |t| && AllDigits(s, base)
    requires forall i :: 0 <= i < |s| ==> DigitValue(s[i]) == DigitValue(t[i])
    ensures AllDigits(t, base) && PositionalValue(s, base) == PositionalValue(t, base)
  {
    if s != "" {
      PositionalValueByDigits(s[1..], t[1..], base);
    }
  }

  /** The lower-case form of a character; others are unchanged. */
  function ToLower(c: char): (l: char)
    ensures 'A' <= c <= 'Z' ==> l as int == c as int + 32
    ensures !('A' <= c <= 'Z') ==> l == c
  {
    if 'A' <= c <= 'Z' then (c as int + 32) as char else c
  }

  /** Hex digits are case-insensitive: a string and its lower-case form have the same value. */
  lemma HexCaseInsensitive(s: string)
    ensures ToInteger(s, 16) == ToInteger(seq(|s|, i requires 0 <= i < |s| => ToLower(s[i])), 16)
  {
    var t := seq(|s|, i requires 0 <= i < |s| => ToLower(s[i]));
    assert forall i :: 0 <= i < |s| ==> DigitValue(s[i]) == DigitValue(t[i]);
    if s != "" && AllDigits(s, 16) {
      PositionalValueByDigits(s, t, 16);
    }
  }

  /** A leading zero does not change the value. */
  lemma LeadingZero(s: string, base: nat)
    requires base == 2 || base == 10 || base == 16
    requires s != ""
    ensures ToInteger("0" + s, base) == ToInteger(s, base)
  {
    assert ("0" + s)[1..] == s;
    if AllDigits(s, base) {
      assert AllDigits("0" + s, base) by {
        forall i | 0 <= i < |"0" + s|
          ensures IsDigit(("0" + s)[i], base)
        {
          if i > 0 {
            assert ("0" + s)[i] == s[i - 1];
          }
        }
      }
    } else {
      var i :| 0 <= i < |s| && !IsDigit(s[i], base);
      assert ("0" + s)[i + 1] == s[i];
    }
  }

  /** to_integer rejects the empty string and non-digits. */
  lemma ToIntegerBadCases()
    ensures ToInteger("", 10) == None && ToInteger("bad", 10) == None
  {
    assert !IsDigit("bad"[0], 10);
  }

  /** The base-2 test cases. */
  lemma ToIntegerBase2Cases()
    ensures ToInteger("0", 2) == Some(0) && ToInteger("10", 2) == Some(2)
    ensures ToInteger("1100101", 2) == Some(0x65)
  {
  }

  /** The base-10 test cases, the last with the default base. */
  lemma ToIntegerBase10Cases()
    ensures ToInteger("0", 10) == Some(0) && ToInteger("9", 10) == Some(9)
    ensures ToInteger("18", 10) == Some(18) && ToInteger("321", 10) == Some(321)
    ensures ToInteger("12345", 10) == Some(12345) && ToInteger("12345") == Some(12345)
  {
  }

  /** The base-16 test cases with upper-case digits. */
  lemma ToIntegerUpperHexCases()
    ensures ToInteger("B", 16) == Some(0x0B) && ToInteger("0B", 16) == Some(0x0B)
    ensures ToInteger("B0", 16) == Some(0xB0) && ToInteger("ABCDEF", 16) == Some(0xABCDEF)
  {
  }

  /** The base-16 test cases with lower-case digits. */
  lemma ToIntegerLowerHexCases()
    ensures ToInteger("b", 16) == Some(0x0B) && ToInteger("0b", 16) == Some(0x0B)
    ensures ToInteger("b0", 16) == Some(0xB0) && ToInteger("abcdef", 16) == Some(0xABCDEF)
  {
  }

  /** The base-16 test cases with decimal digits. */
  lemma ToIntegerDecimalHexCases()
    ensures ToInteger("0", 16) == Some(0) && ToInteger("9", 16) == Some(9)
    ensures ToInteger("18", 16) == Some(0x18) && ToInteger("321", 16) == Some(0x321)
    ensures ToInteger("12345", 16) == Some(0x12345)
  {
  }
  // }}}

  // {{{ fromHexString

  /** The byte two hex digits spell, high nibble first. */
  function HexByte(hi: char, lo: char): (b: char)
    requires IsDigit(hi, 16) && IsDigit(lo, 16)
    ensures b as int == DigitValue(hi).value * 16 + DigitValue(lo).value
    ensures b as int < 256
  {
    (DigitValue(hi).value * 16 + DigitValue(lo).value) as char
  }

  /**
   * fromHexString: the bytes an even-length string of hex digits spells, two
   * digits per byte; none for odd length or any other character.
   */
  function FromHexString(s: string): (r: Option<string>)
    ensures r.Some? <==> |s| % 2 == 0 && AllDigits(s, 16)
    ensures r.Some? ==> |r.value| == |s| / 2
    ensures r.Some? ==> forall i :: 0 <= i < |r.value| ==> r.value[i] == HexByte(s[2 * i], s[2 * i + 1])
    decreases |s|
  {
    if s == "" then Some("")
    else if |s| == 1 || !IsDigit(s[0], 16) || !IsDigit(s[1], 16) then None
    else
      match FromHexString(s[2..])
      case None =>
        assert !AllDigits(s, 16) || |s| % 2 != 0 by {
          if AllDigits(s, 16) {
            assert forall i :: 0 <= i < |s[2..]| ==> s[2..][i] == s[i + 2];
          }
        }
        None
      case Some(rest) =>
        assert forall i :: 0 <= i < |rest| ==> s[2..][2 * i] == s[2 * (i + 1)];
        Some([HexByte(s[0], s[1])] + rest)
  }

  /** The lower-case hex digit of a nibble. */
  function HexDigit(n: nat): (c: char)
    requires n < 16
    ensures IsDigit(c, 16) && DigitValue(c) == Some(n)
  {
    if n < 10 then ('0' as int + n) as char else ('a' as int + n - 10) as char
  }

  /** Every character is a byte. */
  predicate IsByteString(b: string) {
    forall i :: 0 <= i < |b| ==> b[i] as int < 256
  }

  /** The hex spelling of a byte string, two lower-case digits per byte. */
  function ToHexString(b: string): (s: string)
    requires IsByteString(b)
    ensures |s| == 2 * |b|
  {
    if b == "" then ""
    else [HexDigit(b[0] as int / 16), HexDigit(b[0] as int % 16)] + ToHexString(b[1..])
  }

  /** fromHexString inverts the hex spelling of every byte string. */
  lemma {:induction false} FromHexStringInverse(b: string)
    requires IsByteString(b)
    ensures FromHexString(ToHexString(b)) == Some(b)
  {
    if b != "" {
      var s := ToHexString(b);
      FromHexStringInverse(b[1..]);
      assert s[2..] == ToHexString(b[1..]);
      assert HexByte(s[0], s[1]) == b[0];
      assert FromHexString(s) == Some([b[0]] + b[1..]);
      assert [b[0]] + b[1..] == b;
    }
  }

  /** Two leading hex digits decode to one byte in front of the rest. */
  lemma FromHexStringCons(hi: char, lo: char, rest: string, decoded: string)
    requires IsDigit(hi, 16) && IsDigit(lo, 16)
    requires FromHexString(rest) == Some(decoded)
    ensures FromHexString([hi, lo] + rest) == Some([HexByte(hi, lo)] + decoded)
  {
    assert ([hi, lo] + rest)[2..] == rest;
  }

  /** The test cases of fromHexString. */
  lemma FromHexStringCases()
    ensures FromHexString("abc") == None
    ensures FromHexString("GX") == None
    ensures FromHexString("") == Some("")
    ensures FromHexString("61") == Some("a")
    ensures FromHexString("4162") == Some("Ab")
  {
    assert !IsDigit("GX"[0], 16);
    assert HexByte('6', '1') == 'a';
    assert HexByte('6', '2') == 'b';
    assert HexByte('4', '1') == 'A';
    FromHexStringCons('6', '1', "", "");
    assert ['6', '1'] + "" == "61" && [HexByte('6', '1')] + "" == "a";
    FromHexStringCons('6', '2', "", "");
    assert ['6', '2'] + "" == "62" && [HexByte('6', '2')] + "" == "b";
    FromHexStringCons('4', '1', "62", "b");
    assert ['4', '1'] + "62" == "4162" && [HexByte('4', '1')] + "b" == "Ab";
  }
  // }}}
}
