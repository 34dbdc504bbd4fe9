// The command-text helpers of the UCI front end (UCI.cpp): trimming,
// splitting on spaces, reading the value that follows a label in a command
// line, and the hard time limit.

module Uci {
  import opened CppInt
  import opened Text

  datatype Option<T> = None | Some(value: T)

  /** The characters of `" \t\n\r\f\v"`: space, tab, line feed, carriage return, form feed, vertical tab. */
  predicate IsSpace(c: char)
  {
    c == ' ' || c == '\t' || c == '\n' || c == '\r' || c as int == 12 || c as int == 11
  }

  // ------------------------------------------------------------------ trim

  /** `find_first_not_of(whitespace, from)`: the first non-whitespace index at or after `from`, or -1 (`npos`). */
  function FirstNonSpace(s: string, from: nat): (i: int)
    requires from <= |s|
    ensures -1 <= i < |s|
    ensures i == -1 ==> forall k :: from <= k < |s| ==> IsSpace(s[k])
    ensures i >= 0 ==> from <= i && !IsSpace(s[i]) && forall k :: from <= k < i ==> IsSpace(s[k])
    decreases |s| - from
  {
    if from == |s| then -1
    else if !IsSpace(s[from]) then from
    else FirstNonSpace(s, from + 1)
  }

  /** `find_last_not_of(whitespace)` over `s[..upto]`: the last non-whitespace index below `upto`, or -1. */
  function LastNonSpace(s: string, upto: nat): (i: int)
    requires upto <= |s|
    ensures -1 <= i < upto
    ensures i == -1 ==> forall k :: 0 <= k < upto ==> IsSpace(s[k])
    ensures i >= 0 ==> !IsSpace(s[i]) && forall k :: i < k < upto ==> IsSpace(s[k])
  {
    if upto == 0 then -1
    else if !IsSpace(s[upto - 1]) then upto - 1
    else LastNonSpace(s, upto - 1)
  }

  /**
   * `trim`: the text between the first and the last non-whitespace
   * character, or the empty string when there is none.
   */
  function Trim(str: string): (r: string)
    ensures r == [] <==> forall k :: 0 <= k < |str| ==> IsSpace(str[k])
    ensures r != [] ==> !IsSpace(r[0]) && !IsSpace(r[|r| - 1])
  {
    var start := FirstNonSpace(str, 0);
    var end := LastNonSpace(str, |str|);
    if start == -1 || end == -1 then "" else str[start..end + 1]
  }

  /**
   * Trimming removes exactly the surrounding whitespace: the result sits at
   * some offset `a` of the input, with only whitespace before and after it.
   */
  lemma TrimStripsWhitespace(str: string)
    ensures exists a :: SurroundedBySpace(str, a, Trim(str))
  {
    var start := FirstNonSpace(str, 0);
    var end := LastNonSpace(str, |str|);
    var a := if start == -1 || end == -1 then 0 else start;
    assert SurroundedBySpace(str, a, Trim(str));
  }

  /** `str` is `r` at offset `a`, with only whitespace before and after it. */
  predicate SurroundedBySpace(str: string, a: int, r: string)
  {
    && 0 <= a && a + |r| <= |str| && str[a..a + |r|] == r
    && (forall k :: 0 <= k < a ==> IsSpace(str[k]))
    && (forall k :: a + |r| <= k < |str| ==> IsSpace(str[k]))
  }

  /** A string without surrounding whitespace is its own trim. */
  lemma TrimmedIsFixed(s: string)
    requires s != [] ==> !IsSpace(s[0]) && !IsSpace(s[|s| - 1])
    ensures Trim(s) == s
  {
    if s != [] {
      assert FirstNonSpace(s, 0) == 0;
      assert LastNonSpace(s, |s|) == |s| - 1;
      assert s[0..|s|] == s;
    }
  }

  /** `trim` is idempotent. */
  lemma TrimIdempotent(s: string)
    ensures Trim(Trim(s)) == Trim(s)
  {
    TrimmedIsFixed(Trim(s));
  }

  // ------------------------------------------------------------------ find

  /**
   * `std::string::find(pattern, from)`: the first index at or after `from`
   * where `pattern` occurs in `s`, or -1 (`npos`).
   */
  function FindFrom(s: string, pattern: string, from: nat): (i: int)
    ensures i == -1 || (from <= i && OccursAt(s, pattern, i))
    ensures i == -1 ==> forall j :: from <= j ==> !OccursAt(s, pattern, j)
    ensures i != -1 ==> forall j :: from <= j < i ==> !OccursAt(s, pattern, j)
    decreases |s| - from
  {
    if from + |pattern| > |s| then -1
    else if OccursAt(s, pattern, from) then from
    else FindFrom(s, pattern, from + 1)
  }

  /** `pattern` occurs in `s` at index `j`. */
  predicate OccursAt(s: string, pattern: string, j: int)
  {
    0 <= j && j + |pattern| <= |s| && s[j..j + |pattern|] == pattern
  }

  /** Searching for `" "`: the next space at or after `from`, with no space before it. */
  lemma FindSpace(str: string, from: nat)
    requires from <= |str|
    ensures var e := FindFrom(str, " ", from);
      && (e == -1 ==> forall k :: from <= k < |str| ==> str[k] != ' ')
      && (e != -1 ==> from <= e < |str| && str[e] == ' ' && forall k :: from <= k < e ==> str[k] != ' ')
  {
    var e := FindFrom(str, " ", from);
    forall k | from <= k < |str| && (e == -1 || k <= e)
      ensures OccursAt(str, " ", k) <==> str[k] == ' '
    {
      assert str[k..k + 1] == [str[k]];
    }
  }

  // ----------------------------------------------------------------- split

  /** The number of leading characters before the first `' '`. */
  function TokenLength(s: string): (n: nat)
    ensures n <= |s| && (forall k :: 0 <= k < n ==> s[k] != ' ') && (n < |s| ==> s[n] == ' ')
  {
    if s == [] || s[0] == ' ' then 0 else 1 + TokenLength(s[1..])
  }

  /** The words of `s`: its maximal runs of characters other than `' '`, in order. */
  function Words(s: string): (ws: seq<string>)
    decreases |s|
  {
    if s == [] then []
    else if s[0] == ' ' then Words(s[1..])
    else [s[..TokenLength(s)]] + Words(s[TokenLength(s)..])
  }

  /** `s` with every `' '` removed. */
  function RemoveSpaces(s: string): (r: string)
  {
    if s == [] then [] else (if s[0] == ' ' then [] else [s[0]]) + RemoveSpaces(s[1..])
  }

  function Concat(ws: seq<string>): (r: string)
  {
    if ws == [] then [] else ws[0] + Concat(ws[1..])
  }

  /** A prefix without spaces passes through `RemoveSpaces` unchanged. */
  lemma {:induction false} RemoveSpacesPrefix(s: string, n: nat)
    requires n <= |s| && forall k :: 0 <= k < n ==> s[k] != ' '
    ensures RemoveSpaces(s) == s[..n] + RemoveSpaces(s[n..])
  {
    if n > 0 {
      RemoveSpacesPrefix(s[1..], n - 1);
      assert s[1..][..n - 1] == s[1..n] && s[1..][n - 1..] == s[n..];
      assert s[..n] == [s[0]] + s[1..n];
    }
  }

  /**
   * The words are non-empty, contain no space, and put together they give
   * the input with its spaces removed.
   */
  lemma {:induction false} WordsShape(s: string)
    ensures forall w :: w in Words(s) ==> w != [] && ' ' !in w
    ensures Concat(Words(s)) == RemoveSpaces(s)
    decreases |s|
  {
    if s != [] {
      if s[0] == ' ' {
        WordsShape(s[1..]);
      } else {
        var n := TokenLength(s);
        WordsShape(s[n..]);
        RemoveSpacesPrefix(s, n);
        var ws := Words(s);
        assert ws == [s[..n]] + Words(s[n..]);
        assert ws[1..] == Words(s[n..]);
      }
    }
  }

  /** One step of the split: a space at `end`, and no space in `str[start..end]`. */
  lemma WordsStep(str: string, start: nat, end: nat)
    requires start <= end < |str| && str[end] == ' '
    requires forall k :: start <= k < end ==> str[k] != ' '
    ensures Words(str[start..]) == (if end != start then [str[start..end]] else []) + Words(str[end + 1..])
  {
    var s := str[start..];
    if end == start {
      assert s[1..] == str[end + 1..];
    } else {
      assert s[end - start] == ' ';
      assert TokenLength(s) == end - start;
      assert s[..end - start] == str[start..end];
      assert s[end - start..][1..] == str[end + 1..];
    }
  }

  /** One turn of the split loop keeps `tokens + Words(str[start..]) == Words(str)`. */
  lemma SplitStep(str: string, start: nat, end: nat, tokens: seq<string>, tokens': seq<string>)
    requires start <= end < |str| && str[end] == ' '
    requires forall k :: start <= k < end ==> str[k] != ' '
    requires tokens + Words(str[start..]) == Words(str)
    requires tokens' == if end != start then tokens + [str[start..end]] else tokens
    ensures tokens' + Words(str[end + 1..]) == Words(str)
  {
    var piece := if end != start then [str[start..end]] else [];
    WordsStep(str, start, end);
    WordsRegroup(tokens, piece, Words(str[end + 1..]), Words(str[start..]), Words(str));
    assert tokens' == tokens + piece;
  }

  /** Moving the next word from the words still to split to the words found. */
  lemma {:induction false} WordsRegroup(found: seq<string>, piece: seq<string>, rest: seq<string>, remaining: seq<string>,
                                        all: seq<string>)
    requires remaining == piece + rest && found + remaining == all
    ensures (found + piece) + rest == all
  {
  }

  /** The tail after the last space is one word, or none when it is empty. */
  lemma WordsLast(str: string, start: nat)
    requires start <= |str| && forall k :: start <= k < |str| ==> str[k] != ' '
    ensures Words(str[start..]) == if start < |str| then [str[start..]] else []
  {
    var s := str[start..];
    if s != [] {
      assert TokenLength(s) == |s|;
      assert s[..|s|] == s;
      assert s[|s|..] == [];
    }
  }

  /**
   * `splitStringBySpace`: cut at each space found from the previous cut,
   * keeping the non-empty pieces, then keep the non-empty tail.
   */
  method SplitStringBySpace(str: string) returns (tokens: seq<string>)
    ensures tokens == Words(str)
  {
    tokens := [];
    var start := 0;
    FindSpace(str, start);
    var end := FindFrom(str, " ", start);
    while end != -1
      invariant 0 <= start <= |str|
      invariant end == FindFrom(str, " ", start)
      invariant end != -1 ==> start <= end < |str| && str[end] == ' ' && forall k :: start <= k < end ==> str[k] != ' '
      invariant end == -1 ==> forall k :: start <= k < |str| ==> str[k] != ' '
      invariant tokens + Words(str[start..]) == Words(str)
      decreases |str| - start
    {
      ghost var before := tokens;
      if end != start {
        tokens := tokens + [str[start..end]];
      }
      SplitStep(str, start, end, before, tokens);
      start := end + 1;
      assert tokens + Words(str[start..]) == Words(str);
      FindSpace(str, start);
      end := FindFrom(str, " ", start);
    }
    WordsLast(str, start);
    if start < |str| {
      tokens := tokens + [str[start..]];
    }
  }

  // -------------------------------------------------------- labelled values

  /**
   * `e` is where the value that starts at `start` ends: the nearest
   * occurrence at or after `start` of a label other than `wanted`, or the end
   * of the text when no other label occurs there.
   */
  ghost predicate ValueEnd(t: string, wanted: string, allLabels: seq<string>, start: nat, e: int)
  {
    && start <= e <= |t|
    && NoOtherLabelBefore(t, wanted, allLabels, start, |allLabels|, e)
    && (e == |t| || exists j :: OtherLabelAt(t, wanted, allLabels, start, j, e))
  }

  /** None of the first `n` labels other than `wanted` occurs from `start` on before `e`. */
  ghost predicate NoOtherLabelBefore(t: string, wanted: string, allLabels: seq<string>, start: nat, n: int, e: int)
    requires n <= |allLabels|
  {
    forall j :: 0 <= j < n && allLabels[j] != wanted && FindFrom(t, allLabels[j], start) != -1
      ==> e <= FindFrom(t, allLabels[j], start)
  }

  /** One more label considered: the end moves to its position when that is nearer. */
  lemma NoOtherLabelStep(t: string, wanted: string, allLabels: seq<string>, start: nat, n: int, e: int, e': int)
    requires 0 <= n < |allLabels| && NoOtherLabelBefore(t, wanted, allLabels, start, n, e)
    requires var pos := FindFrom(t, allLabels[n], start);
      e' == if allLabels[n] != wanted && pos != -1 && pos < e then pos else e
    ensures NoOtherLabelBefore(t, wanted, allLabels, start, n + 1, e')
  {
  }

  /** Label `j`, other than `wanted`, occurs first at `e` from `start` on. */
  ghost predicate OtherLabelAt(t: string, wanted: string, allLabels: seq<string>, start: nat, j: int, e: int)
  {
    0 <= j < |allLabels| && allLabels[j] != wanted && FindFrom(t, allLabels[j], start) == e
  }

  /** `e` ends the value of `wanted` found at `p`. */
  ghost predicate ValueEndAfter(t: string, wanted: string, allLabels: seq<string>, p: nat, e: int)
  {
    ValueEnd(t, wanted, allLabels, p + |wanted|, e)
  }

  /**
   * `TryGetLabelledValue`: in the trimmed text, the trimmed stretch from the
   * end of the label's first occurrence to the nearest later occurrence of
   * any other label; the default when the label does not occur.
   */
  method TryGetLabelledValue(text: string, wanted: string, allLabels: seq<string>, defaultValue: string)
    returns (value: string)
    ensures var t := Trim(text); var p := FindFrom(t, wanted, 0);
      && (p == -1 ==> value == defaultValue)
      && (p != -1 ==> exists e :: ValueEndAfter(t, wanted, allLabels, p, e) && value == Trim(t[p + |wanted|..e]))
  {
    var trimmedText := Trim(text);
    var labelPos := FindFrom(trimmedText, wanted, 0);
    if labelPos == -1 {
      return defaultValue;
    }
    var valueStart := labelPos + |wanted|;
    var valueEnd := |trimmedText|;
    ghost var nearest := -1;
    for i := 0 to |allLabels|
      invariant valueStart <= valueEnd <= |trimmedText|
      invariant NoOtherLabelBefore(trimmedText, wanted, allLabels, valueStart, i, valueEnd)
      invariant valueEnd == |trimmedText| || OtherLabelAt(trimmedText, wanted, allLabels, valueStart, nearest, valueEnd)
    {
      var otherID := allLabels[i];
      ghost var previousEnd := valueEnd;
      if otherID != wanted {
        var otherIDPos := FindFrom(trimmedText, otherID, valueStart);
        if otherIDPos != -1 && otherIDPos < valueEnd {
          valueEnd := otherIDPos;
          nearest := i;
        }
      }
      NoOtherLabelStep(trimmedText, wanted, allLabels, valueStart, i, previousEnd, valueEnd);
    }
    value := Trim(trimmedText[valueStart..valueEnd]);
    assert ValueEndAfter(trimmedText, wanted, allLabels, labelPos, valueEnd);
  }

  /** The end of a value is unique: the least of the text's end and the later positions of the other labels. */
  lemma ValueEndUnique(t: string, wanted: string, allLabels: seq<string>, start: nat, e1: int, e2: int)
    requires ValueEnd(t, wanted, allLabels, start, e1) && ValueEnd(t, wanted, allLabels, start, e2)
    ensures e1 == e2
  {
  }

  /** `std::to_string` of a signed number. */
  function IntToString(n: int): (s: string)
  {
    if n < 0 then "-" + NatToString(-n) else NatToString(n)
  }

  /** The number of leading decimal digits of `s`. */
  function DigitRun(s: string): (n: nat)
    ensures n <= |s| && (forall k :: 0 <= k < n ==> IsDigit(s[k])) && (n < |s| ==> !IsDigit(s[n]))
  {
    if s == [] || !IsDigit(s[0]) then 0 else 1 + DigitRun(s[1..])
  }

  /**
   * `std::stoll` on a token without leading whitespace: an optional sign and
   * the longest run of digits after it; no digit is `invalid_argument`.
   */
  function ParseLeadingInt(s: string): (r: Option<int>)
    ensures r.None? <==> DigitRun(if s != [] && (s[0] == '-' || s[0] == '+') then s[1..] else s) == 0
  {
    var negative := s != [] && s[0] == '-';
    var digits := if s != [] && (s[0] == '-' || s[0] == '+') then s[1..] else s;
    var n := DigitRun(digits);
    var magnitude: int := DigitsValue(digits[..n]);
    if n == 0 then None
    else Some(if negative then -magnitude else magnitude)
  }

  /** `iss >> firstPart`: the first whitespace-delimited word, or "" when there is none. */
  function FirstToken(s: string): (w: string)
    ensures forall k :: 0 <= k < |w| ==> !IsSpace(w[k])
  {
    var a := FirstNonSpace(s, 0);
    if a == -1 then "" else s[a..a + NonSpaceRun(s[a..])]
  }

  /** The number of leading non-whitespace characters of `s`. */
  function NonSpaceRun(s: string): (n: nat)
    ensures n <= |s| && (forall k :: 0 <= k < n ==> !IsSpace(s[k])) && (n < |s| ==> IsSpace(s[n]))
  {
    if s == [] || IsSpace(s[0]) then 0 else 1 + NonSpaceRun(s[1..])
  }

  /** The number a value string yields, or the default when its first word has no number. */
  function IntOrDefault(valueString: string, defaultValue: int): (r: int)
    ensures ParseLeadingInt(FirstToken(valueString)).None? ==> r == defaultValue
  {
    match ParseLeadingInt(FirstToken(valueString))
    case None => defaultValue
    case Some(n) => n
  }

  /**
   * `TryGetLabelledValueInt`: the number at the start of the labelled value;
   * the default when the label is absent (its decimal text reads back as
   * itself) or when the value does not start with a number.
   */
  method TryGetLabelledValueInt(text: string, wanted: string, allLabels: seq<string>, defaultValue: int)
    returns (r: int)
    ensures FindFrom(Trim(text), wanted, 0) == -1 ==> r == defaultValue
    ensures var t := Trim(text); var p := FindFrom(t, wanted, 0);
      p != -1 ==> exists e :: (ValueEndAfter(t, wanted, allLabels, p, e)
        && r == IntOrDefault(Trim(t[p + |wanted|..e]), defaultValue))
  {
    var valueString := TryGetLabelledValue(text, wanted, allLabels, IntToString(defaultValue));
    IntToStringReadsBack(defaultValue);
    r := IntOrDefault(valueString, defaultValue);
  }

  /** Decimal digits form one word, read back as their value. */
  lemma DigitsReadBack(s: string)
    requires s != [] && forall k :: 0 <= k < |s| ==> IsDigit(s[k])
    ensures DigitRun(s) == |s| && s[..DigitRun(s)] == s
  {
  }

  /** Reading the default back from its decimal text gives the default. */
  lemma IntToStringReadsBack(n: int)
    ensures IntOrDefault(IntToString(n), n) == n
    ensures ParseLeadingInt(FirstToken(IntToString(n))) == Some(n)
  {
    IntToStringIsOneWord(n);
    IntToStringParses(n);
  }

  /** The decimal text of a number is a single word. */
  lemma IntToStringIsOneWord(n: int)
    ensures FirstToken(IntToString(n)) == IntToString(n)
  {
    var s := IntToString(n);
    forall k | 0 <= k < |s|
      ensures !IsSpace(s[k])
    {
      if n < 0 && k > 0 {
        assert s[k] == NatToString(-n)[k - 1];
      }
    }
    assert FirstNonSpace(s, 0) == 0;
    assert NonSpaceRun(s) == |s|;
    assert s[0..|s|] == s;
  }

  /** The decimal text of a number parses back to it. */
  lemma IntToStringParses(n: int)
    ensures ParseLeadingInt(IntToString(n)) == Some(n)
  {
    var m := if n < 0 then -n else n;
    var digits := NatToString(m);
    DigitsOfNatToString(m);
    DigitsReadBack(digits);
    if n < 0 {
      assert IntToString(n)[1..] == digits;
    }
  }

  // ----------------------------------------------------------- time limits

  /** `CalculateHardLimit`: half the remaining time, truncated toward zero; the increment is ignored. */
  function CalculateHardLimit(time: int, increment: int): (limit: int)
    ensures time >= 0 ==> 0 <= time - 2 * limit <= 1
    ensures time < 0 ==> -1 <= time - 2 * limit <= 0
  {
    Quot(time, 2)
  }
}
