/** Parsing of the `week_days` request string of a weekly task: the string
    is cut at commas, each part is stripped of whitespace, the parts that
    `isdigit` accepts are converted with `int`, and the whole list falls back
    to empty when one of those conversions raises. */
module WeekDays {
  import opened Common

  /** `str.split(sep)` with an explicit separator: always at least one part,
      empty parts kept. */
  function Split(s: string, sep: char): (parts: seq<string>)
    ensures |parts| >= 1
    decreases |s|
  {
    if |s| == 0 then [""] else Prepend(s[0], Split(s[1..], sep), sep)
  }

  /** The parts of `[c] + t` from the parts `rest` of `t`: a separator
      opens a new empty part, any other character joins the first part. */
  function Prepend(c: char, rest: seq<string>, sep: char): (parts: seq<string>)
    requires |rest| >= 1
    ensures |parts| >= 1
  {
    if c == sep then [""] + rest else [[c] + rest[0]] + rest[1..]
  }

  /** `Prepend` only touches the first part, so a common tail stays. */
  lemma PrependAppend(c: char, left: seq<string>, tail: seq<string>, sep: char)
    requires |left| >= 1
    ensures Prepend(c, left + tail, sep) == Prepend(c, left, sep) + tail
  {
    if c != sep {
      assert (left + tail)[1..] == left[1..] + tail;
    }
  }

  /** No part contains the separator. */
  lemma {:induction false} SplitSeparatorFree(s: string, sep: char)
    ensures forall i :: 0 <= i < |Split(s, sep)| ==> sep !in Split(s, sep)[i]
    decreases |s|
  {
    if |s| > 0 {
      SplitSeparatorFree(s[1..], sep);
      var rest := Split(s[1..], sep);
      if s[0] != sep {
        assert sep !in rest[0];
        assert sep !in [s[0]] + rest[0];
      }
    }
  }

  /** `sep.join(parts)`, for a non-empty list of parts. */
  function Join(parts: seq<string>, sep: char): string
    requires |parts| >= 1
    decreases |parts|
  {
    if |parts| == 1 then parts[0]
    else parts[0] + [sep] + Join(parts[1..], sep)
  }

  /** Splitting loses nothing: joining the parts gives the string back. */
  lemma {:induction false} JoinSplit(s: string, sep: char)
    ensures Join(Split(s, sep), sep) == s
    decreases |s|
  {
    if |s| > 0 {
      var rest := Split(s[1..], sep);
      JoinSplit(s[1..], sep);
      if s[0] == sep {
        assert s == [sep] + s[1..];
      } else if |rest| == 1 {
        assert s == [s[0]] + s[1..];
      } else {
        assert Join(rest, sep) == rest[0] + [sep] + Join(rest[1..], sep);
        assert s == [s[0]] + s[1..];
      }
    }
  }

  /** Splitting a joined list of separator-free parts gives the parts back. */
  lemma {:induction false} SplitJoin(parts: seq<string>, sep: char)
    requires |parts| >= 1
    requires forall i :: 0 <= i < |parts| ==> sep !in parts[i]
    ensures Split(Join(parts, sep), sep) == parts
    decreases |parts|
  {
    if |parts| == 1 {
      SplitNoSep(parts[0], sep);
    } else {
      SplitJoin(parts[1..], sep);
      SplitConcat(parts[0], Join(parts[1..], sep), sep);
      SplitNoSep(parts[0], sep);
      assert [parts[0]] + parts[1..] == parts;
    }
  }

  /** A string without the separator is a single part. */
  lemma {:induction false} SplitNoSep(s: string, sep: char)
    requires sep !in s
    ensures Split(s, sep) == [s]
    decreases |s|
  {
    if |s| > 0 {
      assert sep !in s[1..];
      SplitNoSep(s[1..], sep);
      assert [s[0]] + s[1..] == s;
    }
  }

  /** One step of `Split`, for a string given as its first character and
      the rest. */
  lemma SplitCons(c: char, t: string, sep: char)
    ensures Split([c] + t, sep) == Prepend(c, Split(t, sep), sep)
  {
    assert ([c] + t)[1..] == t;
  }

  /** Splitting at one separator: the parts of the left side, then the parts
      of the right side. */
  lemma {:induction false} SplitConcat(a: string, b: string, sep: char)
    ensures Split(a + [sep] + b, sep) == Split(a, sep) + Split(b, sep)
    decreases |a|
  {
    if |a| == 0 {
      assert a + [sep] + b == [sep] + b;
      SplitCons(sep, b, sep);
    } else {
      var t := a[1..];
      SplitConcat(t, b, sep);
      assert a == [a[0]] + t;
      assert a + [sep] + b == [a[0]] + (t + [sep] + b);
      SplitCons(a[0], t, sep);
      SplitCons(a[0], t + [sep] + b, sep);
      PrependAppend(a[0], Split(t, sep), Split(b, sep), sep);
    }
  }

  /** The characters `str.isspace()` accepts (and so `str.strip()` removes). */
  predicate IsSpace(c: char)
  {
    c == ' ' || ('\t' <= c <= '\r') || ('\U{1c}' <= c <= '\U{1f}') ||
    c == '\U{85}' || c == '\U{a0}' || c == '\U{1680}' ||
    ('\U{2000}' <= c <= '\U{200a}') || c == '\U{2028}' || c == '\U{2029}' ||
    c == '\U{202f}' || c == '\U{205f}' || c == '\U{3000}'
  }

  predicate AllSpace(s: string)
  {
    forall i :: 0 <= i < |s| ==> IsSpace(s[i])
  }

  /** Index of the first non-whitespace character at or after `i`. */
  function LeftMargin(s: string, i: nat): (r: nat)
    requires i <= |s|
    ensures i <= r <= |s|
    ensures forall k :: i <= k < r ==> IsSpace(s[k])
    ensures r == |s| || !IsSpace(s[r])
    decreases |s| - i
  {
    if i < |s| && IsSpace(s[i]) then LeftMargin(s, i + 1) else i
  }

  /** Index just past the last non-whitespace character in `s[lo..j]`. */
  function RightMargin(s: string, lo: nat, j: nat): (r: nat)
    requires lo <= j <= |s|
    ensures lo <= r <= j
    ensures forall k :: r <= k < j ==> IsSpace(s[k])
    ensures r == lo || !IsSpace(s[r - 1])
    decreases j
  {
    if j > lo && IsSpace(s[j - 1]) then RightMargin(s, lo, j - 1) else j
  }

  /** `str.strip()`: leading and trailing whitespace removed. */
  function Strip(s: string): string
  {
    var lo := LeftMargin(s, 0);
    s[lo..RightMargin(s, lo, |s|)]
  }

  /** What `strip` leaves is `s` without a whitespace margin on either side,
      and the margins are as wide as possible. */
  lemma StripSpec(s: string)
    ensures exists i, j :: 0 <= i <= j <= |s| && Strip(s) == s[i..j] &&
                           AllSpace(s[..i]) && AllSpace(s[j..])
    ensures Strip(s) == [] || (!IsSpace(Strip(s)[0]) && !IsSpace(Strip(s)[|Strip(s)| - 1]))
  {
    var i := LeftMargin(s, 0);
    var j := RightMargin(s, i, |s|);
    assert AllSpace(s[..i]);
    assert AllSpace(s[j..]);
  }

  // ---------------------------------------------------------------------
  // Digits, as Python's Unicode database (Unicode 15.0) classifies them

  /** The code point of the zero of the decimal-digit block (general
      category Nd) that holds `x`, or -1 when `x` is in none. The decimal
      digits come in blocks of ten consecutive code points, 0 to 9 in order;
      the chain tests the blocks in code-point order, each by its zero. */
  function BlockZero(x: int): int
  {
    if x < 0x30 then -1 else if x < 0x3A then 0x30 else
    if x < 0x660 then -1 else if x < 0x66A then 0x660 else
    if x < 0x6F0 then -1 else if x < 0x6FA then 0x6F0 else
    if x < 0x7C0 then -1 else if x < 0x7CA then 0x7C0 else
    if x < 0x966 then -1 else if x < 0x970 then 0x966 else
    if x < 0x9E6 then -1 else if x < 0x9F0 then 0x9E6 else
    if x < 0xA66 then -1 else if x < 0xA70 then 0xA66 else
    if x < 0xAE6 then -1 else if x < 0xAF0 then 0xAE6 else
    if x < 0xB66 then -1 else if x < 0xB70 then 0xB66 else
    if x < 0xBE6 then -1 else if x < 0xBF0 then 0xBE6 else
    if x < 0xC66 then -1 else if x < 0xC70 then 0xC66 else
    if x < 0xCE6 then -1 else if x < 0xCF0 then 0xCE6 else
    if x < 0xD66 then -1 else if x < 0xD70 then 0xD66 else
    if x < 0xDE6 then -1 else if x < 0xDF0 then 0xDE6 else
    if x < 0xE50 then -1 else if x < 0xE5A then 0xE50 else
    if x < 0xED0 then -1 else if x < 0xEDA then 0xED0 else
    if x < 0xF20 then -1 else if x < 0xF2A then 0xF20 else
    if x < 0x1040 then -1 else if x < 0x104A then 0x1040 else
    if x < 0x1090 then -1 else if x < 0x109A then 0x1090 else
    if x < 0x17E0 then -1 else if x < 0x17EA then 0x17E0 else
    if x < 0x1810 then -1 else if x < 0x181A then 0x1810 else
    if x < 0x1946 then -1 else if x < 0x1950 then 0x1946 else
    if x < 0x19D0 then -1 else if x < 0x19DA then 0x19D0 else
    if x < 0x1A80 then -1 else if x < 0x1A8A then 0x1A80 else
    if x < 0x1A90 then -1 else if x < 0x1A9A then 0x1A90 else
    if x < 0x1B50 then -1 else if x < 0x1B5A then 0x1B50 else
    if x < 0x1BB0 then -1 else if x < 0x1BBA then 0x1BB0 else
    if x < 0x1C40 then -1 else if x < 0x1C4A then 0x1C40 else
    if x < 0x1C50 then -1 else if x < 0x1C5A then 0x1C50 else
    if x < 0xA620 then -1 else if x < 0xA62A then 0xA620 else
    if x < 0xA8D0 then -1 else if x < 0xA8DA then 0xA8D0 else
    if x < 0xA900 then -1 else if x < 0xA90A then 0xA900 else
    if x < 0xA9D0 then -1 else if x < 0xA9DA then 0xA9D0 else
    if x < 0xA9F0 then -1 else if x < 0xA9FA then 0xA9F0 else
    if x < 0xAA50 then -1 else if x < 0xAA5A then 0xAA50 else
    if x < 0xABF0 then -1 else if x < 0xABFA then 0xABF0 else
    if x < 0xFF10 then -1 else if x < 0xFF1A then 0xFF10 else
    if x < 0x104A0 then -1 else if x < 0x104AA then 0x104A0 else
    if x < 0x10D30 then -1 else if x < 0x10D3A then 0x10D30 else
    if x < 0x11066 then -1 else if x < 0x11070 then 0x11066 else
    if x < 0x110F0 then -1 else if x < 0x110FA then 0x110F0 else
    if x < 0x11136 then -1 else if x < 0x11140 then 0x11136 else
    if x < 0x111D0 then -1 else if x < 0x111DA then 0x111D0 else
    if x < 0x112F0 then -1 else if x < 0x112FA then 0x112F0 else
    if x < 0x11450 then -1 else if x < 0x1145A then 0x11450 else
    if x < 0x114D0 then -1 else if x < 0x114DA then 0x114D0 else
    if x < 0x11650 then -1 else if x < 0x1165A then 0x11650 else
    if x < 0x116C0 then -1 else if x < 0x116CA then 0x116C0 else
    if x < 0x11730 then -1 else if x < 0x1173A then 0x11730 else
    if x < 0x118E0 then -1 else if x < 0x118EA then 0x118E0 else
    if x < 0x11950 then -1 else if x < 0x1195A then 0x11950 else
    if x < 0x11C50 then -1 else if x < 0x11C5A then 0x11C50 else
    if x < 0x11D50 then -1 else if x < 0x11D5A then 0x11D50 else
    if x < 0x11DA0 then -1 else if x < 0x11DAA then 0x11DA0 else
    if x < 0x11F50 then -1 else if x < 0x11F5A then 0x11F50 else
    if x < 0x16A60 then -1 else if x < 0x16A6A then 0x16A60 else
    if x < 0x16AC0 then -1 else if x < 0x16ACA then 0x16AC0 else
    if x < 0x16B50 then -1 else if x < 0x16B5A then 0x16B50 else
    if x < 0x1D7CE then -1 else if x < 0x1D7D8 then 0x1D7CE else
    if x < 0x1D7D8 then -1 else if x < 0x1D7E2 then 0x1D7D8 else
    if x < 0x1D7E2 then -1 else if x < 0x1D7EC then 0x1D7E2 else
    if x < 0x1D7EC then -1 else if x < 0x1D7F6 then 0x1D7EC else
    if x < 0x1D7F6 then -1 else if x < 0x1D800 then 0x1D7F6 else
    if x < 0x1E140 then -1 else if x < 0x1E14A then 0x1E140 else
    if x < 0x1E2F0 then -1 else if x < 0x1E2FA then 0x1E2F0 else
    if x < 0x1E4F0 then -1 else if x < 0x1E4FA then 0x1E4F0 else
    if x < 0x1E950 then -1 else if x < 0x1E95A then 0x1E950 else
    if x < 0x1FBF0 then -1 else if x < 0x1FBFA then 0x1FBF0 else
    -1
  }

  /** The value `int` gives the character `c`, when `c` is a decimal digit. */
  function DecimalValue(c: char): (r: Option<nat>)
    ensures r.Some? ==> r.value < 10
  {
    var z := BlockZero(c as int);
    if 0 <= z <= c as int < z + 10 then Some(c as int - z) else None
  }

  predicate IsDecimal(c: char)
  {
    DecimalValue(c).Some?
  }

  /** The other characters `isdigit` accepts (numeric type Digit), as
      inclusive ranges: superscripts and subscripts, circled, parenthesised
      and full-stop digits, and a few digit-like numbers of historic scripts.
      `int` refuses every one of them. */
  predicate IsOtherDigit(c: char)
  {
    var x := c as int;
    (0xB2 <= x <= 0xB3) || x == 0xB9 || (0x1369 <= x <= 0x1371) || x == 0x19DA ||
    x == 0x2070 || (0x2074 <= x <= 0x2079) || (0x2080 <= x <= 0x2089) || (0x2460 <= x <= 0x2468) ||
    (0x2474 <= x <= 0x247C) || (0x2488 <= x <= 0x2490) || x == 0x24EA || (0x24F5 <= x <= 0x24FD) ||
    x == 0x24FF || (0x2776 <= x <= 0x277E) || (0x2780 <= x <= 0x2788) || (0x278A <= x <= 0x2792) ||
    (0x10A40 <= x <= 0x10A43) || (0x10E60 <= x <= 0x10E68) || (0x11052 <= x <= 0x1105A) || (0x1F100 <= x <= 0x1F10A)
  }

  /** `str.isdigit()` on one character. */
  predicate IsDigit(c: char)
  {
    IsDecimal(c) || IsOtherDigit(c)
  }

  /** `str.isdigit()`: non-empty and digits only. */
  predicate IsDigits(s: string)
  {
    |s| > 0 && forall i :: 0 <= i < |s| ==> IsDigit(s[i])
  }

  /** Every character is a decimal digit, so `int` accepts the text. */
  predicate IsDecimals(s: string)
  {
    forall i :: 0 <= i < |s| ==> IsDecimal(s[i])
  }

  /** `int(s)` for a string of decimal digits (leading zeros allowed, digits
      of different scripts mixed freely). */
  function DigitsValue(s: string): nat
    requires IsDecimals(s)
    decreases |s|
  {
    if |s| == 0 then 0
    else
      assert IsDecimal(s[|s| - 1]);
      DigitsValue(s[..|s| - 1]) * 10 + DecimalValue(s[|s| - 1]).value
  }

  /** The ASCII digits are the block at the head of the table. */
  lemma AsciiDigit(d: nat)
    requires d < 10
    ensures DecimalValue(('0' as int + d) as char) == Some(d)
  {
  }

  /** The decimal rendering of a natural number, in ASCII digits and without
      leading zeros. */
  function Decimal(n: nat): (s: string)
    ensures IsDigits(s) && IsDecimals(s)
    ensures forall i :: 0 <= i < |s| ==> '0' <= s[i] <= '9'
    ensures n > 0 ==> s[0] != '0'
    decreases n
  {
    AsciiDigit(n % 10);
    if n < 10 then [('0' as int + n) as char]
    else Decimal(n / 10) + [('0' as int + n % 10) as char]
  }

  /** `int` reads back every number its decimal rendering spells. */
  lemma {:induction false} DigitsValueDecimal(n: nat)
    ensures DigitsValue(Decimal(n)) == n
    decreases n
  {
    var s := Decimal(n);
    AsciiDigit(n % 10);
    if n >= 10 {
      DigitsValueDecimal(n / 10);
      assert s[..|s| - 1] == Decimal(n / 10);
    }
  }

  // ---------------------------------------------------------------------
  // The comprehension

  /** What one token contributes: its number when, once stripped, `isdigit`
      accepts it and `int` reads it, nothing when `isdigit` refuses it, and
      `None` when `isdigit` accepts it but `int` raises. */
  function TokenDay(token: string): (r: Option<seq<nat>>)
    ensures r.Some? ==> |r.value| <= 1
  {
    var t := Strip(token);
    if !IsDigits(t) then Some([])
    else if IsDecimals(t) then Some([DigitsValue(t)])
    else None
  }

  /** The comprehension with the rule `day` for one token, over a list of
      tokens, left to right: the weekdays selected, in order, or `None` when
      the rule raises on some token. */
  function Gather(day: string -> Option<seq<nat>>, tokens: seq<string>): Option<seq<nat>>
    decreases |tokens|
  {
    if |tokens| == 0 then Some([])
    else
      var head := day(tokens[0]);
      var rest := Gather(day, tokens[1..]);
      if head.None? || rest.None? then None else Some(head.value + rest.value)
  }

  /** A rule that keeps at most one weekday per token keeps at most one per
      token over the list. */
  lemma {:induction false} GatherBound(day: string -> Option<seq<nat>>, tokens: seq<string>)
    requires forall t :: day(t).Some? ==> |day(t).value| <= 1
    ensures Gather(day, tokens).Some? ==> |Gather(day, tokens).value| <= |tokens|
    decreases |tokens|
  {
    if |tokens| > 0 {
      GatherBound(day, tokens[1..]);
    }
  }

  /** The comprehension raises exactly when the rule raises on some token. */
  lemma {:induction false} GatherRaises(day: string -> Option<seq<nat>>, tokens: seq<string>)
    ensures Gather(day, tokens).None? <==> exists i :: 0 <= i < |tokens| && day(tokens[i]).None?
    decreases |tokens|
  {
    if |tokens| > 0 {
      GatherRaises(day, tokens[1..]);
      assert forall i :: 1 <= i < |tokens| ==> tokens[i] == tokens[1..][i - 1];
    }
  }

  /** The comprehension over two token lists raises when it raises on either,
      and otherwise concatenates their weekdays. */
  lemma {:induction false} GatherConcat(day: string -> Option<seq<nat>>, a: seq<string>, b: seq<string>)
    ensures Gather(day, a + b).None? <==> Gather(day, a).None? || Gather(day, b).None?
    ensures Gather(day, a + b).Some? ==> Gather(day, a + b).value == Gather(day, a).value + Gather(day, b).value
    decreases |a|
  {
    if |a| == 0 {
      assert a + b == b;
    } else {
      var ab := a + b;
      assert ab[0] == a[0];
      assert ab[1..] == a[1..] + b;
      GatherConcat(day, a[1..], b);
      var h := day(a[0]);
      if h.Some? && Gather(day, a[1..]).Some? && Gather(day, b).Some? {
        assert Gather(day, ab).value == h.value + (Gather(day, a[1..]).value + Gather(day, b).value);
        assert Gather(day, a).value == h.value + Gather(day, a[1..]).value;
      }
    }
  }

  /** Over tokens the rule keeps nothing of, the comprehension selects
      nothing and raises nowhere. */
  lemma {:induction false} GatherNone(day: string -> Option<seq<nat>>, tokens: seq<string>)
    requires forall i :: 0 <= i < |tokens| ==> day(tokens[i]) == Some([])
    ensures Gather(day, tokens) == Some([])
    decreases |tokens|
  {
    if |tokens| > 0 {
      assert forall i :: 0 <= i < |tokens[1..]| ==> tokens[1..][i] == tokens[i + 1];
      GatherNone(day, tokens[1..]);
      assert day(tokens[0]) == Some([]);
      var none: seq<nat> := [];
      assert none + none == none;
    }
  }

  /** `[int(day.strip()) for day in tokens if day.strip().isdigit()]`, or
      `None` when `int` raises on a token. */
  function Select(tokens: seq<string>): (r: Option<seq<nat>>)
    ensures r.Some? ==> |r.value| <= |tokens|
  {
    GatherBound(TokenDay, tokens);
    Gather(TokenDay, tokens)
  }

  /** The comprehension raises exactly when `int` raises on one of the
      tokens `isdigit` lets through. */
  lemma SelectRaises(tokens: seq<string>)
    ensures Select(tokens).None? <==> exists i :: 0 <= i < |tokens| && TokenDay(tokens[i]).None?
  {
    GatherRaises(TokenDay, tokens);
  }

  /** The comprehension raises on some part of `week_days`. */
  predicate Refused(s: string)
  {
    Select(Split(s, ',')).None?
  }

  /** The weekday list built from `week_days`: one weekday at most per part,
      and the empty list when `int` raises on any part, since the `except`
      around the comprehension catches every error. No range check is made. */
  function ParseWeekDays(s: string): (r: seq<nat>)
    ensures |r| <= |Split(s, ',')|
    ensures (exists i :: 0 <= i < |Split(s, ',')| && TokenDay(Split(s, ',')[i]).None?) ==> r == []
  {
    SelectRaises(Split(s, ','));
    var sel := Select(Split(s, ','));
    if sel.Some? then sel.value else []
  }

  /** The comprehension over two token lists raises when it raises on either,
      and otherwise concatenates their weekdays. */
  lemma SelectConcat(a: seq<string>, b: seq<string>)
    ensures Select(a + b).None? <==> Select(a).None? || Select(b).None?
    ensures Select(a + b).Some? ==> Select(a + b).value == Select(a).value + Select(b).value
  {
    GatherConcat(TokenDay, a, b);
  }

  /** Weekday text joined at a comma: it is refused exactly when one side is,
      and otherwise keeps order and duplicates, the weekdays of the left side
      followed by those of the right side. */
  lemma ParseWeekDaysConcat(a: string, b: string)
    ensures Refused(a + [','] + b) <==> Refused(a) || Refused(b)
    ensures Refused(a) || Refused(b) ==> ParseWeekDays(a + [','] + b) == []
    ensures !Refused(a) && !Refused(b) ==> ParseWeekDays(a + [','] + b) == ParseWeekDays(a) + ParseWeekDays(b)
  {
    SplitConcat(a, b, ',');
    SelectConcat(Split(a, ','), Split(b, ','));
  }

  /** A single token (no comma) yields its number when, once stripped,
      `isdigit` accepts it and it is decimal; nothing when `isdigit` refuses
      it; and nothing, through the `except`, when `int` raises on it. */
  lemma ParseWeekDaysToken(t: string)
    requires ',' !in t
    ensures !IsDigits(Strip(t)) ==> ParseWeekDays(t) == [] && !Refused(t)
    ensures IsDigits(Strip(t)) && IsDecimals(Strip(t)) ==> ParseWeekDays(t) == [DigitsValue(Strip(t))]
    ensures IsDigits(Strip(t)) && !IsDecimals(Strip(t)) ==> ParseWeekDays(t) == [] && Refused(t)
  {
    SplitNoSep(t, ',');
    SelectSingle(t);
  }

  /** The comprehension over one token is that token's contribution. */
  lemma SelectSingle(t: string)
    ensures Select([t]) == TokenDay(t)
  {
    GatherSingle(TokenDay, t);
  }

  lemma GatherSingle(day: string -> Option<seq<nat>>, t: string)
    ensures Gather(day, [t]) == day(t)
  {
    assert [t][1..] == [];
    var h := day(t);
    if h.Some? {
      assert h.value + [] == h.value;
    }
  }

  /** Text without a single token `isdigit` accepts selects no weekday, and
      raises nowhere. */
  lemma SelectNone(tokens: seq<string>)
    requires forall i :: 0 <= i < |tokens| ==> !IsDigits(Strip(tokens[i]))
    ensures Select(tokens) == Some([])
  {
    GatherNone(TokenDay, tokens);
  }

  /** An Arabic-Indic digit three is a weekday `int` reads as 3. */
  lemma ArabicIndicThree()
    ensures ParseWeekDays("\U{663}") == [3]
  {
    var t := "\U{663}";
    assert LeftMargin(t, 0) == 0;
    assert RightMargin(t, 0, 1) == 1;
    assert Strip(t) == t;
    assert DecimalValue('\U{663}') == Some(3);
    assert IsDigits(t) && IsDecimals(t);
    assert t[..0] == [];
    ParseWeekDaysToken(t);
  }

  /** "1" alone is weekday 1. */
  lemma AsciiOne()
    ensures ParseWeekDays("1") == [1]
    ensures !Refused("1")
  {
    var one := "1";
    assert Strip(one) == one by {
      assert LeftMargin(one, 0) == 0;
      assert RightMargin(one, 0, 1) == 1;
    }
    assert DecimalValue('1') == Some(1);
    assert IsDigits(one) && IsDecimals(one);
    assert one[..0] == [];
    ParseWeekDaysToken(one);
  }

  /** A superscript two passes `isdigit` but not `int`. */
  lemma SuperscriptRefused()
    ensures Refused("\U{b2}")
  {
    var two := "\U{b2}";
    assert Strip(two) == two by {
      assert LeftMargin(two, 0) == 0;
      assert RightMargin(two, 0, 1) == 1;
    }
    assert IsOtherDigit('\U{b2}');
    assert DecimalValue('\U{b2}').None?;
    assert IsDigits(two) && !IsDecimals(two);
    ParseWeekDaysToken(two);
  }

  /** A superscript two passes `isdigit` but not `int`, so one such part
      empties the whole list, although "1" alone gives [1]. */
  lemma SuperscriptEmptiesList()
    ensures ParseWeekDays("1") == [1]
    ensures ParseWeekDays("1,\U{b2}") == []
  {
    AsciiOne();
    SuperscriptRefused();
    assert "1" + [','] + "\U{b2}" == "1,\U{b2}";
    ParseWeekDaysConcat("1", "\U{b2}");
  }
}
