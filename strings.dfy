/** The JavaScript string primitives the application relies on: `trim`, `split`
    and `join`, `toLowerCase`, `includes`, `Number(...)` on text and the decimal
    rendering of a number. Each is written out on `seq<char>`. */
module Strings {
  import opened Wrappers

  // ---------------------------------------------------------------------------
  // White space and `trim`

  /** The code points `String.prototype.trim` removes: ECMAScript's WhiteSpace
      and LineTerminator characters. */
  predicate IsSpace(c: char) {
    || c == ' ' || c == '\t' || c == '\n' || c == '\r' || c == '\U{0B}' || c == '\U{0C}'
    || c == '\U{A0}' || c == '\U{1680}' || ('\U{2000}' <= c <= '\U{200A}')
    || c == '\U{2028}' || c == '\U{2029}' || c == '\U{202F}' || c == '\U{205F}'
    || c == '\U{3000}' || c == '\U{FEFF}'
  }

  predicate AllSpace(s: string) {
    forall i :: 0 <= i < |s| ==> IsSpace(s[i])
  }

  /** No white space at either end. */
  predicate IsTrimmed(s: string) {
    s == [] || (!IsSpace(s[0]) && !IsSpace(s[|s| - 1]))
  }

  /** `s` without its leading white space: a suffix of `s` that starts with a
      non-space, and everything cut off is white space. */
  function TrimStart(s: string): (r: string)
    ensures |r| <= |s| && r == s[|s| - |r|..]
    ensures AllSpace(s[..|s| - |r|])
    ensures r == [] || !IsSpace(r[0])
    decreases |s|
  {
    if s != [] && IsSpace(s[0]) then
      var r := TrimStart(s[1..]);
      assert s[..|s| - |r|] == [s[0]] + s[1..][..|s| - 1 - |r|];
      r
    else
      s
  }

  /** `s` without its trailing white space: a prefix of `s` that ends with a
      non-space, and everything cut off is white space. */
  function TrimEnd(s: string): (r: string)
    ensures |r| <= |s| && r == s[..|r|]
    ensures AllSpace(s[|r|..])
    ensures r == [] || !IsSpace(r[|r| - 1])
    decreases |s|
  {
    if s != [] && IsSpace(s[|s| - 1]) then
      var r := TrimEnd(s[..|s| - 1]);
      assert s[|r|..] == s[..|s| - 1][|r|..] + [s[|s| - 1]];
      r
    else
      s
  }

  /** `s.trim()`: white space removed at both ends, so none is left there. */
  function Trim(s: string): (r: string)
    ensures IsTrimmed(r)
    ensures |r| <= |s|
  {
    TrimEnd(TrimStart(s))
  }

  /** `r` is the piece of `s` at offset `i`, with only white space around it. */
  predicate TrimmedAt(s: string, r: string, i: int) {
    0 <= i <= |s| - |r| && s[i..i + |r|] == r && AllSpace(s[..i]) && AllSpace(s[i + |r|..])
  }

  /** `trim` removes white space and nothing else: the result sits inside the
      text with only white space on either side of it. */
  lemma TrimIsInfix(s: string)
    ensures exists i :: TrimmedAt(s, Trim(s), i)
  {
    var a := TrimStart(s);
    var r := TrimEnd(a);
    var i := |s| - |a|;
    assert s[i..i + |r|] == r;
    assert s[i + |r|..] == a[|r|..];
    assert r == Trim(s);
    assert TrimmedAt(s, r, i);
  }

  /** Every character of the trimmed text occurs in the text. */
  lemma TrimKeepsCharacters(s: string, c: char)
    requires c in Trim(s)
    ensures c in s
  {
    var a := TrimStart(s);
    var r := TrimEnd(a);
    assert r == Trim(s);
    var k :| 0 <= k < |r| && r[k] == c;
    assert a[k] == c;
    assert s[|s| - |a| + k] == c;
  }

  /** Trimming text that is already trimmed changes nothing. */
  lemma TrimTrimmed(s: string)
    requires IsTrimmed(s)
    ensures Trim(s) == s
  {
  }

  /** A white-space character in front of a text does not survive `trim`. */
  lemma TrimLeadingSpace(c: char, s: string)
    requires IsSpace(c)
    ensures Trim([c] + s) == Trim(s)
  {
    assert ([c] + s)[1..] == s;
  }

  // ---------------------------------------------------------------------------
  // `toLowerCase`, restricted to ASCII

  function LowerChar(c: char): char {
    if 'A' <= c <= 'Z' then (c as int + 32) as char else c
  }

  /** `s.toLowerCase()` on ASCII letters: position by position, each capital
      letter becomes its small letter and every other character stays. */
  function ToLower(s: string): (r: string)
    ensures |r| == |s|
    ensures forall i :: 0 <= i < |s| ==> r[i] == LowerChar(s[i])
    decreases |s|
  {
    if s == [] then [] else [LowerChar(s[0])] + ToLower(s[1..])
  }

  // ---------------------------------------------------------------------------
  // `includes`

  /** `hay.includes(needle)`. */
  predicate Includes(hay: string, needle: string): (b: bool)
    ensures needle <= hay ==> b
    ensures b ==> |needle| <= |hay|
    decreases |hay|
  {
    needle <= hay || (hay != [] && Includes(hay[1..], needle))
  }

  /** `needle` occurs in `hay` at offset `i`. */
  predicate OccursAt(hay: string, needle: string, i: int) {
    0 <= i <= |hay| - |needle| && hay[i..i + |needle|] == needle
  }

  /** `includes` holds exactly when the needle occurs at some offset of the text. */
  lemma {:induction false} IncludesAt(hay: string, needle: string)
    ensures Includes(hay, needle) <==> exists i :: OccursAt(hay, needle, i)
    decreases |hay|
  {
    if needle <= hay {
      assert OccursAt(hay, needle, 0);
    } else if hay == [] {
    } else {
      IncludesAt(hay[1..], needle);
      if Includes(hay[1..], needle) {
        var i :| OccursAt(hay[1..], needle, i);
        assert hay[1..][i..i + |needle|] == hay[i + 1..i + 1 + |needle|];
        assert OccursAt(hay, needle, i + 1);
      }
      if exists i :: OccursAt(hay, needle, i) {
        var i :| OccursAt(hay, needle, i);
        assert i != 0;
        assert hay[1..][i - 1..i - 1 + |needle|] == hay[i..i + |needle|];
        assert OccursAt(hay[1..], needle, i - 1);
      }
    }
  }

  // ---------------------------------------------------------------------------
  // `split` and `join`

  /** `s.split(sep)` for a one-character separator: the pieces between the
      separators, none of which contains one; `"".split(sep)` is `[""]`. */
  function Split(s: string, sep: char): (r: seq<string>)
    ensures |r| >= 1
    ensures forall p :: p in r ==> sep !in p
    ensures r[0] <= s && (|r[0]| < |s| ==> s[|r[0]|] == sep)
    decreases |s|
  {
    if s == [] then [[]]
    else
      var rest := Split(s[1..], sep);
      if s[0] == sep then [[]] + rest else [[s[0]] + rest[0]] + rest[1..]
  }

  /** `parts.join(sep)`; the first part is a prefix of the result. */
  function Join(parts: seq<string>, sep: string): (r: string)
    ensures parts != [] ==> parts[0] <= r
    decreases |parts|
  {
    if parts == [] then []
    else if |parts| == 1 then parts[0]
    else parts[0] + sep + Join(parts[1..], sep)
  }

  /** Splitting and joining with the same separator are inverse: joining the
      pieces of a split gives back the text. */
  lemma {:induction false} JoinSplit(s: string, sep: char)
    ensures Join(Split(s, sep), [sep]) == s
    decreases |s|
  {
    if s != [] {
      var rest := Split(s[1..], sep);
      JoinSplit(s[1..], sep);
      if s[0] == sep {
        assert Split(s, sep) == [[]] + rest;
      } else {
        var r := Split(s, sep);
        assert r == [[s[0]] + rest[0]] + rest[1..];
        if |rest| == 1 {
          assert s == [s[0]] + s[1..];
        } else {
          assert r[1..] == rest[1..];
          assert Join(rest, [sep]) == rest[0] + [sep] + Join(rest[1..], [sep]);
          assert s == [s[0]] + s[1..];
        }
      }
    }
  }

  /** A text without the separator splits into itself alone. */
  lemma {:induction false} SplitWithoutSeparator(s: string, sep: char)
    requires sep !in s
    ensures Split(s, sep) == [s]
    decreases |s|
  {
    if s != [] {
      SplitWithoutSeparator(s[1..], sep);
      assert [s[0]] + s[1..] == s;
    }
  }

  /** Text without the separator in front of `t` is glued onto the first piece. */
  lemma {:induction false} SplitPrepend(a: string, t: string, sep: char)
    requires sep !in a
    ensures Split(a + t, sep) == [a + Split(t, sep)[0]] + Split(t, sep)[1..]
    decreases |a|
  {
    if a != [] {
      var st := Split(t, sep);
      assert (a + t)[0] == a[0] && a[0] != sep;
      assert (a + t)[1..] == a[1..] + t;
      SplitPrepend(a[1..], t, sep);
      var rest := Split(a[1..] + t, sep);
      assert rest == [a[1..] + st[0]] + st[1..];
      assert Split(a + t, sep) == [[a[0]] + rest[0]] + rest[1..];
      assert [a[0]] + (a[1..] + st[0]) == a + st[0];
    } else {
      var st := Split(t, sep);
      assert a + t == t;
      assert a + st[0] == st[0];
      assert [st[0]] + st[1..] == st;
    }
  }

  /** How `split` treats the first character. */
  lemma SplitCons(c: char, t: string, sep: char)
    ensures Split([c] + t, sep) == if c == sep then [[]] + Split(t, sep) else [[c] + Split(t, sep)[0]] + Split(t, sep)[1..]
  {
    assert ([c] + t)[0] == c && ([c] + t)[1..] == t;
  }

  /** Putting a character in front of two texts whose split is the split
      of their parts keeps it so. */
  lemma SplitAtSeparatorStep(c: char, t: string, a: string, sb: seq<string>, sep: char)
    requires Split(t, sep) == Split(a, sep) + sb
    ensures Split([c] + t, sep) == Split([c] + a, sep) + sb
  {
    SplitCons(c, t, sep);
    SplitCons(c, a, sep);
    var sa := Split(a, sep);
    if c == sep {
      ConsAppend([], sa, sb);
    } else {
      assert (sa + sb)[0] == sa[0];
      DropAppend(sa, sb);
      ConsAppend([c] + sa[0], sa[1..], sb);
    }
  }

  lemma ConsAppend(x: string, sa: seq<string>, sb: seq<string>)
    ensures [x] + (sa + sb) == ([x] + sa) + sb
  {
  }

  lemma DropAppend(sa: seq<string>, sb: seq<string>)
    requires |sa| >= 1
    ensures (sa + sb)[1..] == sa[1..] + sb
  {
  }

  /** Splitting at a separator between two texts splits each of them. */
  lemma {:induction false} SplitAtSeparator(a: string, b: string, sep: char)
    ensures Split(a + [sep] + b, sep) == Split(a, sep) + Split(b, sep)
    decreases |a|
  {
    if a == [] {
      assert a + [sep] + b == [sep] + b;
      SplitCons(sep, b, sep);
    } else {
      var t := a[1..] + [sep] + b;
      assert a + [sep] + b == [a[0]] + t;
      assert a == [a[0]] + a[1..];
      SplitAtSeparator(a[1..], b, sep);
      SplitAtSeparatorStep(a[0], t, a[1..], Split(b, sep), sep);
    }
  }

  /** `pad` put in front of every part. */
  function PrefixEach(pad: string, parts: seq<string>): (r: seq<string>)
    ensures |r| == |parts|
    ensures forall i :: 0 <= i < |parts| ==> r[i] == pad + parts[i]
    decreases |parts|
  {
    if parts == [] then [] else [pad + parts[0]] + PrefixEach(pad, parts[1..])
  }

  /** Joining with `sep` followed by `pad`, then splitting on `sep`, gives the
      parts back with `pad` in front of every part but the first, provided no
      part and not `pad` contains the separator. */
  lemma {:induction false} SplitJoinPadded(parts: seq<string>, sep: char, pad: string)
    requires |parts| >= 1
    requires forall p :: p in parts ==> sep !in p
    requires sep !in pad
    ensures Split(Join(parts, [sep] + pad), sep) == [parts[0]] + PrefixEach(pad, parts[1..])
    decreases |parts|
  {
    if |parts| == 1 {
      SplitWithoutSeparator(parts[0], sep);
    } else {
      var tail := Join(parts[1..], [sep] + pad);
      var x := [sep] + (pad + tail);
      SplitJoinPadded(parts[1..], sep, pad);
      assert Split(tail, sep) == [parts[1]] + PrefixEach(pad, parts[2..]) by {
        assert parts[1..][0] == parts[1] && parts[1..][1..] == parts[2..];
      }
      assert Join(parts, [sep] + pad) == parts[0] + x;
      SplitPrepend(parts[0], x, sep);
      assert x[1..] == pad + tail;
      assert Split(x, sep) == [[]] + Split(pad + tail, sep);
      SplitPrepend(pad, tail, sep);
      assert Split(pad + tail, sep) == [pad + parts[1]] + PrefixEach(pad, parts[2..]);
      assert PrefixEach(pad, parts[1..]) == [pad + parts[1]] + PrefixEach(pad, parts[2..]) by {
        assert parts[1..][0] == parts[1] && parts[1..][1..] == parts[2..];
      }
      assert parts[0] + [] == parts[0];
    }
  }

  // ---------------------------------------------------------------------------
  // Decimal digits: `Number(text)` and `n.toString()`

  predicate IsDigit(c: char) {
    '0' <= c <= '9'
  }

  predicate AllDigits(s: string) {
    forall i :: 0 <= i < |s| ==> IsDigit(s[i])
  }

  function DigitValue(c: char): nat
    requires IsDigit(c)
  {
    c as int - '0' as int
  }

  /** The value of a run of decimal digits; the empty run is 0. */
  function DigitsValue(s: string): nat
    requires AllDigits(s)
    decreases |s|
  {
    if s == [] then 0 else DigitsValue(s[..|s| - 1]) * 10 + DigitValue(s[|s| - 1])
  }

  function Digit(d: nat): (c: char)
    requires d < 10
    ensures IsDigit(c) && DigitValue(c) == d
  {
    ('0' as int + d) as char
  }

  /** `n.toString()` for a natural number: a non-empty run of decimal digits
      whose value is `n`. */
  function NatToString(n: nat): (r: string)
    ensures r != [] && AllDigits(r)
    ensures DigitsValue(r) == n
    decreases n
  {
    if n < 10 then [Digit(n)]
    else
      var r := NatToString(n / 10) + [Digit(n % 10)];
      assert r[..|r| - 1] == NatToString(n / 10);
      r
  }

  /** `Number(s)` on text: white space around the text is ignored, a run of
      decimal digits (the empty run included, as `Number("") === 0`) gives its
      value, and anything else gives NaN, written `None`. */
  function ToNumber(s: string): (r: Option<nat>)
    ensures AllDigits(Trim(s)) ==> r == Some(DigitsValue(Trim(s)))
    ensures !AllDigits(Trim(s)) ==> r == None
  {
    var t := Trim(s);
    if AllDigits(t) then Some(DigitsValue(t)) else None
  }

  /** Reading back the decimal rendering of a number gives the number. */
  lemma ToNumberOfNatToString(n: nat)
    ensures ToNumber(NatToString(n)) == Some(n)
  {
    var r := NatToString(n);
    assert !IsSpace(r[0]) && !IsSpace(r[|r| - 1]);
    TrimTrimmed(r);
  }
}
