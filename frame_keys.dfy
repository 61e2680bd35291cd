// Frame keys `frame_NNN`: how the backend (Python `f"frame_{n:03d}"`, `"frame_%03d" % n`) and
// the frontend (`frame_${String(n).padStart(3, '0')}`) build them, and how each side reads the
// number back (Python `int(key.split('_')[1])`, JavaScript `parseInt(key.replace('frame_', ''))`).
module FrameKeys {
  import opened Wrappers
  import opened Text

  const Prefix: string := "frame_"

  /** Python `f"frame_{n:03d}"`: at least three characters, the sign counted, zeros after the sign. */
  function PyFrameKey(n: int): string
  {
    Prefix + (if n >= 0 then PadStart(Digits(n), 3, '0') else "-" + PadStart(Digits(-n), 2, '0'))
  }

  /** JavaScript `'frame_' + String(n).padStart(3, '0')`: zeros go in front of the sign. */
  function JsFrameKey(n: int): string
  {
    Prefix + PadStart(IntText(n), 3, '0')
  }

  function IndexOf(s: string, c: char): (r: Option<nat>)
    ensures r.Some? ==> r.value < |s| && s[r.value] == c && c !in s[..r.value]
    ensures r.None? ==> c !in s
  {
    if s == [] then None
    else if s[0] == c then Some(0)
    else match IndexOf(s[1..], c)
      case None => None
      case Some(i) => assert s[..i + 1] == [s[0]] + s[1..][..i]; Some(i + 1)
  }

  /** `s.split('_')[1]`: the text between the first and the second underscore; None is an IndexError. */
  function SecondField(s: string): Option<string>
  {
    match IndexOf(s, '_')
    case None => None
    case Some(i) =>
      var rest := s[i + 1..];
      match IndexOf(rest, '_')
      case None => Some(rest)
      case Some(j) => Some(rest[..j])
  }

  /** Python `int(s)` on an optional sign followed by decimal digits; None is a ValueError. */
  function PyInt(s: string): Option<int>
  {
    if |s| >= 2 && (s[0] == '-' || s[0] == '+') && AllDigits(s[1..]) then
      Some(if s[0] == '-' then -(ValueOf(s[1..]) as int) else ValueOf(s[1..]))
    else if |s| >= 1 && AllDigits(s) then Some(ValueOf(s))
    else None
  }

  /** The frame number the backend reads from a key; None means the conversion raises. */
  function PyFrameNumber(key: string): Option<int>
  {
    match SecondField(key)
    case None => None
    case Some(f) => PyInt(f)
  }

  /** `s.replace(pat, '')` on its first occurrence only, as JavaScript's string `replace` does. */
  function RemoveFirst(s: string, pat: string): string
  {
    if StartsWith(s, pat) then s[|pat|..]
    else if s == [] then []
    else [s[0]] + RemoveFirst(s[1..], pat)
  }

  /** The longest prefix of decimal digits. */
  function DigitPrefix(s: string): (r: string)
    ensures AllDigits(r) && |r| <= |s| && r == s[..|r|]
    ensures |r| < |s| ==> !IsDigit(s[|r|])
  {
    if s == [] || !IsDigit(s[0]) then [] else [s[0]] + DigitPrefix(s[1..])
  }

  /** JavaScript `parseInt(s)`: optional sign, then the leading digits; None is NaN. */
  function JsParseInt(s: string): Option<int>
  {
    var neg := |s| >= 1 && s[0] == '-';
    var body := if |s| >= 1 && (s[0] == '-' || s[0] == '+') then s[1..] else s;
    var ds := DigitPrefix(body);
    if ds == [] then None else Some(if neg then -(ValueOf(ds) as int) else ValueOf(ds))
  }

  function JsFrameNumber(key: string): Option<int>
  {
    JsParseInt(RemoveFirst(key, Prefix))
  }

  lemma {:induction false} SecondFieldOfKey(t: string)
    requires '_' !in t
    ensures SecondField(Prefix + t) == Some(t)
  {
    var s := Prefix + t;
    assert s[5] == '_' && s[..5] == "frame";
    assert IndexOf(s, '_') == Some(5);
    assert s[6..] == t;
  }

  lemma PaddedDigits(n: nat, width: nat)
    ensures AllDigits(PadStart(Digits(n), width, '0'))
    ensures ValueOf(PadStart(Digits(n), width, '0')) == n
  {
    var d := Digits(n);
    ValueOfDigits(n);
    var p := PadStart(d, width, '0');
    if |d| < width {
      assert p == Repeat('0', width - |d|) + d;
      ValueOfLeadingZeros(width - |d|, d);
    } else {
      assert p == d;
    }
  }

  lemma PyIntOfDigits(t: string)
    requires |t| >= 1 && AllDigits(t)
    ensures PyInt(t) == Some(ValueOf(t))
  {
    assert !(t[0] == '-' || t[0] == '+') by { assert IsDigit(t[0]); }
  }

  lemma PyIntOfNegative(d: string)
    requires |d| >= 1 && AllDigits(d)
    ensures PyInt("-" + d) == Some(-(ValueOf(d) as int))
  {
    assert ("-" + d)[1..] == d;
  }

  lemma NoUnderscore(t: string)
    requires AllDigits(t)
    ensures '_' !in t && '_' !in "-" + t
  {
    assert forall i :: 0 <= i < |t| ==> t[i] != '_';
    assert "-" + t == ['-'] + t;
  }

  lemma PyFrameNumberOfField(t: string)
    requires '_' !in t
    ensures PyFrameNumber(Prefix + t) == PyInt(t)
  {
    SecondFieldOfKey(t);
  }

  /** The backend reads back from every key it builds the number it built it from. */
  lemma PyFrameNumberOfKey(n: int)
    ensures PyFrameNumber(PyFrameKey(n)) == Some(n)
  {
    if n >= 0 {
      PyFrameNumberOfNatKey(n);
    } else {
      PyFrameNumberOfNegativeKey(n);
    }
  }

  lemma PyFrameNumberOfNatKey(n: nat)
    ensures PyFrameNumber(PyFrameKey(n)) == Some(n)
  {
    var t := PadStart(Digits(n), 3, '0');
    assert PyFrameKey(n) == Prefix + t;
    PaddedDigits(n, 3);
    NoUnderscore(t);
    PyFrameNumberOfField(t);
    PyIntOfDigits(t);
  }

  lemma PyFrameNumberOfNegativeKey(n: int)
    requires n < 0
    ensures PyFrameNumber(PyFrameKey(n)) == Some(n)
  {
    var m: nat := -n;
    var d := PadStart(Digits(m), 2, '0');
    assert PyFrameKey(n) == Prefix + ("-" + d);
    PaddedDigits(m, 2);
    assert ValueOf(d) == m;
    PyFrameNumberOfSigned(n, d);
  }

  lemma PyFrameNumberOfSigned(n: int, d: string)
    requires n < 0
    requires |d| >= 1
    requires AllDigits(d)
    requires ValueOf(d) == -n
    ensures PyFrameNumber(Prefix + ("-" + d)) == Some(n)
  {
    NoUnderscore(d);
    PyFrameNumberOfField("-" + d);
    PyIntOfNegative(d);
  }

  /** For the frame numbers the pages use, the two key formats agree. */
  lemma KeysAgree(n: int)
    requires n >= 0
    ensures PyFrameKey(n) == JsFrameKey(n)
  {
  }

  /** Distinct frame numbers give distinct backend keys. */
  lemma PyFrameKeyInjective(m: int, n: int)
    requires PyFrameKey(m) == PyFrameKey(n)
    ensures m == n
  {
    PyFrameNumberOfKey(m);
    PyFrameNumberOfKey(n);
  }

  /** The frontend reads back from a key the non-negative number it was built from. */
  lemma JsFrameNumberOfKey(n: int)
    requires n >= 0
    ensures JsFrameNumber(JsFrameKey(n)) == Some(n)
    ensures JsFrameNumber(PyFrameKey(n)) == Some(n)
  {
    var t := PadStart(Digits(n), 3, '0');
    PaddedDigits(n, 3);
    assert JsFrameKey(n) == Prefix + t;
    RemovePrefix(t);
    JsParseIntOfDigits(t);
  }

  lemma RemovePrefix(t: string)
    ensures RemoveFirst(Prefix + t, Prefix) == t
  {
    assert (Prefix + t)[..|Prefix|] == Prefix;
    assert (Prefix + t)[|Prefix|..] == t;
  }

  lemma JsParseIntOfDigits(t: string)
    requires |t| >= 1 && AllDigits(t)
    ensures JsParseInt(t) == Some(ValueOf(t))
  {
    assert IsDigit(t[0]);
    DigitPrefixAll(t);
  }

  lemma {:induction false} DigitPrefixAll(s: string)
    requires AllDigits(s)
    ensures DigitPrefix(s) == s
  {
    if s != [] {
      DigitPrefixAll(s[1..]);
    }
  }

  /** A negative number does not survive the frontend's key: `frame_0-1` reads back as 0. */
  lemma JsKeyOfMinusOne()
    ensures JsFrameKey(-1) == "frame_0-1"
    ensures JsFrameNumber(JsFrameKey(-1)) == Some(0)
  {
    assert Digits(1) == "1";
    assert IntText(-1) == "-1";
    assert PadStart("-1", 3, '0') == "0-1";
    var k := JsFrameKey(-1);
    assert StartsWith(k, Prefix);
    assert RemoveFirst(k, Prefix) == "0-1";
    assert DigitPrefix("0-1") == "0" by {
      assert DigitPrefix("-1") == [];
    }
    assert ValueOf("0") == 0 by { assert "0"[..0] == []; }
  }
}
