/**
  JSON values and their text, as the services use `json.dumps` and `json.loads`.

  `Encode` writes the single-line form `json.dumps` produces with its default
  separators (", " between items, ": " after a key).  `Decode` is a strict
  recursive-descent reader that accepts exactly the texts `Encode` produces:
  `DecodeInvertsEncode` proves `Decode(s) == Some(j)` if and only if
  `s == Encode(j)`, so "malformed text" is precisely text outside the range of
  `Encode`.
*/
module Json {
  import opened Wrappers

  type Digit = d: int | 0 <= d <= 9

  /** A JSON number as its decimal literal: sign, integer part, fraction digits. */
  datatype Number = Number(negative: bool, whole: nat, fraction: seq<Digit>)

  datatype Json =
    | JNull
    | JBool(b: bool)
    | JNumber(n: Number)
    | JString(s: string)
    | JArray(items: seq<Json>)
    | JObject(members: seq<Member>)

  /** One `"key": value` pair of an object, in the order written. */
  datatype Member = Member(key: string, value: Json)

  /* ---------------------------------------------------------------- digits */

  predicate IsDigitChar(c: char) { '0' <= c <= '9' }

  predicate AllDigits(t: string) { forall i :: 0 <= i < |t| ==> IsDigitChar(t[i]) }

  function DigitChar(d: Digit): char { (d + '0' as int) as char }

  function CharDigit(c: char): Digit
    requires IsDigitChar(c)
  {
    c as int - '0' as int
  }

  /** Decimal text of a natural number, without leading zeros. */
  function NatText(n: nat): string
    decreases n
  {
    if n < 10 then [DigitChar(n)] else NatText(n / 10) + [DigitChar(n % 10)]
  }

  /** Value of a digit string read left to right. */
  function DigitsValue(t: string): nat
    requires AllDigits(t)
    decreases |t|
  {
    if t == [] then 0 else DigitsValue(t[..|t| - 1]) * 10 + CharDigit(t[|t| - 1])
  }

  function DigitsText(ds: seq<Digit>): (t: string)
    ensures |t| == |ds| && AllDigits(t)
  {
    seq(|ds|, i requires 0 <= i < |ds| => DigitChar(ds[i]))
  }

  function TextDigits(t: string): (ds: seq<Digit>)
    requires AllDigits(t)
    ensures |ds| == |t|
  {
    seq(|t|, i requires 0 <= i < |t| => CharDigit(t[i]))
  }

  /** The longest prefix of digits, and what follows it. */
  function SpanDigits(s: string): (r: (string, string))
    ensures r.0 + r.1 == s && AllDigits(r.0)
    ensures r.1 == [] || !IsDigitChar(r.1[0])
    ensures s != [] && IsDigitChar(s[0]) ==> r.0 != [] && r.0[0] == s[0]
    decreases |s|
  {
    if s != [] && IsDigitChar(s[0]) then
      var (d, rest) := SpanDigits(s[1..]);
      ConsSplit(s, d, rest);
      ([s[0]] + d, rest)
    else
      ([], s)
  }

  /** A digit put back in front of a split of the rest of `s` splits `s`. */
  lemma ConsSplit(s: string, d: string, rest: string)
    requires s != [] && IsDigitChar(s[0]) && d + rest == s[1..] && AllDigits(d)
    ensures [s[0]] + d + rest == s && AllDigits([s[0]] + d)
  {
    assert [s[0]] + d + rest == [s[0]] + (d + rest);
    var t := [s[0]] + d;
    forall i | 0 <= i < |t| ensures IsDigitChar(t[i]) {
      if i > 0 {
        assert t[i] == d[i - 1];
      }
    }
  }

  /* -------------------------------------------------------------- encoding */

  function SignText(negative: bool): string { if negative then "-" else "" }

  function FractionText(fraction: seq<Digit>): string
  {
    if fraction == [] then "" else "." + DigitsText(fraction)
  }

  function NumberText(n: Number): string
  {
    SignText(n.negative) + NatText(n.whole) + FractionText(n.fraction)
  }

  function EscapeChar(c: char): string
  {
    if c == '"' then "\\\""
    else if c == '\\' then "\\\\"
    else if c == '\n' then "\\n"
    else if c == '\r' then "\\r"
    else if c == '\t' then "\\t"
    else [c]
  }

  function Escape(s: string): string
    decreases |s|
  {
    if s == [] then "" else EscapeChar(s[0]) + Escape(s[1..])
  }

  function StringText(s: string): string { "\"" + Escape(s) + "\"" }

  /** The text `json.dumps` writes for `j`. */
  function Encode(j: Json): string
    decreases j
  {
    match j
    case JNull => "null"
    case JBool(b) => if b then "true" else "false"
    case JNumber(n) => NumberText(n)
    case JString(s) => StringText(s)
    case JArray(items) => "[" + EncodeItems(items) + "]"
    case JObject(members) => "{" + EncodeMembers(members) + "}"
  }

  function EncodeItems(items: seq<Json>): string
    decreases items
  {
    if items == [] then ""
    else if |items| == 1 then Encode(items[0])
    else Encode(items[0]) + ", " + EncodeItems(items[1..])
  }

  function EncodeMembers(members: seq<Member>): string
    decreases members
  {
    if members == [] then ""
    else if |members| == 1 then MemberText(members[0])
    else MemberText(members[0]) + ", " + EncodeMembers(members[1..])
  }

  function MemberText(m: Member): string
    decreases m
  {
    StringText(m.key) + ": " + Encode(m.value)
  }

  /* -------------------------------------------------------------- decoding */

  /** The character a backslash escape stands for. */
  function Unescape(c: char): Option<char>
  {
    if c == '"' then Some('"')
    else if c == '\\' then Some('\\')
    else if c == 'n' then Some('\n')
    else if c == 'r' then Some('\r')
    else if c == 't' then Some('\t')
    else None
  }

  /** Characters that may not appear raw inside a string literal. */
  predicate IsRawControl(c: char) { c == '\n' || c == '\r' || c == '\t' }

  /** Puts `c` in front of the text a successful read returned. */
  function Prepend(c: char, r: Option<(string, string)>): (p: Option<(string, string)>)
    ensures p.Some? <==> r.Some?
    ensures p.Some? ==> p.value == ([c] + r.value.0, r.value.1)
  {
    match r
    case None => None
    case Some((t, rest)) => Some(([c] + t, rest))
  }

  /** Reads a string body up to and including its closing quote. */
  function ParseStringBody(s: string): (r: Option<(string, string)>)
    ensures r.Some? ==> |r.value.1| < |s|
    decreases |s|
  {
    if s == [] then None
    else if s[0] == '"' then Some(([], s[1..]))
    else if s[0] == '\\' then
      if |s| < 2 || Unescape(s[1]).None? then None
      else Prepend(Unescape(s[1]).value, ParseStringBody(s[2..]))
    else if IsRawControl(s[0]) then None
    else Prepend(s[0], ParseStringBody(s[1..]))
  }

  /** The integer part: a lone `0`, or a run of digits not starting with `0`. */
  function SplitWhole(t: string): (r: (string, string))
    requires t != [] && IsDigitChar(t[0])
    ensures r.0 + r.1 == t && AllDigits(r.0) && r.0 != []
  {
    if t[0] == '0' then ([t[0]], t[1..]) else SpanDigits(t)
  }

  function ParseFraction(negative: bool, whole: nat, s: string): (r: Option<(Number, string)>)
    ensures r.Some? ==> |r.value.1| <= |s|
  {
    if s != [] && s[0] == '.' then
      var (digits, rest) := SpanDigits(s[1..]);
      if digits == [] then None else Some((Number(negative, whole, TextDigits(digits)), rest))
    else
      Some((Number(negative, whole, []), s))
  }

  function ParseUnsigned(negative: bool, t: string): (r: Option<(Number, string)>)
    ensures r.Some? ==> |r.value.1| < |t|
  {
    if t == [] || !IsDigitChar(t[0]) then None
    else
      var (wholeText, rest) := SplitWhole(t);
      ParseFraction(negative, DigitsValue(wholeText), rest)
  }

  function ParseNumber(s: string): (r: Option<(Number, string)>)
    ensures r.Some? ==> |r.value.1| < |s|
  {
    if s != [] && s[0] == '-' then ParseUnsigned(true, s[1..]) else ParseUnsigned(false, s)
  }

  function ParseLiteral(s: string, word: string, v: Json): (r: Option<(Json, string)>)
    requires word != []
    ensures r.Some? ==> |r.value.1| < |s|
  {
    if |word| <= |s| && s[..|word|] == word then Some((v, s[|word|..])) else None
  }

  function ParseStringValue(s: string): (r: Option<(Json, string)>)
    ensures r.Some? ==> |r.value.1| < |s|
  {
    match ParseStringBody(s)
    case None => None
    case Some((t, rest)) => Some((JString(t), rest))
  }

  function ParseNumberValue(s: string): (r: Option<(Json, string)>)
    ensures r.Some? ==> |r.value.1| < |s|
  {
    match ParseNumber(s)
    case None => None
    case Some((n, rest)) => Some((JNumber(n), rest))
  }

  predicate IsSeparator(s: string) { |s| >= 2 && s[0] == ',' && s[1] == ' ' }

  predicate IsColon(s: string) { |s| >= 2 && s[0] == ':' && s[1] == ' ' }

  /** Reads one value; returns it with the text that follows it. */
  function ParseValue(s: string): (r: Option<(Json, string)>)
    ensures r.Some? ==> |r.value.1| < |s|
    decreases |s|, 2
  {
    if s == [] then None
    else if s[0] == 'n' then ParseLiteral(s, "null", JNull)
    else if s[0] == 't' then ParseLiteral(s, "true", JBool(true))
    else if s[0] == 'f' then ParseLiteral(s, "false", JBool(false))
    else if s[0] == '"' then ParseStringValue(s[1..])
    else if s[0] == '-' || IsDigitChar(s[0]) then ParseNumberValue(s)
    else if s[0] == '[' then ParseArray(s[1..])
    else if s[0] == '{' then ParseObject(s[1..])
    else None
  }

  /** Reads the rest of an array after its `[`. */
  function ParseArray(s: string): (r: Option<(Json, string)>)
    ensures r.Some? ==> |r.value.1| < |s|
    decreases |s|, 4
  {
    if s != [] && s[0] == ']' then Some((JArray([]), s[1..]))
    else
      match ParseItems(s)
      case None => None
      case Some((items, rest)) => Some((JArray(items), rest))
  }

  /** Reads one or more items separated by ", " and the closing `]`. */
  function ParseItems(s: string): (r: Option<(seq<Json>, string)>)
    ensures r.Some? ==> |r.value.1| < |s|
    decreases |s|, 3
  {
    match ParseValue(s)
    case None => None
    case Some((v, rest)) =>
      if rest != [] && rest[0] == ']' then Some(([v], rest[1..]))
      else if IsSeparator(rest) then
        match ParseItems(rest[2..])
        case None => None
        case Some((vs, after)) => Some(([v] + vs, after))
      else None
  }

  /** Reads the rest of an object after its `{`. */
  function ParseObject(s: string): (r: Option<(Json, string)>)
    ensures r.Some? ==> |r.value.1| < |s|
    decreases |s|, 5
  {
    if s != [] && s[0] == '}' then Some((JObject([]), s[1..]))
    else
      match ParseMembers(s)
      case None => None
      case Some((members, rest)) => Some((JObject(members), rest))
  }

  /** Reads one or more members separated by ", " and the closing `}`. */
  function ParseMembers(s: string): (r: Option<(seq<Member>, string)>)
    ensures r.Some? ==> |r.value.1| < |s|
    decreases |s|, 4
  {
    match ParseMember(s)
    case None => None
    case Some((m, rest)) =>
      if rest != [] && rest[0] == '}' then Some(([m], rest[1..]))
      else if IsSeparator(rest) then
        match ParseMembers(rest[2..])
        case None => None
        case Some((ms, after)) => Some(([m] + ms, after))
      else None
  }

  /** Reads one `"key": value` pair. */
  function ParseMember(s: string): (r: Option<(Member, string)>)
    ensures r.Some? ==> |r.value.1| < |s|
    decreases |s|, 3
  {
    if s == [] || s[0] != '"' then None
    else
      match ParseStringBody(s[1..])
      case None => None
      case Some((key, afterKey)) =>
        if !IsColon(afterKey) then None
        else
          match ParseValue(afterKey[2..])
          case None => None
          case Some((v, rest)) => Some((Member(key, v), rest))
  }

  /** `json.loads` restricted to the texts `json.dumps` writes: `None` for anything else. */
  function Decode(s: string): Option<Json>
  {
    match ParseValue(s)
    case Some((j, rest)) => if rest == [] then Some(j) else None
    case None => None
  }

  /* ---------------------------------------------------- facts about digits */

  lemma {:induction false} NatTextShape(n: nat)
    ensures NatText(n) != [] && AllDigits(NatText(n))
    ensures NatText(n)[0] == '0' ==> n == 0 && NatText(n) == "0"
    decreases n
  {
    if n >= 10 {
      NatTextShape(n / 10);
    }
  }

  lemma {:induction false} NatTextValue(n: nat)
    ensures AllDigits(NatText(n)) && DigitsValue(NatText(n)) == n
    decreases n
  {
    NatTextShape(n);
    if n >= 10 {
      NatTextValue(n / 10);
      var t := NatText(n);
      assert t[..|t| - 1] == NatText(n / 10);
    }
  }

  /** A digit run the reader accepts as an integer part is the text of its value. */
  lemma {:induction false} TextValueText(t: string)
    requires t != [] && AllDigits(t) && (t[0] == '0' ==> |t| == 1)
    ensures NatText(DigitsValue(t)) == t
    decreases |t|
  {
    if |t| > 1 {
      var p := t[..|t| - 1];
      TextValueText(p);
      var v := DigitsValue(t);
      assert v / 10 == DigitsValue(p) && v % 10 == CharDigit(t[|t| - 1]);
      assert t == p + [t[|t| - 1]];
    }
  }

  lemma {:induction false} SpanOfDigits(d: string, rest: string)
    requires AllDigits(d) && (rest == [] || !IsDigitChar(rest[0]))
    ensures SpanDigits(d + rest) == (d, rest)
    decreases |d|
  {
    if d != [] {
      SpanOfDigits(d[1..], rest);
      assert (d + rest)[0] == d[0];
      assert (d + rest)[1..] == d[1..] + rest;
      assert [d[0]] + d[1..] == d;
    } else {
      assert d + rest == rest;
    }
  }

  lemma DigitsRoundTrip(ds: seq<Digit>)
    ensures TextDigits(DigitsText(ds)) == ds
  {
  }

  /* ------------------------------------------------------- number literals */

  /** What may follow an encoded value: it cannot extend the value's text. */
  predicate Terminates(rest: string)
  {
    rest == [] || rest[0] == ',' || rest[0] == ']' || rest[0] == '}'
  }

  lemma WholeOfNatText(n: nat, tail: string)
    requires tail == [] || !IsDigitChar(tail[0])
    ensures NatText(n) + tail != [] && IsDigitChar((NatText(n) + tail)[0])
    ensures SplitWhole(NatText(n) + tail) == (NatText(n), tail)
  {
    NatTextShape(n);
    var w := NatText(n);
    var t := w + tail;
    assert t[0] == w[0];
    if w[0] == '0' {
      assert t[1..] == tail;
    } else {
      SpanOfDigits(w, tail);
    }
  }

  lemma FractionRoundTrip(negative: bool, whole: nat, fraction: seq<Digit>, rest: string)
    requires Terminates(rest)
    ensures ParseFraction(negative, whole, FractionText(fraction) + rest)
         == Some((Number(negative, whole, fraction), rest))
  {
    var s := FractionText(fraction) + rest;
    if fraction == [] {
      assert s == rest;
    } else {
      var f := DigitsText(fraction);
      assert s == "." + (f + rest);
      assert s[0] == '.' && s[1..] == f + rest;
      SpanOfDigits(f, rest);
      DigitsRoundTrip(fraction);
      assert SpanDigits(s[1..]) == (f, rest);
    }
  }

  lemma FractionTextStart(fraction: seq<Digit>, rest: string)
    requires Terminates(rest)
    ensures var tail := FractionText(fraction) + rest;
            tail == [] || !IsDigitChar(tail[0])
  {
    if fraction != [] {
      assert (FractionText(fraction) + rest)[0] == '.';
    }
  }

  lemma UnsignedRoundTrip(n: Number, rest: string)
    requires Terminates(rest)
    ensures var t := NatText(n.whole) + (FractionText(n.fraction) + rest);
            t != [] && IsDigitChar(t[0]) && ParseUnsigned(n.negative, t) == Some((n, rest))
  {
    var tail := FractionText(n.fraction) + rest;
    FractionTextStart(n.fraction, rest);
    WholeOfNatText(n.whole, tail);
    NatTextValue(n.whole);
    FractionRoundTrip(n.negative, n.whole, n.fraction, rest);
  }

  lemma NumberRoundTrip(n: Number, rest: string)
    requires Terminates(rest)
    ensures ParseNumber(NumberText(n) + rest) == Some((n, rest))
  {
    var t := NatText(n.whole) + (FractionText(n.fraction) + rest);
    UnsignedRoundTrip(n, rest);
    Regroup(SignText(n.negative), NatText(n.whole), FractionText(n.fraction), rest);
    NumberDispatch(n.negative, t);
  }

  lemma Regroup(a: string, b: string, c: string, d: string)
    ensures a + b + c + d == a + (b + (c + d))
  {
  }

  /** A leading minus sign selects the negative reading, its absence the other. */
  lemma NumberDispatch(negative: bool, t: string)
    requires t != [] && IsDigitChar(t[0])
    ensures ParseNumber(SignText(negative) + t) == ParseUnsigned(negative, t)
  {
    if negative {
      assert (SignText(negative) + t)[1..] == t;
    } else {
      assert SignText(negative) + t == t;
    }
  }

  lemma FractionParsedIsText(negative: bool, whole: nat, s: string)
    ensures var r := ParseFraction(negative, whole, s);
            r.Some? ==> r.value.0.negative == negative && r.value.0.whole == whole
                        && s == FractionText(r.value.0.fraction) + r.value.1
  {
    var r := ParseFraction(negative, whole, s);
    if r.Some? && s != [] && s[0] == '.' {
      var (digits, rest) := SpanDigits(s[1..]);
      assert DigitsText(TextDigits(digits)) == digits;
      assert s == "." + digits + rest;
    }
  }

  lemma UnsignedParsedIsText(negative: bool, t: string)
    ensures var r := ParseUnsigned(negative, t);
            r.Some? ==> r.value.0.negative == negative
                        && t == NatText(r.value.0.whole) + (FractionText(r.value.0.fraction) + r.value.1)
  {
    var r := ParseUnsigned(negative, t);
    if r.Some? {
      var (wholeText, after) := SplitWhole(t);
      assert wholeText[0] == '0' ==> |wholeText| == 1;
      TextValueText(wholeText);
      FractionParsedIsText(negative, DigitsValue(wholeText), after);
      var (n, rest) := r.value;
      assert after == FractionText(n.fraction) + rest;
      assert t == wholeText + after;
    }
  }

  lemma NumberParsedIsText(s: string)
    ensures var r := ParseNumber(s);
            r.Some? ==> s == NumberText(r.value.0) + r.value.1
  {
    var r := ParseNumber(s);
    if r.Some? {
      var negative := s != [] && s[0] == '-';
      var t := if negative then s[1..] else s;
      SignSplit(s);
      UnsignedParsedIsText(negative, t);
      var (n, rest) := r.value;
      Regroup(SignText(negative), NatText(n.whole), FractionText(n.fraction), rest);
    }
  }

  /** The number reader strips an optional minus sign and reads the rest unsigned. */
  lemma SignSplit(s: string)
    ensures var negative := s != [] && s[0] == '-';
            var t := if negative then s[1..] else s;
            ParseNumber(s) == ParseUnsigned(negative, t) && s == SignText(negative) + t
  {
    if s != [] && s[0] == '-' {
      assert s == "-" + s[1..];
    }
  }

  /* ------------------------------------------------------- string literals */

  lemma EscapeStep(c: char, tail: string)
    ensures ParseStringBody(EscapeChar(c) + tail) == Prepend(c, ParseStringBody(tail))
  {
    var s := EscapeChar(c) + tail;
    if |EscapeChar(c)| == 2 {
      assert s[0] == '\\' && Unescape(s[1]) == Some(c) && s[2..] == tail;
    } else {
      assert s[0] == c && s[1..] == tail;
    }
  }

  lemma {:induction false} StringRoundTrip(t: string, rest: string)
    ensures ParseStringBody(Escape(t) + "\"" + rest) == Some((t, rest))
    decreases |t|
  {
    if t == [] {
      assert Escape(t) + "\"" + rest == "\"" + rest;
    } else {
      var tail := Escape(t[1..]) + "\"" + rest;
      StringRoundTrip(t[1..], rest);
      assert Escape(t) + "\"" + rest == EscapeChar(t[0]) + tail;
      EscapeStep(t[0], tail);
      assert [t[0]] + t[1..] == t;
    }
  }

  lemma {:induction false} StringParsedIsText(s: string)
    ensures var r := ParseStringBody(s);
            r.Some? ==> s == Escape(r.value.0) + "\"" + r.value.1
    decreases |s|
  {
    var r := ParseStringBody(s);
    if r.Some? && s[0] != '"' {
      if s[0] == '\\' {
        var c := Unescape(s[1]).value;
        StringParsedIsText(s[2..]);
        assert EscapeChar(c) == s[..2];
        var (t, rest) := ParseStringBody(s[2..]).value;
        assert r.value.0 == [c] + t;
        assert Escape([c] + t) == EscapeChar(c) + Escape(t) by {
          assert ([c] + t)[1..] == t;
        }
        assert s == s[..2] + s[2..];
      } else {
        StringParsedIsText(s[1..]);
        assert EscapeChar(s[0]) == [s[0]];
        var (t, rest) := ParseStringBody(s[1..]).value;
        assert Escape([s[0]] + t) == EscapeChar(s[0]) + Escape(t) by {
          assert ([s[0]] + t)[1..] == t;
        }
        assert s == [s[0]] + s[1..];
      }
    }
  }

  /* ------------------------------------------------------------ round trip */

  /** The first character of an encoded value, which selects the reader. */
  lemma EncodeStart(j: Json)
    ensures Encode(j) != []
    ensures match j
            case JNull => Encode(j)[0] == 'n'
            case JBool(b) => Encode(j)[0] == (if b then 't' else 'f')
            case JNumber(n) => Encode(j)[0] == '-' || IsDigitChar(Encode(j)[0])
            case JString(_) => Encode(j)[0] == '"'
            case JArray(_) => Encode(j)[0] == '['
            case JObject(_) => Encode(j)[0] == '{'
  {
    match j
    case JNumber(n) => NumberStart(n);
    case JString(t) => assert Encode(j) == "\"" + (Escape(t) + "\"");
    case JArray(items) => assert Encode(j) == "[" + (EncodeItems(items) + "]");
    case JObject(members) => assert Encode(j) == "{" + (EncodeMembers(members) + "}");
    case _ =>
  }

  lemma NumberStart(n: Number)
    ensures NumberText(n) != []
    ensures NumberText(n)[0] == '-' || IsDigitChar(NumberText(n)[0])
  {
    NatTextShape(n.whole);
    var w := NatText(n.whole);
    var t := w + FractionText(n.fraction);
    assert NumberText(n) == SignText(n.negative) + t;
    assert t[0] == w[0];
  }

  /** Splits a bracketed text `[open] + x + [close] + rest` after its first character. */
  lemma Peel(open: char, x: string, close: char, rest: string)
    ensures var s := [open] + x + [close] + rest;
            s != [] && s[0] == open && s[1..] == x + [close] + rest
  {
    var s := [open] + x + [close] + rest;
    assert s == [open] + (x + [close] + rest);
  }

  lemma LiteralRoundTrip(word: string, v: Json, rest: string)
    requires word != []
    ensures ParseLiteral(word + rest, word, v) == Some((v, rest))
  {
    assert (word + rest)[..|word|] == word && (word + rest)[|word|..] == rest;
  }

  lemma {:induction false} ValueRoundTrip(j: Json, rest: string)
    requires Terminates(rest)
    ensures ParseValue(Encode(j) + rest) == Some((j, rest))
    decreases j, 2
  {
    match j
    case JNull => LiteralValueRead(j, rest);
    case JBool(_) => LiteralValueRead(j, rest);
    case JNumber(n) => NumberValueRead(n, rest);
    case JString(t) =>
      StringRoundTrip(t, rest);
      StringValueRead(t, rest);
    case JArray(items) =>
      ArrayRoundTrip(items, rest);
      ArrayValueRead(items, rest);
    case JObject(members) =>
      ObjectRoundTrip(members, rest);
      ObjectValueRead(members, rest);
  }

  lemma LiteralValueRead(j: Json, rest: string)
    requires j.JNull? || j.JBool?
    ensures ParseValue(Encode(j) + rest) == Some((j, rest))
  {
    if j.JNull? {
      LiteralRoundTrip("null", j, rest);
    } else if j.b {
      LiteralRoundTrip("true", j, rest);
    } else {
      LiteralRoundTrip("false", j, rest);
    }
  }

  lemma NumberValueRead(n: Number, rest: string)
    requires Terminates(rest)
    ensures ParseValue(Encode(JNumber(n)) + rest) == Some((JNumber(n), rest))
  {
    var s := NumberText(n) + rest;
    NumberRoundTrip(n, rest);
    NumberStart(n);
    assert s[0] == NumberText(n)[0];
    NumberSelected(s);
  }

  /** A leading minus sign or digit selects the number reader. */
  lemma NumberSelected(s: string)
    requires s != [] && (s[0] == '-' || IsDigitChar(s[0]))
    ensures ParseValue(s) == ParseNumberValue(s)
  {
    assert s[0] != 'n' && s[0] != 't' && s[0] != 'f' && s[0] != '"';
  }

  lemma StringValueRead(t: string, rest: string)
    requires ParseStringBody(Escape(t) + "\"" + rest) == Some((t, rest))
    ensures ParseValue(Encode(JString(t)) + rest) == Some((JString(t), rest))
  {
    var s := Encode(JString(t)) + rest;
    Peel('"', Escape(t), '"', rest);
    assert s == ['"'] + Escape(t) + ['"'] + rest;
    StringSelected(s);
  }

  lemma ArrayValueRead(items: seq<Json>, rest: string)
    requires ParseArray(EncodeItems(items) + "]" + rest) == Some((JArray(items), rest))
    ensures ParseValue(Encode(JArray(items)) + rest) == Some((JArray(items), rest))
  {
    var s := Encode(JArray(items)) + rest;
    Peel('[', EncodeItems(items), ']', rest);
    assert s == ['['] + EncodeItems(items) + [']'] + rest;
    ArraySelected(s);
  }

  lemma ObjectValueRead(members: seq<Member>, rest: string)
    requires ParseObject(EncodeMembers(members) + "}" + rest) == Some((JObject(members), rest))
    ensures ParseValue(Encode(JObject(members)) + rest) == Some((JObject(members), rest))
  {
    var s := Encode(JObject(members)) + rest;
    Peel('{', EncodeMembers(members), '}', rest);
    assert s == ['{'] + EncodeMembers(members) + ['}'] + rest;
    ObjectSelected(s);
  }

  /** An opening quote selects the string reader. */
  lemma StringSelected(s: string)
    requires s != [] && s[0] == '"'
    ensures ParseValue(s) == ParseStringValue(s[1..])
  {
  }

  /** An opening bracket selects the array reader. */
  lemma ArraySelected(s: string)
    requires s != [] && s[0] == '['
    ensures ParseValue(s) == ParseArray(s[1..])
  {
  }

  /** An opening brace selects the object reader. */
  lemma ObjectSelected(s: string)
    requires s != [] && s[0] == '{'
    ensures ParseValue(s) == ParseObject(s[1..])
  {
  }

  /** The last item of a list and the closing bracket that follows it. */
  lemma LastItem(head: string, close: char, rest: string)
    ensures head + [close] + rest == head + ([close] + rest)
    ensures ([close] + rest)[0] == close && ([close] + rest)[1..] == rest
  {
  }

  /** An item followed by ", " and the remaining items. */
  lemma NextItem(head: string, tail: string, close: char, rest: string)
    ensures var after := ", " + (tail + [close] + rest);
            head + ", " + tail + [close] + rest == head + after
            && IsSeparator(after) && after[2..] == tail + [close] + rest
  {
  }

  /** A member's quoted key, the ": " after it and its value. */
  lemma MemberShape(key: string, value: string, rest: string)
    ensures var s := "\"" + key + "\"" + ": " + value + rest;
            var afterKey := ": " + (value + rest);
            s[0] == '"' && s[1..] == key + "\"" + afterKey
            && IsColon(afterKey) && afterKey[2..] == value + rest
  {
    var s := "\"" + key + "\"" + ": " + value + rest;
    assert s == "\"" + (key + "\"" + (": " + (value + rest)));
  }

  lemma {:induction false} ArrayRoundTrip(items: seq<Json>, rest: string)
    requires Terminates(rest)
    ensures ParseArray(EncodeItems(items) + "]" + rest) == Some((JArray(items), rest))
    decreases items, 1
  {
    if items == [] {
      assert EncodeItems(items) + "]" + rest == "]" + rest;
    } else {
      ItemsRoundTrip(items, rest);
    }
  }

  lemma {:induction false} ItemsRoundTrip(items: seq<Json>, rest: string)
    requires items != [] && Terminates(rest)
    ensures ParseItems(EncodeItems(items) + "]" + rest) == Some((items, rest))
    ensures (EncodeItems(items) + "]" + rest)[0] != ']'
    decreases items, 0
  {
    var first := Encode(items[0]);
    EncodeStart(items[0]);
    if |items| == 1 {
      LastItem(first, ']', rest);
      ValueRoundTrip(items[0], "]" + rest);
      ItemsReadLast(first + ("]" + rest), items[0], "]" + rest);
      assert [items[0]] == items;
    } else {
      var tail := EncodeItems(items[1..]);
      NextItem(first, tail, ']', rest);
      var after := ", " + (tail + "]" + rest);
      ValueRoundTrip(items[0], after);
      ItemsRoundTrip(items[1..], rest);
      ItemsReadNext(first + after, items[0], after, items[1..], rest);
      assert [items[0]] + items[1..] == items;
    }
  }

  /** A value followed by `]` is the last item. */
  lemma ItemsReadLast(s: string, v: Json, after: string)
    requires ParseValue(s) == Some((v, after)) && after != [] && after[0] == ']'
    ensures ParseItems(s) == Some(([v], after[1..]))
  {
  }

  /** A value followed by ", " is followed by the remaining items. */
  lemma ItemsReadNext(s: string, v: Json, after: string, vs: seq<Json>, rest: string)
    requires ParseValue(s) == Some((v, after)) && IsSeparator(after) && ParseItems(after[2..]) == Some((vs, rest))
    ensures ParseItems(s) == Some(([v] + vs, rest))
  {
  }
  lemma {:induction false} ObjectRoundTrip(members: seq<Member>, rest: string)
    requires Terminates(rest)
    ensures ParseObject(EncodeMembers(members) + "}" + rest) == Some((JObject(members), rest))
    decreases members, 1
  {
    if members == [] {
      assert EncodeMembers(members) + "}" + rest == "}" + rest;
    } else {
      MembersRoundTrip(members, rest);
    }
  }

  lemma {:induction false} MembersRoundTrip(members: seq<Member>, rest: string)
    requires members != [] && Terminates(rest)
    ensures ParseMembers(EncodeMembers(members) + "}" + rest) == Some((members, rest))
    ensures (EncodeMembers(members) + "}" + rest)[0] == '"'
    decreases members, 0
  {
    var first := MemberText(members[0]);
    if |members| == 1 {
      LastItem(first, '}', rest);
      MemberRoundTrip(members[0], "}" + rest);
      MembersReadLast(first + ("}" + rest), members[0], "}" + rest);
      assert [members[0]] == members;
    } else {
      var tail := EncodeMembers(members[1..]);
      NextItem(first, tail, '}', rest);
      var after := ", " + (tail + "}" + rest);
      MemberRoundTrip(members[0], after);
      MembersRoundTrip(members[1..], rest);
      MembersReadNext(first + after, members[0], after, members[1..], rest);
      assert [members[0]] + members[1..] == members;
    }
  }

  /** A member followed by `}` is the last member. */
  lemma MembersReadLast(s: string, m: Member, after: string)
    requires ParseMember(s) == Some((m, after)) && after != [] && after[0] == '}'
    ensures ParseMembers(s) == Some(([m], after[1..]))
  {
  }

  /** A member followed by ", " is followed by the remaining members. */
  lemma MembersReadNext(s: string, m: Member, after: string, ms: seq<Member>, rest: string)
    requires ParseMember(s) == Some((m, after)) && IsSeparator(after) && ParseMembers(after[2..]) == Some((ms, rest))
    ensures ParseMembers(s) == Some(([m] + ms, rest))
  {
  }
  lemma {:induction false} MemberRoundTrip(m: Member, rest: string)
    requires Terminates(rest)
    ensures ParseMember(MemberText(m) + rest) == Some((m, rest))
    ensures (MemberText(m) + rest)[0] == '"'
    decreases m, 3
  {
    var value := Encode(m.value);
    MemberShape(Escape(m.key), value, rest);
    StringRoundTrip(m.key, ": " + (value + rest));
    ValueRoundTrip(m.value, rest);
  }

  /* ------------------------------------------------ only encoded text reads */

  lemma {:induction false} ValueParsedIsEncoded(s: string)
    ensures var r := ParseValue(s);
            r.Some? ==> s == Encode(r.value.0) + r.value.1
    decreases |s|, 2
  {
    if s != [] {
      if s[0] == 'n' || s[0] == 't' || s[0] == 'f' {
        LiteralParsedIsText(s);
      } else if s[0] == '"' {
        StringValueParsedIsText(s);
      } else if s[0] == '-' || IsDigitChar(s[0]) {
        NumberValueParsedIsText(s);
      } else if s[0] == '[' {
        ArrayValueParsedIsEncoded(s);
      } else if s[0] == '{' {
        ObjectValueParsedIsEncoded(s);
      }
    }
  }

  lemma LiteralParsedIsText(s: string)
    requires s != [] && (s[0] == 'n' || s[0] == 't' || s[0] == 'f')
    ensures var r := ParseValue(s);
            r.Some? ==> s == Encode(r.value.0) + r.value.1
  {
    var k := if s[0] == 'f' then 5 else 4;
    if k <= |s| {
      assert s == s[..k] + s[k..];
    }
  }

  lemma StringValueParsedIsText(s: string)
    requires s != [] && s[0] == '"'
    ensures var r := ParseValue(s);
            r.Some? ==> s == Encode(r.value.0) + r.value.1
  {
    StringSelected(s);
    StringParsedIsText(s[1..]);
    var b := ParseStringBody(s[1..]);
    if b.Some? {
      StringTextShape(s, b.value.0, b.value.1);
    }
  }

  /** The text of a string value read back from its body. */
  lemma StringTextShape(s: string, t: string, rest: string)
    requires s != [] && s[0] == '"' && s[1..] == Escape(t) + "\"" + rest
    ensures s == Encode(JString(t)) + rest
  {
    assert s == [s[0]] + s[1..];
    Regroup("\"", Escape(t), "\"", rest);
  }

  lemma NumberValueParsedIsText(s: string)
    requires s != [] && (s[0] == '-' || IsDigitChar(s[0]))
    ensures var r := ParseValue(s);
            r.Some? ==> s == Encode(r.value.0) + r.value.1
  {
    NumberSelected(s);
    NumberParsedIsText(s);
  }

  lemma {:induction false} ArrayValueParsedIsEncoded(s: string)
    requires s != [] && s[0] == '['
    ensures var r := ParseValue(s);
            r.Some? ==> s == Encode(r.value.0) + r.value.1
    decreases |s|, 1
  {
    ArraySelected(s);
    ArrayParsedIsEncoded(s[1..]);
    assert s == [s[0]] + s[1..];
  }

  lemma {:induction false} ObjectValueParsedIsEncoded(s: string)
    requires s != [] && s[0] == '{'
    ensures var r := ParseValue(s);
            r.Some? ==> s == Encode(r.value.0) + r.value.1
    decreases |s|, 1
  {
    ObjectSelected(s);
    ObjectParsedIsEncoded(s[1..]);
    assert s == [s[0]] + s[1..];
  }

  lemma {:induction false} ArrayParsedIsEncoded(s: string)
    ensures var r := ParseArray(s);
            r.Some? ==> r.value.0.JArray? && s == EncodeItems(r.value.0.items) + "]" + r.value.1
    decreases |s|, 4
  {
    var r := ParseArray(s);
    if r.Some? {
      if s[0] == ']' {
        assert s == "]" + s[1..];
      } else {
        ItemsParsedAreEncoded(s);
      }
    }
  }

  lemma {:induction false} ItemsParsedAreEncoded(s: string)
    ensures var r := ParseItems(s);
            r.Some? ==> r.value.0 != [] && s == EncodeItems(r.value.0) + "]" + r.value.1
    decreases |s|, 3
  {
    var r := ParseItems(s);
    if r.Some? {
      ValueParsedIsEncoded(s);
      ItemsCases(s);
      var (v, rest) := ParseValue(s).value;
      if rest[0] == ']' {
        EncodeItemsCons(v, []);
        ListEndShape(s, Encode(v), rest);
      } else {
        ItemsParsedAreEncoded(rest[2..]);
        var (vs, after) := ParseItems(rest[2..]).value;
        EncodeItemsCons(v, vs);
        ListNextShape(s, Encode(v), rest, EncodeItems(vs), ']', after);
      }
    }
  }

  /** A read that stops at the closing bracket. */
  lemma ListEndShape(s: string, head: string, rest: string)
    requires s == head + rest && rest != []
    ensures s == head + [rest[0]] + rest[1..]
  {
    assert rest == [rest[0]] + rest[1..];
  }

  /** A read that continues after ", " with the remaining items and the closing bracket. */
  lemma ListNextShape(s: string, head: string, rest: string, tail: string, close: char, after: string)
    requires s == head + rest && IsSeparator(rest) && rest[2..] == tail + [close] + after
    ensures s == head + ", " + tail + [close] + after
  {
    assert rest == ", " + rest[2..];
  }

  /** A successful read of items ends at `]` or continues after ", ". */
  lemma ItemsCases(s: string)
    requires ParseItems(s).Some?
    ensures ParseValue(s).Some?
    ensures var (v, rest) := ParseValue(s).value;
            rest != [] && (if rest[0] == ']' then ParseItems(s) == Some(([v], rest[1..]))
                           else IsSeparator(rest) && ParseItems(rest[2..]).Some?
                                && ParseItems(s) == Some(([v] + ParseItems(rest[2..]).value.0, ParseItems(rest[2..]).value.1)))
  {
  }
  lemma {:induction false} ObjectParsedIsEncoded(s: string)
    ensures var r := ParseObject(s);
            r.Some? ==> r.value.0.JObject? && s == EncodeMembers(r.value.0.members) + "}" + r.value.1
    decreases |s|, 5
  {
    var r := ParseObject(s);
    if r.Some? {
      if s[0] == '}' {
        assert s == "}" + s[1..];
      } else {
        MembersParsedAreEncoded(s);
      }
    }
  }

  lemma {:induction false} MembersParsedAreEncoded(s: string)
    ensures var r := ParseMembers(s);
            r.Some? ==> r.value.0 != [] && s == EncodeMembers(r.value.0) + "}" + r.value.1
    decreases |s|, 4
  {
    var r := ParseMembers(s);
    if r.Some? {
      MemberParsedIsText(s);
      MembersCases(s);
      var (m, rest) := ParseMember(s).value;
      if rest[0] == '}' {
        EncodeMembersCons(m, []);
        ListEndShape(s, MemberText(m), rest);
      } else {
        MembersParsedAreEncoded(rest[2..]);
        var (ms, after) := ParseMembers(rest[2..]).value;
        EncodeMembersCons(m, ms);
        ListNextShape(s, MemberText(m), rest, EncodeMembers(ms), '}', after);
      }
    }
  }

  /** A successful read of members ends at `}` or continues after ", ". */
  lemma MembersCases(s: string)
    requires ParseMembers(s).Some?
    ensures ParseMember(s).Some?
    ensures var (m, rest) := ParseMember(s).value;
            rest != [] && (if rest[0] == '}' then ParseMembers(s) == Some(([m], rest[1..]))
                           else IsSeparator(rest) && ParseMembers(rest[2..]).Some?
                                && ParseMembers(s) == Some(([m] + ParseMembers(rest[2..]).value.0, ParseMembers(rest[2..]).value.1)))
  {
  }
  lemma {:induction false} MemberParsedIsText(s: string)
    ensures var r := ParseMember(s);
            r.Some? ==> s == MemberText(r.value.0) + r.value.1
    decreases |s|, 3
  {
    var r := ParseMember(s);
    if r.Some? {
      MemberCases(s);
      StringParsedIsText(s[1..]);
      var (key, afterKey) := ParseStringBody(s[1..]).value;
      ValueParsedIsEncoded(afterKey[2..]);
      var (v, rest) := ParseValue(afterKey[2..]).value;
      MemberTextShape(s, key, afterKey, Encode(v), rest);
    }
  }

  /** A successful member read: a quoted key, ": " and a value. */
  lemma MemberCases(s: string)
    requires ParseMember(s).Some?
    ensures s != [] && s[0] == '"' && ParseStringBody(s[1..]).Some?
    ensures var (key, afterKey) := ParseStringBody(s[1..]).value;
            IsColon(afterKey) && ParseValue(afterKey[2..]).Some?
            && ParseMember(s) == Some((Member(key, ParseValue(afterKey[2..]).value.0), ParseValue(afterKey[2..]).value.1))
  {
  }

  /** The text of a member read back from its pieces. */
  lemma MemberTextShape(s: string, key: string, afterKey: string, value: string, rest: string)
    requires s != [] && s[0] == '"' && s[1..] == Escape(key) + "\"" + afterKey
    requires IsColon(afterKey) && afterKey[2..] == value + rest
    ensures s == "\"" + Escape(key) + "\"" + ": " + value + rest
  {
    assert afterKey == ": " + afterKey[2..];
    assert s == [s[0]] + s[1..];
  }

  lemma EncodeItemsCons(v: Json, vs: seq<Json>)
    ensures EncodeItems([v] + vs)
         == if vs == [] then Encode(v) else Encode(v) + ", " + EncodeItems(vs)
  {
    assert ([v] + vs)[0] == v && ([v] + vs)[1..] == vs;
  }

  lemma EncodeMembersCons(m: Member, ms: seq<Member>)
    ensures EncodeMembers([m] + ms)
         == if ms == [] then MemberText(m) else MemberText(m) + ", " + EncodeMembers(ms)
  {
    assert ([m] + ms)[0] == m && ([m] + ms)[1..] == ms;
  }

  /** Every value survives a write and a read. */
  lemma DecodeEncode(j: Json)
    ensures Decode(Encode(j)) == Some(j)
  {
    ValueRoundTrip(j, []);
    assert Encode(j) + [] == Encode(j);
  }

  /** The reader accepts a text exactly when it is the writer's output for the value read. */
  lemma DecodeInvertsEncode(s: string, j: Json)
    ensures Decode(s) == Some(j) <==> s == Encode(j)
  {
    if s == Encode(j) {
      DecodeEncode(j);
    }
    if Decode(s) == Some(j) {
      ValueParsedIsEncoded(s);
      assert s == Encode(j) + [];
    }
  }
}
