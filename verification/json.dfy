/** JSON documents as exchanged between the Rust nodes (serde_json) and the
    Python simulator scripts (the `json` module).

    `Dump` is the printer, in the compact style of serde_json::to_string or
    the spaced style of Python's json.dumps, and `Load` is the parser
    (serde_json::from_str, json.loads).  How a binary64 number is spelt is foreign code (ryu on one side, float repr on
    the other), so both directions take a `NumberText` that prints and reads
    numbers; the round trip holds for every `NumberText` that is sound on the
    numbers the document holds, and such a `NumberText` always exists.
    The same `Value` type is the Python object a json.loads call yields.
 */
module Json {
  import opened Wrappers

  datatype Value =
    | Null
    | Bool(b: bool)
    | Num(n: real)
    | Str(s: string)
    | Arr(items: seq<Value>)
    | Obj(members: seq<Member>)

  datatype Member = Member(key: string, value: Value)

  /** Looking a key up in an object.  json.loads keeps the LAST of duplicate
      keys, so the last member with the key wins. */
  function Get(ms: seq<Member>, key: string): (r: Option<Value>)
    ensures r.Some? <==> exists i :: 0 <= i < |ms| && ms[i].key == key
    ensures r.Some? ==> exists i :: 0 <= i < |ms| && ms[i].key == key && ms[i].value == r.value
  {
    if |ms| == 0 then None
    else if ms[|ms| - 1].key == key then Some(ms[|ms| - 1].value)
    else Get(ms[..|ms| - 1], key)
  }

  /** The value found is that of the last member with the key. */
  lemma {:induction false} GetIsLast(ms: seq<Member>, key: string)
    requires Get(ms, key).Some?
    ensures exists i :: 0 <= i < |ms| && ms[i].key == key && ms[i].value == Get(ms, key).value &&
                        forall j :: i < j < |ms| ==> ms[j].key != key
  {
    var n := |ms| - 1;
    if ms[n].key == key {
      assert ms[n].value == Get(ms, key).value;
    } else {
      var init := ms[..n];
      GetIsLast(init, key);
      var i :| 0 <= i < |init| && init[i].key == key && init[i].value == Get(init, key).value &&
               forall j :: i < j < |init| ==> init[j].key != key;
      assert ms[i] == init[i];
      assert forall j :: i < j < |ms| ==> ms[j].key != key by {
        forall j | i < j < |ms|
          ensures ms[j].key != key
        {
          if j < n {
            assert ms[j] == init[j];
          }
        }
      }
    }
  }

  /** The keys of an object, in document order. */
  function Keys(ms: seq<Member>): (r: seq<string>)
    ensures |r| == |ms|
    ensures forall i :: 0 <= i < |ms| ==> r[i] == ms[i].key
  {
    if |ms| == 0 then [] else [ms[0].key] + Keys(ms[1..])
  }

  // ---------------------------------------------------------------------
  // Number spelling
  // ---------------------------------------------------------------------

  /** How numbers are printed and read back. */
  datatype NumberText = NumberText(show: real -> string, read: string -> Option<real>)

  predicate IsNumberChar(c: char) {
    ('0' <= c <= '9') || c == '-' || c == '+' || c == '.' || c == 'e' || c == 'E'
  }

  predicate StartsNumber(c: char) {
    ('0' <= c <= '9') || c == '-'
  }

  /** A JSON number token: starts with a digit or a minus sign and consists
      of number characters only. */
  predicate IsNumberToken(s: string) {
    |s| > 0 && StartsNumber(s[0]) && forall i :: 0 <= i < |s| ==> IsNumberChar(s[i])
  }

  /** Every number of `xs` prints as a number token that reads back as
      itself.  ryu and float repr both do this for every binary64 value; the
      round trips below ask it only of the numbers the document holds. */
  ghost predicate SoundOn(t: NumberText, xs: set<real>) {
    forall x :: x in xs ==> IsNumberToken(t.show(x)) && t.read(t.show(x)) == Some(x)
  }

  /** The numbers a value holds, at any depth. */
  function Numbers(v: Value): set<real>
    decreases v, 1
  {
    match v
    case Num(n) => {n}
    case Arr(items) => ItemNumbers(items)
    case Obj(ms) => MemberNumbers(ms)
    case _ => {}
  }

  function ItemNumbers(items: seq<Value>): set<real>
    decreases items, 0
  {
    if |items| == 0 then {} else Numbers(items[0]) + ItemNumbers(items[1..])
  }

  function MemberNumbers(ms: seq<Member>): set<real>
    decreases ms, 0
  {
    if |ms| == 0 then {} else Numbers(ms[0].value) + MemberNumbers(ms[1..])
  }

  // A spelling that is sound on any finite set of numbers: each number is
  // written as the decimal digits of its place in a listing of the set.
  // It shows that `SoundOn` can always be met.

  function DigitChar(d: nat): (c: char)
    requires d < 10
    ensures '0' <= c <= '9'
  {
    ('0' as int + d) as char
  }

  /** The decimal digits of `n`, most significant first. */
  function Digits(n: nat): (s: string)
    ensures |s| > 0 && forall i :: 0 <= i < |s| ==> '0' <= s[i] <= '9'
    decreases n
  {
    if n < 10 then [DigitChar(n)] else Digits(n / 10) + [DigitChar(n % 10)]
  }

  /** The number a string of decimal digits spells; other characters count
      as zero. */
  function DigitsValue(s: string): nat
  {
    if |s| == 0 then 0
    else DigitsValue(s[..|s| - 1]) * 10
         + (if '0' <= s[|s| - 1] <= '9' then s[|s| - 1] as int - '0' as int else 0)
  }

  lemma {:induction false} DigitsValueOf(n: nat)
    ensures DigitsValue(Digits(n)) == n
    decreases n
  {
    if n >= 10 {
      var s := Digits(n);
      assert s[..|s| - 1] == Digits(n / 10);
      DigitsValueOf(n / 10);
    }
  }

  /** Some listing of a finite set. */
  ghost function Listing(xs: set<real>): (r: seq<real>)
    ensures forall x :: x in xs <==> x in r
    decreases |xs|
  {
    if |xs| == 0 then []
    else
      Inhabited(xs);
      var x :| x in xs;
      [x] + Listing(xs - {x})
  }

  lemma Inhabited(xs: set<real>)
    requires |xs| > 0
    ensures exists x :: x in xs
  {
    if forall x :: x !in xs {
      assert false;
    }
  }

  /** The first place of `x` in `r`, or `|r|` when it is absent. */
  function Position(r: seq<real>, x: real): (i: nat)
    ensures i <= |r| && (i < |r| ==> r[i] == x) && (x in r ==> i < |r|)
  {
    if |r| == 0 then 0
    else if r[0] == x then 0
    else 1 + Position(r[1..], x)
  }

  ghost function PlaceSpelling(r: seq<real>): NumberText {
    NumberText(x => Digits(Position(r, x)),
               s => if DigitsValue(s) < |r| then Some(r[DigitsValue(s)]) else None)
  }

  /** For every finite set of numbers some spelling is sound on it. */
  lemma SoundSpellingExists(xs: set<real>)
    ensures exists t :: SoundOn(t, xs)
  {
    var r := Listing(xs);
    var t := PlaceSpelling(r);
    forall x | x in xs
      ensures IsNumberToken(t.show(x)) && t.read(t.show(x)) == Some(x)
    {
      DigitsValueOf(Position(r, x));
    }
    assert SoundOn(t, xs);
  }

  // ---------------------------------------------------------------------
  // Printer
  // ---------------------------------------------------------------------

  function HexDigit(d: int): (c: char)
    requires 0 <= d < 16
  {
    if d < 10 then ('0' as int + d) as char else ('a' as int + d - 10) as char
  }

  /** The escape of one character inside a string literal: quote, backslash
      and control characters are escaped, everything else is itself. */
  function EscapeChar(c: char): string {
    if c == '"' then "\\\""
    else if c == '\\' then "\\\\"
    else if c < ' ' then "\\u00" + [HexDigit(c as int / 16), HexDigit(c as int % 16)]
    else [c]
  }

  function Escape(s: string): string {
    if |s| == 0 then "" else EscapeChar(s[0]) + Escape(s[1..])
  }

  function Quote(s: string): string {
    "\"" + Escape(s) + "\""
  }

  /** Where the printer puts blanks.  serde_json::to_string writes no
      blank at all; Python's json.dumps, with its default separators, writes
      one space after every `,` and every `:`. */
  datatype Style = Compact | Spaced

  function Pad(st: Style): (p: string)
    ensures forall i :: 0 <= i < |p| ==> IsWs(p[i])
  {
    if st.Spaced? then " " else ""
  }

  function Dump(v: Value, t: NumberText, st: Style): string
    decreases v, 1
  {
    match v
    case Null => "null"
    case Bool(b) => if b then "true" else "false"
    case Num(n) => t.show(n)
    case Str(s) => Quote(s)
    case Arr(items) => "[" + DumpItems(items, t, st) + "]"
    case Obj(ms) => "{" + DumpMembers(ms, t, st) + "}"
  }

  /** Array elements separated by commas. */
  function DumpItems(items: seq<Value>, t: NumberText, st: Style): string
    decreases items, 0
  {
    if |items| == 0 then ""
    else if |items| == 1 then Dump(items[0], t, st)
    else Dump(items[0], t, st) + "," + Pad(st) + DumpItems(items[1..], t, st)
  }

  /** One object member, `"key":value`. */
  function DumpMember(m: Member, t: NumberText, st: Style): string
    decreases m, 0
  {
    Quote(m.key) + ":" + Pad(st) + Dump(m.value, t, st)
  }

  /** Object members separated by commas. */
  function DumpMembers(ms: seq<Member>, t: NumberText, st: Style): string
    decreases ms, 0
  {
    if |ms| == 0 then ""
    else if |ms| == 1 then DumpMember(ms[0], t, st)
    else DumpMember(ms[0], t, st) + "," + Pad(st) + DumpMembers(ms[1..], t, st)
  }

  // ---------------------------------------------------------------------
  // Parser
  // ---------------------------------------------------------------------

  predicate IsWs(c: char) {
    c == ' ' || c == '\t' || c == '\n' || c == '\r'
  }

  function SkipWs(s: string): (r: string)
    ensures |r| <= |s| && r == s[|s| - |r|..]
    ensures |r| == 0 || !IsWs(r[0])
  {
    if |s| > 0 && IsWs(s[0]) then SkipWs(s[1..]) else s
  }

  /** The longest prefix of number characters. */
  function NumberPrefix(s: string): (tok: string)
    ensures |tok| <= |s|
  {
    if |s| > 0 && IsNumberChar(s[0]) then [s[0]] + NumberPrefix(s[1..]) else ""
  }

  predicate IsHexChar(c: char) {
    ('0' <= c <= '9') || ('a' <= c <= 'f') || ('A' <= c <= 'F')
  }

  function HexValue(c: char): (d: int)
    requires IsHexChar(c)
    ensures 0 <= d < 16
  {
    if '0' <= c <= '9' then c as int - '0' as int
    else if 'a' <= c <= 'f' then c as int - 'a' as int + 10
    else c as int - 'A' as int + 10
  }

  /** The code unit four hex digits at the start of `s` spell. */
  function Hex4(s: string): (r: Option<int>)
    ensures r.Some? ==> |s| >= 4 && 0 <= r.value < 0x10000
  {
    if |s| < 4 || !IsHexChar(s[0]) || !IsHexChar(s[1]) || !IsHexChar(s[2]) || !IsHexChar(s[3]) then None
    else Some(HexValue(s[0]) * 4096 + HexValue(s[1]) * 256 + HexValue(s[2]) * 16 + HexValue(s[3]))
  }

  predicate IsHighSurrogate(code: int) { 0xD800 <= code < 0xDC00 }
  predicate IsLowSurrogate(code: int) { 0xDC00 <= code < 0xE000 }

  /** The character a UTF-16 surrogate pair encodes. */
  function FromSurrogates(hi: int, lo: int): (c: char)
    requires IsHighSurrogate(hi) && IsLowSurrogate(lo)
    ensures 0x10000 <= c as int
  {
    (0x10000 + (hi - 0xD800) * 0x400 + (lo - 0xDC00)) as char
  }

  /** The character an escape sequence (after its backslash) stands for.
      A `\u` escape of a high surrogate followed by a `\u` escape of a low
      surrogate is one character, as both json.loads and serde_json read it;
      a lone surrogate is refused, since a Dafny `char` is a Unicode scalar
      value. */
  function Unescape(s: string): (r: Result<(char, string)>)
    ensures r.Ok? ==> |r.value.1| < |s|
  {
    if |s| == 0 then Err("unterminated escape")
    else if s[0] == '"' then Ok(('"', s[1..]))
    else if s[0] == '\\' then Ok(('\\', s[1..]))
    else if s[0] == '/' then Ok(('/', s[1..]))
    else if s[0] == 'b' then Ok((8 as char, s[1..]))
    else if s[0] == 'f' then Ok((12 as char, s[1..]))
    else if s[0] == 'n' then Ok(('\n', s[1..]))
    else if s[0] == 'r' then Ok(('\r', s[1..]))
    else if s[0] == 't' then Ok(('\t', s[1..]))
    else if s[0] == 'u' then
      match Hex4(s[1..])
      case None => Err("invalid \\u escape")
      case Some(code) =>
        if !IsHighSurrogate(code) && !IsLowSurrogate(code) then Ok((code as char, s[5..]))
        else if IsLowSurrogate(code) then Err("lone surrogate escape")
        else if |s| >= 7 && s[5] == '\\' && s[6] == 'u' && Hex4(s[7..]).Some? && IsLowSurrogate(Hex4(s[7..]).value) then
          Ok((FromSurrogates(code, Hex4(s[7..]).value), s[11..]))
        else Err("lone surrogate escape")
    else Err("invalid escape")
  }

  function ConsChar(c: char, r: Result<(string, string)>): (r': Result<(string, string)>)
    ensures r'.Ok? <==> r.Ok?
    ensures r.Ok? ==> r'.value.1 == r.value.1
  {
    match r
    case Err(e) => Err(e)
    case Ok((str, rest)) => Ok(([c] + str, rest))
  }

  /** The body of a string literal, after its opening quote. */
  function ParseString(s: string): (r: Result<(string, string)>)
    ensures r.Ok? ==> |r.value.1| < |s|
    decreases |s|
  {
    if |s| == 0 then Err("unterminated string")
    else if s[0] == '"' then Ok(("", s[1..]))
    else if s[0] == '\\' then
      match Unescape(s[1..])
      case Err(e) => Err(e)
      case Ok((c, rest)) => ConsChar(c, ParseString(rest))
    else if s[0] < ' ' then Err("control character in string")
    else ConsChar(s[0], ParseString(s[1..]))
  }

  function ParseLiteral(s: string, word: string, v: Value): (r: Result<(Value, string)>)
    requires |word| > 0
    ensures r.Ok? ==> |r.value.1| < |s|
  {
    if word <= s then Ok((v, s[|word|..])) else Err("invalid literal")
  }

  /** One value at the start of `s`; returns it and the unconsumed rest. */
  function ParseValue(s: string, t: NumberText): (r: Result<(Value, string)>)
    ensures r.Ok? ==> |r.value.1| < |s|
    decreases |s|, 1
  {
    if |s| == 0 then Err("unexpected end of input")
    else if s[0] == 'n' then ParseLiteral(s, "null", Null)
    else if s[0] == 't' then ParseLiteral(s, "true", Bool(true))
    else if s[0] == 'f' then ParseLiteral(s, "false", Bool(false))
    else if s[0] == '"' then
      match ParseString(s[1..])
      case Err(e) => Err(e)
      case Ok((str, rest)) => Ok((Str(str), rest))
    else if s[0] == '[' then ParseArray(SkipWs(s[1..]), t)
    else if s[0] == '{' then ParseObject(SkipWs(s[1..]), t)
    else if StartsNumber(s[0]) then ParseNumber(s, t)
    else Err("unexpected character")
  }

  /** A number: the longest run of number characters, read by `t`. */
  function ParseNumber(s: string, t: NumberText): (r: Result<(Value, string)>)
    requires |s| > 0 && StartsNumber(s[0])
    ensures r.Ok? ==> |r.value.1| < |s|
  {
    var tok := NumberPrefix(s);
    match t.read(tok)
    case None => Err("invalid number")
    case Some(x) => Ok((Num(x), s[|tok|..]))
  }

  /** An array after its `[` and any blanks. */
  function ParseArray(s: string, t: NumberText): (r: Result<(Value, string)>)
    ensures r.Ok? ==> |r.value.1| < |s|
    decreases |s|, 3
  {
    if |s| > 0 && s[0] == ']' then Ok((Arr([]), s[1..]))
    else
      match ParseElements(s, t)
      case Err(e) => Err(e)
      case Ok((items, rest)) => Ok((Arr(items), rest))
  }

  /** One or more elements and the closing `]`. */
  function ParseElements(s: string, t: NumberText): (r: Result<(seq<Value>, string)>)
    ensures r.Ok? ==> |r.value.1| < |s|
    decreases |s|, 2
  {
    match ParseValue(s, t)
    case Err(e) => Err(e)
    case Ok((v, rest)) => MoreElements(v, SkipWs(rest), t)
  }

  /** What follows an element: `,` and more elements, or the closing `]`. */
  function MoreElements(v: Value, s: string, t: NumberText): (r: Result<(seq<Value>, string)>)
    ensures r.Ok? ==> |r.value.1| < |s|
    decreases |s|, 4
  {
    if |s| > 0 && s[0] == ',' then
      match ParseElements(SkipWs(s[1..]), t)
      case Err(e) => Err(e)
      case Ok((vs, rest)) => Ok(([v] + vs, rest))
    else if |s| > 0 && s[0] == ']' then Ok(([v], s[1..]))
    else Err("expected ',' or ']'")
  }

  /** An object after its `{` and any blanks. */
  function ParseObject(s: string, t: NumberText): (r: Result<(Value, string)>)
    ensures r.Ok? ==> |r.value.1| < |s|
    decreases |s|, 3
  {
    if |s| > 0 && s[0] == '}' then Ok((Obj([]), s[1..]))
    else
      match ParseMembers(s, t)
      case Err(e) => Err(e)
      case Ok((ms, rest)) => Ok((Obj(ms), rest))
  }

  /** One or more `"key":value` members and the closing `}`. */
  function ParseMembers(s: string, t: NumberText): (r: Result<(seq<Member>, string)>)
    ensures r.Ok? ==> |r.value.1| < |s|
    decreases |s|, 2
  {
    if |s| == 0 || s[0] != '"' then Err("expected a key")
    else
      match ParseString(s[1..])
      case Err(e) => Err(e)
      case Ok((key, rest)) => MemberValue(key, SkipWs(rest), t)
  }

  /** What follows a key: `:` and the member's value. */
  function MemberValue(key: string, s: string, t: NumberText): (r: Result<(seq<Member>, string)>)
    ensures r.Ok? ==> |r.value.1| < |s|
    decreases |s|, 5
  {
    if |s| == 0 || s[0] != ':' then Err("expected ':'")
    else
      match ParseValue(SkipWs(s[1..]), t)
      case Err(e) => Err(e)
      case Ok((v, rest)) => MoreMembers(Member(key, v), SkipWs(rest), t)
  }

  /** What follows a member: `,` and more members, or the closing `}`. */
  function MoreMembers(m: Member, s: string, t: NumberText): (r: Result<(seq<Member>, string)>)
    ensures r.Ok? ==> |r.value.1| < |s|
    decreases |s|, 4
  {
    if |s| > 0 && s[0] == ',' then
      match ParseMembers(SkipWs(s[1..]), t)
      case Err(e) => Err(e)
      case Ok((ms, rest)) => Ok(([m] + ms, rest))
    else if |s| > 0 && s[0] == '}' then Ok(([m], s[1..]))
    else Err("expected ',' or '}'")
  }

  /** A whole document: one value surrounded by blanks only. */
  function Load(s: string, t: NumberText): (r: Result<Value>)
  {
    match ParseValue(SkipWs(s), t)
    case Err(e) => Err(e)
    case Ok((v, rest)) => if SkipWs(rest) == "" then Ok(v) else Err("trailing characters")
  }

  // ---------------------------------------------------------------------
  // Round trip
  // ---------------------------------------------------------------------

  /** The characters a printed value can start with. */
  predicate StartsValue(c: char) {
    c == 'n' || c == 't' || c == 'f' || c == '"' || c == '[' || c == '{' || StartsNumber(c)
  }

  lemma DumpStart(v: Value, t: NumberText, st: Style)
    requires SoundOn(t, Numbers(v))
    ensures |Dump(v, t, st)| > 0 && StartsValue(Dump(v, t, st)[0])
  {
    if v.Num? {
      assert IsNumberToken(t.show(v.n));
    }
  }

  /** Printed elements followed by anything open with a value, not a blank
      or the closing bracket. */
  lemma ItemsOpen(items: seq<Value>, t: NumberText, st: Style, rest: string)
    requires SoundOn(t, ItemNumbers(items)) && |items| > 0
    ensures var inner := DumpItems(items, t, st) + "]" + rest;
      |inner| > 0 && !IsWs(inner[0]) && inner[0] != ']'
  {
    DumpItemsStart(items, t, st);
    assert (DumpItems(items, t, st) + "]" + rest)[0] == DumpItems(items, t, st)[0];
  }

  lemma DumpItemsStart(items: seq<Value>, t: NumberText, st: Style)
    requires SoundOn(t, ItemNumbers(items)) && |items| > 0
    ensures |DumpItems(items, t, st)| > 0 && StartsValue(DumpItems(items, t, st)[0])
  {
    DumpStart(items[0], t, st);
  }

  lemma HexDigitValue(d: int)
    requires 0 <= d < 16
    ensures IsHexChar(HexDigit(d)) && HexValue(HexDigit(d)) == d
  {
  }

  /** Four lower-case hex digits spelling a code unit, most significant
      first, as a `\u` escape writes them. */
  function HexText(code: int): (s: string)
    requires 0 <= code < 0x10000
    ensures |s| == 4
  {
    var r1 := code % 4096;
    var r2 := r1 % 256;
    [HexDigit(code / 4096), HexDigit(r1 / 256), HexDigit(r2 / 16), HexDigit(r2 % 16)]
  }

  /** Four hex digits read back as the code unit they spell. */
  lemma HexTextReadsBack(code: int, rest: string)
    requires 0 <= code < 0x10000
    ensures Hex4(HexText(code) + rest) == Some(code)
  {
    var r1 := code % 4096;
    var r2 := r1 % 256;
    HexDigitValue(code / 4096);
    HexDigitValue(r1 / 256);
    HexDigitValue(r2 / 16);
    HexDigitValue(r2 % 16);
    var s := HexText(code) + rest;
    assert s[0] == HexDigit(code / 4096) && s[1] == HexDigit(r1 / 256);
    assert s[2] == HexDigit(r2 / 16) && s[3] == HexDigit(r2 % 16);
    assert code == code / 4096 * 4096 + r1 && r1 == r1 / 256 * 256 + r2 && r2 == r2 / 16 * 16 + r2 % 16;
  }

  /** The UTF-16 surrogate pair of a character beyond the basic plane. */
  function ToSurrogates(c: char): (p: (int, int))
    requires 0x10000 <= c as int
    ensures IsHighSurrogate(p.0) && IsLowSurrogate(p.1)
  {
    (0xD800 + (c as int - 0x10000) / 0x400, 0xDC00 + (c as int - 0x10000) % 0x400)
  }

  /** Splitting a character into its surrogate pair and joining them again
      gives the character back. */
  lemma SurrogatesRoundTrip(c: char)
    requires 0x10000 <= c as int
    ensures FromSurrogates(ToSurrogates(c).0, ToSurrogates(c).1) == c
  {
    var v := c as int - 0x10000;
    assert v == v / 0x400 * 0x400 + v % 0x400;
  }

  /** The escape json.dumps(ensure_ascii=True) writes for a character beyond
      the basic plane (after the first backslash): two `\u` escapes, one per
      surrogate. */
  function WideEscape(c: char): string
    requires 0x10000 <= c as int
  {
    "u" + HexText(ToSurrogates(c).0) + "\\u" + HexText(ToSurrogates(c).1)
  }

  /** A high surrogate escape followed by a low surrogate escape reads as
      the one character the pair encodes. */
  lemma SurrogatePairDecodes(hi: int, lo: int, rest: string)
    requires IsHighSurrogate(hi) && IsLowSurrogate(lo)
    ensures Unescape("u" + HexText(hi) + "\\u" + HexText(lo) + rest) == Ok((FromSurrogates(hi, lo), rest))
  {
    var s := "u" + HexText(hi) + "\\u" + HexText(lo) + rest;
    assert s[1..] == HexText(hi) + ("\\u" + HexText(lo) + rest);
    HexTextReadsBack(hi, "\\u" + HexText(lo) + rest);
    assert s[7..] == HexText(lo) + rest;
    HexTextReadsBack(lo, rest);
    assert s[5] == '\\' && s[6] == 'u';
    assert s[11..] == rest;
  }

  /** A character beyond the basic plane, escaped as json.dumps with
      ensure_ascii escapes it, reads back as itself. */
  lemma WideEscapeReadsBack(c: char, rest: string)
    requires 0x10000 <= c as int
    ensures Unescape(WideEscape(c) + rest) == Ok((c, rest))
  {
    var (hi, lo) := ToSurrogates(c);
    assert WideEscape(c) + rest == "u" + HexText(hi) + "\\u" + HexText(lo) + rest;
    SurrogatePairDecodes(hi, lo, rest);
    SurrogatesRoundTrip(c);
  }

  /** A low surrogate with no high surrogate before it is refused, and so is
      a high surrogate that no escape follows. */
  lemma LoneSurrogateRefused(code: int, rest: string)
    requires IsLowSurrogate(code) || (IsHighSurrogate(code) && (|rest| == 0 || rest[0] != '\\'))
    ensures Unescape("u" + HexText(code) + rest).Err?
  {
    var s := "u" + HexText(code) + rest;
    assert s[1..] == HexText(code) + rest;
    HexTextReadsBack(code, rest);
    if |s| >= 7 {
      assert s[5] == rest[0];
    }
  }

  /** The emoji U+1F600, as json.dumps writes it with ensure_ascii. */
  lemma EmojiPairDecodes()
    ensures Unescape("ud83d\\ude00") == Ok(('\U{1F600}', ""))
  {
    assert HexText(0xD83D) == "d83d" && HexText(0xDE00) == "de00";
    SurrogatePairDecodes(0xD83D, 0xDE00, "");
    assert "u" + "d83d" + "\\u" + "de00" + "" == "ud83d\\ude00";
  }

  /** One escaped character reads back as itself. */
  lemma ParseEscapedChar(c: char, tail: string)
    ensures ParseString(EscapeChar(c) + tail) == ConsChar(c, ParseString(tail))
  {
    var s := EscapeChar(c) + tail;
    if c == '"' || c == '\\' {
      assert s[1..] == [c] + tail;
      assert ([c] + tail)[1..] == tail;
    } else if c < ' ' {
      var hi, lo := c as int / 16, c as int % 16;
      HexDigitValue(hi);
      HexDigitValue(lo);
      var u := s[1..];
      assert u == ['u', '0', '0', HexDigit(hi), HexDigit(lo)] + tail;
      assert u[5..] == tail;
      assert Unescape(u) == Ok((c, tail));
    } else {
      assert s == [c] + tail;
      assert s[1..] == tail;
    }
  }

  /** A quoted string reads back as the string it quotes. */
  lemma {:induction false} ParseEscaped(s: string, rest: string)
    ensures ParseString(Escape(s) + "\"" + rest) == Ok((s, rest))
  {
    if |s| == 0 {
      assert Escape(s) + "\"" + rest == "\"" + rest;
    } else {
      var tail := Escape(s[1..]) + "\"" + rest;
      assert Escape(s) + "\"" + rest == EscapeChar(s[0]) + tail;
      ParseEscapedChar(s[0], tail);
      ParseEscaped(s[1..], rest);
      assert [s[0]] + s[1..] == s;
    }
  }

  /** `NumberPrefix` takes the longest run of number characters: it starts
      `s`, holds number characters only, and stops at the end of `s` or at a
      character that is not one. */
  lemma {:induction false} NumberPrefixLongest(s: string)
    ensures NumberPrefix(s) <= s
    ensures forall i :: 0 <= i < |NumberPrefix(s)| ==> IsNumberChar(NumberPrefix(s)[i])
    ensures |NumberPrefix(s)| == |s| || !IsNumberChar(s[|NumberPrefix(s)|])
    decreases |s|
  {
    if |s| > 0 && IsNumberChar(s[0]) {
      var tail := NumberPrefix(s[1..]);
      NumberPrefixLongest(s[1..]);
      assert NumberPrefix(s) == [s[0]] + tail;
      assert s == [s[0]] + s[1..];
      forall i | 0 <= i < |NumberPrefix(s)|
        ensures IsNumberChar(NumberPrefix(s)[i])
      {
        if i > 0 {
          assert NumberPrefix(s)[i] == tail[i - 1];
        }
      }
    }
  }

  lemma {:induction false} NumberPrefixOf(tok: string, rest: string)
    requires forall i :: 0 <= i < |tok| ==> IsNumberChar(tok[i])
    requires rest == [] || !IsNumberChar(rest[0])
    ensures NumberPrefix(tok + rest) == tok
    decreases |tok|
  {
    if |tok| > 0 {
      NumberPrefixOf(tok[1..], rest);
      assert (tok + rest)[1..] == tok[1..] + rest;
      assert (tok + rest)[0] == tok[0];
      assert [tok[0]] + tok[1..] == tok;
    } else {
      assert tok + rest == rest;
    }
  }

  lemma ParseDumpNum(n: real, t: NumberText, st: Style, rest: string)
    requires SoundOn(t, {n})
    requires rest == [] || !IsNumberChar(rest[0])
    ensures ParseValue(Dump(Num(n), t, st) + rest, t) == Ok((Num(n), rest))
  {
    var tok := t.show(n);
    assert IsNumberToken(tok) && t.read(tok) == Some(n);
    NumberPrefixOf(tok, rest);
    assert (tok + rest)[0] == tok[0];
    assert (tok + rest)[|tok|..] == rest;
  }

  lemma ParseDumpStr(str: string, t: NumberText, st: Style, rest: string)
    ensures ParseValue(Dump(Str(str), t, st) + rest, t) == Ok((Str(str), rest))
  {
    var s := Dump(Str(str), t, st) + rest;
    assert s[1..] == Escape(str) + "\"" + rest;
    ParseEscaped(str, rest);
  }

  lemma ParseDumpLiteral(v: Value, t: NumberText, st: Style, rest: string)
    requires v.Null? || v.Bool?
    ensures ParseValue(Dump(v, t, st) + rest, t) == Ok((v, rest))
  {
    var w := Dump(v, t, st);
    assert (w + rest)[|w|..] == rest;
    assert w <= w + rest;
  }

  lemma SkipWsNone(s: string)
    requires |s| > 0 && !IsWs(s[0])
    ensures SkipWs(s) == s
  {
  }

  /** The blanks a style writes are skipped by the parser. */
  lemma SkipPad(st: Style, s: string)
    requires |s| > 0 && !IsWs(s[0])
    ensures SkipWs(Pad(st) + s) == s
  {
    if st.Spaced? {
      assert (Pad(st) + s)[1..] == s;
    }
  }

  lemma ElementsStep(s: string, t: NumberText, v: Value, rest: string)
    requires ParseValue(s, t) == Ok((v, rest))
    ensures ParseElements(s, t) == MoreElements(v, SkipWs(rest), t)
  {
  }

  lemma MoreElementsClose(v: Value, rest: string, t: NumberText)
    ensures MoreElements(v, "]" + rest, t) == Ok(([v], rest))
  {
    assert ("]" + rest)[1..] == rest;
  }

  lemma MoreElementsComma(v: Value, st: Style, more: string, t: NumberText, vs: seq<Value>, rest: string)
    requires |more| > 0 && !IsWs(more[0])
    requires ParseElements(more, t) == Ok((vs, rest))
    ensures MoreElements(v, "," + (Pad(st) + more), t) == Ok(([v] + vs, rest))
  {
    assert ("," + (Pad(st) + more))[1..] == Pad(st) + more;
    SkipPad(st, more);
  }

  lemma MembersStep(key: string, s: string, t: NumberText, rest: string)
    requires ParseString(s) == Ok((key, rest))
    ensures ParseMembers("\"" + s, t) == MemberValue(key, SkipWs(rest), t)
  {
    assert ("\"" + s)[1..] == s;
  }

  lemma MemberValueStep(key: string, st: Style, body: string, t: NumberText, v: Value, rest: string)
    requires |body| > 0 && !IsWs(body[0])
    requires ParseValue(body, t) == Ok((v, rest))
    ensures MemberValue(key, ":" + (Pad(st) + body), t) == MoreMembers(Member(key, v), SkipWs(rest), t)
  {
    assert (":" + (Pad(st) + body))[1..] == Pad(st) + body;
    SkipPad(st, body);
  }

  lemma MoreMembersClose(m: Member, rest: string, t: NumberText)
    ensures MoreMembers(m, "}" + rest, t) == Ok(([m], rest))
  {
    assert ("}" + rest)[1..] == rest;
  }

  lemma MoreMembersComma(m: Member, st: Style, more: string, t: NumberText, ms: seq<Member>, rest: string)
    requires |more| > 0 && !IsWs(more[0])
    requires ParseMembers(more, t) == Ok((ms, rest))
    ensures MoreMembers(m, "," + (Pad(st) + more), t) == Ok(([m] + ms, rest))
  {
    assert ("," + (Pad(st) + more))[1..] == Pad(st) + more;
    SkipPad(st, more);
  }

  // How the printed forms split into their parts.

  lemma ArrText(items: seq<Value>, t: NumberText, st: Style, rest: string)
    ensures Dump(Arr(items), t, st) + rest == "[" + (DumpItems(items, t, st) + "]" + rest)
  {
  }

  lemma ObjText(ms: seq<Member>, t: NumberText, st: Style, rest: string)
    ensures Dump(Obj(ms), t, st) + rest == "{" + (DumpMembers(ms, t, st) + "}" + rest)
  {
  }

  lemma ItemsText(items: seq<Value>, t: NumberText, st: Style, rest: string)
    requires |items| > 0
    ensures |items| == 1 ==> DumpItems(items, t, st) + "]" + rest == Dump(items[0], t, st) + ("]" + rest)
    ensures |items| > 1 ==>
      DumpItems(items, t, st) + "]" + rest
      == Dump(items[0], t, st) + ("," + (Pad(st) + (DumpItems(items[1..], t, st) + "]" + rest)))
  {
  }

  lemma MemberTextParts(e: string, p: string, d: string, after: string)
    ensures "\"" + e + "\"" + ":" + p + d + after == "\"" + (e + "\"" + (":" + (p + (d + after))))
  {
  }

  /** One member's text: quote, key, quote, colon, blanks, value. */
  lemma MemberText(m: Member, t: NumberText, st: Style, after: string)
    ensures DumpMember(m, t, st) + after
         == "\"" + (Escape(m.key) + "\"" + (":" + (Pad(st) + (Dump(m.value, t, st) + after))))
  {
    MemberTextParts(Escape(m.key), Pad(st), Dump(m.value, t, st), after);
  }

  /** Two or more members: the first one, a comma, and the rest. */
  lemma MembersTextMore(ms: seq<Member>, t: NumberText, st: Style, rest: string)
    requires |ms| > 1
    ensures DumpMembers(ms, t, st) + "}" + rest
         == DumpMember(ms[0], t, st) + ("," + (Pad(st) + (DumpMembers(ms[1..], t, st) + "}" + rest)))
  {
  }

  // Parser steps over arbitrary text.

  /** A value that opens with a bracket hands over to the array parser,
      after the blanks. */
  lemma ValueOpensArray(s: string, t: NumberText)
    requires |s| > 0 && s[0] == '['
    ensures ParseValue(s, t) == ParseArray(SkipWs(s[1..]), t)
  {
  }

  /** A value that opens with a brace hands over to the object parser,
      after the blanks. */
  lemma ValueOpensObject(s: string, t: NumberText)
    requires |s| > 0 && s[0] == '{'
    ensures ParseValue(s, t) == ParseObject(SkipWs(s[1..]), t)
  {
  }

  lemma ArrayElements(s: string, t: NumberText, items: seq<Value>, rest: string)
    requires |s| > 0 && s[0] != ']'
    requires ParseElements(s, t) == Ok((items, rest))
    ensures ParseArray(s, t) == Ok((Arr(items), rest))
  {
  }

  lemma ObjectMembers(s: string, t: NumberText, ms: seq<Member>, rest: string)
    requires |s| > 0 && s[0] != '}'
    requires ParseMembers(s, t) == Ok((ms, rest))
    ensures ParseObject(s, t) == Ok((Obj(ms), rest))
  {
  }

  lemma ValueArrayStep(inner: string, t: NumberText, items: seq<Value>, rest: string)
    requires |inner| > 0 && !IsWs(inner[0]) && inner[0] != ']'
    requires ParseElements(inner, t) == Ok((items, rest))
    ensures ParseValue("[" + inner, t) == Ok((Arr(items), rest))
  {
    var s := "[" + inner;
    assert s[0] == '[' && s[1..] == inner;
    ValueOpensArray(s, t);
    SkipWsNone(inner);
    ArrayElements(inner, t, items, rest);
  }

  lemma ValueEmptyArrayStep(t: NumberText, rest: string)
    ensures ParseValue("[" + ("" + "]" + rest), t) == Ok((Arr([]), rest))
  {
    var s := "[" + ("" + "]" + rest);
    assert s[0] == '[' && s[1..] == "]" + rest;
    ValueOpensArray(s, t);
    SkipWsNone("]" + rest);
    assert ("]" + rest)[1..] == rest;
    assert ParseArray("]" + rest, t) == Ok((Arr([]), rest));
  }

  lemma ValueObjectStep(inner: string, t: NumberText, ms: seq<Member>, rest: string)
    requires |inner| > 0 && !IsWs(inner[0]) && inner[0] != '}'
    requires ParseMembers(inner, t) == Ok((ms, rest))
    ensures ParseValue("{" + inner, t) == Ok((Obj(ms), rest))
  {
    var s := "{" + inner;
    assert s[0] == '{' && s[1..] == inner;
    ValueOpensObject(s, t);
    SkipWsNone(inner);
    ObjectMembers(inner, t, ms, rest);
  }

  lemma ValueEmptyObjectStep(t: NumberText, rest: string)
    ensures ParseValue("{" + ("" + "}" + rest), t) == Ok((Obj([]), rest))
  {
    var s := "{" + ("" + "}" + rest);
    assert s[0] == '{' && s[1..] == "}" + rest;
    ValueOpensObject(s, t);
    SkipWsNone("}" + rest);
    assert ("}" + rest)[1..] == rest;
    assert ParseObject("}" + rest, t) == Ok((Obj([]), rest));
  }

  lemma ElementsLastStep(s: string, t: NumberText, v: Value, rest: string)
    requires ParseValue(s, t) == Ok((v, "]" + rest))
    ensures ParseElements(s, t) == Ok(([v], rest))
  {
    ElementsStep(s, t, v, "]" + rest);
    SkipWsNone("]" + rest);
    MoreElementsClose(v, rest, t);
  }

  lemma ElementsConsStep(s: string, t: NumberText, st: Style, v: Value, more: string, vs: seq<Value>, rest: string)
    requires ParseValue(s, t) == Ok((v, "," + (Pad(st) + more)))
    requires |more| > 0 && !IsWs(more[0])
    requires ParseElements(more, t) == Ok((vs, rest))
    ensures ParseElements(s, t) == Ok(([v] + vs, rest))
  {
    ElementsStep(s, t, v, "," + (Pad(st) + more));
    SkipWsNone("," + (Pad(st) + more));
    MoreElementsComma(v, st, more, t, vs, rest);
  }

  lemma MemberStep(key: string, st: Style, body: string, t: NumberText, v: Value, after: string)
    requires |body| > 0 && !IsWs(body[0])
    requires ParseValue(body, t) == Ok((v, after))
    ensures ParseMembers("\"" + (Escape(key) + "\"" + (":" + (Pad(st) + body))), t)
         == MoreMembers(Member(key, v), SkipWs(after), t)
  {
    var colon := ":" + (Pad(st) + body);
    ParseEscaped(key, colon);
    MembersStep(key, Escape(key) + "\"" + colon, t, colon);
    SkipWsNone(colon);
    MemberValueStep(key, st, body, t, v, after);
  }

  /** Printing a value and parsing the text gives the value back and leaves
      whatever followed untouched. */
  lemma {:induction false} ParseDump(v: Value, t: NumberText, st: Style, rest: string)
    requires SoundOn(t, Numbers(v))
    requires rest == [] || !IsNumberChar(rest[0])
    ensures ParseValue(Dump(v, t, st) + rest, t) == Ok((v, rest))
    decreases v, 1
  {
    match v
    case Null => ParseDumpLiteral(v, t, st, rest);
    case Bool(_) => ParseDumpLiteral(v, t, st, rest);
    case Num(n) => ParseDumpNum(n, t, st, rest);
    case Str(str) => ParseDumpStr(str, t, st, rest);
    case Arr(items) => ParseDumpArr(items, t, st, rest);
    case Obj(ms) => ParseDumpObj(ms, t, st, rest);
  }

  lemma {:induction false} ParseDumpArr(items: seq<Value>, t: NumberText, st: Style, rest: string)
    requires SoundOn(t, ItemNumbers(items))
    ensures ParseValue(Dump(Arr(items), t, st) + rest, t) == Ok((Arr(items), rest))
    decreases items, 3
  {
    ArrText(items, t, st, rest);
    if |items| == 0 {
      ValueEmptyArrayStep(t, rest);
    } else {
      ItemsOpen(items, t, st, rest);
      ParseDumpItems(items, t, st, rest);
      ValueArrayStep(DumpItems(items, t, st) + "]" + rest, t, items, rest);
    }
  }

  lemma {:induction false} ParseDumpObj(ms: seq<Member>, t: NumberText, st: Style, rest: string)
    requires SoundOn(t, MemberNumbers(ms))
    ensures ParseValue(Dump(Obj(ms), t, st) + rest, t) == Ok((Obj(ms), rest))
    decreases ms, 2
  {
    ObjText(ms, t, st, rest);
    if |ms| == 0 {
      ValueEmptyObjectStep(t, rest);
    } else {
      ParseDumpMembers(ms, t, st, rest);
      ValueObjectStep(DumpMembers(ms, t, st) + "}" + rest, t, ms, rest);
    }
  }

  lemma ConsTail<T>(xs: seq<T>)
    requires |xs| > 0
    ensures [xs[0]] + xs[1..] == xs
  {
  }

  /** Two or more elements: the first one, a comma, and the rest. */
  lemma {:induction false} ItemsConsStep(items: seq<Value>, t: NumberText, st: Style, rest: string)
    requires SoundOn(t, ItemNumbers(items)) && |items| > 1
    ensures ParseElements(DumpItems(items, t, st) + "]" + rest, t) == Ok((items, rest))
    decreases items, 0
  {
    var more := DumpItems(items[1..], t, st) + "]" + rest;
    ParseDump(items[0], t, st, "," + (Pad(st) + more));
    ParseDumpItems(items[1..], t, st, rest);
    ItemsText(items, t, st, rest);
    DumpItemsStart(items[1..], t, st);
    ElementsConsStep(Dump(items[0], t, st) + ("," + (Pad(st) + more)), t, st, items[0], more, items[1..], rest);
    ConsTail(items);
  }

  lemma {:induction false} ParseDumpItems(items: seq<Value>, t: NumberText, st: Style, rest: string)
    requires SoundOn(t, ItemNumbers(items)) && |items| > 0
    ensures ParseElements(DumpItems(items, t, st) + "]" + rest, t) == Ok((items, rest))
    decreases items, 1
  {
    if |items| == 1 {
      ItemsText(items, t, st, rest);
      ParseDump(items[0], t, st, "]" + rest);
      ElementsLastStep(Dump(items[0], t, st) + ("]" + rest), t, items[0], rest);
      assert [items[0]] == items;
    } else {
      ItemsConsStep(items, t, st, rest);
    }
  }

  /** A member followed by `after`: its key, a colon, then its value. */
  lemma {:induction false} MemberHead(m: Member, t: NumberText, st: Style, after: string)
    requires SoundOn(t, Numbers(m.value))
    requires |after| > 0 && !IsWs(after[0]) && !IsNumberChar(after[0])
    ensures ParseMembers(DumpMember(m, t, st) + after, t) == MoreMembers(m, after, t)
    decreases m.value, 2
  {
    ParseDump(m.value, t, st, after);
    MemberText(m, t, st, after);
    DumpThenStart(m.value, t, st, after);
    MemberStep(m.key, st, Dump(m.value, t, st) + after, t, m.value, after);
    SkipWsNone(after);
  }

  /** A printed value followed by anything starts with no blank. */
  lemma DumpThenStart(v: Value, t: NumberText, st: Style, after: string)
    requires SoundOn(t, Numbers(v))
    ensures |Dump(v, t, st) + after| > 0 && !IsWs((Dump(v, t, st) + after)[0])
  {
    DumpStart(v, t, st);
    assert (Dump(v, t, st) + after)[0] == Dump(v, t, st)[0];
  }

  lemma {:induction false} ParseDumpMembers(ms: seq<Member>, t: NumberText, st: Style, rest: string)
    requires SoundOn(t, MemberNumbers(ms)) && |ms| > 0
    ensures ParseMembers(DumpMembers(ms, t, st) + "}" + rest, t) == Ok((ms, rest))
    decreases ms, 1
  {
    if |ms| == 1 {
      ParseDumpLastMember(ms, t, st, rest);
    } else {
      ParseDumpMoreMembers(ms, t, st, rest);
    }
  }

  lemma {:induction false} ParseDumpLastMember(ms: seq<Member>, t: NumberText, st: Style, rest: string)
    requires SoundOn(t, MemberNumbers(ms)) && |ms| == 1
    ensures ParseMembers(DumpMembers(ms, t, st) + "}" + rest, t) == Ok((ms, rest))
    decreases ms, 0
  {
    assert DumpMembers(ms, t, st) + "}" + rest == DumpMember(ms[0], t, st) + ("}" + rest);
    MemberHead(ms[0], t, st, "}" + rest);
    MoreMembersClose(ms[0], rest, t);
    assert [ms[0]] == ms;
  }

  lemma {:induction false} ParseDumpMoreMembers(ms: seq<Member>, t: NumberText, st: Style, rest: string)
    requires SoundOn(t, MemberNumbers(ms)) && |ms| > 1
    ensures ParseMembers(DumpMembers(ms, t, st) + "}" + rest, t) == Ok((ms, rest))
    decreases ms, 0
  {
    var more := DumpMembers(ms[1..], t, st) + "}" + rest;
    var after := "," + (Pad(st) + more);
    MembersTextMore(ms, t, st, rest);
    MemberHead(ms[0], t, st, after);
    ParseDumpMembers(ms[1..], t, st, rest);
    MembersConsStep(ms, t, st, rest);
  }

  /** The comma step of an object: the first member's `MoreMembers`
      continues with the parse of the rest. */
  lemma MembersConsStep(ms: seq<Member>, t: NumberText, st: Style, rest: string)
    requires |ms| > 1
    requires ParseMembers(DumpMembers(ms[1..], t, st) + "}" + rest, t) == Ok((ms[1..], rest))
    ensures MoreMembers(ms[0], "," + (Pad(st) + (DumpMembers(ms[1..], t, st) + "}" + rest)), t) == Ok((ms, rest))
  {
    var more := DumpMembers(ms[1..], t, st) + "}" + rest;
    assert |more| > 0 && more[0] == '"';
    MoreMembersComma(ms[0], st, more, t, ms[1..], rest);
    ConsTail(ms);
  }

  /** The document round trip: what `Dump` prints, in either style, `Load`
      reads back. */
  lemma LoadDump(v: Value, t: NumberText, st: Style)
    requires SoundOn(t, Numbers(v))
    ensures Load(Dump(v, t, st), t) == Ok(v)
  {
    var d := Dump(v, t, st);
    DumpStart(v, t, st);
    SkipWsNone(d);
    ParseDump(v, t, st, "");
    assert d + "" == d;
    assert ParseValue(SkipWs(d), t) == Ok((v, ""));
  }

  /** Every document survives printing and parsing under some spelling of
      its numbers. */
  lemma RoundTripSpellable(v: Value, st: Style)
    ensures exists t :: Load(Dump(v, t, st), t) == Ok(v)
  {
    SoundSpellingExists(Numbers(v));
    var t :| SoundOn(t, Numbers(v));
    LoadDump(v, t, st);
  }
}
