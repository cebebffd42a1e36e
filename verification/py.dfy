/** The few Python semantics the simulator scripts rely on, over the objects
    json.loads produces (`Json.Value`: dict, list, str, number, bool, None).

    A raised exception is an `Err` whose message starts with the exception's
    class name, so `Raises(r, "TypeError")` reads as "raises TypeError".
 */
module Py {
  import opened Wrappers
  import opened Json

  predicate Raises<T>(r: Result<T>, cls: string) {
    r.Err? && cls <= r.error
  }

  /** Raising `cls` with a message after the class name. */
  function Raise<T>(cls: string, detail: string): (r: Result<T>)
    ensures Raises(r, cls)
  {
    assert (cls + ": " + detail)[..|cls|] == cls;
    Err(cls + ": " + detail)
  }

  /** `item` occurs in `s` starting at position `i`. */
  predicate OccursAt(item: string, s: string, i: int) {
    0 <= i && i + |item| <= |s| && s[i..i + |item|] == item
  }

  /** `item` occurs as a contiguous piece of `s`. */
  ghost predicate IsSubstring(item: string, s: string) {
    exists i :: OccursAt(item, s, i)
  }

  function HasSubstring(item: string, s: string): (b: bool)
    ensures b <==> IsSubstring(item, s)
    decreases |s|
  {
    if item <= s then
      assert OccursAt(item, s, 0);
      true
    else if |s| == 0 then false
    else
      SubstringOfTail(item, s);
      HasSubstring(item, s[1..])
  }

  /** When `item` is not a prefix of `s`, it occurs in `s` exactly when it
      occurs in the tail of `s`. */
  lemma SubstringOfTail(item: string, s: string)
    requires |s| > 0 && !(item <= s)
    ensures IsSubstring(item, s) <==> IsSubstring(item, s[1..])
  {
    if IsSubstring(item, s[1..]) {
      var i :| OccursAt(item, s[1..], i);
      assert s[i + 1..i + 1 + |item|] == s[1..][i..i + |item|];
      assert OccursAt(item, s, i + 1);
    }
    if IsSubstring(item, s) {
      var i :| OccursAt(item, s, i);
      if i > 0 {
        assert s[1..][i - 1..i - 1 + |item|] == s[i..i + |item|];
        assert OccursAt(item, s[1..], i - 1);
      }
    }
  }

  function CountChar(s: string, c: char): nat {
    if |s| == 0 then 0 else (if s[0] == c then 1 else 0) + CountChar(s[1..], c)
  }

  /** `sep.join(parts)` for a one-character separator. */
  function Join(parts: seq<string>, sep: char): string
    requires |parts| > 0
  {
    if |parts| == 1 then parts[0] else parts[0] + [sep] + Join(parts[1..], sep)
  }

  /** `s.split(sep)` for a one-character separator: the pieces between
      separators, one more than there are separators, none containing it,
      and joined again they give back `s`. */
  function Split(s: string, sep: char): (parts: seq<string>)
    ensures |parts| == CountChar(s, sep) + 1
    ensures forall k :: 0 <= k < |parts| ==> sep !in parts[k]
    ensures Join(parts, sep) == s
    decreases |s|
  {
    if |s| == 0 then [""]
    else
      var rest := Split(s[1..], sep);
      if s[0] == sep then
        assert ([""] + rest)[1..] == rest;
        assert s == [sep] + s[1..];
        [""] + rest
      else
        var parts := [[s[0]] + rest[0]] + rest[1..];
        assert parts[1..] == rest[1..];
        assert forall k :: 1 <= k < |parts| ==> parts[k] == rest[k];
        assert s == [s[0]] + s[1..];
        assert |rest| > 1 ==> Join(rest, sep) == rest[0] + [sep] + Join(rest[1..], sep);
        parts
  }

  /** The objects Python's `in` accepts on its right. */
  predicate IsContainer(v: Value) {
    v.Obj? || v.Str? || v.Arr?
  }

  /** The truth of `item in v` for a container `v`. */
  function In(item: string, v: Value): (b: bool)
    requires IsContainer(v)
    ensures v.Obj? ==> (b <==> exists i :: 0 <= i < |v.members| && v.members[i].key == item)
    ensures v.Str? ==> (b <==> IsSubstring(item, v.s))
    ensures v.Arr? ==> (b <==> Str(item) in v.items)
  {
    match v
    case Obj(ms) => Get(ms, item).Some?
    case Str(s) => HasSubstring(item, s)
    case Arr(items) => Str(item) in items
  }

  /** `item in container` for a string `item`: key membership for a dict,
      substring for a str, element equality for a list, and TypeError for
      anything that is not a container. */
  function Contains(container: Value, item: string): (r: Result<bool>)
    ensures r.Ok? <==> IsContainer(container)
    ensures container.Obj? ==> r == Ok(exists i :: 0 <= i < |container.members| && container.members[i].key == item)
    ensures container.Str? ==> r == Ok(IsSubstring(item, container.s))
    ensures container.Arr? ==> r == Ok(Str(item) in container.items)
    ensures r.Err? ==> Raises(r, "TypeError")
  {
    if IsContainer(container) then Ok(In(item, container))
    else Err("TypeError: argument is not iterable")
  }

  /** `v[key]` for a string literal `key`. */
  function Lookup(v: Value, key: string): (r: Result<Value>)
    ensures r.Ok? <==> v.Obj? && Get(v.members, key).Some?
    ensures r.Ok? ==> Get(v.members, key) == Some(r.value)
    ensures v.Obj? && r.Err? ==> Raises(r, "KeyError")
    ensures !v.Obj? ==> Raises(r, "TypeError")
  {
    match v
    case Obj(ms) =>
      if Get(ms, key).Some? then Ok(Get(ms, key).value) else Raise("KeyError", key)
    case Arr(_) => Raise("TypeError", "list indices must be integers")
    case Str(_) => Raise("TypeError", "string indices must be integers")
    case _ => Raise("TypeError", "object is not subscriptable")
  }

  /** `v[i]` for a non-negative integer literal `i`. */
  function Index(v: Value, i: nat): (r: Result<Value>)
    ensures r.Ok? <==> (v.Arr? && i < |v.items|) || (v.Str? && i < |v.s|)
    ensures r.Ok? && v.Arr? ==> r.value == v.items[i]
    ensures r.Ok? && v.Str? ==> r.value == Str([v.s[i]])
    ensures (v.Arr? || v.Str?) && r.Err? ==> Raises(r, "IndexError")
    ensures v.Obj? ==> Raises(r, "KeyError")
  {
    match v
    case Arr(items) => if i < |items| then Ok(items[i]) else Raise("IndexError", "list index out of range")
    case Str(s) => if i < |s| then Ok(Str([s[i]])) else Raise("IndexError", "string index out of range")
    case Obj(_) => Raise("KeyError", "integer key")
    case _ => Raise("TypeError", "object is not subscriptable")
  }

  function Chars(s: string): (r: seq<Value>)
    ensures |r| == |s| && forall i :: 0 <= i < |s| ==> r[i] == Str([s[i]])
  {
    if |s| == 0 then [] else [Str([s[0]])] + Chars(s[1..])
  }

  function KeyValues(ms: seq<Member>): (r: seq<Value>)
    ensures |r| == |ms| && forall i :: 0 <= i < |ms| ==> r[i] == Str(ms[i].key)
  {
    if |ms| == 0 then [] else [Str(ms[0].key)] + KeyValues(ms[1..])
  }

  /** What a `for` loop or `zip` draws from `v`: a list's items, a str's
      characters, a dict's keys; anything else raises TypeError. */
  function Iterate(v: Value): (r: Result<seq<Value>>)
    ensures r.Ok? <==> v.Arr? || v.Str? || v.Obj?
    ensures v.Arr? ==> r == Ok(v.items)
    ensures v.Str? ==> r.Ok? && |r.value| == |v.s| && forall i :: 0 <= i < |v.s| ==> r.value[i] == Str([v.s[i]])
    ensures v.Obj? ==> r.Ok? && |r.value| == |v.members|
    ensures !r.Ok? ==> Raises(r, "TypeError")
  {
    match v
    case Arr(items) => Ok(items)
    case Str(s) => Ok(Chars(s))
    case Obj(ms) => Ok(KeyValues(ms))
    case _ => Err("TypeError: object is not iterable")
  }

  /** The conversion pybullet applies to a float argument: numbers, and
      booleans as 0 and 1; anything else raises TypeError. */
  function AsFloat(v: Value): (r: Result<real>)
    ensures r.Ok? <==> v.Num? || v.Bool?
    ensures v.Num? ==> r == Ok(v.n)
    ensures v.Bool? ==> r == Ok(if v.b then 1.0 else 0.0)
    ensures r.Err? ==> Raises(r, "TypeError")
  {
    match v
    case Num(n) => Ok(n)
    case Bool(b) => Ok(if b then 1.0 else 0.0)
    case _ => Err("TypeError: must be real number")
  }

  /** A string literal shorter than `item` never contains it, so a single
      character is never a dict-style tag. */
  lemma ShortStringLacks(item: string, s: string)
    requires |s| < |item|
    ensures Contains(Str(s), item) == Ok(false)
  {
  }

  // ---------------------------------------------------------------------
  // int() on a string, and string repetition
  // ---------------------------------------------------------------------

  /** `s * n` on a string: `n` copies side by side. */
  function Repeat(s: string, n: nat): (r: string)
    ensures |r| == |s| * n
    ensures forall i :: 0 <= i < |s| && i < |r| ==> r[i] == s[i]
    ensures forall i :: 0 <= i < |r| ==> r[i] in s
  {
    if n == 0 then "" else s + Repeat(s, n - 1)
  }

  /** The ASCII blanks `int()` strips from both ends of its argument. */
  predicate IsBlank(c: char) {
    c == ' ' || c == '\t' || c == '\n' || c == '\r' || c as int == 11 || c as int == 12
  }

  predicate IsDigit(c: char) {
    '0' <= c <= '9'
  }

  predicate IsSign(c: char) {
    c == '-' || c == '+'
  }

  /** `s` without its leading blanks. */
  function StripStart(s: string): (r: string)
    ensures |r| <= |s| && r == s[|s| - |r|..]
    ensures forall j :: 0 <= j < |s| - |r| ==> IsBlank(s[j])
    ensures |r| > 0 ==> !IsBlank(r[0])
  {
    if |s| > 0 && IsBlank(s[0]) then StripStart(s[1..]) else s
  }

  /** `s` without its trailing blanks. */
  function StripEnd(s: string): (r: string)
    ensures |r| <= |s| && r == s[..|r|]
    ensures forall j :: |r| <= j < |s| ==> IsBlank(s[j])
    ensures |r| > 0 ==> !IsBlank(r[|r| - 1])
  {
    if |s| > 0 && IsBlank(s[|s| - 1]) then StripEnd(s[..|s| - 1]) else s
  }

  /** Decimal digits, with single underscores allowed between two digits. */
  predicate DigitGroups(s: string) {
    |s| > 0 && IsDigit(s[0]) && IsDigit(s[|s| - 1]) &&
    (forall i :: 0 <= i < |s| ==> IsDigit(s[i]) || s[i] == '_') &&
    (forall i :: 0 <= i < |s| - 1 ==> s[i] == '_' ==> IsDigit(s[i + 1]))
  }

  /** The digits of `s` with its underscores left out. */
  function Unscored(s: string): (r: string)
    ensures |r| <= |s|
    ensures (forall i :: 0 <= i < |s| ==> s[i] != '_') ==> r == s
  {
    if |s| == 0 then "" else (if s[0] == '_' then "" else [s[0]]) + Unscored(s[1..])
  }

  /** `int(s)` on a string, base 10: blanks around, an optional sign, then
      digit groups; anything else raises ValueError.  (Unicode digits and
      blanks, which Python also accepts, are left out.) */
  function IntOfString(s: string): (r: Result<int>)
    ensures r.Err? ==> Raises(r, "ValueError")
  {
    IntOfLiteral(StripEnd(StripStart(s)))
  }

  /** Reads a literal with its blanks already stripped: an optional sign, then digit groups. */
  function IntOfLiteral(body: string): (r: Result<int>)
    ensures r.Err? ==> Raises(r, "ValueError")
  {
    var signed := |body| > 0 && IsSign(body[0]);
    var digits := if signed then body[1..] else body;
    if DigitGroups(digits) then
      var n: int := DigitsValue(Unscored(digits));
      Ok(if signed && body[0] == '-' then -n else n)
    else Raise("ValueError", "invalid literal for int() with base 10")
  }

  /** A plain string of decimal digits is read as the number it spells. */
  lemma IntOfDigits(s: string)
    requires |s| > 0 && forall i :: 0 <= i < |s| ==> IsDigit(s[i])
    ensures IntOfString(s) == Ok(DigitsValue(s))
  {
    NothingToStrip(s);
    LiteralOfDigits(s);
  }

  lemma LiteralOfDigits(s: string)
    requires |s| > 0 && forall i :: 0 <= i < |s| ==> IsDigit(s[i])
    ensures IntOfLiteral(s) == Ok(DigitsValue(s))
  {
    PlainDigits(s);
    assert !IsSign(s[0]);
  }

  lemma NothingToStrip(s: string)
    requires |s| > 0 && !IsBlank(s[0]) && !IsBlank(s[|s| - 1])
    ensures StripEnd(StripStart(s)) == s
  {
    assert StripStart(s) == s;
  }

  lemma PlainDigits(s: string)
    requires |s| > 0 && forall i :: 0 <= i < |s| ==> IsDigit(s[i])
    ensures DigitGroups(s) && Unscored(s) == s
  {
  }

  /** A character that is no digit, underscore, sign or blank makes `int()`
      raise ValueError wherever it stands. */
  lemma IntRefusesStray(s: string, i: nat)
    requires i < |s| && !IsDigit(s[i]) && s[i] != '_' && !IsSign(s[i]) && !IsBlank(s[i])
    ensures Raises(IntOfString(s), "ValueError")
  {
    var a := StripStart(s);
    var k := i - (|s| - |a|);
    assert 0 <= k < |a| && a[k] == s[i];
    var b := StripEnd(a);
    assert k < |b| && b[k] == s[i];
    LiteralRefusesStray(b, k);
  }

  /** A stripped literal holding a stray character is refused. */
  lemma LiteralRefusesStray(b: string, k: nat)
    requires k < |b| && !IsDigit(b[k]) && b[k] != '_' && !IsSign(b[k])
    ensures Raises(IntOfLiteral(b), "ValueError")
  {
    var signed := |b| > 0 && IsSign(b[0]);
    var digits := if signed then b[1..] else b;
    var p := if signed then k - 1 else k;
    assert 0 <= p < |digits| && digits[p] == b[k];
    assert !DigitGroups(digits);
  }

  /** Copies of a string of digits are a string of digits. */
  lemma RepeatDigits(s: string, n: nat)
    requires forall i :: 0 <= i < |s| ==> IsDigit(s[i])
    ensures forall i :: 0 <= i < |Repeat(s, n)| ==> IsDigit(Repeat(s, n)[i])
  {
    var r := Repeat(s, n);
    forall i | 0 <= i < |r|
      ensures IsDigit(r[i])
    {
      assert r[i] in s;
    }
  }

  /** The value of a string of zeros is zero. */
  lemma {:induction false} ZerosValue(s: string)
    requires forall i :: 0 <= i < |s| ==> s[i] == '0'
    ensures DigitsValue(s) == 0
  {
    if |s| > 0 {
      ZerosValue(s[..|s| - 1]);
    }
  }
}
