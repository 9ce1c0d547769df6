/**
 * The JavaScript string built-ins that the webhook's date and location code
 * relies on, each defined with the semantics of ECMA-262 for the arguments the
 * code actually passes: `trim`, `toLowerCase`, `includes`, `startsWith`,
 * `split` on a one-character separator, `join`, `slice(0, 3)`, the regular
 * expression replacement `/\.000000$/`, `parseInt` with no radix, and the
 * decimal rendering of an integer in a template literal.
 */
module JsText {
  import opened Wrappers

  // ---------------------------------------------------------------------------
  // Whitespace and trim
  // ---------------------------------------------------------------------------

  /** WhiteSpace and LineTerminator code points of ECMA-262 section 12.2 and 12.3
      (the set `String.prototype.trim` and `parseInt` strip). */
  predicate IsJsSpace(c: char) {
    c == '\t' || c == '\n' || c == '\U{000B}' || c == '\U{000C}' || c == '\r' || c == ' ' ||
    c == '\U{00A0}' || c == '\U{1680}' || ('\U{2000}' <= c <= '\U{200A}') ||
    c == '\U{2028}' || c == '\U{2029}' || c == '\U{202F}' || c == '\U{205F}' ||
    c == '\U{3000}' || c == '\U{FEFF}'
  }

  /** Removes leading whitespace: the result is the longest suffix that does not start with whitespace. */
  function TrimStart(s: string): (r: string)
    ensures |r| <= |s| && r == s[|s| - |r|..]
    ensures r == [] || !IsJsSpace(r[0])
    ensures forall k :: 0 <= k < |s| - |r| ==> IsJsSpace(s[k])
  {
    if s == [] || !IsJsSpace(s[0]) then s else TrimStart(s[1..])
  }

  /** Removes trailing whitespace: the result is the longest prefix that does not end with whitespace. */
  function TrimEnd(s: string): (r: string)
    ensures |r| <= |s| && r == s[..|r|]
    ensures r == [] || !IsJsSpace(r[|r| - 1])
    ensures forall k :: |r| <= k < |s| ==> IsJsSpace(s[k])
  {
    if s == [] || !IsJsSpace(s[|s| - 1]) then s else TrimEnd(s[..|s| - 1])
  }

  /** `r` is the slice `s[i..i + |r|]` and everything of `s` around it is whitespace. */
  predicate TrimmedAt(s: string, r: string, i: nat) {
    i + |r| <= |s| && r == s[i..i + |r|] &&
    (forall k :: 0 <= k < i ==> IsJsSpace(s[k])) &&
    (forall k :: i + |r| <= k < |s| ==> IsJsSpace(s[k]))
  }

  /** `s.trim()`: `s` without its leading and trailing whitespace, and nothing else removed. */
  function Trim(s: string): (r: string)
    ensures |r| <= |s|
    ensures exists i :: TrimmedAt(s, r, i)
    ensures r == [] || (!IsJsSpace(r[0]) && !IsJsSpace(r[|r| - 1]))
    ensures (s == [] || (!IsJsSpace(s[0]) && !IsJsSpace(s[|s| - 1]))) ==> r == s
  {
    TrimSlice(s);
    TrimEnd(TrimStart(s))
  }

  /** Trimming both ends keeps the slice that starts after the leading whitespace. */
  lemma TrimSlice(s: string)
    ensures TrimmedAt(s, TrimEnd(TrimStart(s)), |s| - |TrimStart(s)|)
  {
    var t := TrimStart(s);
    var r := TrimEnd(t);
    var i := |s| - |t|;
    assert s[i..i + |r|] == t[..|r|];
  }

  // ---------------------------------------------------------------------------
  // Lower case
  // ---------------------------------------------------------------------------

  /** True for the upper-case letters `LowerChar` maps: ASCII, Latin-1, and the
      precomposed capitals of the Vietnamese alphabet outside Latin-1. */
  predicate IsMappedUpper(c: char) {
    ('A' <= c <= 'Z') ||
    ('À' <= c <= 'Þ' && c != '×') ||
    c == 'Ă' || c == 'Đ' || c == 'Ĩ' || c == 'Ũ' ||
    c == 'Ơ' || c == 'Ư' ||
    ('Ạ' <= c <= 'Ỹ' && (c as int) % 2 == 0)
  }

  /** The simple lower-case mapping of the Unicode database restricted to `IsMappedUpper`. */
  function LowerChar(c: char): (d: char)
    ensures !IsMappedUpper(d)
    ensures !IsMappedUpper(c) ==> d == c
  {
    if 'A' <= c <= 'Z' || ('À' <= c <= 'Þ' && c != '×') then (c as int + 32) as char
    else if IsMappedUpper(c) then (c as int + 1) as char
    else c
  }

  /** `s.toLowerCase()`, character by character. */
  function ToLower(s: string): (r: string)
    ensures |r| == |s|
    ensures forall k :: 0 <= k < |s| ==> r[k] == LowerChar(s[k])
  {
    seq(|s|, k requires 0 <= k < |s| => LowerChar(s[k]))
  }

  /** Lower-casing twice is lower-casing once: a key stored lower-cased is its own normal form. */
  lemma LowerIdempotent(s: string)
    ensures ToLower(ToLower(s)) == ToLower(s)
  {
  }

  /** No mapped character lower-cases to a whitespace character, so lower-casing commutes with trim. */
  lemma LowerKeepsSpace(c: char)
    ensures IsJsSpace(LowerChar(c)) <==> IsJsSpace(c)
  {
  }

  // ---------------------------------------------------------------------------
  // includes / startsWith / replace(/\.000000$/, '')
  // ---------------------------------------------------------------------------

  /** `s.startsWith(p)`. */
  predicate StartsWith(s: string, p: string) {
    |p| <= |s| && s[..|p|] == p
  }

  /** `s.includes(sub)`: `sub` occurs at some position of `s` (the empty string occurs everywhere). */
  predicate Includes(s: string, sub: string) {
    exists i | 0 <= i <= |s| :: OccursAt(s, sub, i)
  }

  /** `sub` occurs in `s` starting at position `i`. */
  predicate OccursAt(s: string, sub: string, i: int) {
    0 <= i <= |s| - |sub| && s[i..i + |sub|] == sub
  }

  /** The empty string is included in every string, and every string includes itself. */
  lemma IncludesTrivia(s: string)
    ensures Includes(s, "") && Includes(s, s)
  {
    assert OccursAt(s, "", 0);
    assert OccursAt(s, s, 0);
  }

  /** `s.includes(sub)` whenever `sub` is a prefix of `s` (and in particular `s.includes(s)`). */
  lemma IncludesPrefix(s: string, sub: string)
    requires StartsWith(s, sub)
    ensures Includes(s, sub)
  {
    assert OccursAt(s, sub, 0);
  }

  const Micros: string := ".000000"

  /** `s.replace(/\.000000$/, '')`: only a literal `.000000` at the very end is removed. */
  function StripMicros(s: string): (r: string)
    ensures r == s || r + Micros == s
    ensures r != s <==> (|s| >= |Micros| && s[|s| - |Micros|..] == Micros)
  {
    if |s| >= |Micros| && s[|s| - |Micros|..] == Micros then s[..|s| - |Micros|] else s
  }

  // ---------------------------------------------------------------------------
  // split / join on a one-character separator
  // ---------------------------------------------------------------------------

  /** Position of the first `c` in `s`, or `|s|` when there is none. */
  function IndexOf(s: string, c: char): (i: nat)
    ensures i <= |s|
    ensures i < |s| ==> s[i] == c
    ensures c !in s[..i]
  {
    if s == [] then 0
    else if s[0] == c then 0
    else
      var j := IndexOf(s[1..], c);
      assert s[..1 + j] == [s[0]] + s[1..][..j];
      1 + j
  }

  /** `s.replace(a, b)` with a one-character string pattern: only the first `a` is replaced. */
  function ReplaceFirst(s: string, a: char, b: char): (r: string)
    ensures |r| == |s|
    ensures a !in s ==> r == s
    ensures forall k :: 0 <= k < |s| && k != IndexOf(s, a) ==> r[k] == s[k]
    ensures IndexOf(s, a) < |s| ==> r[IndexOf(s, a)] == b
  {
    var i := IndexOf(s, a);
    if i == |s| then s else s[..i] + [b] + s[i + 1..]
  }

  /** `parts.join(c)`; an empty array joins to the empty string. */
  function Join(parts: seq<string>, c: char): string
  {
    if |parts| == 0 then ""
    else if |parts| == 1 then parts[0]
    else parts[0] + [c] + Join(parts[1..], c)
  }

  /** `s.split(c)`: the pieces between consecutive separators. There is always at least
      one piece, no piece contains the separator, and joining the pieces gives `s` back. */
  function Split(s: string, c: char): (parts: seq<string>)
    ensures |parts| >= 1
    ensures forall k :: 0 <= k < |parts| ==> c !in parts[k]
    ensures Join(parts, c) == s
    decreases |s|
  {
    var i := IndexOf(s, c);
    if i == |s| then
      assert s[..i] == s;
      [s]
    else
      var rest := Split(s[i + 1..], c);
      assert s == s[..i] + [c] + s[i + 1..];
      [s[..i]] + rest
  }

  /** `s.split(c)[k]`: undefined (None) past the last piece. */
  function Piece(s: string, c: char, k: nat): (r: Option<string>)
    ensures r.Some? <==> k < |Split(s, c)|
  {
    var parts := Split(s, c);
    if k < |parts| then Some(parts[k]) else None
  }

  /** The first piece of `s.split(c)` is everything before the first separator. */
  lemma FirstPiece(s: string, c: char)
    ensures Split(s, c)[0] == s[..IndexOf(s, c)]
  {
    if IndexOf(s, c) == |s| {
      assert s[..|s|] == s;
    }
  }

  /** The other direction of the round trip: splitting a join of separator-free pieces gives the pieces back. */
  lemma {:induction false} SplitJoin(parts: seq<string>, c: char)
    requires |parts| >= 1
    requires forall k :: 0 <= k < |parts| ==> c !in parts[k]
    ensures Split(Join(parts, c), c) == parts
  {
    var s := Join(parts, c);
    if |parts| == 1 {
      assert IndexOf(s, c) == |s| by { assert s[..|s|] == s; }
    } else {
      var tail := Join(parts[1..], c);
      assert s == parts[0] + [c] + tail;
      IndexAfterFreePrefix(parts[0], tail, c);
      assert s[..|parts[0]|] == parts[0];
      assert s[|parts[0]| + 1..] == tail;
      SplitJoin(parts[1..], c);
    }
  }

  /** The first separator of `a + [c] + b` with `c` not in `a` is at `|a|`. */
  lemma IndexAfterFreePrefix(a: string, b: string, c: char)
    requires c !in a
    ensures IndexOf(a + [c] + b, c) == |a|
  {
    var s := a + [c] + b;
    assert forall k :: 0 <= k < |a| ==> s[k] == a[k];
    assert s[|a|] == c;
    forall j | |a| < j <= |s|
      ensures c in s[..j]
    {
      assert s[..j][|a|] == c;
    }
  }

  /** `replace` of the first separator when the prefix before it is separator-free. */
  lemma ReplaceAfterFreePrefix(a: string, b: string, c: char, x: char)
    requires c !in a
    ensures ReplaceFirst(a + [c] + b, c, x) == a + [x] + b
  {
    IndexAfterFreePrefix(a, b, c);
    var s := a + [c] + b;
    assert s[..|a|] == a;
    assert s[|a| + 1..] == b;
  }

  /** The first piece of `a + [c] + b`, or of `a` alone, is `a` when `a` is free of `c`. */
  lemma FirstPieceOfFree(a: string, b: string, c: char)
    requires c !in a
    ensures Split(a + [c] + b, c)[0] == a
    ensures Split(a, c)[0] == a
  {
    IndexAfterFreePrefix(a, b, c);
    FirstPiece(a + [c] + b, c);
    assert (a + [c] + b)[..|a|] == a;
    FirstPiece(a, c);
    assert a[..|a|] == a;
  }

  /** Splitting on `c` yields one more piece than there are occurrences of `c`. */
  lemma {:induction false} SplitCount(s: string, c: char)
    ensures |Split(s, c)| == multiset(s)[c] + 1
    decreases |s|
  {
    var i := IndexOf(s, c);
    if i == |s| {
      assert multiset(s)[c] == 0 by { assert s[..i] == s; }
    } else {
      var pre, post := s[..i], s[i + 1..];
      SplitCount(post, c);
      assert Split(s, c) == [pre] + Split(post, c);
      assert s == pre + [c] + post;
      assert multiset(s) == multiset(pre) + multiset([c]) + multiset(post);
      assert c !in multiset(pre);
    }
  }

  /** A string holding the separator splits into at least two pieces. */
  lemma SplitHasTwo(s: string, c: char)
    requires c in s
    ensures |Split(s, c)| >= 2
  {
    SplitCount(s, c);
    assert c in multiset(s);
  }

  /** Joining splits at any inner boundary: `p.join(c) == p[..k].join(c) + c + p[k..].join(c)`. */
  lemma {:induction false} JoinAt(parts: seq<string>, k: nat, c: char)
    requires 1 <= k < |parts|
    ensures Join(parts, c) == Join(parts[..k], c) + [c] + Join(parts[k..], c)
  {
    if k > 1 {
      JoinAt(parts[1..], k - 1, c);
      assert parts[1..][..k - 1] == parts[..k][1..];
      assert parts[1..][k - 1..] == parts[k..];
    }
  }

  /** A text followed by a separator and more text has that text as a proper prefix. */
  lemma SeparatedPrefix(a: string, b: string, c: char)
    ensures (a + [c] + b)[..|a|] == a && |a| < |a + [c] + b|
  {
    assert (a + [c] + b)[..|a|] == a;
  }

  /** Three colon-free fields joined with `:` hold exactly two colons. */
  lemma FirstThreeColons(parts: seq<string>)
    requires |parts| >= 3 && forall k :: 0 <= k < |parts| ==> ':' !in parts[k]
    ensures multiset(Join(parts[..3], ':'))[':'] == 2
  {
    SplitJoin(parts[..3], ':');
    SplitCount(Join(parts[..3], ':'), ':');
  }

  /** `time.split(':').slice(0, 3).join(':')`: keeps at most the first three colon fields. */
  function KeepThreeFields(t: string): (r: string)
    ensures |r| <= |t| && r == t[..|r|]
    ensures r == t <==> multiset(t)[':'] <= 2
    ensures multiset(r)[':'] == if multiset(t)[':'] <= 2 then multiset(t)[':'] else 2
    ensures r != t ==> t[|r|] == ':'
  {
    var parts := Split(t, ':');
    SplitCount(t, ':');
    if |parts| <= 3 then
      assert parts[..|parts|] == parts;
      Join(parts[..|parts|], ':')
    else
      JoinAt(parts, 3, ':');
      var r := Join(parts[..3], ':');
      SeparatedPrefix(r, Join(parts[3..], ':'), ':');
      FirstThreeColons(parts);
      r
  }

  // ---------------------------------------------------------------------------
  // parseInt (no radix argument)
  // ---------------------------------------------------------------------------

  predicate IsDecDigit(c: char) { '0' <= c <= '9' }

  predicate IsHexDigit(c: char) { IsDecDigit(c) || 'a' <= c <= 'f' || 'A' <= c <= 'F' }

  /** The numeric value of a digit character in radix 10 or 16. */
  function DigitValue(c: char): (v: nat)
    requires IsHexDigit(c)
    ensures v < 16
    ensures IsDecDigit(c) ==> v < 10
  {
    if IsDecDigit(c) then c as int - '0' as int
    else if 'a' <= c <= 'f' then c as int - 'a' as int + 10
    else c as int - 'A' as int + 10
  }

  predicate IsDigitOf(c: char, radix: nat) {
    if radix == 16 then IsHexDigit(c) else IsDecDigit(c)
  }

  /** The longest prefix of `s` made of digits of the radix. */
  function LeadingDigits(s: string, radix: nat): (ds: string)
    ensures |ds| <= |s| && ds == s[..|ds|]
    ensures forall k :: 0 <= k < |ds| ==> IsDigitOf(ds[k], radix)
    ensures |ds| < |s| ==> !IsDigitOf(s[|ds|], radix)
  {
    if s == [] || !IsDigitOf(s[0], radix) then ""
    else [s[0]] + LeadingDigits(s[1..], radix)
  }

  /** The value of a digit string, most significant digit first. */
  function DigitsValue(ds: string, radix: nat): nat
    requires radix == 10 || radix == 16
    requires forall k :: 0 <= k < |ds| ==> IsDigitOf(ds[k], radix)
  {
    if ds == [] then 0
    else
      assert IsDigitOf(ds[|ds| - 1], radix);
      DigitsValue(ds[..|ds| - 1], radix) * radix + DigitValue(ds[|ds| - 1])
  }

  /** `parseInt(s)`: skips leading whitespace, reads an optional sign, then an
      unsigned number; None stands for NaN (no digit at all). */
  function ParseInt(s: string): Option<int>
  {
    var t := TrimStart(s);
    if t != [] && t[0] == '-' then
      match ParseUnsigned(t[1..])
      case Some(v) => Some(-v)
      case None => None
    else if t != [] && t[0] == '+' then ParseUnsigned(t[1..])
    else ParseUnsigned(t)
  }

  /** The unsigned part of `parseInt`: radix 16 after a `0x`/`0X` prefix, radix 10 otherwise. */
  function ParseUnsigned(u: string): Option<int>
  {
    if |u| >= 2 && u[0] == '0' && (u[1] == 'x' || u[1] == 'X') then DigitRun(u[2..], 16)
    else DigitRun(u, 10)
  }

  /** The value of the longest leading run of digits, or None when there is no digit. */
  function DigitRun(body: string, radix: nat): Option<int>
    requires radix == 10 || radix == 16
  {
    var ds := LeadingDigits(body, radix);
    if ds == [] then None else Some(DigitsValue(ds, radix))
  }

  /** A run of decimal digits standing alone parses to its decimal value. */
  lemma ParseDecimal(ds: string)
    requires ds != []
    requires forall k :: 0 <= k < |ds| ==> IsDecDigit(ds[k])
    ensures ParseInt(ds) == Some(DigitsValue(ds, 10))
  {
    assert !IsJsSpace(ds[0]) by { assert IsDecDigit(ds[0]); }
    assert TrimStart(ds) == ds;
    assert ParseUnsigned(ds) == DigitRun(ds, 10) by {
      if |ds| >= 2 { assert IsDecDigit(ds[1]); }
    }
    AllDigitsLead(ds, 10);
  }

  /** A string made only of digits is its own leading digit run. */
  lemma {:induction false} AllDigitsLead(ds: string, radix: nat)
    requires forall k :: 0 <= k < |ds| ==> IsDigitOf(ds[k], radix)
    ensures LeadingDigits(ds, radix) == ds
  {
    if ds != [] {
      AllDigitsLead(ds[1..], radix);
    }
  }

  // ---------------------------------------------------------------------------
  // Number to string (template literal `${n}` for an integer)
  // ---------------------------------------------------------------------------

  function DigitChar(d: nat): (c: char)
    requires d < 10
    ensures IsDecDigit(c) && DigitValue(c) == d
  {
    ('0' as int + d) as char
  }

  /** The decimal digits of `n` without leading zeros. */
  function NatToString(n: nat): (s: string)
    ensures s != []
    ensures n == 0 ==> s == "0"
    ensures n > 0 ==> s[0] != '0'
    ensures forall k :: 0 <= k < |s| ==> IsDecDigit(s[k])
    ensures DigitsValue(s, 10) == n
  {
    if n < 10 then [DigitChar(n)]
    else
      var s := NatToString(n / 10) + [DigitChar(n % 10)];
      assert s[..|s| - 1] == NatToString(n / 10);
      s
  }

  /** `${n}` for an integer `n`. */
  function IntToString(n: int): (s: string)
    ensures n >= 0 ==> ParseInt(s) == Some(n)
    ensures n >= 0 ==> (s[0] == '0' <==> n == 0) && (n == 0 ==> s == "0")
    ensures n < 0 ==> s == "-" + NatToString(-n) && s[1] != '0'
  {
    if n >= 0 then ParseDecimal(NatToString(n)); NatToString(n) else "-" + NatToString(-n)
  }
}
