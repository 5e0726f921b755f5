/** The JavaScript string operations the application relies on, with the
    semantics the ECMAScript library gives them: `toLowerCase` (on ASCII
    letters), `trim`, `startsWith`, `includes`, `split` on a one-character
    separator, `join`, the default `sort` comparison, and the decimal rendering
    of a non-negative integer in a template literal. */
module JsString {
  import opened Wrappers

  /** JavaScript truthiness of a `string | null | undefined`: present and
      non-empty. */
  predicate Present(s: Option<string>) {
    s.Some? && s.value != ""
  }

  /** `s || null`: a falsy string becomes null, a truthy one is kept. */
  function OrNull(s: Option<string>): (r: Option<string>)
    ensures r.None? <==> !Present(s)
    ensures r.Some? ==> r == s && r.value != ""
  {
    if Present(s) then s else None
  }

  // ---------------------------------------------------------------- case

  /** `toLowerCase` on one character: A-Z become a-z, everything else is kept. */
  function LowerChar(c: char): char {
    if 'A' <= c <= 'Z' then (c as int + 32) as char else c
  }

  /** `s.toLowerCase()`. */
  function Lower(s: string): (r: string)
    ensures |r| == |s|
  {
    seq(|s|, i requires 0 <= i < |s| => LowerChar(s[i]))
  }

  /** No upper-case ASCII letter occurs in `s`. */
  predicate IsLowerCase(s: string) {
    forall i :: 0 <= i < |s| ==> !('A' <= s[i] <= 'Z')
  }

  /** The result of `toLowerCase` is lower case, and lower-casing it again
      changes nothing. */
  lemma LowerIsLowerCase(s: string)
    ensures IsLowerCase(Lower(s))
    ensures Lower(Lower(s)) == Lower(s)
  {
  }

  /** A lower-case string is its own `toLowerCase`. */
  lemma LowerOfLowerCase(s: string)
    requires IsLowerCase(s)
    ensures Lower(s) == s
  {
  }

  /** `toLowerCase` distributes over concatenation. */
  lemma LowerConcat(a: string, b: string)
    ensures Lower(a + b) == Lower(a) + Lower(b)
  {
  }

  // ------------------------------------------------------------ whitespace

  /** The ECMAScript WhiteSpace and LineTerminator code points: what `trim`
      removes. */
  predicate IsJsWhitespace(c: char) {
    c == '\t' || c == '\n' || c == '\U{000B}' || c == '\U{000C}' || c == '\r' || c == ' '
    || c == '\U{00A0}' || c == '\U{1680}' || ('\U{2000}' <= c <= '\U{200A}')
    || c == '\U{2028}' || c == '\U{2029}' || c == '\U{202F}' || c == '\U{205F}'
    || c == '\U{3000}' || c == '\U{FEFF}'
  }

  /** The index of the first character at or after `i` that is not
      whitespace, or `|s|` when there is none. */
  function SkipLeading(s: string, i: nat): (j: nat)
    requires i <= |s|
    ensures i <= j <= |s|
    ensures j < |s| ==> !IsJsWhitespace(s[j])
    ensures forall k :: i <= k < j ==> IsJsWhitespace(s[k])
    decreases |s| - i
  {
    if i < |s| && IsJsWhitespace(s[i]) then SkipLeading(s, i + 1) else i
  }

  /** The end of `s[..j]` once its trailing whitespace is dropped. */
  function SkipTrailing(s: string, j: nat): (i: nat)
    requires j <= |s|
    ensures i <= j
    ensures i > 0 ==> !IsJsWhitespace(s[i - 1])
    ensures forall k :: i <= k < j ==> IsJsWhitespace(s[k])
  {
    if j > 0 && IsJsWhitespace(s[j - 1]) then SkipTrailing(s, j - 1) else j
  }

  /** `trimStart`. */
  function TrimStart(s: string): (r: string)
    ensures |r| <= |s|
    ensures r == s[|s| - |r|..]
    ensures r != [] ==> !IsJsWhitespace(r[0])
    ensures forall i :: 0 <= i < |s| - |r| ==> IsJsWhitespace(s[i])
  {
    s[SkipLeading(s, 0)..]
  }

  /** `trimEnd`. */
  function TrimEnd(s: string): (r: string)
    ensures |r| <= |s|
    ensures r == s[..|r|]
    ensures r != [] ==> !IsJsWhitespace(r[|r| - 1])
    ensures forall i :: |r| <= i < |s| ==> IsJsWhitespace(s[i])
  {
    s[..SkipTrailing(s, |s|)]
  }

  /** `s.trim()`. */
  function Trim(s: string): (r: string) {
    TrimEnd(TrimStart(s))
  }

  /** `s` neither starts nor ends with whitespace. */
  predicate IsTrimmed(s: string) {
    s == [] || (!IsJsWhitespace(s[0]) && !IsJsWhitespace(s[|s| - 1]))
  }

  /** `trim` leaves no whitespace at either end, removes only whitespace, and
      gives "" exactly for all-whitespace input. */
  lemma TrimSpec(s: string)
    ensures IsTrimmed(Trim(s))
    ensures |Trim(s)| <= |s|
    ensures Trim(s) == "" <==> forall i :: 0 <= i < |s| ==> IsJsWhitespace(s[i])
  {
    var a := TrimStart(s);
    var r := TrimEnd(a);
    if r != [] {
      assert r[0] == a[0];
    }
    if r == "" {
      assert a == [];
    }
  }

  /** A trimmed string is still trimmed after `toLowerCase` (no letter is
      whitespace). */
  lemma LowerKeepsTrimmed(s: string)
    requires IsTrimmed(s)
    ensures IsTrimmed(Lower(s))
  {
  }

  // ------------------------------------------------------- prefix / infix

  /** `s.startsWith(p)`. */
  predicate StartsWith(s: string, p: string) {
    |p| <= |s| && s[..|p|] == p
  }

  /** `s.includes(t)`: `t` occurs in `s` at some position. */
  predicate Includes(s: string, t: string)
    decreases |s|
  {
    StartsWith(s, t) || (|s| > 0 && Includes(s[1..], t))
  }

  /** Every string includes the empty string, and itself. */
  lemma IncludesTrivial(s: string)
    ensures Includes(s, "") && Includes(s, s)
  {
  }

  /** `includes` finds `t` wherever it occurs. */
  lemma {:induction false} IncludesInfix(a: string, t: string, b: string)
    ensures Includes(a + t + b, t)
    decreases |a|
  {
    if a == [] {
      assert (a + t + b)[..|t|] == t;
    } else {
      assert (a + t + b)[1..] == a[1..] + t + b;
      IncludesInfix(a[1..], t, b);
    }
  }

  /** A string included in `s` is no longer than `s`. */
  lemma {:induction false} IncludesLength(s: string, t: string)
    requires Includes(s, t)
    ensures |t| <= |s|
    decreases |s|
  {
    if !StartsWith(s, t) {
      IncludesLength(s[1..], t);
    }
  }

  /** A string included in a suffix is included in the whole. */
  lemma {:induction false} IncludesPrepend(a: string, b: string, t: string)
    requires Includes(b, t)
    ensures Includes(a + b, t)
    decreases |a|
  {
    if a == [] {
      assert a + b == b;
    } else {
      assert (a + b)[1..] == a[1..] + b;
      IncludesPrepend(a[1..], b, t);
    }
  }

  // --------------------------------------------------------- split / join

  /** Number of occurrences of `c` in `s`. */
  function Count(s: string, c: char): nat {
    multiset(s)[c]
  }

  /** Index of the first `c` in `s`. */
  function IndexOf(s: string, c: char): (i: nat)
    requires c in s
    ensures i < |s| && s[i] == c && c !in s[..i]
  {
    if s[0] == c then 0 else
      var j := IndexOf(s[1..], c);
      assert s[..j + 1] == [s[0]] + s[1..][..j];
      1 + j
  }

  /** `s.split(sep)` for a one-character separator: the pieces between
      consecutive separators, from left to right. */
  function Split(s: string, sep: char): (parts: seq<string>)
    ensures |parts| >= 1
    decreases |s|
  {
    if sep in s then
      var i := IndexOf(s, sep);
      [s[..i]] + Split(s[i + 1..], sep)
    else
      [s]
  }

  /** `parts.join(sep)`. */
  function Join(parts: seq<string>, sep: string): string {
    if parts == [] then ""
    else if |parts| == 1 then parts[0]
    else parts[0] + sep + Join(parts[1..], sep)
  }

  /** A joined string starts with its first piece. */
  lemma JoinStartsWithFirst(parts: seq<string>, sep: string)
    requires |parts| >= 1
    ensures StartsWith(Join(parts, sep), parts[0])
  {
    if |parts| > 1 {
      assert (parts[0] + sep + Join(parts[1..], sep))[..|parts[0]|] == parts[0];
    }
  }

  /** Every piece occurs in the joined string. */
  lemma {:induction false} JoinIncludesEach(parts: seq<string>, sep: string, k: nat)
    requires k < |parts|
    ensures Includes(Join(parts, sep), parts[k])
    decreases |parts|
  {
    if |parts| == 1 {
      IncludesTrivial(parts[0]);
    } else if k == 0 {
      var rest := sep + Join(parts[1..], sep);
      IncludesInfix("", parts[0], rest);
      assert "" + parts[0] + rest == Join(parts, sep);
    } else {
      JoinIncludesEach(parts[1..], sep, k - 1);
      IncludesPrepend(parts[0] + sep, Join(parts[1..], sep), parts[k]);
      assert parts[0] + sep + Join(parts[1..], sep) == (parts[0] + sep) + Join(parts[1..], sep);
    }
  }

  /** Splitting a string that starts with a separator-free piece followed by
      the separator yields that piece, then the split of the rest. */
  lemma SplitCons(a: string, sep: char, b: string)
    requires sep !in a
    ensures Split(a + [sep] + b, sep) == [a] + Split(b, sep)
  {
    var s := a + [sep] + b;
    assert s[..|a|] == a;
    assert s[|a|] == sep;
    var i := IndexOf(s, sep);
    assert i == |a| by {
      assert i <= |a| by {
        assert s[..i] != [] ==> s[..i][..|a|] == a;
      }
    }
    assert s[i + 1..] == b;
  }

  /** Three separator-free pieces joined by single separators split back
      into those pieces. */
  lemma SplitThree(w: string, a: string, b: string, sep: char)
    requires sep !in w && sep !in a && sep !in b
    ensures Split(w + [sep] + (a + [sep] + b), sep) == [w, a, b]
  {
    SplitCons(a, sep, b);
    SplitCons(w, sep, a + [sep] + b);
  }

  /** `split` yields one more piece than there are separators. */
  lemma {:induction false} SplitCount(s: string, sep: char)
    ensures |Split(s, sep)| == Count(s, sep) + 1
    decreases |s|
  {
    if sep in s {
      var i := IndexOf(s, sep);
      var rest := s[i + 1..];
      SplitCount(rest, sep);
      assert s == s[..i] + [sep] + rest;
      assert multiset(s) == multiset(s[..i]) + multiset([sep]) + multiset(rest);
    } else {
      assert multiset(s)[sep] == 0;
    }
  }

  /** No piece of a split contains the separator. */
  lemma {:induction false} SplitPiecesFree(s: string, sep: char)
    ensures forall k :: 0 <= k < |Split(s, sep)| ==> sep !in Split(s, sep)[k]
    decreases |s|
  {
    if sep in s {
      SplitPiecesFree(s[IndexOf(s, sep) + 1..], sep);
    }
  }

  /** Joining the pieces of a split with the separator gives back the
      string. */
  lemma {:induction false} JoinSplit(s: string, sep: char)
    ensures Join(Split(s, sep), [sep]) == s
    decreases |s|
  {
    if sep in s {
      var i := IndexOf(s, sep);
      var a, rest := s[..i], s[i + 1..];
      assert s == a + [sep] + rest;
      calc {
        Join(Split(s, sep), [sep]);
        { SplitCons(a, sep, rest); }
        Join([a] + Split(rest, sep), [sep]);
        { JoinCons(a, Split(rest, sep), [sep]); }
        a + [sep] + Join(Split(rest, sep), [sep]);
        { JoinSplit(rest, sep); }
        a + [sep] + rest;
      }
    }
  }

  /** Joining a list with a first piece. */
  lemma JoinCons(a: string, parts: seq<string>, sep: string)
    requires |parts| >= 1
    ensures Join([a] + parts, sep) == a + sep + Join(parts, sep)
  {
    assert ([a] + parts)[1..] == parts;
  }

  /** The first piece of a split is the text before the first separator. */
  lemma SplitHead(s: string, sep: char)
    ensures sep !in s ==> Split(s, sep)[0] == s
    ensures sep in s ==> Split(s, sep)[0] == s[..IndexOf(s, sep)]
  {
  }

  /** `toLowerCase` applied to every piece. */
  function LowerAll(parts: seq<string>): (r: seq<string>)
    ensures |r| == |parts|
  {
    seq(|parts|, k requires 0 <= k < |parts| => Lower(parts[k]))
  }

  /** Lower-casing around a separator that is not an upper-case letter. */
  lemma LowerAround(a: string, sep: char, b: string)
    requires !('A' <= sep <= 'Z')
    ensures Lower(a + [sep] + b) == Lower(a) + [sep] + Lower(b)
  {
  }

  /** Lower-casing cannot create a separator that is not a letter. */
  lemma LowerAvoids(a: string, sep: char)
    requires sep !in a && !('A' <= sep <= 'Z') && !('a' <= sep <= 'z')
    ensures sep !in Lower(a)
  {
    forall k | 0 <= k < |a| ensures Lower(a)[k] != sep {
      assert a[k] != sep;
    }
  }

  /** Splitting commutes with `toLowerCase` when the separator is not a
      letter. */
  lemma {:induction false} SplitLower(s: string, sep: char)
    requires !('A' <= sep <= 'Z') && !('a' <= sep <= 'z')
    ensures Split(Lower(s), sep) == LowerAll(Split(s, sep))
    decreases |s|
  {
    if sep in s {
      var i := IndexOf(s, sep);
      var a, b := s[..i], s[i + 1..];
      assert s == a + [sep] + b;
      SplitLower(b, sep);
      SplitLowerCons(a, sep, b);
    } else {
      LowerAvoids(s, sep);
      assert LowerAll([s]) == [Lower(s)];
    }
  }

  /** The inductive step of `SplitLower`: a separator-free piece in front. */
  lemma SplitLowerCons(a: string, sep: char, b: string)
    requires !('A' <= sep <= 'Z') && !('a' <= sep <= 'z') && sep !in a
    requires Split(Lower(b), sep) == LowerAll(Split(b, sep))
    ensures Split(Lower(a + [sep] + b), sep) == LowerAll(Split(a + [sep] + b, sep))
  {
    calc {
      Split(Lower(a + [sep] + b), sep);
      { LowerAround(a, sep, b); }
      Split(Lower(a) + [sep] + Lower(b), sep);
      { LowerAvoids(a, sep); SplitCons(Lower(a), sep, Lower(b)); }
      [Lower(a)] + Split(Lower(b), sep);
      [Lower(a)] + LowerAll(Split(b, sep));
      { LowerAllCons(a, Split(b, sep)); }
      LowerAll([a] + Split(b, sep));
      { SplitCons(a, sep, b); }
      LowerAll(Split(a + [sep] + b, sep));
    }
  }

  /** `LowerAll` of a list with a first piece. */
  lemma LowerAllCons(a: string, parts: seq<string>)
    ensures LowerAll([a] + parts) == [Lower(a)] + LowerAll(parts)
  {
  }

  // ------------------------------------------------------------ ordering

  /** The default `Array.prototype.sort` comparison: `a` sorts no later than
      `b` (lexicographic on character codes). */
  predicate Precedes(a: string, b: string)
    decreases |a|
  {
    a == [] || (b != [] && (a[0] < b[0] || (a[0] == b[0] && Precedes(a[1..], b[1..]))))
  }

  /** The comparison is total and antisymmetric, so sorting two strings gives
      a result that does not depend on their original order. */
  lemma {:induction false} PrecedesTotalOrder(a: string, b: string)
    ensures Precedes(a, b) || Precedes(b, a)
    ensures Precedes(a, b) && Precedes(b, a) ==> a == b
    decreases |a|
  {
    if a != [] && b != [] && a[0] == b[0] {
      PrecedesTotalOrder(a[1..], b[1..]);
      if Precedes(a, b) && Precedes(b, a) {
        assert a == [a[0]] + a[1..] && b == [b[0]] + b[1..];
      }
    }
  }

  // ------------------------------------------------------------- numbers

  /** The character of one decimal digit. */
  function DigitChar(d: nat): char
    requires d < 10
  {
    ('0' as int + d) as char
  }

  /** `${n}` for a non-negative integer: its decimal digits. */
  function NatToString(n: nat): (r: string)
    ensures |r| >= 1
    ensures forall i :: 0 <= i < |r| ==> '0' <= r[i] <= '9'
  {
    if n < 10 then [DigitChar(n)] else NatToString(n / 10) + [DigitChar(n % 10)]
  }

  /** The number a string of decimal digits denotes. */
  function DigitsValue(s: string): nat
    requires forall i :: 0 <= i < |s| ==> '0' <= s[i] <= '9'
  {
    if s == [] then 0 else 10 * DigitsValue(s[..|s| - 1]) + (s[|s| - 1] as int - '0' as int)
  }

  /** Reading back the rendered digits gives the number: the rendering loses
      nothing. */
  lemma {:induction false} NatToStringRoundTrip(n: nat)
    ensures DigitsValue(NatToString(n)) == n
  {
    var s := NatToString(n);
    if n >= 10 {
      NatToStringRoundTrip(n / 10);
      assert s[..|s| - 1] == NatToString(n / 10);
    }
  }
}
