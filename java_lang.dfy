/**
 * The small part of the Java platform that the modelled code leans on:
 * 32-bit `int` arithmetic, `String.split` (regular-expression separator,
 * trailing empty strings removed), `Integer.parseInt` as a partial function,
 * `Integer.toString`, `String.trim` and `String.toLowerCase` on ASCII letters.
 */
module JavaLang {

  datatype Option<+T> = None | Some(value: T)

  /** The unchecked exceptions the modelled code can raise. */
  datatype JavaException = NullPointer | NumberFormat | IndexOutOfBounds

  /** A value, or the exception that ended the computation. */
  datatype Result<+T> = Ok(value: T) | Threw(exception: JavaException)

  /** Regrouping a concatenation, for the logs the model appends to. */
  lemma ConcatAssociative<T>(a: seq<T>, b: seq<T>, c: seq<T>)
    ensures (a + b) + c == a + (b + c)
  {
  }

  // ---------------------------------------------------------------------------
  // 32-bit two's-complement int
  // ---------------------------------------------------------------------------

  const IntMin: int := -0x8000_0000
  const IntMax: int := 0x7FFF_FFFF
  const TwoTo32: int := 0x1_0000_0000

  predicate IsInt(n: int) { IntMin <= n <= IntMax }

  /**
   * Java `int` wrap-around of an exact integer result: the one value in
   * the `int` range that differs from `n` by a multiple of 2^32.
   */
  function Wrap(n: int): (r: int)
    ensures IsInt(r)
    ensures IsInt(n) ==> r == n
    decreases if n > IntMax then n - IntMax else if n < IntMin then IntMin - n else 0
  {
    if n > IntMax then Wrap(n - TwoTo32)
    else if n < IntMin then Wrap(n + TwoTo32)
    else n
  }

  /** Wrapping changes a value by a multiple of 2^32 only. */
  lemma {:induction false} WrapCongruent(n: int)
    ensures (n - Wrap(n)) % TwoTo32 == 0
    decreases if n > IntMax then n - IntMax else if n < IntMin then IntMin - n else 0
  {
    if n > IntMax {
      WrapCongruent(n - TwoTo32);
      assert n - Wrap(n) == (n - TwoTo32 - Wrap(n - TwoTo32)) + TwoTo32;
    } else if n < IntMin {
      WrapCongruent(n + TwoTo32);
      assert n - Wrap(n) == (n + TwoTo32 - Wrap(n + TwoTo32)) - TwoTo32;
    }
  }

  // ---------------------------------------------------------------------------
  // String.split(regex) with limit 0
  // ---------------------------------------------------------------------------

  /**
   * The separators the modelled code passes to `split`: a single character
   * that is not a regular-expression metacharacter (":", " ", "=", ",", "║"),
   * and the regular expression "." which matches any character except a
   * line terminator.
   */
  datatype Separator = Literal(c: char) | AnyCharRegex

  predicate IsLineTerminator(c: char) {
    c == '\n' || c == '\r' || c == '\U{85}' || c == '\U{2028}' || c == '\U{2029}'
  }

  predicate Matches(sep: Separator, c: char) {
    match sep
    case Literal(d) => c == d
    case AnyCharRegex => !IsLineTerminator(c)
  }

  predicate HasMatch(s: string, sep: Separator) {
    exists i :: 0 <= i < |s| && Matches(sep, s[i])
  }

  /** Every piece between separator matches, empty ones included. */
  function Pieces(s: string, sep: Separator): (r: seq<string>)
    ensures |r| >= 1
  {
    if |s| == 0 then [""]
    else if Matches(sep, s[0]) then [""] + Pieces(s[1..], sep)
    else
      var rest := Pieces(s[1..], sep);
      [[s[0]] + rest[0]] + rest[1..]
  }

  /** No piece holds a character the separator matches. */
  lemma {:induction false} PiecesHoldNoMatch(s: string, sep: Separator)
    ensures forall k | 0 <= k < |Pieces(s, sep)| :: forall j | 0 <= j < |Pieces(s, sep)[k]| :: !Matches(sep, Pieces(s, sep)[k][j])
  {
    if |s| > 0 {
      var rest := Pieces(s[1..], sep);
      PiecesHoldNoMatch(s[1..], sep);
      if !Matches(sep, s[0]) {
        var first := [s[0]] + rest[0];
        assert forall j | 0 <= j < |first| :: first[j] == s[0] || first[j] == rest[0][j - 1];
      }
    }
  }

  function DropTrailingEmpty(ps: seq<string>): (r: seq<string>)
    ensures |r| <= |ps| && r == ps[..|r|]
    ensures |r| > 0 ==> r[|r| - 1] != ""
    ensures forall k | |r| <= k < |ps| :: ps[k] == ""
  {
    if |ps| > 0 && ps[|ps| - 1] == "" then DropTrailingEmpty(ps[..|ps| - 1]) else ps
  }

  /**
   * `s.split(sep)`: when nothing matches, the one-element array holding `s`
   * (even when `s` is empty); otherwise the pieces with trailing empty
   * strings removed.
   */
  function Split(s: string, sep: Separator): seq<string>
  {
    if HasMatch(s, sep) then DropTrailingEmpty(Pieces(s, sep)) else [s]
  }

  lemma {:induction false} PiecesWithoutMatch(s: string, sep: Separator)
    requires !HasMatch(s, sep)
    ensures Pieces(s, sep) == [s]
  {
    if |s| > 0 {
      assert !Matches(sep, s[0]);
      assert !HasMatch(s[1..], sep) by {
        forall i | 0 <= i < |s[1..]| ensures !Matches(sep, s[1..][i]) {
          assert s[1..][i] == s[i + 1];
        }
      }
      PiecesWithoutMatch(s[1..], sep);
      assert [s[0]] + s[1..] == s;
    }
  }

  /** Splitting `x + [c] + y` at a separator character `c` concatenates the pieces. */
  lemma {:induction false} PiecesAppend(x: string, c: char, y: string, sep: Separator)
    requires Matches(sep, c)
    ensures Pieces(x + [c] + y, sep) == Pieces(x, sep) + Pieces(y, sep)
  {
    var s := x + [c] + y;
    if |x| == 0 {
      assert s == [c] + y && s[1..] == y;
    } else {
      assert s[0] == x[0] && s[1..] == x[1..] + [c] + y;
      PiecesAppend(x[1..], c, y, sep);
      var front, back := Pieces(x[1..], sep), Pieces(y, sep);
      if Matches(sep, x[0]) {
        ConcatAssociative([""], front, back);
      } else {
        var rest := front + back;
        assert rest[0] == front[0] && rest[1..] == front[1..] + back;
        ConcatAssociative([[x[0]] + front[0]], front[1..], back);
      }
    }
  }

  /** Pieces of text with no match, joined by one separator character each. */
  function Join(parts: seq<string>, c: char): string
    requires |parts| >= 1
  {
    if |parts| == 1 then parts[0] else parts[0] + [c] + Join(parts[1..], c)
  }

  lemma {:induction false} SplitJoin(parts: seq<string>, c: char)
    requires |parts| >= 1
    requires forall k | 0 <= k < |parts| :: !HasMatch(parts[k], Literal(c))
    ensures Pieces(Join(parts, c), Literal(c)) == parts
  {
    if |parts| == 1 {
      PiecesWithoutMatch(parts[0], Literal(c));
    } else {
      var rest := Join(parts[1..], c);
      assert Pieces(Join(parts, c), Literal(c)) == Pieces(parts[0], Literal(c)) + Pieces(rest, Literal(c)) by {
        assert Join(parts, c) == parts[0] + [c] + rest;
        PiecesAppend(parts[0], c, rest, Literal(c));
      }
      assert Pieces(parts[0], Literal(c)) == [parts[0]] by {
        PiecesWithoutMatch(parts[0], Literal(c));
      }
      assert Pieces(rest, Literal(c)) == parts[1..] by {
        assert forall k | 0 <= k < |parts[1..]| :: parts[1..][k] == parts[k + 1];
        SplitJoin(parts[1..], c);
      }
      assert [parts[0]] + parts[1..] == parts;
    }
  }

  /**
   * Joining at least two parts whose last part is not empty and then
   * splitting gives the parts back.
   */
  lemma SplitOfJoin(parts: seq<string>, c: char)
    requires |parts| >= 2 && parts[|parts| - 1] != ""
    requires forall k | 0 <= k < |parts| :: !HasMatch(parts[k], Literal(c))
    ensures Split(Join(parts, c), Literal(c)) == parts
  {
    SplitJoin(parts, c);
    var s := Join(parts, c);
    assert HasMatch(s, Literal(c)) by {
      assert s == parts[0] + [c] + Join(parts[1..], c);
      assert s[|parts[0]|] == c;
    }
  }

  // ---------------------------------------------------------------------------
  // Integer.parseInt and Integer.toString
  // ---------------------------------------------------------------------------

  predicate IsDigit(c: char) { '0' <= c <= '9' }

  predicate AllDigits(s: string) { forall i | 0 <= i < |s| :: IsDigit(s[i]) }

  function DigitValue(c: char): nat
    requires IsDigit(c)
  {
    (c as int) - ('0' as int)
  }

  /** The decimal value of `s`, most significant digit first, when every character is an ASCII digit. */
  function DecimalValue(s: string): Option<nat>
  {
    if |s| == 0 then Some(0)
    else
      var front := DecimalValue(s[..|s| - 1]);
      if front.Some? && IsDigit(s[|s| - 1]) then Some(front.value * 10 + DigitValue(s[|s| - 1])) else None
  }

  /**
   * `Integer.parseInt(s)`: an optional '+' or '-', then at least one decimal
   * digit, and a value in the 32-bit range; anything else is a
   * NumberFormatException (None).
   */
  function ParseInt(s: string): (r: Option<int>)
    ensures r.Some? ==> IsInt(r.value)
  {
    if |s| == 0 then None
    else if s[0] == '-' || s[0] == '+' then
      var digits := DecimalValue(s[1..]);
      if |s| == 1 || digits.None? then None
      else
        var v: int := if s[0] == '-' then 0 - (digits.value as int) else digits.value;
        if IsInt(v) then Some(v) else None
    else
      var digits := DecimalValue(s);
      if digits.Some? && IsInt(digits.value) then Some(digits.value) else None
  }

  /** `Integer.parseInt` of a reference that may be null: null is a NumberFormatException too. */
  function ParseIntOrNull(s: Option<string>): Option<int>
  {
    match s
    case None => None
    case Some(t) => ParseInt(t)
  }

  function DigitChar(d: nat): (c: char)
    requires d < 10
    ensures IsDigit(c) && DigitValue(c) == d
  {
    ('0' as int + d) as char
  }

  function NatToString(n: nat): (s: string)
    ensures |s| >= 1 && AllDigits(s)
  {
    if n < 10 then [DigitChar(n)] else NatToString(n / 10) + [DigitChar(n % 10)]
  }

  /** `Integer.toString(n)`, which is also what `"" + n` produces. */
  function IntToString(n: int): string
  {
    if n < 0 then "-" + NatToString(-n) else NatToString(n)
  }

  lemma {:induction false} NatToStringValue(n: nat)
    ensures DecimalValue(NatToString(n)) == Some(n)
  {
    if n < 10 {
      assert NatToString(n)[..0] == [];
    } else {
      var s := NatToString(n);
      NatToStringValue(n / 10);
      assert s[..|s| - 1] == NatToString(n / 10);
    }
  }

  /** Integer.parseInt(Integer.toString(n)) == n for every Java int. */
  lemma ParseIntToString(n: int)
    requires IsInt(n)
    ensures ParseInt(IntToString(n)) == Some(n)
  {
    var s := IntToString(n);
    if n < 0 {
      var digits := NatToString(-n);
      assert s == "-" + digits && s[0] == '-' && s[1..] == digits;
      NatToStringValue(-n);
      assert DecimalValue(s[1..]) == Some(-n);
    } else {
      NatToStringValue(n);
      assert s == NatToString(n) && IsDigit(s[0]) && DecimalValue(s) == Some(n);
    }
  }

  // ---------------------------------------------------------------------------
  // String.trim and String.toLowerCase
  // ---------------------------------------------------------------------------

  /** `String.trim` removes every leading and trailing character up to U+0020. */
  predicate IsTrimmed(c: char) { c <= ' ' }

  function TrimStart(s: string): (r: string)
    ensures |r| <= |s| && r == s[|s| - |r|..]
    ensures |r| > 0 ==> !IsTrimmed(r[0])
    ensures forall i | 0 <= i < |s| - |r| :: IsTrimmed(s[i])
  {
    if |s| > 0 && IsTrimmed(s[0]) then TrimStart(s[1..]) else s
  }

  function TrimEnd(s: string): (r: string)
    ensures |r| <= |s| && r == s[..|r|]
    ensures |r| > 0 ==> !IsTrimmed(r[|r| - 1])
    ensures forall i | |r| <= i < |s| :: IsTrimmed(s[i])
  {
    if |s| > 0 && IsTrimmed(s[|s| - 1]) then TrimEnd(s[..|s| - 1]) else s
  }

  function Trim(s: string): string
  {
    TrimEnd(TrimStart(s))
  }

  function LowerChar(c: char): char
  {
    if 'A' <= c <= 'Z' then (c as int + 32) as char else c
  }

  /** `String.toLowerCase`, for the ASCII letters A to Z. */
  function ToLower(s: string): (r: string)
    ensures |r| == |s|
  {
    if |s| == 0 then "" else [LowerChar(s[0])] + ToLower(s[1..])
  }
}
