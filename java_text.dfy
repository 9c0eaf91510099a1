/**
 * The parts of java.lang.String and java.lang.Integer that the bot relies on:
 * trim(), isEmpty() after trim, split on "\\s+" and on a single character,
 * the character classes of the regular expressions it matches, and
 * Integer.parseInt.
 */
module JavaText {
  import opened Wrappers

  const INT_MIN: int := -0x8000_0000
  const INT_MAX: int := 0x7FFF_FFFF

  /** Java exceptions the modelled code throws or catches. */
  datatype JavaException =
    | NumberFormat                     // NumberFormatException (a subclass of IllegalArgumentException)
    | IllegalArgument(message: string) // IllegalArgumentException thrown with this message
    | NullPointer                      // a method called on null
    | IndexOutOfBounds                 // an array index past the end
    | TelegramApi(reason: string)      // TelegramApiException from the transport

  // ---------------------------------------------------------------- trim

  /** String.trim() removes leading and trailing characters at or below U+0020. */
  predicate IsTrimmable(c: char) {
    c <= ' '
  }

  /** `s` without its leading trimmable characters. */
  function TrimStart(s: string): (r: string)
    ensures |r| <= |s|
  {
    if s == [] || !IsTrimmable(s[0]) then s else TrimStart(s[1..])
  }

  /** TrimStart cuts a run of trimmable characters and stops at a visible one. */
  lemma {:induction false} TrimStartSpec(s: string)
    ensures TrimStart(s) == s[|s| - |TrimStart(s)|..]
    ensures forall k :: 0 <= k < |s| - |TrimStart(s)| ==> IsTrimmable(s[k])
    ensures TrimStart(s) == [] || !IsTrimmable(TrimStart(s)[0])
  {
    if s != [] && IsTrimmable(s[0]) {
      TrimStartSpec(s[1..]);
      forall k | 1 <= k < |s| - |TrimStart(s)| ensures IsTrimmable(s[k]) {
        assert s[k] == s[1..][k - 1];
      }
    }
  }

  /** `s` without its trailing trimmable characters. */
  function TrimEnd(s: string): (r: string)
    ensures |r| <= |s|
  {
    if s == [] || !IsTrimmable(s[|s| - 1]) then s else TrimEnd(s[..|s| - 1])
  }

  /** TrimEnd cuts a run of trimmable characters and stops at a visible one. */
  lemma {:induction false} TrimEndSpec(s: string)
    ensures TrimEnd(s) == s[..|TrimEnd(s)|]
    ensures forall k :: |TrimEnd(s)| <= k < |s| ==> IsTrimmable(s[k])
    ensures TrimEnd(s) == [] || !IsTrimmable(TrimEnd(s)[|TrimEnd(s)| - 1])
  {
    if s != [] && IsTrimmable(s[|s| - 1]) {
      TrimEndSpec(s[..|s| - 1]);
      forall k | |TrimEnd(s)| <= k < |s| - 1 ensures IsTrimmable(s[k]) {
        assert s[k] == s[..|s| - 1][k];
      }
    }
  }

  /** String.trim(). */
  function Trim(s: string): (r: string)
    ensures |r| <= |s|
    ensures r == [] || (!IsTrimmable(r[0]) && !IsTrimmable(r[|r| - 1]))
  {
    var t := TrimStart(s);
    TrimStartSpec(s);
    TrimEndSpec(t);
    var r := TrimEnd(t);
    assert r != [] ==> r[0] == t[0];
    r
  }

  /** Trim yields a contiguous piece of its input with only trimmable characters cut away. */
  lemma TrimIsInfix(s: string) returns (i: nat)
    ensures i + |Trim(s)| <= |s| && Trim(s) == s[i..i + |Trim(s)|]
    ensures forall k :: 0 <= k < i ==> IsTrimmable(s[k])
    ensures forall k :: i + |Trim(s)| <= k < |s| ==> IsTrimmable(s[k])
  {
    var t := TrimStart(s);
    TrimStartSpec(s);
    i := |s| - |t|;
    var r := TrimEnd(t);
    TrimEndSpec(t);
    assert r == t[..|r|];
    assert t == s[i..];
    forall k | i + |r| <= k < |s| ensures IsTrimmable(s[k]) {
      assert s[k] == t[k - i];
    }
  }

  /** Trim is idempotent. */
  lemma TrimIdempotent(s: string)
    ensures Trim(Trim(s)) == Trim(s)
  {
    var t := Trim(s);
    assert TrimStart(t) == t;
  }

  /** `s.trim().isEmpty()`, the source's test for a blank string. */
  predicate IsBlank(s: string) {
    Trim(s) == []
  }

  /** A string is blank exactly when every character in it is trimmable. */
  lemma BlankIffAllTrimmable(s: string)
    ensures IsBlank(s) <==> forall k :: 0 <= k < |s| ==> IsTrimmable(s[k])
  {
    var i := TrimIsInfix(s);
    if !IsBlank(s) {
      assert !IsTrimmable(s[i]);
    }
  }

  // ---------------------------------------------------------------- character classes

  /** The regular-expression class \s: [ \t\n\x0B\f\r]. */
  predicate IsSpace(c: char) {
    c == ' ' || c == '\t' || c == '\n' || c == '\U{000B}' || c == '\U{000C}' || c == '\r'
  }

  /** Every \s character is also removed by trim(). */
  lemma SpaceIsTrimmable(c: char)
    ensures IsSpace(c) ==> IsTrimmable(c)
  {
  }

  /** The regular-expression class \d (ASCII digits, the default in java.util.regex). */
  predicate IsDigit(c: char) {
    '0' <= c <= '9'
  }

  /** The regular-expression class [A-Za-z]. */
  predicate IsAsciiLetter(c: char) {
    ('A' <= c <= 'Z') || ('a' <= c <= 'z')
  }

  /** The characters that `.` does not match (no DOTALL flag). */
  predicate IsLineTerminator(c: char) {
    c == '\n' || c == '\r' || c == '\U{0085}' || c == '\U{2028}' || c == '\U{2029}'
  }

  /** `s.matches("\\d+")`. */
  predicate AllDigits(s: string) {
    |s| > 0 && forall k :: 0 <= k < |s| ==> IsDigit(s[k])
  }

  /** `s.matches(".*")`. */
  predicate NoLineTerminator(s: string) {
    forall k :: 0 <= k < |s| ==> !IsLineTerminator(s[k])
  }

  predicate NoSpace(s: string) {
    forall k :: 0 <= k < |s| ==> !IsSpace(s[k])
  }

  // ---------------------------------------------------------------- split("\\s+")

  /** The longest prefix of `s` without a \s character. */
  function Word(s: string): (r: string)
    ensures |r| <= |s|
  {
    if s == [] || IsSpace(s[0]) then [] else [s[0]] + Word(s[1..])
  }

  /** The word is a \s-free prefix that stops only at the end or before a \s character. */
  lemma {:induction false} WordSpec(s: string)
    ensures Word(s) == s[..|Word(s)|] && NoSpace(Word(s))
    ensures |Word(s)| < |s| ==> IsSpace(s[|Word(s)|])
  {
    if s != [] && !IsSpace(s[0]) {
      WordSpec(s[1..]);
      var w := Word(s);
      assert w == [s[0]] + Word(s[1..]);
      forall k | 0 <= k < |w| ensures w[k] == s[k] && !IsSpace(w[k]) {
        if k > 0 { assert w[k] == Word(s[1..])[k - 1]; }
      }
      assert |w| < |s| ==> s[|w|] == s[1..][|w| - 1];
    }
  }

  /** `s` with its leading run of \s characters removed. */
  function DropSpaces(s: string): (r: string)
    ensures |r| <= |s|
    ensures s != [] && IsSpace(s[0]) ==> |r| < |s|
  {
    if s == [] || !IsSpace(s[0]) then s else DropSpaces(s[1..])
  }

  /** DropSpaces cuts a run of \s characters and stops at another character. */
  lemma {:induction false} DropSpacesSpec(s: string)
    ensures DropSpaces(s) == s[|s| - |DropSpaces(s)|..]
    ensures forall k :: 0 <= k < |s| - |DropSpaces(s)| ==> IsSpace(s[k])
    ensures DropSpaces(s) == [] || !IsSpace(DropSpaces(s)[0])
  {
    if s != [] && IsSpace(s[0]) {
      DropSpacesSpec(s[1..]);
      forall k | 1 <= k < |s| - |DropSpaces(s)| ensures IsSpace(s[k]) {
        assert s[k] == s[1..][k - 1];
      }
    }
  }

  /** The pieces between the maximal runs of \s, empty leading and trailing pieces included. */
  function Pieces(s: string): (r: seq<string>)
    ensures |r| >= 1
    decreases |s|
  {
    var w := Word(s);
    WordSpec(s);
    if |w| == |s| then [w] else [w] + Pieces(DropSpaces(s[|w|..]))
  }

  function StripTrailingEmpty(ps: seq<string>): (r: seq<string>)
    ensures |r| <= |ps|
  {
    if ps == [] || ps[|ps| - 1] != [] then ps else StripTrailingEmpty(ps[..|ps| - 1])
  }

  /** StripTrailingEmpty keeps a prefix that ends in a non-empty piece and drops only empty ones. */
  lemma {:induction false} StripTrailingEmptySpec(ps: seq<string>)
    ensures StripTrailingEmpty(ps) == ps[..|StripTrailingEmpty(ps)|]
    ensures StripTrailingEmpty(ps) == [] || StripTrailingEmpty(ps)[|StripTrailingEmpty(ps)| - 1] != []
    ensures forall k :: |StripTrailingEmpty(ps)| <= k < |ps| ==> ps[k] == []
  {
    if ps != [] && ps[|ps| - 1] == [] {
      var front := ps[..|ps| - 1];
      StripTrailingEmptySpec(front);
      forall k | |StripTrailingEmpty(ps)| <= k < |ps| - 1 ensures ps[k] == [] {
        assert ps[k] == front[k];
      }
      assert front[..|StripTrailingEmpty(ps)|] == ps[..|StripTrailingEmpty(ps)|];
    }
  }

  predicate HasSpace(s: string) {
    exists k :: 0 <= k < |s| && IsSpace(s[k])
  }

  /**
   * `s.split("\\s+")`: with no match the result is `[s]`; otherwise the pieces
   * between separator runs, a leading empty piece kept and trailing empty ones dropped.
   */
  function SplitWhitespace(s: string): (r: seq<string>)
    ensures !HasSpace(s) ==> r == [s]
  {
    if !HasSpace(s) then [s] else StripTrailingEmpty(Pieces(s))
  }

  /** `s` without its \s characters. */
  function RemoveSpaces(s: string): (r: string)
    ensures NoSpace(r)
  {
    if s == [] then [] else (if IsSpace(s[0]) then [] else [s[0]]) + RemoveSpaces(s[1..])
  }

  function Concat(ps: seq<string>): string {
    if ps == [] then [] else ps[0] + Concat(ps[1..])
  }

  lemma {:induction false} RemoveSpacesAppend(a: string, b: string)
    ensures RemoveSpaces(a + b) == RemoveSpaces(a) + RemoveSpaces(b)
  {
    if a == [] {
      assert a + b == b;
    } else {
      assert (a + b)[0] == a[0];
      assert (a + b)[1..] == a[1..] + b;
      RemoveSpacesAppend(a[1..], b);
    }
  }

  lemma {:induction false} RemoveSpacesDrop(s: string)
    ensures RemoveSpaces(DropSpaces(s)) == RemoveSpaces(s)
  {
    if s != [] && IsSpace(s[0]) {
      RemoveSpacesDrop(s[1..]);
    }
  }

  lemma ConcatCons(w: string, ps: seq<string>)
    ensures Concat([w] + ps) == w + Concat(ps)
  {
    assert ([w] + ps)[1..] == ps;
  }

  lemma {:induction false} RemoveSpacesOfNoSpace(s: string)
    requires NoSpace(s)
    ensures RemoveSpaces(s) == s
  {
    if s != [] {
      RemoveSpacesOfNoSpace(s[1..]);
    }
  }

  lemma {:induction false} RemoveSpacesOfSpaces(s: string)
    requires forall k :: 0 <= k < |s| ==> IsSpace(s[k])
    ensures RemoveSpaces(s) == []
  {
    if s != [] {
      RemoveSpacesOfSpaces(s[1..]);
    }
  }

  /** Splitting at \s runs loses exactly the \s characters. */
  lemma {:induction false} PiecesConcat(s: string)
    ensures Concat(Pieces(s)) == RemoveSpaces(s)
    decreases |s|
  {
    var w := Word(s);
    WordSpec(s);
    RemoveSpacesOfNoSpace(w);
    if |w| == |s| {
      assert w == s;
      ConcatCons(w, []);
    } else {
      var rest := s[|w|..];
      var d := DropSpaces(rest);
      assert s == w + rest;
      DropSpacesSpec(rest);
      RemoveSpacesAppend(w, rest);
      RemoveSpacesDrop(rest);
      PiecesConcat(d);
      assert Pieces(s) == [w] + Pieces(d);
      ConcatCons(w, Pieces(d));
    }
  }

  /** A string that begins and ends with a non-\s character. */
  predicate Tight(s: string) {
    s != [] && !IsSpace(s[0]) && !IsSpace(s[|s| - 1])
  }

  predicate AllWords(ps: seq<string>) {
    forall k :: 0 <= k < |ps| ==> ps[k] != [] && NoSpace(ps[k])
  }

  /** Dropping the first token keeps the rest words. */
  lemma AllWordsTail(ps: seq<string>)
    requires ps != [] && AllWords(ps)
    ensures AllWords(ps[1..])
  {
    forall k | 0 <= k < |ps| - 1 ensures ps[1..][k] != [] && NoSpace(ps[1..][k]) {
      assert ps[1..][k] == ps[k + 1];
    }
  }

  /** The pieces of a tight string are all non-empty and free of \s. */
  lemma {:induction false} PiecesOfTight(s: string)
    requires Tight(s)
    ensures AllWords(Pieces(s))
    decreases |s|
  {
    var w := Word(s);
    WordSpec(s);
    if |w| < |s| {
      var d := TightAfterWord(s);
      PiecesOfTight(d);
      AllWordsCons(w, Pieces(d));
      assert Pieces(s) == [w] + Pieces(d);
    } else {
      assert Pieces(s) == [w];
    }
  }

  /** After the first word of a tight string with a \s in it, the rest past the \s run is tight. */
  lemma TightAfterWord(s: string) returns (d: string)
    requires Tight(s) && |Word(s)| < |s|
    ensures d == DropSpaces(s[|Word(s)|..]) && Tight(d) && |d| < |s|
  {
    WordSpec(s);
    var rest := s[|Word(s)|..];
    d := DropSpaces(rest);
    DropSpacesSpec(rest);
    assert rest[|rest| - 1] == s[|s| - 1];
    assert d != [];
    assert d[|d| - 1] == rest[|rest| - 1];
  }

  /** A word in front of a list of words gives a list of words. */
  lemma AllWordsCons(w: string, ps: seq<string>)
    requires w != [] && NoSpace(w) && AllWords(ps)
    ensures AllWords([w] + ps)
  {
    var r := [w] + ps;
    forall k | 0 <= k < |r| ensures r[k] != [] && NoSpace(r[k]) {
      if k > 0 { assert r[k] == ps[k - 1]; }
    }
  }

  /** On a tight string, split("\\s+") yields non-empty, \s-free tokens that together hold every non-\s character. */
  lemma SplitTight(s: string)
    requires Tight(s)
    ensures |SplitWhitespace(s)| >= 1
    ensures AllWords(SplitWhitespace(s))
    ensures Concat(SplitWhitespace(s)) == RemoveSpaces(s)
  {
    if HasSpace(s) {
      PiecesOfTight(s);
      PiecesConcat(s);
      var ps := Pieces(s);
      assert StripTrailingEmpty(ps) == ps;
    } else {
      RemoveSpacesOfNoSpace(s);
      ConcatCons(s, []);
    }
  }

  /** The first token of a tight string is its leading word. */
  lemma SplitTightHead(s: string)
    requires Tight(s)
    ensures |SplitWhitespace(s)| >= 1 && SplitWhitespace(s)[0] == Word(s)
  {
    if HasSpace(s) {
      PiecesOfTight(s);
      assert StripTrailingEmpty(Pieces(s)) == Pieces(s);
    } else {
      WordSpec(s);
      assert Word(s) == s;
    }
  }

  /** On a tight string split("\\s+") drops nothing: it is exactly the pieces. */
  lemma SplitTightIsPieces(s: string)
    requires Tight(s)
    ensures SplitWhitespace(s) == Pieces(s)
  {
    if HasSpace(s) {
      PiecesOfTight(s);
      assert StripTrailingEmpty(Pieces(s)) == Pieces(s);
    } else {
      WordSpec(s);
      assert Word(s) == s;
    }
  }

  /** A word, one space and a tight rest split into the word followed by the rest's tokens. */
  lemma SplitAfterWord(h: string, rest: string)
    requires h != [] && NoSpace(h) && Tight(rest)
    ensures SplitWhitespace(h + " " + rest) == [h] + SplitWhitespace(rest)
  {
    var s := h + " " + rest;
    assert s[|h|] == ' ';
    var w := Word(s);
    WordSpec(s);
    assert |w| < |s|;
    assert w == h;
    assert s[|h|..] == " " + rest;
    var d := DropSpaces(s[|h|..]);
    assert (" " + rest)[1..] == rest;
    assert DropSpaces(rest) == rest;
    assert d == rest;
    assert Pieces(s) == [h] + Pieces(rest);
    assert Tight(s) by { assert s[|s| - 1] == rest[|rest| - 1]; }
    SplitTightIsPieces(s);
    SplitTightIsPieces(rest);
  }

  // ---------------------------------------------------------------- split on one character

  function IndexOf(s: string, c: char): (r: nat)
    requires c in s
    ensures r < |s| && s[r] == c && c !in s[..r]
  {
    if s[0] == c then 0 else 1 + IndexOf(s[1..], c)
  }

  /** The pieces between the occurrences of `sep`, empty ones included. */
  function CharPieces(s: string, sep: char): (r: seq<string>)
    ensures |r| >= 1
    ensures forall k :: 0 <= k < |r| ==> sep !in r[k]
    decreases |s|
  {
    if sep !in s then [s] else
      var i := IndexOf(s, sep);
      [s[..i]] + CharPieces(s[i + 1..], sep)
  }

  /** Joins pieces with `sep` between them. */
  function Join(ps: seq<string>, sep: char): string
    requires |ps| >= 1
  {
    if |ps| == 1 then ps[0] else ps[0] + [sep] + Join(ps[1..], sep)
  }

  /** Putting the separators back gives the original text. */
  lemma {:induction false} JoinCharPieces(s: string, sep: char)
    ensures Join(CharPieces(s, sep), sep) == s
    decreases |s|
  {
    if sep in s {
      var i := IndexOf(s, sep);
      JoinCharPieces(s[i + 1..], sep);
      var ps := [s[..i]] + CharPieces(s[i + 1..], sep);
      assert ps[1..] == CharPieces(s[i + 1..], sep);
      assert s == s[..i] + [sep] + s[i + 1..];
    }
  }

  /** `s.split(String.valueOf(sep))` for a separator that is not a regular-expression metacharacter. */
  function SplitOnChar(s: string, sep: char): (r: seq<string>)
    ensures sep !in s ==> r == [s]
    ensures forall k :: 0 <= k < |r| ==> sep !in r[k]
    ensures sep in s ==> r == [] || r[|r| - 1] != []
    ensures |r| <= |CharPieces(s, sep)| && r == CharPieces(s, sep)[..|r|]
    ensures forall k :: |r| <= k < |CharPieces(s, sep)| ==> CharPieces(s, sep)[k] == []
  {
    if sep !in s then [s] else
      var ps := CharPieces(s, sep);
      StripTrailingEmptySpec(ps);
      var r := StripTrailingEmpty(ps);
      assert forall k :: 0 <= k < |r| ==> r[k] == ps[k];
      assert r == ps[..|r|];
      r
  }

  /** Two separator-free pieces around one separator split back into those two pieces. */
  lemma SplitOnCharOfTwo(a: string, b: string, sep: char)
    requires sep !in a && sep !in b && b != []
    ensures SplitOnChar(a + [sep] + b, sep) == [a, b]
  {
    CharPiecesOfTwo(a, b, sep);
  }

  /** The pieces of two separator-free texts joined by one separator. */
  lemma CharPiecesOfTwo(a: string, b: string, sep: char)
    requires sep !in a && sep !in b
    ensures CharPieces(a + [sep] + b, sep) == [a, b]
  {
    var s := a + [sep] + b;
    assert s[|a|] == sep;
    var i := IndexOf(s, sep);
    assert s[..|a|] == a;
    assert i == |a|;
    assert s[i + 1..] == b;
  }

  /** Three separator-free pieces joined by the separator split back into those three pieces. */
  lemma SplitOnCharOfThree(a: string, b: string, c: string, sep: char)
    requires sep !in a && sep !in b && sep !in c && c != []
    ensures SplitOnChar(a + [sep] + b + [sep] + c, sep) == [a, b, c]
  {
    var s := a + [sep] + b + [sep] + c;
    assert s[|a|] == sep;
    var i := IndexOf(s, sep);
    assert s[..|a|] == a;
    assert i == |a|;
    assert s[i + 1..] == b + [sep] + c;
    CharPiecesOfTwo(b, c, sep);
    assert CharPieces(s, sep) == [a, b, c];
  }

  // ---------------------------------------------------------------- Integer.parseInt

  function DigitValue(c: char): (r: nat)
    requires IsDigit(c)
    ensures r <= 9
  {
    (c as int) - ('0' as int)
  }

  /** The decimal value of a string of ASCII digits, most significant first. */
  function DigitsValue(s: string): (r: nat)
    requires forall k :: 0 <= k < |s| ==> IsDigit(s[k])
    decreases |s|
  {
    if s == [] then 0 else DigitsValue(s[..|s| - 1]) * 10 + DigitValue(s[|s| - 1])
  }

  /** The unbounded value of an optionally signed digit string, before the range check. */
  function SignedValue(s: string): Option<int> {
    if |s| >= 1 && (s[0] == '-' || s[0] == '+') then
      if AllDigits(s[1..]) then
        var v: int := DigitsValue(s[1..]); Some(if s[0] == '-' then -v else v)
      else None
    else if AllDigits(s) then Some(DigitsValue(s))
    else None
  }

  /**
   * Integer.parseInt(s): an optional sign then one or more digits, whose value
   * fits in 32 bits; anything else throws NumberFormatException (here None).
   */
  function ParseInt(s: string): (r: Option<int>)
    ensures r.Some? ==> INT_MIN <= r.value <= INT_MAX
    ensures r.Some? ==> s != [] && (IsDigit(s[0]) || s[0] == '-' || s[0] == '+')
    ensures AllDigits(s) && DigitsValue(s) <= INT_MAX ==> r == Some(DigitsValue(s))
  {
    match SignedValue(s)
    case Some(v) => if INT_MIN <= v <= INT_MAX then Some(v) else None
    case None => None
  }

  /** String.valueOf(n) for a non-negative n. */
  function NatToString(n: nat): (r: string)
    ensures AllDigits(r)
    decreases n
  {
    if n < 10 then [('0' as int + n) as char] else NatToString(n / 10) + [('0' as int + n % 10) as char]
  }

  /** String.valueOf(i) for any int. */
  function IntToString(i: int): string {
    if i < 0 then "-" + NatToString(-i) else NatToString(i)
  }

  /** Reading back the decimal text of a number gives the number. */
  lemma {:induction false} DigitsValueOfNatToString(n: nat)
    ensures DigitsValue(NatToString(n)) == n
    decreases n
  {
    if n >= 10 {
      var s := NatToString(n);
      assert s[..|s| - 1] == NatToString(n / 10);
      DigitsValueOfNatToString(n / 10);
    }
  }

  /** parseInt inverts String.valueOf on the non-negative 32-bit range. */
  lemma ParseIntOfNatToString(n: nat)
    requires n <= INT_MAX
    ensures ParseInt(NatToString(n)) == Some(n)
  {
    DigitsValueOfNatToString(n);
  }
}
