/**
 * The command-text tokenizer of utils/CommandUtils.java: whether a message is a
 * command, its command word and its arguments, after gluing normalisation
 * ("/+2" is read as "/+ 2", "/+Alice" as "/+ Alice").
 */
module CommandUtils {
  import opened Wrappers
  import opened JavaText

  /** isCommand: a non-null, non-blank text whose trimmed form starts with "/". */
  function IsCommand(messageText: Option<string>): bool {
    if messageText.None? || IsBlank(messageText.value) then false
    else Trim(messageText.value)[0] == '/'
  }

  /** The first character of `s` above U+0020 is `c`. */
  ghost predicate FirstVisibleIs(s: string, c: char) {
    exists i :: 0 <= i < |s| && s[i] == c && forall k :: 0 <= k < i ==> IsTrimmable(s[k])
  }

  /** A text is a command exactly when its first character above U+0020 is '/'. */
  lemma IsCommandIff(messageText: Option<string>)
    ensures IsCommand(messageText) <==> messageText.Some? && FirstVisibleIs(messageText.value, '/')
  {
    if messageText.Some? {
      var s := messageText.value;
      var j := TrimIsInfix(s);
      var t := Trim(s);
      if IsCommand(messageText) {
        assert s[j] == '/';
      }
      if FirstVisibleIs(s, '/') {
        var i :| 0 <= i < |s| && s[i] == '/' && forall k :: 0 <= k < i ==> IsTrimmable(s[k]);
        assert !IsTrimmable(s[j]);
        assert j <= i;
        assert j >= i;
      }
    }
  }

  /** `trimmed.matches("/\\+\\d+")` (sign '+') or `trimmed.matches("/-\\d+")` (sign '-'). */
  predicate SignThenDigits(trimmed: string, sign: char) {
    |trimmed| >= 3 && trimmed[0] == '/' && trimmed[1] == sign && AllDigits(trimmed[2..])
  }

  /** `trimmed.matches("/\\+[A-Za-z].*")` (sign '+') or `trimmed.matches("/-[A-Za-z].*")` (sign '-'). */
  predicate SignThenLetter(trimmed: string, sign: char) {
    |trimmed| >= 3 && trimmed[0] == '/' && trimmed[1] == sign && IsAsciiLetter(trimmed[2])
    && NoLineTerminator(trimmed[3..])
  }

  /** A text that gluing normalisation rewrites. */
  predicate Glued(trimmed: string) {
    SignThenDigits(trimmed, '+') || SignThenDigits(trimmed, '-')
    || SignThenLetter(trimmed, '+') || SignThenLetter(trimmed, '-')
  }

  /**
   * The effect of the replaceFirst calls: in a matching text the first match of
   * the sign followed by a digit or letter is at index 1, and "$1 $2" puts one
   * space between the sign and what follows it.
   */
  function SpaceAfterSign(trimmed: string): string
    requires |trimmed| >= 2
  {
    trimmed[..2] + " " + trimmed[2..]
  }

  /** normalizeCommand. */
  function NormalizeCommand(messageText: string): (r: string)
    ensures Glued(Trim(messageText)) ==> r == SpaceAfterSign(Trim(messageText))
    ensures !Glued(Trim(messageText)) ==> r == Trim(messageText)
  {
    var trimmed := Trim(messageText);
    if SignThenDigits(trimmed, '+') then SpaceAfterSign(trimmed)
    else if SignThenDigits(trimmed, '-') then SpaceAfterSign(trimmed)
    else if SignThenLetter(trimmed, '+') then SpaceAfterSign(trimmed)
    else if SignThenLetter(trimmed, '-') then SpaceAfterSign(trimmed)
    else trimmed
  }

  /** Normalisation only inserts a space: apart from \s it is the trimmed text. */
  lemma NormalizeKeepsText(messageText: string)
    ensures RemoveSpaces(NormalizeCommand(messageText)) == RemoveSpaces(Trim(messageText))
  {
    SpaceAfterSignKeepsText(Trim(messageText));
  }

  lemma SpaceAfterSignKeepsText(trimmed: string)
    ensures |trimmed| >= 2 ==> RemoveSpaces(SpaceAfterSign(trimmed)) == RemoveSpaces(trimmed)
  {
    if |trimmed| >= 2 {
      var a, b := trimmed[..2], trimmed[2..];
      assert trimmed == a + b;
      RemoveSpacesAppend(a + " ", b);
      RemoveSpacesAppend(a, " ");
      RemoveSpacesAppend(a, b);
      assert RemoveSpaces(" ") == [];
    }
  }

  /** A string that starts and ends with a character above U+0020 is its own trim. */
  lemma TrimOfVisibleEnds(s: string)
    requires s != [] && !IsTrimmable(s[0]) && !IsTrimmable(s[|s| - 1])
    ensures Trim(s) == s
  {
    assert TrimStart(s) == s;
    assert TrimEnd(s) == s;
  }

  /** For a command, the normalised text starts with '/' and ends where the trimmed text ends. */
  lemma NormalizedCommandEnds(messageText: string)
    requires IsCommand(Some(messageText))
    ensures var n := NormalizeCommand(messageText); var t := Trim(messageText);
      n != [] && n[0] == '/' && n[|n| - 1] == t[|t| - 1]
  {
    var t := Trim(messageText);
    if Glued(t) {
      var n := SpaceAfterSign(t);
      assert n == t[..2] + " " + t[2..];
      assert n[|n| - 1] == t[|t| - 1];
    }
  }

  /** For a command, the normalised text is its own trim and is tight, so it splits cleanly. */
  lemma NormalizedCommandIsTight(messageText: string)
    requires IsCommand(Some(messageText))
    ensures Trim(NormalizeCommand(messageText)) == NormalizeCommand(messageText)
    ensures Tight(NormalizeCommand(messageText))
  {
    NormalizedCommandEnds(messageText);
    var n := NormalizeCommand(messageText);
    SpaceIsTrimmable(n[|n| - 1]);
    TrimOfVisibleEnds(n);
  }

  /** The tokens of the normalised text of a command. */
  function Tokens(messageText: string): (r: seq<string>)
    requires IsCommand(Some(messageText))
    ensures |r| >= 1 && AllWords(r)
  {
    var normalized := NormalizeCommand(messageText);
    NormalizedCommandIsTight(messageText);
    SplitTight(normalized);
    SplitWhitespace(Trim(normalized))
  }

  /** The tokens of a command hold every character of its trimmed text except \s, in order. */
  lemma TokensKeepText(messageText: string)
    requires IsCommand(Some(messageText))
    ensures Concat(Tokens(messageText)) == RemoveSpaces(Trim(messageText))
  {
    var normalized := NormalizeCommand(messageText);
    NormalizedCommandIsTight(messageText);
    SplitTight(normalized);
    NormalizeKeepsText(messageText);
  }

  /** parseCommand: the command word, or "" for a text that is not a command. */
  function ParseCommand(messageText: Option<string>): (r: string)
    ensures r == [] <==> !IsCommand(messageText)
    ensures IsCommand(messageText) ==> r[0] == '/' && NoSpace(r)
  {
    if !IsCommand(messageText) then "" else
      var t := Tokens(messageText.value);
      NormalizedCommandIsTight(messageText.value);
      SplitTightHead(NormalizeCommand(messageText.value));
      t[0]
  }

  /** parseArguments: the tokens after the command word; none for a text that is not a command. */
  function ParseArguments(messageText: Option<string>): (r: seq<string>)
    ensures !IsCommand(messageText) ==> r == []
    ensures AllWords(r)
  {
    if !IsCommand(messageText) then [] else
      var parts := Tokens(messageText.value);
      if |parts| <= 1 then [] else AllWordsTail(parts); parts[1..]
  }

  /** The command word of a command is its first token. */
  lemma CommandIsFirstToken(messageText: string)
    requires IsCommand(Some(messageText))
    ensures ParseCommand(Some(messageText)) == Tokens(messageText)[0]
  {
  }

  /** The arguments of a command are its tokens after the first. */
  lemma ArgumentsAreLaterTokens(messageText: string)
    requires IsCommand(Some(messageText))
    ensures ParseArguments(Some(messageText)) == Tokens(messageText)[1..]
  {
  }

  /**
   * The command word followed by the arguments is the whole token list, and
   * together they hold every character of the trimmed text except \s, in order.
   */
  lemma CommandThenArguments(messageText: string)
    requires IsCommand(Some(messageText))
    ensures [ParseCommand(Some(messageText))] + ParseArguments(Some(messageText)) == Tokens(messageText)
    ensures Concat([ParseCommand(Some(messageText))] + ParseArguments(Some(messageText)))
         == RemoveSpaces(Trim(messageText))
  {
    var t := Tokens(messageText);
    CommandIsFirstToken(messageText);
    ArgumentsAreLaterTokens(messageText);
    TokensKeepText(messageText);
    assert t == [t[0]] + t[1..];
  }

  /** A sign glued to digits ("/+2", "/-10") reads as the sign command with the digits as its only argument. */
  lemma GluedDigits(messageText: string, sign: char)
    requires sign == '+' || sign == '-'
    requires SignThenDigits(Trim(messageText), sign)
    ensures ParseCommand(Some(messageText)) == ['/', sign]
    ensures ParseArguments(Some(messageText)) == [Trim(messageText)[2..]]
  {
    var t := Trim(messageText);
    var digits := t[2..];
    assert !HasSpace(digits);
    GluedSplit(messageText);
  }

  /**
   * A sign glued to a letter ("/+Alice Bob") reads as the sign command
   * followed by the words of the rest of the text.
   */
  lemma GluedLetter(messageText: string, sign: char)
    requires sign == '+' || sign == '-'
    requires SignThenLetter(Trim(messageText), sign)
    ensures ParseCommand(Some(messageText)) == ['/', sign]
    ensures ParseArguments(Some(messageText)) == SplitWhitespace(Trim(messageText)[2..])
  {
    GluedSplit(messageText);
  }

  /** What follows the sign of a glued text that ends in a visible character is tight. */
  lemma GluedRestTight(t: string)
    requires Glued(t) && !IsTrimmable(t[|t| - 1])
    ensures |t| >= 3 && Tight(t[2..])
  {
    var rest := t[2..];
    assert rest[0] == t[2];
    assert rest[|rest| - 1] == t[|t| - 1];
    SpaceIsTrimmable(t[|t| - 1]);
  }

  /** A glued text is a command whose normalised form is the sign command, one space and a tight rest. */
  lemma GluedNormalized(messageText: string)
    requires Glued(Trim(messageText))
    ensures IsCommand(Some(messageText)) && |Trim(messageText)| >= 3
    ensures NormalizeCommand(messageText) == Trim(messageText)[..2] + " " + Trim(messageText)[2..]
    ensures Tight(Trim(messageText)[2..])
  {
    var t := Trim(messageText);
    GluedRestTight(t);
  }

  /** A glued text splits into the sign command and the tokens of what follows the sign. */
  lemma GluedSplit(messageText: string)
    requires Glued(Trim(messageText))
    ensures |Trim(messageText)| >= 3 && Tight(Trim(messageText)[2..])
    ensures ParseCommand(Some(messageText)) == Trim(messageText)[..2]
    ensures ParseArguments(Some(messageText)) == SplitWhitespace(Trim(messageText)[2..])
  {
    var t := Trim(messageText);
    var head, rest := t[..2], t[2..];
    GluedNormalized(messageText);
    NormalizedCommandIsTight(messageText);
    SplitAfterWord(head, rest);
    var tokens := Tokens(messageText);
    assert tokens == [head] + SplitWhitespace(rest);
    assert tokens[1..] == SplitWhitespace(rest);
  }

  /** A command that is one word and not glued has that word as its command and no arguments. */
  lemma SingleWordCommand(messageText: string)
    requires IsCommand(Some(messageText)) && !Glued(Trim(messageText)) && NoSpace(Trim(messageText))
    ensures ParseCommand(Some(messageText)) == Trim(messageText)
    ensures ParseArguments(Some(messageText)) == []
  {
    var t := Trim(messageText);
    TrimIdempotent(messageText);
    assert NormalizeCommand(messageText) == t;
    assert !HasSpace(t);
  }

  // ---------------------------------------------------------------- examples

  lemma ExampleGluedPlusDigits(messageText: string)
    requires messageText == "/+2"
    ensures ParseCommand(Some(messageText)) == "/+" && ParseArguments(Some(messageText)) == ["2"]
  {
    TrimOfVisibleEnds(messageText);
    GluedDigits(messageText, '+');
  }

  lemma ExampleNotCommand(messageText: string)
    requires messageText == "hello /test"
    ensures ParseCommand(Some(messageText)) == "" && ParseArguments(Some(messageText)) == []
    ensures ParseCommand(None) == ""
  {
    TrimOfVisibleEnds(messageText);
  }

  lemma ExampleBlankText(messageText: string)
    requires messageText == "   "
    ensures ParseCommand(Some(messageText)) == "" && ParseArguments(Some(messageText)) == []
  {
    BlankIffAllTrimmable(messageText);
  }

  lemma ExampleGluedName(messageText: string)
    requires messageText == "/+Alice Bob"
    ensures ParseCommand(Some(messageText)) == "/+"
    ensures ParseArguments(Some(messageText)) == ["Alice", "Bob"]
  {
    TrimOfVisibleEnds(messageText);
    assert SignThenLetter(messageText, '+');
    GluedLetter(messageText, '+');
    ExampleTwoNames(messageText[2..]);
  }

  lemma ExampleTwoNames(names: string)
    requires names == "Alice Bob"
    ensures SplitWhitespace(names) == ["Alice", "Bob"]
  {
    var first, second := names[..5], names[6..];
    assert names == first + " " + second;
    assert first == "Alice" && second == "Bob";
    SplitAfterWord(first, second);
    assert !HasSpace(second);
    assert SplitWhitespace(second) == [second];
  }

  lemma ExamplePlainCommand(messageText: string)
    requires messageText == "/start"
    ensures ParseCommand(Some(messageText)) == "/start" && ParseArguments(Some(messageText)) == []
  {
    TrimOfVisibleEnds(messageText);
    SingleWordCommand(messageText);
  }
}
