/** The two encodings of text typed on a device: `%` and space for the command
    that types, and quotes for the shell between. The shell is read by the rules
    of POSIX.1-2017, Shell Command Language, sections 2.2.1 to 2.2.3 and 2.3.
  */
module Quoting {
  import opened Options

  // ---- what the driver writes ----

  /** `replace` of one character. */
  function Replace(s: string, c: char, with: string): string
  {
    if s == [] then [] else (if s[0] == c then with else [s[0]]) + Replace(s[1..], c, with)
  }

  function Encoded(value: string): string
  {
    Replace(Replace(value, '%', "%%"), ' ', "%s")
  }

  function Quoted(value: string): string
  {
    "'" + Replace(Encoded(value), '\'', "'\"'\"'") + "'"
  }

  // ---- what the shell reads ----

  datatype Mode = Unquoted | Single | Double

  predicate Blank(c: char) { c == ' ' || c == '\t' }

  /** Characters that, unquoted, mean something other than themselves. */
  predicate Special(c: char)
  {
    c in {'|', '&', ';', '<', '>', '(', ')', '$', '`', '*', '?', '[', ']', '#', '~', '=', '%', '!', '{', '}', '\n'}
  }

  /** A quoted character joins the word being read; so does an empty quotation. */
  function Joined(word: Option<string>, more: string): Option<string>
  {
    Some((if word.Some? then word.value else "") + more)
  }

  function Ended(words: seq<string>, word: Option<string>): seq<string>
  {
    if word.Some? then words + [word.value] else words
  }

  /** The words of a line, read from a state of the reader; nothing when a
      quotation does not end, or the line asks for more than quoting. */
  function ReadWords(line: string, mode: Mode, words: seq<string>, word: Option<string>): Option<seq<string>>
  {
    if line == [] then
      if mode.Unquoted? then Some(Ended(words, word)) else None
    else
      var c, rest := line[0], line[1..];
      match mode
      case Single =>
        // 2.2.2: every character stands for itself, and the quote ends it
        if c == '\'' then ReadWords(rest, Unquoted, words, word) else ReadWords(rest, Single, words, Joined(word, [c]))
      case Double =>
        // 2.2.3: so it does here, but for `$`, the backquote and the backslash
        if c == '"' then ReadWords(rest, Unquoted, words, word)
        else if c == '$' || c == '`' then None
        else if c == '\\' then
          if rest == [] then None
          else if rest[0] in {'$', '`', '"', '\\'} then ReadWords(rest[1..], Double, words, Joined(word, [rest[0]]))
          else if rest[0] == '\n' then ReadWords(rest[1..], Double, words, word)
          else ReadWords(rest, Double, words, Joined(word, [c]))
        else ReadWords(rest, Double, words, Joined(word, [c]))
      case Unquoted =>
        if c == '\'' then ReadWords(rest, Single, words, Joined(word, ""))
        else if c == '"' then ReadWords(rest, Double, words, Joined(word, ""))
        else if c == '\\' then
          // 2.2.1: the next character stands for itself
          if rest == [] then None
          else if rest[0] == '\n' then ReadWords(rest[1..], Unquoted, words, word)
          else ReadWords(rest[1..], Unquoted, words, Joined(word, [rest[0]]))
        else if Blank(c) then ReadWords(rest, Unquoted, Ended(words, word), None)
        else if Special(c) then None
        else ReadWords(rest, Unquoted, words, Joined(word, [c]))
  }

  // ---- typed text survives quoting ----

  lemma JoinAgain(word: Option<string>, a: string, b: string)
    ensures Joined(Joined(word, a), b) == Joined(word, a + b)
  {
    var w := if word.Some? then word.value else "";
    assert w + a + b == w + (a + b);
  }

  lemma JoinNothing(word: Option<string>)
    ensures word.Some? ==> Joined(word, "") == word
    ensures word.None? ==> Joined(word, "") == Some("")
  {
    if word.Some? {
      assert word.value + "" == word.value;
    } else {
      assert "" + "" == "";
    }
  }

  lemma Unroll(line: string, mode: Mode, words: seq<string>, word: Option<string>, c: char, rest: string)
    requires line == [c] + rest
    ensures mode.Single? && c != '\'' ==> ReadWords(line, mode, words, word) == ReadWords(rest, Single, words, Joined(word, [c]))
    ensures mode.Single? && c == '\'' ==> ReadWords(line, mode, words, word) == ReadWords(rest, Unquoted, words, word)
    ensures mode.Unquoted? && c == '\'' ==> ReadWords(line, mode, words, word) == ReadWords(rest, Single, words, Joined(word, ""))
    ensures mode.Unquoted? && c == '"' ==> ReadWords(line, mode, words, word) == ReadWords(rest, Double, words, Joined(word, ""))
    ensures mode.Double? && c == '"' ==> ReadWords(line, mode, words, word) == ReadWords(rest, Unquoted, words, word)
    ensures mode.Double? && c == '\'' ==> ReadWords(line, mode, words, word) == ReadWords(rest, Double, words, Joined(word, [c]))
  {
    assert line[0] == c && line[1..] == rest;
  }

  /** Ending the quotation, quoting one quote another way, and going on is the
      same as the quote itself. */
  lemma QuoteInside(words: seq<string>, word: Option<string>, rest: string)
    requires word.Some?
    ensures ReadWords("'\"'\"'" + rest, Single, words, word) == ReadWords(rest, Single, words, Joined(word, "'"))
  {
    Unroll("'\"'\"'" + rest, Single, words, word, '\'', "\"'\"'" + rest);
    Unroll("\"'\"'" + rest, Unquoted, words, word, '"', "'\"'" + rest);
    Unroll("'\"'" + rest, Double, words, word, '\'', "\"'" + rest);
    Unroll("\"'" + rest, Double, words, Joined(word, "'"), '"', "'" + rest);
    Unroll("'" + rest, Unquoted, words, Joined(word, "'"), '\'', rest);
    JoinNothing(word);
    JoinNothing(Joined(word, "'"));
  }

  lemma {:induction false} QuotedBody(text: string, words: seq<string>, word: Option<string>, rest: string)
    requires word.Some?
    ensures ReadWords(Replace(text, '\'', "'\"'\"'") + "'" + rest, Single, words, word)
         == ReadWords(rest, Unquoted, words, Joined(word, text))
  {
    var body := Replace(text, '\'', "'\"'\"'");
    if text == [] {
      Unroll(body + "'" + rest, Single, words, word, '\'', rest);
      JoinNothing(word);
    } else {
      var tail := Replace(text[1..], '\'', "'\"'\"'") + "'" + rest;
      JoinAgain(word, [text[0]], text[1..]);
      assert [text[0]] + text[1..] == text;
      QuotedBody(text[1..], words, Joined(word, [text[0]]), rest);
      if text[0] == '\'' {
        assert body + "'" + rest == "'\"'\"'" + tail;
        QuoteInside(words, word, tail);
      } else {
        assert body + "'" + rest == [text[0]] + tail;
        Unroll(body + "'" + rest, Single, words, word, text[0], tail);
      }
    }
  }

  /** Wherever it stands on a line, the quoted text starts one word, which is the
      encoded text and goes on with whatever follows up to a blank. */
  lemma QuotedIsOneWord(value: string, words: seq<string>, rest: string)
    ensures ReadWords(Quoted(value) + rest, Unquoted, words, None) == ReadWords(rest, Unquoted, words, Some(Encoded(value)))
    ensures rest == "" ==> ReadWords(Quoted(value) + rest, Unquoted, words, None) == Some(words + [Encoded(value)])
    ensures rest != "" && Blank(rest[0]) ==>
      ReadWords(Quoted(value) + rest, Unquoted, words, None) == ReadWords(rest[1..], Unquoted, words + [Encoded(value)], None)
  {
    var body := Replace(Encoded(value), '\'', "'\"'\"'") + "'" + rest;
    assert Quoted(value) + rest == ['\''] + body;
    Unroll(Quoted(value) + rest, Unquoted, words, None, '\'', body);
    JoinNothing(None);
    QuotedBody(Encoded(value), words, Some(""), rest);
    assert "" + Encoded(value) == Encoded(value);
  }

  /** A word that needs no quotes. */
  predicate Ordinary(text: string)
  {
    forall c :: c in text ==> !Blank(c) && !Special(c) && c !in {'\'', '"', '\\'}
  }

  lemma Letters(text: string)
    requires forall i :: 0 <= i < |text| ==> 'a' <= text[i] <= 'z'
    ensures Ordinary(text)
  {}

  lemma {:induction false} OrdinaryWord(text: string, words: seq<string>, word: Option<string>, rest: string)
    requires Ordinary(text) && (text != "" || word.Some?)
    ensures ReadWords(text + " " + rest, Unquoted, words, word) == ReadWords(rest, Unquoted, words + [Joined(word, text).value], None)
  {
    var line := text + " " + rest;
    if text == "" {
      assert line == [' '] + rest && line[1..] == rest;
      assert word.value + "" == word.value;
    } else {
      assert line == [text[0]] + (text[1..] + " " + rest) && line[1..] == text[1..] + " " + rest;
      assert text[0] in text && forall c :: c in text[1..] ==> c in text;
      OrdinaryWord(text[1..], words, Joined(word, [text[0]]), rest);
      JoinAgain(word, [text[0]], text[1..]);
      assert [text[0]] + text[1..] == text;
    }
  }

  // ---- and the encoding ----

  /** `%%` for a percent sign and `%s` for a space, and no other escape. */
  function Decode(s: string): Option<string>
  {
    if s == [] then Some("")
    else if s[0] == '%' then
      if |s| < 2 || (s[1] != '%' && s[1] != 's') then None
      else
        match Decode(s[2..])
        case None => None
        case Some(rest) => Some((if s[1] == '%' then "%" else " ") + rest)
    else
      match Decode(s[1..])
      case None => None
      case Some(rest) => Some([s[0]] + rest)
  }

  /** One character, encoded. */
  function EncodedChar(c: char): string { if c == '%' then "%%" else if c == ' ' then "%s" else [c] }

  lemma {:induction false} ReplaceJoins(a: string, b: string, c: char, with: string)
    ensures Replace(a + b, c, with) == Replace(a, c, with) + Replace(b, c, with)
  {
    if a == [] {
      assert a + b == b;
    } else {
      assert (a + b)[1..] == a[1..] + b;
      ReplaceJoins(a[1..], b, c, with);
    }
  }

  /** The two replacements do not disturb each other. */
  lemma EncodedUnfold(value: string)
    requires value != []
    ensures Encoded(value) == EncodedChar(value[0]) + Encoded(value[1..])
  {
    var c := value[0];
    var first := if c == '%' then "%%" else [c];
    ReplaceJoins(first, Replace(value[1..], '%', "%%"), ' ', "%s");
    assert Replace(first, ' ', "%s") == EncodedChar(c) by {
      assert first[1..] == if c == '%' then "%" else "";
      assert Replace("%", ' ', "%s") == "%" + Replace("%"[1..], ' ', "%s");
    }
  }

  /** The encoded text decodes to the text, and holds no space for a shell to
      split it at. */
  lemma {:induction false} EncodedDecodes(value: string)
    ensures Decode(Encoded(value)) == Some(value)
    ensures ' ' !in Encoded(value)
  {
    if value != [] {
      var rest := Encoded(value[1..]);
      EncodedUnfold(value);
      EncodedDecodes(value[1..]);
      var s := EncodedChar(value[0]) + rest;
      if value[0] == '%' || value[0] == ' ' {
        assert s[2..] == rest;
      } else {
        assert s[1..] == rest;
      }
      assert [value[0]] + value[1..] == value;
    }
  }

  /** The line the shell on the device is given. */
  function TypingLine(value: string): string
  {
    "input" + " " + ("text" + " " + Quoted(value))
  }

  /** Typed text survives: of the line the shell makes a command, its verb and one
      word, and that decodes to what was to be typed. */
  lemma TypedTextSurvives(value: string)
    ensures ReadWords(TypingLine(value), Unquoted, [], None) == Some(["input", "text", Encoded(value)])
    ensures Decode(Encoded(value)) == Some(value)
  {
    Letters("input");
    Letters("text");
    OrdinaryWord("input", [], None, "text" + " " + Quoted(value));
    OrdinaryWord("text", [] + ["input"], None, Quoted(value));
    QuotedIsOneWord(value, ["input", "text"], "");
    assert Quoted(value) + "" == Quoted(value);
    assert "" + "input" == "input" && "" + "text" == "text";
    assert ([] + ["input"]) + ["text"] == ["input", "text"] && ["input", "text"] + [Encoded(value)] == ["input", "text", Encoded(value)];
    EncodedDecodes(value);
  }
}
