/**
 * The two bodies the greeting endpoint writes: the GET greeting built from the
 * optional `name` parameter, and the POST echo built from the request body.
 * The writer is left out; each handler is the function from its input to the
 * text it writes.
 */
module HelloServlet {
  import opened Strings

  /** The name greeted when the parameter is missing or blank. */
  const DEFAULT_NAME: string := "world !!!"

  /** The text around the escaped name in the GET body. */
  const MESSAGE_OPEN: string := "{\"message\":\"Hello, "
  const MESSAGE_CLOSE: string := "\"}"

  /** The text around the echoed body in the POST body. */
  const RECEIVED_OPEN: string := "{\"received\":"
  const RECEIVED_CLOSE: string := "}"

  /** What the POST body echoes in place of a blank request body. */
  const EMPTY_JSON_STRING: string := "\"\""

  // ---------------------------------------------------------------------------
  // GET
  // ---------------------------------------------------------------------------

  /** The name that doGet greets: the parameter, unless it is null or blank. */
  function ChooseName(name: Option<string>): (r: string)
    ensures name.None? ==> r == DEFAULT_NAME
    ensures name.Some? && IsBlank(name.value) ==> r == DEFAULT_NAME
    ensures name.Some? && !IsBlank(name.value) ==> r == name.value
    ensures !IsBlank(r)
  {
    assert DEFAULT_NAME[0] == 'w';
    if name.None? || IsBlank(name.value) then DEFAULT_NAME else name.value
  }

  /** What one character becomes in name.replace("\"", "\\\""). */
  function EscapeChar(c: char): (r: string)
    ensures 1 <= |r| <= 2
    ensures r[|r| - 1] == c
    ensures |r| == 2 <==> c == '"'
    ensures |r| == 2 ==> r[0] == '\\'
  {
    if c == '"' then "\\\"" else [c]
  }

  /**
   * name.replace("\"", "\\\""): every double quote is replaced by a backslash
   * followed by a double quote; every other character is kept. The target is
   * one character long, so the left-to-right, non-overlapping scan of
   * String.replace is a replacement character by character.
   */
  function Escape(s: string): (r: string)
    ensures |r| >= |s|
    ensures r == [] <==> s == []
  {
    if s == [] then [] else EscapeChar(s[0]) + Escape(s[1..])
  }

  /**
   * The inverse of Escape, used to state what Escape preserves: a backslash
   * immediately followed by a double quote is read as that double quote.
   */
  function Unescape(s: string): (r: string)
    ensures |r| <= |s|
  {
    if s == [] then []
    else if |s| >= 2 && s[0] == '\\' && s[1] == '"' then ['"'] + Unescape(s[2..])
    else [s[0]] + Unescape(s[1..])
  }

  /** A string with no double quote is escaped to itself. */
  lemma {:induction false} EscapeQuoteFree(s: string)
    requires '"' !in s
    ensures Escape(s) == s
  {
    if s != [] {
      assert '"' !in s[1..] by {
        forall i | 0 <= i < |s[1..]| ensures s[1..][i] != '"' {
          assert s[1..][i] == s[i + 1];
        }
      }
      EscapeQuoteFree(s[1..]);
      assert s == [s[0]] + s[1..];
    }
  }

  /** Escaping adds exactly one character for every double quote. */
  lemma {:induction false} EscapeLength(s: string)
    ensures |Escape(s)| == |s| + Count(s, '"')
  {
    if s != [] {
      EscapeLength(s[1..]);
    }
  }

  /**
   * Escaping keeps the number of double quotes and adds one backslash for
   * every double quote.
   */
  lemma {:induction false} EscapeCounts(s: string)
    ensures Count(Escape(s), '"') == Count(s, '"')
    ensures Count(Escape(s), '\\') == Count(s, '\\') + Count(s, '"')
  {
    if s != [] {
      EscapeCounts(s[1..]);
      CountAppend(EscapeChar(s[0]), Escape(s[1..]), '"');
      CountAppend(EscapeChar(s[0]), Escape(s[1..]), '\\');
      if s[0] == '"' {
        assert EscapeChar(s[0])[1..] == ['"'];
        assert EscapeChar(s[0])[1..][1..] == [];
      } else {
        assert EscapeChar(s[0])[1..] == [];
      }
    }
  }

  /** In an escaped string every double quote comes right after a backslash. */
  lemma {:induction false} EscapeQuotesPreceded(s: string)
    ensures forall i :: 0 <= i < |Escape(s)| && Escape(s)[i] == '"' ==> 0 < i && Escape(s)[i - 1] == '\\'
  {
    if s != [] {
      EscapeQuotesPreceded(s[1..]);
      var head, tail := EscapeChar(s[0]), Escape(s[1..]);
      assert Escape(s) == head + tail;
      forall i | 0 <= i < |head + tail| && (head + tail)[i] == '"'
        ensures 0 < i && (head + tail)[i - 1] == '\\'
      {
        if i >= |head| {
          assert (head + tail)[i] == tail[i - |head|];
          if i > |head| {
            assert (head + tail)[i - 1] == tail[i - 1 - |head|];
          }
        }
      }
    }
  }

  /** An escaped string never begins with a double quote. */
  lemma EscapeNoLeadingQuote(s: string)
    requires s != []
    ensures Escape(s)[0] != '"'
  {
    assert Escape(s) == EscapeChar(s[0]) + Escape(s[1..]);
  }

  /** Removing the backslashes that Escape inserted gives back its input. */
  lemma {:induction false} UnescapeEscape(s: string)
    ensures Unescape(Escape(s)) == s
  {
    if s != [] {
      UnescapeEscape(s[1..]);
      var tail := Escape(s[1..]);
      if s[0] == '"' {
        assert Escape(s) == ['\\', '"'] + tail;
        assert (['\\', '"'] + tail)[2..] == tail;
      } else {
        assert Escape(s) == [s[0]] + tail;
        assert ([s[0]] + tail)[1..] == tail;
        if s[0] == '\\' && tail != [] {
          EscapeNoLeadingQuote(s[1..]);
        }
      }
      assert s == [s[0]] + s[1..];
    }
  }

  /**
   * Escape(s) is the only string of its length that unescapes to s: a string
   * that unescapes to s and is longer than s by the number of its quotes has
   * no bare quote left, so it is the escaped form of s.
   */
  lemma {:induction false} EscapeUnique(m: string, s: string)
    requires Unescape(m) == s
    requires |m| == |s| + Count(s, '"')
    ensures m == Escape(s)
    decreases |m|
  {
    if m == [] {
    } else if |m| >= 2 && m[0] == '\\' && m[1] == '"' {
      var t := Unescape(m[2..]);
      assert s == ['"'] + t;
      assert s[1..] == t;
      EscapeUnique(m[2..], t);
      assert m == ['\\', '"'] + m[2..];
    } else {
      var t := Unescape(m[1..]);
      assert s == [m[0]] + t;
      assert s[1..] == t;
      if m[0] == '"' {
        UnescapeBound(m[1..]);
        assert false;
      }
      EscapeUnique(m[1..], t);
      assert m == [m[0]] + m[1..];
    }
  }

  /** Unescaping removes at most one character for each quote it leaves. */
  lemma {:induction false} UnescapeBound(m: string)
    ensures |m| <= |Unescape(m)| + Count(Unescape(m), '"')
    decreases |m|
  {
    if m == [] {
    } else if |m| >= 2 && m[0] == '\\' && m[1] == '"' {
      UnescapeBound(m[2..]);
      assert Unescape(m)[1..] == Unescape(m[2..]);
    } else {
      UnescapeBound(m[1..]);
      assert Unescape(m)[1..] == Unescape(m[1..]);
    }
  }

  /**
   * The body doGet writes: {"message":"Hello, <name>"} with the chosen name
   * escaped. The contract fixes the body completely: the first three clauses
   * frame it, and by EscapeUnique the length and the Unescape clause force
   * the middle to be Escape(ChooseName(name)).
   */
  function GetBody(name: Option<string>): (r: string)
    ensures |r| == |MESSAGE_OPEN| + |ChooseName(name)| + Count(ChooseName(name), '"') + |MESSAGE_CLOSE|
    ensures r[..|MESSAGE_OPEN|] == MESSAGE_OPEN
    ensures r[|r| - |MESSAGE_CLOSE|..] == MESSAGE_CLOSE
    ensures Unescape(r[|MESSAGE_OPEN|..|r| - |MESSAGE_CLOSE|]) == ChooseName(name)
    ensures name.None? || IsBlank(name.value) ==> r == "{\"message\":\"Hello, world !!!\"}"
    ensures name.Some? && !IsBlank(name.value) && '"' !in name.value ==>
              r == MESSAGE_OPEN + name.value + MESSAGE_CLOSE
  {
    var chosen := ChooseName(name);
    EscapeLength(chosen);
    UnescapeEscape(chosen);
    Delimited(MESSAGE_OPEN, Escape(chosen), MESSAGE_CLOSE);
    if name.None? || IsBlank(name.value) then
      EscapeQuoteFree(DEFAULT_NAME);
      DefaultGreeting();
      MESSAGE_OPEN + Escape(chosen) + MESSAGE_CLOSE
    else
      assert '"' !in name.value ==> Escape(name.value) == name.value by {
        if '"' !in name.value {
          EscapeQuoteFree(name.value);
        }
      }
      MESSAGE_OPEN + Escape(chosen) + MESSAGE_CLOSE
  }

  /** The greeting for a missing or blank name, spelled out. */
  lemma DefaultGreeting()
    ensures MESSAGE_OPEN + DEFAULT_NAME + MESSAGE_CLOSE == "{\"message\":\"Hello, world !!!\"}"
  {
  }

  /** The three parts of a concatenation can be sliced back out of it. */
  lemma Delimited(open: string, middle: string, close: string)
    ensures |open + middle + close| == |open| + |middle| + |close|
    ensures (open + middle + close)[..|open|] == open
    ensures (open + middle + close)[|open|..|open| + |middle|] == middle
    ensures (open + middle + close)[|open| + |middle|..] == close
  {
  }

  // ---------------------------------------------------------------------------
  // POST
  // ---------------------------------------------------------------------------

  /** Collectors.joining(): the lines concatenated with no separator. */
  function JoinLines(lines: seq<string>): (r: string)
    ensures |r| == TotalLength(lines)
    ensures |lines| == 1 ==> r == lines[0]
  {
    if lines == [] then "" else lines[0] + JoinLines(lines[1..])
  }

  /** The total length of the lines. */
  function TotalLength(lines: seq<string>): (n: nat)
  {
    if lines == [] then 0 else |lines[0]| + TotalLength(lines[1..])
  }

  /** Joining two runs of lines is joining each and concatenating. */
  lemma {:induction false} JoinLinesAppend(a: seq<string>, b: seq<string>)
    ensures JoinLines(a + b) == JoinLines(a) + JoinLines(b)
  {
    if a != [] {
      assert (a + b)[1..] == a[1..] + b;
      JoinLinesAppend(a[1..], b);
    } else {
      assert a + b == b;
    }
  }

  /**
   * No separator is inserted: each line sits verbatim between the lines
   * before it and the lines after it.
   */
  lemma {:induction false} JoinLinesNoSeparator(lines: seq<string>, k: nat)
    requires k < |lines|
    ensures JoinLines(lines) == JoinLines(lines[..k]) + lines[k] + JoinLines(lines[k + 1..])
  {
    assert lines == lines[..k] + ([lines[k]] + lines[k + 1..]);
    JoinLinesAppend(lines[..k], [lines[k]] + lines[k + 1..]);
    assert ([lines[k]] + lines[k + 1..])[1..] == lines[k + 1..];
  }

  /** The joined body is blank exactly when every line is blank. */
  lemma {:induction false} JoinLinesBlank(lines: seq<string>)
    ensures IsBlank(JoinLines(lines)) <==> forall i :: 0 <= i < |lines| ==> IsBlank(lines[i])
  {
    if lines != [] {
      JoinLinesBlank(lines[1..]);
      BlankAppend(lines[0], JoinLines(lines[1..]));
      assert forall i :: 1 <= i < |lines| ==> lines[i] == lines[1..][i - 1];
    }
  }

  /** A line terminator of BufferedReader.readLine. */
  predicate IsLineTerminator(c: char)
  {
    c == '\n' || c == '\r'
  }

  /**
   * BufferedReader.lines() on the remaining text, with `line` the characters
   * of the current line read so far. A line ends at "\n", "\r" or "\r\n";
   * text after the last terminator, if any, is one more line.
   */
  function LinesFrom(text: string, line: string): (r: seq<string>)
    ensures '\n' !in line && '\r' !in line ==>
              forall i :: 0 <= i < |r| ==> '\n' !in r[i] && '\r' !in r[i]
    decreases |text|
  {
    if text == [] then (if line == [] then [] else [line])
    else if IsLineTerminator(text[0]) then [line] + LinesFrom(AfterTerminator(text), [])
    else LinesFrom(text[1..], line + [text[0]])
  }

  /** The lines of a request body as req.getReader().lines() yields them. */
  function Lines(text: string): (r: seq<string>)
    ensures JoinLines(r) == StripTerminators(text)
    ensures forall i :: 0 <= i < |r| ==> '\n' !in r[i] && '\r' !in r[i]
  {
    LinesFromJoin(text, []);
    assert [] + StripTerminators(text) == StripTerminators(text);
    LinesFrom(text, [])
  }

  /** The text with every line-terminator character removed. */
  function StripTerminators(text: string): (r: string)
    ensures |r| <= |text|
    ensures '\n' !in r && '\r' !in r
  {
    if text == [] then []
    else (if IsLineTerminator(text[0]) then [] else [text[0]]) + StripTerminators(text[1..])
  }

  /** The characters of the line read so far, then the rest of the text, come back joined. */
  lemma {:induction false} LinesFromJoin(text: string, line: string)
    ensures JoinLines(LinesFrom(text, line)) == line + StripTerminators(text)
    decreases |text|
  {
    if text == [] {
      assert line + [] == line;
    } else if IsLineTerminator(text[0]) {
      var rest := AfterTerminator(text);
      LinesFromJoin(rest, []);
      assert LinesFrom(text, line) == [line] + LinesFrom(rest, []);
      JoinLinesCons(line, LinesFrom(rest, []));
    } else {
      LinesFromJoin(text[1..], line + [text[0]]);
      var tail := StripTerminators(text[1..]);
      assert LinesFrom(text, line) == LinesFrom(text[1..], line + [text[0]]);
      assert StripTerminators(text) == [text[0]] + tail;
      assert (line + [text[0]]) + tail == line + ([text[0]] + tail);
    }
  }

  /** The text after the terminator at the head of text ("\r\n" is one terminator). */
  function AfterTerminator(text: string): (rest: string)
    requires text != [] && IsLineTerminator(text[0])
    ensures StripTerminators(rest) == StripTerminators(text)
    ensures |rest| < |text|
  {
    if text[0] == '\r' && |text| >= 2 && text[1] == '\n' then
      assert text[1..][1..] == text[2..];
      text[2..]
    else text[1..]
  }

  /** A line followed by more lines joins to that line followed by their join. */
  lemma {:induction false} JoinLinesCons(line: string, lines: seq<string>)
    ensures JoinLines([line] + lines) == line + JoinLines(lines)
  {
    assert ([line] + lines)[1..] == lines;
  }

  /**
   * The body doPost writes for the body lines: {"received":<body>} with the
   * joined lines spliced in verbatim, or {"received":""} when they are blank.
   */
  function PostBody(lines: seq<string>): (r: string)
    ensures IsBlank(JoinLines(lines)) ==> r == "{\"received\":\"\"}"
    ensures !IsBlank(JoinLines(lines)) ==>
              && |r| == |JoinLines(lines)| + 13
              && r[..12] == RECEIVED_OPEN
              && r[12..|r| - 1] == JoinLines(lines)
              && r[|r| - 1] == '}'
  {
    var body := JoinLines(lines);
    var r := RECEIVED_OPEN + (if IsBlank(body) then EMPTY_JSON_STRING else body) + RECEIVED_CLOSE;
    assert r[12..|r| - 1] == if IsBlank(body) then EMPTY_JSON_STRING else body;
    r
  }

  /** The body doPost writes for the raw request text. */
  function PostBodyOfText(text: string): (r: string)
    ensures IsBlank(StripTerminators(text)) ==> r == "{\"received\":\"\"}"
    ensures !IsBlank(StripTerminators(text)) ==> r == "{\"received\":" + StripTerminators(text) + "}"
  {
    var r := PostBody(Lines(text));
    assert r == r[..12] + r[12..|r| - 1] + [r[|r| - 1]];
    r
  }

  // ---------------------------------------------------------------------------
  // The behaviour the endpoint is documented with, on concrete inputs
  // ---------------------------------------------------------------------------

  /** A name holding a double quote is greeted with that quote escaped. */
  lemma GetBodyQuotedName()
    ensures GetBody(Some("a\"b")) == "{\"message\":\"Hello, a\\\"b\"}"
  {
    var name := "a\"b";
    assert !IsBlank(name) by { assert !IsWhitespace(name[0]); }
    assert Escape(name) == "a\\\"b" by {
      assert name[1..] == "\"b" && name[1..][1..] == "b" && name[1..][1..][1..] == [];
      assert Escape("b") == "b";
      assert Escape("\"b") == "\\\"" + "b";
      assert Escape(name) == "a" + ("\\\"" + "b");
    }
    assert GetBody(Some(name)) == MESSAGE_OPEN + "a\\\"b" + MESSAGE_CLOSE;
  }

  /** A JSON object in the request body is echoed as it is. */
  lemma PostBodyEchoesObject()
    ensures PostBody(["{\"a\":1}"]) == "{\"received\":{\"a\":1}}"
  {
    var line := "{\"a\":1}";
    assert JoinLines([line]) == line by { JoinLinesCons(line, []); }
    assert !IsBlank(line) by { assert !IsWhitespace(line[0]); }
  }

  /** The two lines of a body are echoed run together. */
  lemma PostBodyJoinsLines()
    ensures PostBody(["line1", "line2"]) == "{\"received\":line1line2}"
  {
    var first, second := "line1", "line2";
    assert ["line1", "line2"] == [first] + [second];
    JoinLinesCons(first, [second]);
    var body := first + second;
    assert body == "line1line2";
    assert !IsBlank(body) by { assert !IsWhitespace(body[0]); }
    assert PostBody([first] + [second]) == RECEIVED_OPEN + body + RECEIVED_CLOSE;
  }

  /** The body "line1\nline2" is read as the lines "line1" and "line2". */
  lemma LinesOfTwoLineBody()
    ensures Lines("line1\nline2") == ["line1", "line2"]
  {
    TwoLines("line1", "line2");
    assert "line1" + "\n" + "line2" == "line1\nline2";
  }

  /** Two runs without terminators, separated by "\n", are read as two lines. */
  lemma TwoLines(first: string, second: string)
    requires '\n' !in first && '\r' !in first
    requires '\n' !in second && '\r' !in second && second != []
    ensures Lines(first + "\n" + second) == [first, second]
  {
    assert first + "\n" + second == first + ("\n" + second);
    LinesFromRun(first, [], "\n" + second);
    assert [] + first == first;
    assert ("\n" + second)[1..] == second;
    assert LinesFrom("\n" + second, first) == [first] + LinesFrom(second, []);
    assert second == second + [];
    LinesFromRun(second, [], []);
    assert [] + second == second;
  }

  /** Characters other than terminators accumulate into the current line. */
  lemma {:induction false} LinesFromRun(run: string, line: string, rest: string)
    requires '\n' !in run && '\r' !in run
    ensures LinesFrom(run + rest, line) == LinesFrom(rest, line + run)
  {
    if run != [] {
      assert (run + rest)[0] == run[0];
      assert (run + rest)[1..] == run[1..] + rest;
      assert '\n' !in run[1..] && '\r' !in run[1..] by {
        forall i | 0 <= i < |run[1..]| ensures run[1..][i] == run[i + 1] { }
      }
      LinesFromRun(run[1..], line + [run[0]], rest);
      assert line + [run[0]] + run[1..] == line + run;
    } else {
      assert run + rest == rest;
      assert line + run == line;
    }
  }

  /** A body without line terminators is read back whole. */
  lemma {:induction false} StripNothing(text: string)
    requires '\n' !in text && '\r' !in text
    ensures StripTerminators(text) == text
  {
    if text != [] {
      assert '\n' !in text[1..] && '\r' !in text[1..] by {
        forall i | 0 <= i < |text[1..]| ensures text[1..][i] == text[i + 1] { }
      }
      StripNothing(text[1..]);
      assert text == [text[0]] + text[1..];
    }
  }
}
