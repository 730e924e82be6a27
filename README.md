# ATM app greeting endpoint and CORS filter, modelled in Dafny

The application has two request handlers.

- `CorsHeadersFilter` runs in front of every request. When the request has a
  non-blank `Origin` header, the filter writes seven CORS headers into the
  response. `Access-Control-Allow-Origin` gets the origin itself; the other six
  get fixed values. If the method is also `OPTIONS` in any letter case, the
  request is a preflight. The filter then adds `Access-Control-Max-Age: 3600`,
  sets status 204 and does not pass the request on. Every other request goes
  on down the filter chain.
- `HelloServlet` answers `GET /api/hello` with `{"message":"Hello, <name>"}`.
  A missing or blank `name` parameter becomes `world !!!`, and each double
  quote in the name becomes `\"`. It answers `POST /api/hello` by reading the
  body line by line, joining the lines with no separator and writing
  `{"received":<body>}`. The body goes in verbatim, or as `""` when it is blank.

Files and modules:

- `strings.dfy`, module `Strings`: the pieces of `java.lang.String` and
  `java.lang.Character` the handlers use. This is a nullable `Option`,
  `Character.isWhitespace`, `String.isBlank`, `String.equalsIgnoreCase` and
  counting the occurrences of a character.
- `cors_headers_filter.dfy`, module `CorsHeadersFilter`:
  - a `Response` class whose header table (`map<string, string>`) and status
    are changed in place by `SetHeader` and `SetStatus`;
  - the method `DoFilter`, which makes the same calls in the same order as
    `doFilter` and returns whether the chain is called;
  - the function `Filtered`, which states the result as a value. Its contract
    says which headers change, to what, when the request short-circuits, and
    that nothing else changes.
- `hello_servlet.dfy`, module `HelloServlet`: the GET and POST bodies as pure
  functions of their inputs, with lemmas about them. The GET input is the
  name as an `Option<string>`. The POST input is the lines of the body, or the
  raw body text read by a model of `BufferedReader.lines()`.

"Blank" means every character is whitespace in the sense of
`Character.isWhitespace`. The empty string is blank.

## Model

| member | source | states |
|---|---|---|
| `Strings.IsWhitespace` | atm-app/src/main/java/com/atm/api/HelloServlet.java:20 | `Character.isWhitespace`: space, tab, newline and carriage return are whitespace; the three no-break spaces, digits and ASCII letters are not |
| `Strings.IsBlank` | atm-app/src/main/java/com/atm/api/HelloServlet.java:20 | `String.isBlank`: the empty string and strings of spaces and tabs are blank; a non-empty blank string begins and ends with whitespace (meaning given, together with concatenation, by `Strings.BlankAppend`) |
| `Strings.EqualsIgnoreCase` | atm-app/src/main/java/com/atm/filter/CorsHeadersFilter.java:33 | equal strings compare equal ignoring case, and strings that compare equal have the same length; which characters match is given by `Strings.EqualsIgnoreCaseUpper` and `CorsHeadersFilter.PreflightMethod` |
| `Strings.EqualsIgnoreCaseSymmetric` | atm-app/src/main/java/com/atm/filter/CorsHeadersFilter.java:33 | comparing ignoring case gives the same answer with the two strings swapped |
| `Strings.EqualsIgnoreCaseUpper` | atm-app/src/main/java/com/atm/filter/CorsHeadersFilter.java:33 | a string compares equal, ignoring case, to a string of upper-case ASCII letters exactly when it has the same length and each character is the same letter in upper or lower case |
| `Strings.BlankAppend` | atm-app/src/main/java/com/atm/api/HelloServlet.java:33 | a concatenation is blank exactly when both parts are blank |
| `CorsHeadersFilter.Response.SetHeader` | atm-app/src/main/java/com/atm/filter/CorsHeadersFilter.java:26-34 | setHeader overwrites one entry of the header table and leaves the status alone |
| `CorsHeadersFilter.Response.SetStatus` | atm-app/src/main/java/com/atm/filter/CorsHeadersFilter.java:35 | setStatus replaces the status and leaves the headers alone |
| `CorsHeadersFilter.HasOrigin` | atm-app/src/main/java/com/atm/filter/CorsHeadersFilter.java:23-24 | `origin != null && !origin.isBlank()`: an absent or blank Origin header does not count, and a present one is non-empty |
| `CorsHeadersFilter.IsPreflight` | atm-app/src/main/java/com/atm/filter/CorsHeadersFilter.java:24-33 | a preflight has a non-blank origin and a seven-character method; `OPTIONS`, `options` and `Options` with an origin are preflights |
| `CorsHeadersFilter.PreflightMethod` | atm-app/src/main/java/com/atm/filter/CorsHeadersFilter.java:33 | a method matches `OPTIONS` ignoring case exactly when it has seven characters, each the letter of `OPTIONS` at that place in upper or lower case |
| `CorsHeadersFilter.WithCorsHeaders` | atm-app/src/main/java/com/atm/filter/CorsHeadersFilter.java:26-32 | the seven setHeader calls add exactly the seven CORS names (not Max-Age) to the table, reflect the origin in Allow-Origin, set Content-Type to `application/json`, and keep every other entry, Max-Age included |
| `CorsHeadersFilter.Filtered` | atm-app/src/main/java/com/atm/filter/CorsHeadersFilter.java:23-40 | with no origin or a blank one, the response is unchanged and the request is forwarded, whatever the method; with an origin, Allow-Origin is the origin exactly and the six other headers hold their fixed values; a preflight also gets Max-Age 3600 and status 204 and is not forwarded; any other request is forwarded with its status and Max-Age as before; forwarded holds exactly when the request is not a preflight; every header outside the eight CORS names keeps its presence and value |
| `CorsHeadersFilter.DoFilter` | atm-app/src/main/java/com/atm/filter/CorsHeadersFilter.java:18-41 | the setHeader/setStatus sequence leaves the response in the state `Filtered` gives, and the chain is called exactly when `Filtered` says it is |
| `CorsHeadersFilter.PreflightExample` | atm-app/src/main/java/com/atm/filter/CorsHeadersFilter.java:33-36 | an `options` request from `http://example.com` gets status 204, Max-Age 3600, the origin reflected, and is not forwarded |
| `CorsHeadersFilter.SimpleRequestExample` | atm-app/src/main/java/com/atm/filter/CorsHeadersFilter.java:24-40 | a GET from `http://x.com` gets the origin reflected, no Max-Age, keeps status 200 and is forwarded |
| `CorsHeadersFilter.OptionsWithoutOriginExample` | atm-app/src/main/java/com/atm/filter/CorsHeadersFilter.java:24-40 | an OPTIONS request without an Origin header leaves any response untouched and is forwarded |
| `HelloServlet.ChooseName` | atm-app/src/main/java/com/atm/api/HelloServlet.java:19-22 | a null or blank name becomes `world !!!`, a non-blank name is used as given, and the chosen name is never blank |
| `HelloServlet.EscapeChar` | atm-app/src/main/java/com/atm/api/HelloServlet.java:24 | one character of the replacement: it ends with the character itself, is two characters long exactly for a double quote, and then begins with a backslash |
| `HelloServlet.Escape` | atm-app/src/main/java/com/atm/api/HelloServlet.java:24 | `name.replace("\"", "\\\"")`: never shorter than its input, empty exactly for empty input; its exact meaning is given by `EscapeLength`, `EscapeCounts`, `EscapeQuotesPreceded`, `EscapeQuoteFree`, `UnescapeEscape` and `EscapeUnique` |
| `HelloServlet.Unescape` | atm-app/src/main/java/com/atm/api/HelloServlet.java:24 | the inverse used to state what the replacement keeps: never longer than its input (with `UnescapeEscape` it undoes `Escape`) |
| `HelloServlet.EscapeQuoteFree` | atm-app/src/main/java/com/atm/api/HelloServlet.java:24 | escaping a string without a double quote gives it back unchanged |
| `HelloServlet.EscapeLength` | atm-app/src/main/java/com/atm/api/HelloServlet.java:24 | the escaped string is longer by exactly the number of double quotes |
| `HelloServlet.EscapeCounts` | atm-app/src/main/java/com/atm/api/HelloServlet.java:24 | escaping keeps the number of double quotes and adds one backslash per double quote |
| `HelloServlet.EscapeQuotesPreceded` | atm-app/src/main/java/com/atm/api/HelloServlet.java:24 | in the escaped string every double quote comes right after a backslash |
| `HelloServlet.EscapeNoLeadingQuote` | atm-app/src/main/java/com/atm/api/HelloServlet.java:24 | an escaped non-empty string does not begin with a double quote |
| `HelloServlet.UnescapeEscape` | atm-app/src/main/java/com/atm/api/HelloServlet.java:24 | removing the backslash before each double quote gives back the input of the escaping |
| `HelloServlet.EscapeUnique` | atm-app/src/main/java/com/atm/api/HelloServlet.java:24 | the escaped form is the only string that unescapes to the input and is longer by its number of quotes, so `GetBody`'s contract fixes the body exactly |
| `HelloServlet.UnescapeBound` | atm-app/src/main/java/com/atm/api/HelloServlet.java:24 | unescaping shortens a string by at most the number of quotes in the result |
| `HelloServlet.GetBody` | atm-app/src/main/java/com/atm/api/HelloServlet.java:19-25 | the GET body starts with `{"message":"Hello, ` and ends with `"}`; unescaping what lies between gives back the chosen name; its length is the frame plus the name plus its quote count; a null or blank name gives exactly `{"message":"Hello, world !!!"}`; a non-blank quote-free name is placed verbatim |
| `HelloServlet.DefaultGreeting` | atm-app/src/main/java/com/atm/api/HelloServlet.java:21-25 | the frame around the default name spells `{"message":"Hello, world !!!"}` |
| `HelloServlet.GetBodyQuotedName` | atm-app/src/main/java/com/atm/api/HelloServlet.java:24-25 | the name `a"b` is greeted as `{"message":"Hello, a\"b"}` |
| `HelloServlet.JoinLines` | atm-app/src/main/java/com/atm/api/HelloServlet.java:32 | `Collectors.joining()`: the joined text is exactly as long as all the lines together, and a single line is passed through as it is (with `JoinLinesNoSeparator` and `JoinLinesAppend`, nothing is inserted between lines) |
| `HelloServlet.JoinLinesAppend` | atm-app/src/main/java/com/atm/api/HelloServlet.java:32 | joining two runs of lines gives the two joined texts one after the other |
| `HelloServlet.JoinLinesNoSeparator` | atm-app/src/main/java/com/atm/api/HelloServlet.java:32 | each line sits verbatim between the joined lines before it and the joined lines after it, with nothing inserted |
| `HelloServlet.JoinLinesBlank` | atm-app/src/main/java/com/atm/api/HelloServlet.java:32-33 | the joined body is blank exactly when every line is blank |
| `HelloServlet.AfterTerminator` | atm-app/src/main/java/com/atm/api/HelloServlet.java:32 | skipping the terminator at the head of the text (`\r\n` counted as one) removes nothing but terminator characters |
| `HelloServlet.LinesFrom` | atm-app/src/main/java/com/atm/api/HelloServlet.java:32 | reading lines on from a partial line that holds no terminator yields lines that hold no `\n` or `\r` (what is read is given by `LinesFromJoin`, `LinesFromRun` and `TwoLines`) |
| `HelloServlet.Lines` | atm-app/src/main/java/com/atm/api/HelloServlet.java:32 | `req.getReader().lines()`: joining the lines gives the body with exactly its line-terminator characters removed, and no line holds a `\n` or `\r` |
| `HelloServlet.StripTerminators` | atm-app/src/main/java/com/atm/api/HelloServlet.java:32 | the body without its terminators: no longer than the body and free of `\n` and `\r` (and by `StripNothing` a body without terminators is kept whole) |
| `HelloServlet.LinesFromJoin` | atm-app/src/main/java/com/atm/api/HelloServlet.java:32 | joining the lines read from the text, after the line read so far, gives that line followed by the text without its terminators |
| `HelloServlet.LinesFromRun` | atm-app/src/main/java/com/atm/api/HelloServlet.java:32 | characters that are not terminators are added to the current line |
| `HelloServlet.TwoLines` | atm-app/src/main/java/com/atm/api/HelloServlet.java:32 | two terminator-free runs separated by `\n` are read as those two lines |
| `HelloServlet.StripNothing` | atm-app/src/main/java/com/atm/api/HelloServlet.java:32 | a body with no line terminator is read back whole |
| `HelloServlet.PostBody` | atm-app/src/main/java/com/atm/api/HelloServlet.java:32-33 | a blank joined body gives exactly `{"received":""}`; otherwise the output is 13 characters longer than the joined body, starts with `{"received":`, ends with `}` and has the joined body verbatim in between |
| `HelloServlet.PostBodyOfText` | atm-app/src/main/java/com/atm/api/HelloServlet.java:32-33 | for the raw body text, the output is `{"received":""}` when the text without its line terminators is blank, and otherwise `{"received":` + that text + `}` |
| `HelloServlet.PostBodyEchoesObject` | atm-app/src/main/java/com/atm/api/HelloServlet.java:33 | the body `{"a":1}` is echoed as `{"received":{"a":1}}` |
| `HelloServlet.PostBodyJoinsLines` | atm-app/src/main/java/com/atm/api/HelloServlet.java:32-33 | the lines `line1` and `line2` are echoed as `{"received":line1line2}` |
| `HelloServlet.LinesOfTwoLineBody` | atm-app/src/main/java/com/atm/api/HelloServlet.java:32 | the body `line1\nline2` is read as the lines `line1` and `line2` |

## Left out

- Container wiring is not modelled, because it is framework behaviour. This covers the `@WebFilter("/*")` and `@WebServlet("/api/hello")` registrations, the dispatch of GET and POST to `doGet` and `doPost`, and what the container does for other methods.
- The call `chain.doFilter` is modelled only as the boolean that `DoFilter` returns. It is not a field of the response: the call does not change the response.
- I/O is not modelled. The model takes the `name` parameter, the body text or its lines as inputs, and returns the text that `resp.getWriter().write` would send. `IOException` and `ServletException` are not modelled.
- The implicit status 200 of GET and POST is not modelled, because no code sets it. The empty body of a preflight response is not modelled either, because nothing is written.
- Strings.EqualsIgnoreCase: folds the case of ASCII letters only; its own contract states only reflexivity and equal length, and the character-by-character rule is stated by `Strings.EqualsIgnoreCaseUpper` and, for `OPTIONS`, by `CorsHeadersFilter.PreflightMethod`. Java's `equalsIgnoreCase` also accepts a few non-ASCII letters in `OPTIONS`: U+0130 and U+0131 for `I`, and U+017F for `S`. The model does not treat such a method as a preflight.
- Strings.IsWhitespace: lists the whitespace characters of `Character.isWhitespace` as of current Unicode. It does not follow changes in later Unicode versions.
- Header names are exact map keys. HTTP treats header names case-insensitively, and containers may merge `Content-Type` with the response's content type. Neither is modelled.
- A response that is already committed ignores `setHeader`. The model treats every response as uncommitted.
- `body == null` in `doPost` cannot hold, because `Collectors.joining()` always returns a string. The lines are a `seq<string>` with no null element.
- The GET and POST bodies are not proved to be valid JSON, because they are not. Only `"` is escaped in a name, and the POST body is spliced in raw.
- No security property is modelled. Reflecting any origin while allowing credentials is the source's behaviour; the comment at CorsHeadersFilter.java line 25 only states an intention.
