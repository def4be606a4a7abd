# JMX REST JSON parser and WebSocket builder, modelled in Dafny

This project models two pieces of the JDK sources.

**The JSON parser of the JMX REST adapter** (`JSONParser`). It is a JavaCC-generated
recursive-descent parser. It reads a stream of tokens through a one-token lookahead
(`jj_nt`) and recognises one JSON value:
- an object `{ "k" : v , ... }` with at least one member;
- a list `[ v , ... ]` with at least one element;
- a quoted string, an integer literal (`Long.parseLong`), a floating-point literal,
  a boolean literal (`Boolean.parseBoolean`) or `null`.

When a token does not fit, the parser throws a `ParseException`. The exception carries the
current token and the kinds that would have been accepted. The generator records those
kinds as choice points (`jj_la1`, stamped with the generation counter `jj_gen`) and as the
kind a failed `jj_consume_token` wanted (`jj_kind`).

The model has four parts.
- `JsonGrammar` is a pure reference grammar over a token sequence.
- `JsonParser.Parser` is a class whose fields are the parser's state and whose methods
  follow the generated code statement by statement. Every production method is proved
  to return what the reference grammar returns. It is also proved to leave the lookahead
  where the grammar says it ends, and to fail with the fault the grammar reports. Every
  fault records the lookahead position at which it is raised, so the parser's position
  after a failure is fixed too.
- `JsonExpected` specifies the expected-kind list of a syntax error.
- `JsonProperties` proves properties of the grammar:
  - each value's shape follows its first token;
  - `{}`, `[]` and trailing commas are rejected;
  - duplicate keys resolve to the last value;
  - a parse depends only on the tokens it reads, so trailing tokens are ignored.

**The WebSocket builder** (`BuilderImpl` of the incubating HTTP client). Its constructor
null-checks its arguments and validates the URI:
- the scheme must be `ws` or `wss` in any letter case;
- a host is required;
- no fragment is allowed.

The builder then collects request headers, the subprotocol list and the connect timeout.
`WebSocketBuilder.CheckUri` is a function. `WebSocketBuilder.Builder` is a class whose
methods update its header list, subprotocol list and timeout in place.

Java `null` is written as `None` of an `Option`. A thrown exception is written as the `Err`
of a `Result`:
- `NullPointerException` is `NullArgument` / `NullElement`;
- `IllegalArgumentException` is `BadUri`;
- `ParseException` is `Syntax`;
- `NumberFormatException` is `NumberFormat`;
- `StringIndexOutOfBoundsException` is `StringIndex`.

Three facts about the source shape the model.
- `string()` strips only the two delimiting quotes from the token image
  (`JSONParser.java` line 137). No escape sequences are decoded.
- `JSONObject` is not part of this model. An object is a map from keys to values, so the
  order of its members is lost.
- The expected-kind list of an error contains every choice point stamped with the current
  generation. After an earlier failed parse this list can include stale entries. The
  exact list is stated only when no choice point is stale (`Settled`).

Paths in the table below are relative to the JDK source tree:
- `JSONParser.java` is `src/java.management.rest/share/classes/com/oracle/jmx/remote/rest/json/parser/JSONParser.java`;
- `BuilderImpl.java` is `src/jdk.incubator.httpclient/share/classes/jdk/incubator/http/internal/websocket/BuilderImpl.java`.

## Model

| member | source | states |
|---|---|---|
| JavaText.ParseLong | src/java.management.rest/share/classes/com/oracle/jmx/remote/rest/json/parser/JSONParser.java:120 | `Long.parseLong`: a result is only given for an optional `+` or `-` followed by one or more digits; it lies in the 64-bit range and is non-positive after a `-` |
| JavaText.ParseLongUnsigned | src/java.management.rest/share/classes/com/oracle/jmx/remote/rest/json/parser/JSONParser.java:120 | a digit string with no sign gives its decimal value when that is at most 2^63-1, and a `NumberFormatException` when it is larger |
| JavaText.ParseLongPlus | src/java.management.rest/share/classes/com/oracle/jmx/remote/rest/json/parser/JSONParser.java:120 | a `+` before a digit string changes nothing: the same value or the same `NumberFormatException` |
| JavaText.ParseLongMinus | src/java.management.rest/share/classes/com/oracle/jmx/remote/rest/json/parser/JSONParser.java:120 | a `-` before a digit string gives the negated decimal value when that is at least -2^63, and a `NumberFormatException` when it is smaller |
| JavaText.DigitsValue | src/java.management.rest/share/classes/com/oracle/jmx/remote/rest/json/parser/JSONParser.java:120 | the decimal digits of `n` evaluate back to `n` |
| JavaText.ParseFormatLong | src/java.management.rest/share/classes/com/oracle/jmx/remote/rest/json/parser/JSONParser.java:120 | `Long.parseLong` inverts `Long.toString` on every 64-bit value |
| JavaText.ToLowerAscii | src/jdk.incubator.httpclient/share/classes/jdk/incubator/http/internal/websocket/BuilderImpl.java:75 | lower-casing keeps the length and lowers each character |
| JavaText.LowerEqualsIgnoreCase | src/jdk.incubator.httpclient/share/classes/jdk/incubator/http/internal/websocket/BuilderImpl.java:75-76 | lower-casing and then comparing with lower-case text gives the same answer as a case-insensitive comparison |
| JsonTokens.At | src/java.management.rest/share/classes/com/oracle/jmx/remote/rest/json/parser/JSONParser.java:226-227 | the token at a position; past the end, the token manager keeps returning the end-of-input token |
| JsonTokens.NonEofBeforeEnd | src/java.management.rest/share/classes/com/oracle/jmx/remote/rest/json/parser/JSONParser.java:226-229 | a token of any kind other than EOF lies before the end, so consuming it leaves fewer tokens to read |
| JsonExpected.MaskBits | src/java.management.rest/share/classes/com/oracle/jmx/remote/rest/json/parser/JSONParser.java:154-156 | the `jj_la1_0` masks name exactly the value-start kinds (choice point 0), the comma (1, 2) and the two number kinds (3), all below 22 |
| JsonExpected.ExpectedKinds | src/java.management.rest/share/classes/com/oracle/jmx/remote/rest/json/parser/JSONParser.java:263-288 | the reported kinds are strictly ascending, and a kind is reported exactly when it is `jj_kind` or a bit of a choice point stamped with the current generation |
| JsonExpected.MarkedByChoicePoints | src/java.management.rest/share/classes/com/oracle/jmx/remote/rest/json/parser/JSONParser.java:269-277 | a kind marked by the choice-point scan is one of the mask bits of a choice point stamped with the current generation |
| JsonExpected.AscendingUnique | src/java.management.rest/share/classes/com/oracle/jmx/remote/rest/json/parser/JSONParser.java:278-284 | two strictly ascending lists with the same elements are equal, so the expected list is determined by its set |
| JsonExpected.OnlyChoicePoint | src/java.management.rest/share/classes/com/oracle/jmx/remote/rest/json/parser/JSONParser.java:39-42 | when only one choice point is current and no kind is pending, the error lists exactly its kinds: the seven value starts for `jsonValue`, the two number kinds for `number` |
| JsonExpected.OnlyRequiredKind | src/java.management.rest/share/classes/com/oracle/jmx/remote/rest/json/parser/JSONParser.java:232-235 | when no choice point is current, a failed `jj_consume_token(k)` lists exactly `[k]` |
| JsonGrammar.Value | src/java.management.rest/share/classes/com/oracle/jmx/remote/rest/json/parser/JSONParser.java:17-46 | a parsed value ends after its first token, before EOF; a syntax error is never before the start; the error is at the start exactly when the first token cannot start a value |
| JsonGrammar.Object | src/java.management.rest/share/classes/com/oracle/jmx/remote/rest/json/parser/JSONParser.java:48-76 | an object ends after its `{`; it fails at its start exactly when the token is not `{` |
| JsonGrammar.Pair | src/java.management.rest/share/classes/com/oracle/jmx/remote/rest/json/parser/JSONParser.java:53-56 | a key, a colon and a value end strictly after their start; a syntax error is never before the start |
| JsonGrammar.Members | src/java.management.rest/share/classes/com/oracle/jmx/remote/rest/json/parser/JSONParser.java:57-73 | the comma-separated members and the closing `}` end strictly after their start; a syntax error is never before the start |
| JsonGrammar.List | src/java.management.rest/share/classes/com/oracle/jmx/remote/rest/json/parser/JSONParser.java:78-101 | a list ends after its `[`; it fails at its start exactly when the token is not `[` |
| JsonGrammar.Elements | src/java.management.rest/share/classes/com/oracle/jmx/remote/rest/json/parser/JSONParser.java:84-98 | the comma-separated elements and the closing `]` end strictly after their start; a syntax error is never before the start |
| JsonGrammar.QuotedString | src/java.management.rest/share/classes/com/oracle/jmx/remote/rest/json/parser/JSONParser.java:134-139 | succeeds exactly on a quoted-string token whose image has at least two characters, giving that image without its first and last character and ending one token later; a shorter image is an index error raised with the lookahead after the token; any other token is a syntax error at the start |
| JsonGrammar.Number | src/java.management.rest/share/classes/com/oracle/jmx/remote/rest/json/parser/JSONParser.java:115-132 | an integer literal that `Long.parseLong` accepts gives that value, ending one token later, and one it refuses is a number-format error raised with the lookahead after the literal; a floating-point literal always succeeds and keeps its image; any other token is a syntax error at the start |
| JsonGrammar.BoolVal | src/java.management.rest/share/classes/com/oracle/jmx/remote/rest/json/parser/JSONParser.java:109-113 | a boolean literal gives `true` exactly when its image is "true" in any letter case |
| JsonGrammar.NullVal | src/java.management.rest/share/classes/com/oracle/jmx/remote/rest/json/parser/JSONParser.java:103-107 | a `null` token gives the null value, ending one token later; any other token is a syntax error at the start |
| JsonParser.Parser.constructor | src/java.management.rest/share/classes/com/oracle/jmx/remote/rest/json/parser/JSONParser.java:207-213 | the lookahead is the first token, `token` is the dummy start token, the generation is 0 and all four choice points are -1 |
| JsonParser.Parser.ReInit | src/java.management.rest/share/classes/com/oracle/jmx/remote/rest/json/parser/JSONParser.java:216-222 | on a new token stream: the lookahead is the first token, `token` is the dummy start token, the generation is 0 and all four choice points are -1; `jj_kind` keeps its value |
| JsonParser.Parser.Parse | src/java.management.rest/share/classes/com/oracle/jmx/remote/rest/json/parser/JSONParser.java:13-15 | the result and the new lookahead are what the grammar gives from the old lookahead; on a syntax error the exception carries the last consumed token, and the offending token is the lookahead after it; from a settled state, a token that cannot start a value is reported with exactly the seven value-start kinds |
| JsonParser.Parser.JsonValue | src/java.management.rest/share/classes/com/oracle/jmx/remote/rest/json/parser/JSONParser.java:17-46 | dispatches on the lookahead kind and agrees with `JsonGrammar.Value`, including the end position and the fault |
| JsonParser.Parser.Object | src/java.management.rest/share/classes/com/oracle/jmx/remote/rest/json/parser/JSONParser.java:48-76 | agrees with `JsonGrammar.Object`, consuming the closing `}` after the member loop |
| JsonParser.Parser.Members | src/java.management.rest/share/classes/com/oracle/jmx/remote/rest/json/parser/JSONParser.java:57-73 | the member loop with its `jj_la1[1]` choice point stops at the first lookahead that is not a comma; the grammar gives the same result from the loop's start with the members it was given as from that stop with the members read; a failure is the grammar's fault |
| JsonParser.Parser.Pair | src/java.management.rest/share/classes/com/oracle/jmx/remote/rest/json/parser/JSONParser.java:53-56 | agrees with `JsonGrammar.Pair` |
| JsonParser.Parser.List | src/java.management.rest/share/classes/com/oracle/jmx/remote/rest/json/parser/JSONParser.java:78-101 | agrees with `JsonGrammar.List`, consuming the closing `]` after the element loop; a parsed array lies between a `[` and a `]` and has one element more than the separating commas, whose positions it returns: exactly those of `JsonGrammar.ListCommas`, which `JsonProperties.ListSeparated` lays out |
| JsonParser.Parser.Elements | src/java.management.rest/share/classes/com/oracle/jmx/remote/rest/json/parser/JSONParser.java:84-98 | the element loop with its `jj_la1[2]` choice point stops at the first lookahead that is not a comma; the grammar gives the same result from the loop's start with the elements it was given as from that stop with the elements read; a failure is the grammar's fault; it adds one element per comma consumed and returns the commas' positions, exactly those of `JsonGrammar.Commas` from its start |
| JsonParser.Parser.NullVal | src/java.management.rest/share/classes/com/oracle/jmx/remote/rest/json/parser/JSONParser.java:103-107 | agrees with `JsonGrammar.NullVal` |
| JsonParser.Parser.BoolVal | src/java.management.rest/share/classes/com/oracle/jmx/remote/rest/json/parser/JSONParser.java:109-113 | agrees with `JsonGrammar.BoolVal` |
| JsonParser.Parser.Number | src/java.management.rest/share/classes/com/oracle/jmx/remote/rest/json/parser/JSONParser.java:115-132 | agrees with `JsonGrammar.Number`; from a settled state, a non-number token is reported with exactly the two number kinds |
| JsonParser.Parser.QuotedString | src/java.management.rest/share/classes/com/oracle/jmx/remote/rest/json/parser/JSONParser.java:134-139 | agrees with `JsonGrammar.QuotedString` |
| JsonParser.Parser.ConsumeToken | src/java.management.rest/share/classes/com/oracle/jmx/remote/rest/json/parser/JSONParser.java:224-236 | a matching lookahead is returned and consumed, advancing the generation; otherwise the lookahead is put back, `jj_kind` is cleared and the error lists exactly the expected kinds (`[k]` from a settled state) |
| JsonParser.Parser.GetNextToken | src/java.management.rest/share/classes/com/oracle/jmx/remote/rest/json/parser/JSONParser.java:240-245 | returns the lookahead and advances the token, the lookahead and the generation by one |
| JsonParser.Parser.GetToken | src/java.management.rest/share/classes/com/oracle/jmx/remote/rest/json/parser/JSONParser.java:248-255 | returns the token `index` places after the current one (the current one for `index <= 0`); for `index >= 1` this is the lookahead's successor `index - 1` places on |
| JsonParser.Parser.GenerateParseException | src/java.management.rest/share/classes/com/oracle/jmx/remote/rest/json/parser/JSONParser.java:262-290 | the error carries the current token and the strictly ascending list of expected kinds; `jj_kind` is cleared and nothing else changes |
| JsonProperties.ValueShape | src/java.management.rest/share/classes/com/oracle/jmx/remote/rest/json/parser/JSONParser.java:19-38 | a parsed value is an object, list, string, number, boolean or null exactly when its first token is `{`, `[`, a quoted string, a number literal, a boolean literal or `null` |
| JsonProperties.EmptyObjectRejected | src/java.management.rest/share/classes/com/oracle/jmx/remote/rest/json/parser/JSONParser.java:52-53 | `{}` is a syntax error at the `}` |
| JsonProperties.EmptyListRejected | src/java.management.rest/share/classes/com/oracle/jmx/remote/rest/json/parser/JSONParser.java:81-82 | `[]` is a syntax error at the `]` |
| JsonProperties.TrailingCommaInObjectRejected | src/java.management.rest/share/classes/com/oracle/jmx/remote/rest/json/parser/JSONParser.java:67-68 | a comma followed by `}` is a syntax error at the `}` |
| JsonProperties.TrailingCommaInListRejected | src/java.management.rest/share/classes/com/oracle/jmx/remote/rest/json/parser/JSONParser.java:94-95 | a comma followed by `]` is a syntax error at the `]` |
| JsonProperties.MembersKeepsKeys | src/java.management.rest/share/classes/com/oracle/jmx/remote/rest/json/parser/JSONParser.java:56-71 | putting further members never removes a key already in the object |
| JsonProperties.ObjectNotEmpty | src/java.management.rest/share/classes/com/oracle/jmx/remote/rest/json/parser/JSONParser.java:48-76 | a parsed object holds its first key, so it is never empty |
| JsonProperties.LastPairWins | src/java.management.rest/share/classes/com/oracle/jmx/remote/rest/json/parser/JSONParser.java:67-73 | when the last pair before `}` has key `k` and value `v`, the object maps `k` to `v` whatever came before |
| JsonProperties.MembersOverride | src/java.management.rest/share/classes/com/oracle/jmx/remote/rest/json/parser/JSONParser.java:57-73 | the pairs after an object's first one succeed, end and fail alike whatever the object already holds, and their map is put over that content |
| JsonProperties.ObjectIsLastWrite | src/java.management.rest/share/classes/com/oracle/jmx/remote/rest/json/parser/JSONParser.java:48-76 | a parsed object is its first pair overridden by the map its later pairs build, so for every key the last pair naming it decides its value |
| JsonProperties.ElementsExtend | src/java.management.rest/share/classes/com/oracle/jmx/remote/rest/json/parser/JSONParser.java:83-96 | the elements already added stay a prefix of the list |
| JsonProperties.ListNotEmpty | src/java.management.rest/share/classes/com/oracle/jmx/remote/rest/json/parser/JSONParser.java:78-101 | a parsed list is non-empty and starts with its first value |
| JsonProperties.ValueFaultAhead | src/java.management.rest/share/classes/com/oracle/jmx/remote/rest/json/parser/JSONParser.java:17-46 | whatever fault a value raises, its lookahead position is at or after the value's first token |
| JsonProperties.ObjectFaultAhead | src/java.management.rest/share/classes/com/oracle/jmx/remote/rest/json/parser/JSONParser.java:48-76 | an object's fault is raised at or after its `{` |
| JsonProperties.PairFaultAhead | src/java.management.rest/share/classes/com/oracle/jmx/remote/rest/json/parser/JSONParser.java:53-56 | a pair's fault is raised at or after its key |
| JsonProperties.MembersFaultAhead | src/java.management.rest/share/classes/com/oracle/jmx/remote/rest/json/parser/JSONParser.java:57-73 | the member loop's fault is raised at or after the lookahead it starts from |
| JsonProperties.ListFaultAhead | src/java.management.rest/share/classes/com/oracle/jmx/remote/rest/json/parser/JSONParser.java:78-101 | a list's fault is raised at or after its `[` |
| JsonProperties.ElementsFaultAhead | src/java.management.rest/share/classes/com/oracle/jmx/remote/rest/json/parser/JSONParser.java:84-98 | the element loop's fault is raised at or after the lookahead it starts from |
| JsonProperties.ElementsSeparated | src/java.management.rest/share/classes/com/oracle/jmx/remote/rest/json/parser/JSONParser.java:84-98 | a successful element loop keeps the elements it was given in front, ends after a `]`, and from its start to that `]` reads a comma and then the next value for each of its commas, in order, the values being exactly the elements it adds |
| JsonProperties.ListSeparated | src/java.management.rest/share/classes/com/oracle/jmx/remote/rest/json/parser/JSONParser.java:78-101 | a successful list is a `[`, then its first element as the value after it, then for each of its commas the next element as the value after that comma, then `]` |
| JsonProperties.SeparatedInOrder | src/java.management.rest/share/classes/com/oracle/jmx/remote/rest/json/parser/JSONParser.java:84-98 | the commas of such a run are comma tokens at strictly increasing positions, the first at the run's start and all before its end, one per value read |
| JsonProperties.ValueLocal | src/java.management.rest/share/classes/com/oracle/jmx/remote/rest/json/parser/JSONParser.java:17-46 | a value parses the same way, with the same result or the same fault, in any token stream that yields the same tokens from its start up to its reach (its end on success, the lookahead position of its fault on failure) |
| JsonProperties.ObjectLocal | src/java.management.rest/share/classes/com/oracle/jmx/remote/rest/json/parser/JSONParser.java:48-76 | an object parses the same way, with the same result or the same fault, in any token stream that yields the same tokens from its start up to its reach (its end on success, the lookahead position of its fault on failure) |
| JsonProperties.PairLocal | src/java.management.rest/share/classes/com/oracle/jmx/remote/rest/json/parser/JSONParser.java:53-56 | a pair parses the same way, with the same result or the same fault, in any token stream that yields the same tokens from its start up to its reach (its end on success, the lookahead position of its fault on failure) |
| JsonProperties.MembersLocal | src/java.management.rest/share/classes/com/oracle/jmx/remote/rest/json/parser/JSONParser.java:57-73 | the pairs after the first parses the same way, with the same result or the same fault, in any token stream that yields the same tokens from its start up to its reach (its end on success, the lookahead position of its fault on failure) |
| JsonProperties.ListLocal | src/java.management.rest/share/classes/com/oracle/jmx/remote/rest/json/parser/JSONParser.java:78-101 | a list parses the same way, with the same result or the same fault, in any token stream that yields the same tokens from its start up to its reach (its end on success, the lookahead position of its fault on failure) |
| JsonProperties.ElementsLocal | src/java.management.rest/share/classes/com/oracle/jmx/remote/rest/json/parser/JSONParser.java:84-98 | the elements after the first parses the same way, with the same result or the same fault, in any token stream that yields the same tokens from its start up to its reach (its end on success, the lookahead position of its fault on failure) |
| JsonProperties.TrailingTokensIgnored | src/java.management.rest/share/classes/com/oracle/jmx/remote/rest/json/parser/JSONParser.java:13-15 | `null null` parses as one `null` and stops before the second: `parse` does not demand end of input |
| JsonProperties.DuplicateKeyFirstPair | src/java.management.rest/share/classes/com/oracle/jmx/remote/rest/json/parser/JSONParser.java:53-56 | the first pair of `{ "a" : null , "a" : "b" }` parses as `("a", null)`, ending at the comma |
| JsonProperties.DuplicateKeySecondPair | src/java.management.rest/share/classes/com/oracle/jmx/remote/rest/json/parser/JSONParser.java:66-70 | the second pair of `{ "a" : null , "a" : "b" }` parses as `("a", "b")`, ending at the `}` |
| JsonProperties.TwoPairObject | src/java.management.rest/share/classes/com/oracle/jmx/remote/rest/json/parser/JSONParser.java:48-76 | `{` at any position followed by two pairs of any length separated by a comma and then `}` parses as the first pair put into an empty object and then the second pair put over it, ending after the `}` |
| JsonProperties.SameKeyTwice | src/java.management.rest/share/classes/com/oracle/jmx/remote/rest/json/parser/JSONParser.java:48-76 | two pairs with the same key make an object that holds only the later value |
| JsonProperties.DuplicateKeyLastWins | src/java.management.rest/share/classes/com/oracle/jmx/remote/rest/json/parser/JSONParser.java:56-71 | `{ "a" : null , "a" : "b" }` parses as the one-member object `{"a": "b"}` |
| WebSocketBuilder.CheckUri | src/jdk.incubator.httpclient/share/classes/jdk/incubator/http/internal/websocket/BuilderImpl.java:71-83 | accepts a URI, unchanged, exactly when it has a `ws`/`wss` scheme in any case, a host and no fragment. Otherwise it rejects it for the first failing condition, in the source's order; an invalid scheme is reported lower-cased |
| WebSocketBuilder.SchemeCaseIrrelevant | src/jdk.incubator.httpclient/share/classes/jdk/incubator/http/internal/websocket/BuilderImpl.java:75-77 | URIs that differ only in the letter case of the scheme are accepted or rejected alike |
| WebSocketBuilder.FirstNullExists | src/jdk.incubator.httpclient/share/classes/jdk/incubator/http/internal/websocket/BuilderImpl.java:101-104 | an array with a null has exactly one first null |
| WebSocketBuilder.CollectSubprotocols | src/jdk.incubator.httpclient/share/classes/jdk/incubator/http/internal/websocket/BuilderImpl.java:99-105 | succeeds exactly when no lesser-preferred entry is null, giving the most-preferred followed by the others in order; otherwise it fails at the index of the first null |
| WebSocketBuilder.Builder.constructor | src/jdk.incubator.httpclient/share/classes/jdk/incubator/http/internal/websocket/BuilderImpl.java:49-61 | keeps the given client, URI, listener and proxy selector; the header and subprotocol lists start empty and no timeout is set |
| WebSocketBuilder.New | src/jdk.incubator.httpclient/share/classes/jdk/incubator/http/internal/websocket/BuilderImpl.java:57-65 | rejects a null client, then a null URI, then an invalid URI, then a null listener; otherwise it gives a fresh builder holding the arguments |
| WebSocketBuilder.Builder.Header | src/jdk.incubator.httpclient/share/classes/jdk/incubator/http/internal/websocket/BuilderImpl.java:86-91 | rejects a null name, then a null value, leaving the builder unchanged; otherwise it appends exactly that one pair and returns the same builder, with nothing else changed |
| WebSocketBuilder.Builder.Subprotocols | src/jdk.incubator.httpclient/share/classes/jdk/incubator/http/internal/websocket/BuilderImpl.java:94-109 | rejects a null most-preferred, a null array or a null entry, leaving the old list in place; otherwise it replaces the list with the most-preferred followed by the others |
| WebSocketBuilder.Builder.ConnectTimeout | src/jdk.incubator.httpclient/share/classes/jdk/incubator/http/internal/websocket/BuilderImpl.java:112-115 | rejects a null timeout, leaving the builder unchanged; otherwise it sets exactly the timeout |

`JsonGrammar` also holds unfolding helpers for the proofs of the parser's methods. Each one
restates a single branch of `Object`, `Members`, `List`, `Elements`, `ListCommas` or `Commas`.
They are `ObjectStop`, `ObjectNext`, `MembersNext`, `MembersClose`, `MembersStop`, `ListStop`,
`ListNext`, `ElementsNext`, `ElementsClose`, `ElementsStop`, `ListCommasNext`, `CommasNext` and
`CommasStop`.

## Left out

- The token manager and `JavaCharStream`, and the tokenizer behind them, are not part of this model. The parser takes a finite token sequence that ends with an EOF token.
- The constructors and `ReInit` overloads taking a `String`, `Reader` or `InputStream` (with or without an encoding) keep only the state they set up. The character-stream setup and `UnsupportedEncodingException` are not modelled.
- `Double.parseDouble` is not modelled. A floating-point literal keeps its image.
- The model's `ParseLong` accepts ASCII digits only. `Long.parseLong` also accepts other Unicode decimal digits, which is not modelled. The model assumes the token manager puts only ASCII digits in an integer literal; the token manager is not part of this model.
- A `ParseException` keeps the offending token and the expected kinds. Its message text and the `tokenImage` table are not modelled.
- `enable_tracing` and `disable_tracing` do nothing and are not modelled.
- `jj_expentries` and `jj_expentry` are locals of `GenerateParseException`, because every call clears them first.
- The `next` links between tokens, and the caching of tokens that `getToken` and `jj_consume_token` do through them, are replaced by positions in the token sequence.
- `jj_gen` is a Java `int` that wraps around after 2^31 consumed tokens, and after that `jj_la1[i] == jj_gen` can match stale entries. The model's generation is unbounded, so that wrap-around is not captured.
- Java strings are sequences of UTF-16 code units, while the model's strings are sequences of Unicode characters. So `length()` and `substring(1, length() - 1)` in `string()` differ from the model on images that hold characters outside the Basic Multilingual Plane.
- The grammar functions and the parser's methods accept any nesting depth. The Java recursive descent can run out of call stack on a very deeply nested document and throw `StackOverflowError`, which the model does not capture.
- The dummy start token's image is `null` in Java. It is written as the empty string.
- The `throw new Error("Missing return statement")` lines cannot be reached and are not modelled.
- The classes `JSONObject`, `JSONArray` and `JSONPrimitive` are not part of this model. An object is a map, so the iteration order of its members is not captured. `put` is map update.
- JsonParser.Parser.Pair, JsonParser.Parser.Members and JsonParser.Parser.Elements split the bodies of `object()` and `list()` into a pair step and the two loops. The statements and the choice-point writes are the same, and the closing `}` or `]` is consumed by `Object` or `List` after the loop, as in Java. Only the call structure differs from the single Java method.
- JsonParser.Parser.JsonValue states the exact expected-kind list only when its caller passes the ghost flag `settled`. `Parse` passes it. Nested values pass `false`, so the model does not state the exact list for a nested value's error.
- `buildAsync` and `WebSocketImpl` are not part of this model.
- The constructor's `assert` on `client.proxy()` is not modelled, because `HttpClient` is not part of this model. `HttpClient`, `Listener`, `ProxySelector` and `Duration` are opaque values.
- `java.net.URI` parsing is not modelled. A URI is its scheme, host, fragment (each possibly absent) and text.
- `String.toLowerCase` and `equalsIgnoreCase` are modelled on ASCII letters. Locale-specific case mapping is not modelled. No non-ASCII character lower-cases to a letter of `ws` or `wss`.
- The `IllegalArgumentException` and `NullPointerException` messages are reduced to the offending value: the URI, the scheme, the argument name or the index of the null array entry.
- The getters `getClient`, `getUri`, `getListener`, `getHeaders`, `getSubprotocols`, `getConnectTimeout` and `proxySelector` return fields. The model reads the fields of `WebSocketBuilder.Builder` directly.
