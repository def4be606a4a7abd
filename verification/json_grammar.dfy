/**
 * The grammar the generated JSON parser recognises, written as pure functions
 * over a token sequence. Each function takes the position of the lookahead
 * token and returns the value built together with the position just after
 * the last token consumed, or the fault that stops the parse. These functions
 * are the specification the imperative parser (module JsonParser) is proved
 * against, production by production.
 */
module JsonGrammar {
  import opened Wrappers
  import opened JsonTokens
  import opened JavaText

  /** The element tree the parser builds. */
  datatype Json =
    | Obj(members: map<string, Json>)  // JSONObject, filled by put
    | Arr(elems: seq<Json>)            // JSONArray, filled by add
    | Str(s: string)                   // JSONPrimitive holding a String
    | Long(n: int)                     // JSONPrimitive holding a Long
    | Double(image: string)            // JSONPrimitive holding a Double, kept as the literal's text
    | Bool(b: bool)                    // JSONPrimitive holding a Boolean
    | Null                             // the null reference that nullVal returns (no JSONPrimitive)

  /**
   * Why a parse stops. Each fault records `pos`, the position of the
   * lookahead token when it is raised: a syntax error puts the offending
   * token back as the lookahead, while the two conversion errors are raised
   * after their literal has been consumed.
   */
  datatype Fault = Fault(pos: nat, cause: Cause)

  /** What went wrong, whatever the position. */
  datatype Cause =
    | Unexpected               // ParseException: the token at `pos` is not one the grammar allows there
    | BadLong(image: string)   // NumberFormatException from Long.parseLong
    | BadQuotes(image: string) // StringIndexOutOfBoundsException from substring(1, length - 1)

  type Parsed = Result<(Json, nat), Fault>

  /** The lookahead kinds that begin a value: the alternatives of jsonValue. */
  predicate IsValueStart(k: int)
  {
    k == LBRACE || k == LBRACKET || k == QUOTED_STRING || k == INTEGER_LITERAL
    || k == FLOATING_POINT_LITERAL || k == BOOL_LITERAL || k == NULL
  }

  /** value := object | list | string | number | boolVal | nullVal, chosen by the lookahead kind alone. */
  function Value(ts: seq<Token>, i: nat): (r: Parsed)
    requires WellFormed(ts)
    decreases Rem(ts, i), 1
    ensures r.Ok? ==> i < r.value.1 < |ts|
    ensures r.Err? && r.error.cause.Unexpected? ==> i <= r.error.pos
    ensures r == Err(Fault(i, Unexpected)) <==> !IsValueStart(At(ts, i).kind)
  {
    var k := At(ts, i).kind;
    if k == LBRACE then Object(ts, i)
    else if k == LBRACKET then List(ts, i)
    else if k == QUOTED_STRING then QuotedString(ts, i)
    else if k == INTEGER_LITERAL || k == FLOATING_POINT_LITERAL then Number(ts, i)
    else if k == BOOL_LITERAL then BoolVal(ts, i)
    else if k == NULL then NullVal(ts, i)
    else Err(Fault(i, Unexpected))
  }

  /** The object built from a successful parse of its pairs. */
  function ObjectOf(r: Result<(map<string, Json>, nat), Fault>): Parsed
  {
    match r
    case Ok((m, e)) => Ok((Obj(m), e))
    case Err(f) => Err(f)
  }

  /** object := '{' pair ( ',' pair )* '}' -- at least one pair. */
  function Object(ts: seq<Token>, i: nat): (r: Parsed)
    requires WellFormed(ts)
    decreases Rem(ts, i), 0
    ensures r.Ok? ==> i < r.value.1 < |ts|
    ensures r.Err? && r.error.cause.Unexpected? ==> i <= r.error.pos
    ensures r == Err(Fault(i, Unexpected)) <==> At(ts, i).kind != LBRACE
  {
    if At(ts, i).kind != LBRACE then Err(Fault(i, Unexpected))
    else
      NonEofBeforeEnd(ts, i);
      match Pair(ts, i + 1)
      case Err(f) => Err(f)
      case Ok((p, e)) =>
        ObjectOf(Members(ts, e, map[p.0 := p.1]))
  }

  /** pair := QUOTED_STRING ':' value, giving the key without its quotes and the value. */
  function Pair(ts: seq<Token>, i: nat): (r: Result<((string, Json), nat), Fault>)
    requires WellFormed(ts)
    decreases Rem(ts, i), 0
    ensures r.Ok? ==> i < r.value.1 < |ts|
    ensures r.Err? && r.error.cause.Unexpected? ==> i <= r.error.pos
  {
    match QuotedString(ts, i)
    case Err(f) => Err(f)
    case Ok((key, j)) =>
      if At(ts, j).kind != COLON then Err(Fault(j, Unexpected))
      else
        NonEofBeforeEnd(ts, j);
        match Value(ts, j + 1)
        case Err(f) => Err(f)
        case Ok((v, e)) => Ok(((key.s, v), e))
  }

  /**
   * The loop of object after the pairs already in `m`: while the lookahead is ',' read
   * one more pair and put it into `m`, then require '}'.
   */
  function Members(ts: seq<Token>, j: nat, m: map<string, Json>): (r: Result<(map<string, Json>, nat), Fault>)
    requires WellFormed(ts)
    decreases Rem(ts, j), 0
    ensures r.Ok? ==> j < r.value.1 < |ts|
    ensures r.Err? && r.error.cause.Unexpected? ==> j <= r.error.pos
  {
    if At(ts, j).kind == COMMA then
      NonEofBeforeEnd(ts, j);
      match Pair(ts, j + 1)
      case Err(f) => Err(f)
      case Ok((p, e)) =>
        Members(ts, e, m[p.0 := p.1])
    else if At(ts, j).kind == RBRACE then
      NonEofBeforeEnd(ts, j);
      Ok((m, j + 1))
    else Err(Fault(j, Unexpected))
  }

  /** The array built from a successful parse of its elements. */
  function ListOf(r: Result<(seq<Json>, nat), Fault>): Parsed
  {
    match r
    case Ok((xs, e)) => Ok((Arr(xs), e))
    case Err(f) => Err(f)
  }

  /** list := '[' value ( ',' value )* ']' -- at least one element. */
  function List(ts: seq<Token>, i: nat): (r: Parsed)
    requires WellFormed(ts)
    decreases Rem(ts, i), 0
    ensures r.Ok? ==> i < r.value.1 < |ts|
    ensures r.Err? && r.error.cause.Unexpected? ==> i <= r.error.pos
    ensures r == Err(Fault(i, Unexpected)) <==> At(ts, i).kind != LBRACKET
  {
    if At(ts, i).kind != LBRACKET then Err(Fault(i, Unexpected))
    else
      NonEofBeforeEnd(ts, i);
      match Value(ts, i + 1)
      case Err(f) => Err(f)
      case Ok((v, e)) => ListOf(Elements(ts, e, [v]))
  }

  /**
   * The loop of list after the elements `xs`: while the lookahead is ',' read
   * one more value, then require ']'. Returns every element, in source order.
   */
  function Elements(ts: seq<Token>, j: nat, xs: seq<Json>): (r: Result<(seq<Json>, nat), Fault>)
    requires WellFormed(ts)
    decreases Rem(ts, j), 0
    ensures r.Ok? ==> j < r.value.1 < |ts|
    ensures r.Err? && r.error.cause.Unexpected? ==> j <= r.error.pos
  {
    if At(ts, j).kind == COMMA then
      NonEofBeforeEnd(ts, j);
      match Value(ts, j + 1)
      case Err(f) => Err(f)
      case Ok((v, e)) =>
        Elements(ts, e, xs + [v])
    else if At(ts, j).kind == RBRACKET then
      NonEofBeforeEnd(ts, j);
      Ok((xs, j + 1))
    else Err(Fault(j, Unexpected))
  }

  /**
   * The positions of the ',' tokens list's loop consumes from `j`, after
   * those in `acc`: one for each ',' lookahead, up to the first other
   * lookahead or the first value after a ',' that fails to parse.
   */
  ghost function Commas(ts: seq<Token>, j: nat, acc: seq<nat>): seq<nat>
    requires WellFormed(ts)
    decreases Rem(ts, j)
  {
    if At(ts, j).kind == COMMA then
      NonEofBeforeEnd(ts, j);
      match Value(ts, j + 1)
      case Err(_) => acc + [j]
      case Ok((_, e)) => Commas(ts, e, acc + [j])
    else acc
  }

  /** The positions of the ',' tokens of list at `i`: those its loop consumes after the first value. */
  ghost function ListCommas(ts: seq<Token>, i: nat): seq<nat>
    requires WellFormed(ts)
  {
    if At(ts, i).kind == LBRACKET then
      NonEofBeforeEnd(ts, i);
      match Value(ts, i + 1)
      case Err(_) => []
      case Ok((_, e)) => Commas(ts, e, [])
    else []
  }

  /** string := QUOTED_STRING, whose image loses its first and last character and nothing else. */
  function QuotedString(ts: seq<Token>, i: nat): (r: Parsed)
    requires WellFormed(ts)
    ensures At(ts, i).kind == QUOTED_STRING && |At(ts, i).image| >= 2 ==> r.Ok?
    ensures r.Ok? ==> r.value.1 == i + 1 < |ts| && At(ts, i).kind == QUOTED_STRING
    ensures r.Ok? ==> r.value.0.Str? && |At(ts, i).image| >= 2
                      && At(ts, i).image == [At(ts, i).image[0]] + r.value.0.s + [At(ts, i).image[|At(ts, i).image| - 1]]
    ensures r.Err? ==> (r.error == Fault(i, Unexpected) <==> At(ts, i).kind != QUOTED_STRING)
    ensures r.Err? ==> (r.error == Fault(i + 1, BadQuotes(At(ts, i).image)) <==> At(ts, i).kind == QUOTED_STRING)
  {
    var t := At(ts, i);
    if t.kind != QUOTED_STRING then Err(Fault(i, Unexpected))
    else
      NonEofBeforeEnd(ts, i);
      if |t.image| < 2 then Err(Fault(i + 1, BadQuotes(t.image)))
      else
        assert t.image == [t.image[0]] + t.image[1..|t.image| - 1] + [t.image[|t.image| - 1]];
        Ok((Str(t.image[1..|t.image| - 1]), i + 1))
  }

  /** number := INTEGER_LITERAL (via Long.parseLong) | FLOATING_POINT_LITERAL (text kept). */
  function Number(ts: seq<Token>, i: nat): (r: Parsed)
    requires WellFormed(ts)
    ensures r.Ok? ==> r.value.1 == i + 1 < |ts|
    ensures r.Ok? && At(ts, i).kind == INTEGER_LITERAL ==>
      ParseLong(At(ts, i).image).Some? && r.value.0 == Long(ParseLong(At(ts, i).image).value)
    ensures r.Ok? ==> At(ts, i).kind == INTEGER_LITERAL || At(ts, i).kind == FLOATING_POINT_LITERAL
    ensures r.Ok? && At(ts, i).kind != INTEGER_LITERAL ==> r.value.0 == Double(At(ts, i).image)
    ensures At(ts, i).kind == FLOATING_POINT_LITERAL ==> r.Ok?
    ensures At(ts, i).kind == INTEGER_LITERAL && ParseLong(At(ts, i).image).Some? ==> r.Ok?
    ensures r.Err? ==> (r.error == Fault(i, Unexpected) <==> At(ts, i).kind != INTEGER_LITERAL && At(ts, i).kind != FLOATING_POINT_LITERAL)
    ensures r.Err? && r.error != Fault(i, Unexpected) ==> r.error == Fault(i + 1, BadLong(At(ts, i).image)) && ParseLong(At(ts, i).image).None?
  {
    var t := At(ts, i);
    if t.kind == INTEGER_LITERAL then
      NonEofBeforeEnd(ts, i);
      match ParseLong(t.image)
      case Some(n) => Ok((Long(n), i + 1))
      case None => Err(Fault(i + 1, BadLong(t.image)))
    else if t.kind == FLOATING_POINT_LITERAL then
      NonEofBeforeEnd(ts, i);
      Ok((Double(t.image), i + 1))
    else Err(Fault(i, Unexpected))
  }

  /** boolVal := BOOL_LITERAL, whose value is Boolean.parseBoolean of its image. */
  function BoolVal(ts: seq<Token>, i: nat): (r: Parsed)
    requires WellFormed(ts)
    ensures r.Ok? ==> r.value.1 == i + 1 < |ts|
    ensures r.Ok? ==> r.value.0 == Bool(EqualsIgnoreCase(At(ts, i).image, "true"))
    ensures r.Err? <==> At(ts, i).kind != BOOL_LITERAL
    ensures r.Err? ==> r.error == Fault(i, Unexpected)
  {
    var t := At(ts, i);
    if t.kind != BOOL_LITERAL then Err(Fault(i, Unexpected))
    else
      NonEofBeforeEnd(ts, i);
      Ok((Bool(ParseBoolean(t.image)), i + 1))
  }

  /** nullVal := NULL, giving the null reference. */
  function NullVal(ts: seq<Token>, i: nat): (r: Parsed)
    requires WellFormed(ts)
    ensures r.Ok? ==> r.value == (Null, i + 1) && i + 1 < |ts|
    ensures r.Err? <==> At(ts, i).kind != NULL
    ensures r.Err? ==> r.error == Fault(i, Unexpected)
  {
    if At(ts, i).kind != NULL then Err(Fault(i, Unexpected))
    else
      NonEofBeforeEnd(ts, i);
      Ok((Null, i + 1))
  }

  /** A first pair that fails to parse ends object with its fault. */
  lemma ObjectStop(ts: seq<Token>, i: nat)
    requires WellFormed(ts) && At(ts, i).kind == LBRACE && Pair(ts, i + 1).Err?
    ensures Object(ts, i) == Err(Pair(ts, i + 1).error)
  {
  }

  /** After '{' and a first pair that parses, object continues with its loop from that pair alone. */
  lemma ObjectNext(ts: seq<Token>, i: nat, key: string, v: Json, e: nat)
    requires WellFormed(ts) && At(ts, i).kind == LBRACE && Pair(ts, i + 1) == Ok(((key, v), e))
    ensures Object(ts, i) == ObjectOf(Members(ts, e, map[key := v]))
  {
  }

  /** One step of object's loop: a ',' followed by a pair that parses. */
  lemma MembersNext(ts: seq<Token>, j: nat, m: map<string, Json>, key: string, v: Json, e: nat)
    requires WellFormed(ts) && At(ts, j).kind == COMMA && Pair(ts, j + 1) == Ok(((key, v), e))
    ensures Members(ts, j, m) == Members(ts, e, m[key := v])
  {
  }

  /** Object's loop ends at a lookahead other than ',': '}' closes the object, anything else is an error. */
  lemma MembersClose(ts: seq<Token>, j: nat, m: map<string, Json>)
    requires WellFormed(ts) && At(ts, j).kind != COMMA
    ensures Members(ts, j, m) == if At(ts, j).kind == RBRACE then Ok((m, j + 1)) else Err(Fault(j, Unexpected))
  {
  }

  /** A pair after ',' that fails to parse ends object's loop with its fault. */
  lemma MembersStop(ts: seq<Token>, j: nat, m: map<string, Json>)
    requires WellFormed(ts) && At(ts, j).kind == COMMA && Pair(ts, j + 1).Err?
    ensures Members(ts, j, m) == Err(Pair(ts, j + 1).error)
  {
  }

  /** A first value that fails to parse ends list with its fault. */
  lemma ListStop(ts: seq<Token>, i: nat)
    requires WellFormed(ts) && At(ts, i).kind == LBRACKET && Value(ts, i + 1).Err?
    ensures List(ts, i) == Err(Value(ts, i + 1).error)
  {
  }

  /** After '[' and a first value that parses, list continues with its loop from that value alone. */
  lemma ListNext(ts: seq<Token>, i: nat, v: Json, e: nat)
    requires WellFormed(ts) && At(ts, i).kind == LBRACKET && Value(ts, i + 1) == Ok((v, e))
    ensures List(ts, i) == ListOf(Elements(ts, e, [v]))
  {
  }

  /** One step of list's loop: a ',' followed by a value that parses. */
  lemma ElementsNext(ts: seq<Token>, j: nat, xs: seq<Json>, v: Json, e: nat)
    requires WellFormed(ts) && At(ts, j).kind == COMMA && Value(ts, j + 1) == Ok((v, e))
    ensures Elements(ts, j, xs) == Elements(ts, e, xs + [v])
  {
  }

  /** List's loop ends at a lookahead other than ',': ']' closes the array, anything else is an error. */
  lemma ElementsClose(ts: seq<Token>, j: nat, xs: seq<Json>)
    requires WellFormed(ts) && At(ts, j).kind != COMMA
    ensures Elements(ts, j, xs) == if At(ts, j).kind == RBRACKET then Ok((xs, j + 1)) else Err(Fault(j, Unexpected))
  {
  }

  /** A value after ',' that fails to parse ends list's loop with its fault. */
  lemma ElementsStop(ts: seq<Token>, j: nat, xs: seq<Json>)
    requires WellFormed(ts) && At(ts, j).kind == COMMA && Value(ts, j + 1).Err?
    ensures Elements(ts, j, xs) == Err(Value(ts, j + 1).error)
  {
  }

  /** The commas of list at `i` are those of its loop from the end of its first value. */
  lemma ListCommasNext(ts: seq<Token>, i: nat, v: Json, e: nat)
    requires WellFormed(ts) && At(ts, i).kind == LBRACKET && Value(ts, i + 1) == Ok((v, e))
    ensures ListCommas(ts, i) == Commas(ts, e, [])
  {
  }

  /** A ',' whose value parses adds its position to the commas of list's loop. */
  lemma CommasNext(ts: seq<Token>, j: nat, acc: seq<nat>, v: Json, e: nat)
    requires WellFormed(ts) && At(ts, j).kind == COMMA && Value(ts, j + 1) == Ok((v, e))
    ensures Commas(ts, j, acc) == Commas(ts, e, acc + [j])
  {
  }

  /** List's loop consumes no more commas at a lookahead other than ','. */
  lemma CommasStop(ts: seq<Token>, j: nat, acc: seq<nat>)
    requires WellFormed(ts) && At(ts, j).kind != COMMA
    ensures Commas(ts, j, acc) == acc
  {
  }

  /**
   * From `lo` to `hi` the tokens are ( ',' value )*: the commas stand at the
   * positions `seps`, the first at `lo` and each later one where the value
   * before it ends, and `vals` are the values read after them, in order.
   */
  ghost predicate Separated(ts: seq<Token>, lo: nat, seps: seq<nat>, vals: seq<Json>, hi: nat)
    requires WellFormed(ts)
    decreases |seps|
  {
    if |seps| == 0 then |vals| == 0 && hi == lo
    else
      && |vals| > 0 && seps[0] == lo && At(ts, lo).kind == COMMA
      && Value(ts, lo + 1).Ok? && Value(ts, lo + 1).value.0 == vals[0]
      && Separated(ts, Value(ts, lo + 1).value.1, seps[1..], vals[1..], hi)
  }
}
