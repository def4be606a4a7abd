/**
 * The generated recursive-descent JSON parser: a class that reads a token
 * sequence with one token of lookahead and builds the element tree. Each
 * production is a method that changes the parser's token bookkeeping step by
 * step, and is proved to compute what the matching function of JsonGrammar
 * specifies.
 */
module JsonParser {
  import opened Wrappers
  import opened JsonTokens
  import opened JavaText
  import opened JsonExpected
  import G = JsonGrammar

  /** What a parse throws. */
  datatype ParseError =
    | Syntax(current: Token, expected: seq<int>)  // ParseException(token, expected kinds); the offending token is the one after `current`
    | NumberFormat(image: string)                 // NumberFormatException from Long.parseLong
    | StringIndex(image: string)                  // StringIndexOutOfBoundsException from string()'s substring

  /** The token at index `p`; index -1 is the placeholder token the parser starts on. */
  function TokenAt(ts: seq<Token>, p: int): Token
    requires |ts| > 0
  {
    if p < 0 then START_TOKEN else At(ts, p)
  }

  /** The grammar's fault for an error thrown while the lookahead is at position `p`. */
  function FaultOf(e: ParseError, p: nat): G.Fault
  {
    G.Fault(p, CauseOf(e))
  }

  /** The grammar's cause for each exception the parser throws. */
  function CauseOf(e: ParseError): G.Cause
  {
    match e
    case Syntax(_, _) => G.Unexpected
    case NumberFormat(img) => G.BadLong(img)
    case StringIndex(img) => G.BadQuotes(img)
  }

  class Parser {
    /** The token source's output. */
    var tokens: seq<Token>
    /** Index of `token`, the last token consumed (-1 for the placeholder). */
    var cur: int
    /** Index of `jj_nt`, the lookahead token. */
    var nt: nat
    /** jj_gen: the number of tokens consumed so far. */
    var gen: int
    /** jj_la1: for each choice point, the generation at which it was last passed without a match. */
    const la1: array<int>
    /** jj_kind: the kind a failed consume asked for, -1 when none is pending. */
    var kind: int

    ghost predicate Valid()
      reads this, la1
    {
      && WellFormed(tokens)
      && cur == nt - 1
      && la1.Length == 4
      && -1 <= kind < KIND_COUNT
      && forall i :: 0 <= i < 4 ==> la1[i] <= gen
    }

    /**
     * No choice point has been passed at the current generation: true after
     * initialisation and after every token consumed.
     */
    ghost predicate Settled()
      reads this, la1
    {
      la1.Length == 4 && forall i :: 0 <= i < 4 ==> la1[i] < gen
    }

    /** The constructors taking a Reader, an InputStream or a token manager: initialisation only. */
    constructor (ts: seq<Token>)
      requires WellFormed(ts)
      ensures Valid() && Settled() && fresh(la1)
      ensures tokens == ts && cur == -1 && nt == 0 && gen == 0 && kind == -1
      ensures forall i :: 0 <= i < 4 ==> la1[i] == -1
    {
      tokens := ts;
      cur, nt := -1, 0;
      gen := 0;
      kind := -1;
      var a := new int[4];
      for i := 0 to 4
        invariant forall j :: 0 <= j < i ==> a[j] == -1
      {
        a[i] := -1;
      }
      la1 := a;
    }

    /** ReInit: start over on a new token source; jj_kind is left as it is. */
    method ReInit(ts: seq<Token>)
      requires Valid() && WellFormed(ts)
      modifies this, la1
      ensures Valid() && Settled()
      ensures tokens == ts && cur == -1 && nt == 0 && gen == 0 && kind == old(kind)
      ensures forall i :: 0 <= i < 4 ==> la1[i] == -1
    {
      for i := 0 to 4
        modifies la1
        invariant forall j :: 0 <= j < i ==> la1[j] == -1
      {
        la1[i] := -1;
      }
      tokens := ts;
      cur, nt := -1, 0;
      gen := 0;
    }

    /** parse: one value, with no check that the input ends after it. */
    method Parse() returns (r: Result<G.Json, ParseError>)
      requires Valid()
      modifies this, la1
      ensures Valid() && tokens == old(tokens)
      ensures r.Ok? ==> G.Value(tokens, old(nt)) == Ok((r.value, nt))
      ensures r.Err? ==> G.Value(tokens, old(nt)) == Err(FaultOf(r.error, nt))
      ensures r.Err? && r.error.Syntax? ==> r.error.current == TokenAt(tokens, nt - 1)
      ensures r.Ok? ==> Settled()
      ensures old(Settled()) && !G.IsValueStart(At(tokens, old(nt)).kind) ==>
                r == Err(Syntax(TokenAt(tokens, old(nt) - 1), VALUE_STARTS)) && nt == old(nt) && gen == old(gen)
    {
      r := JsonValue(Settled());
    }

    /**
     * jsonValue: pick the production from the lookahead kind alone. The ghost
     * `settled` says that no choice point is marked at the current generation;
     * then a lookahead that starts no value is reported with exactly the
     * value-start kinds as expected.
     */
    method JsonValue(ghost settled: bool) returns (r: Result<G.Json, ParseError>)
      requires Valid() && (settled ==> Settled())
      modifies this, la1
      decreases Rem(tokens, nt), 1
      ensures Valid() && tokens == old(tokens)
      ensures r.Ok? ==> G.Value(tokens, old(nt)) == Ok((r.value, nt))
      ensures r.Err? ==> G.Value(tokens, old(nt)) == Err(FaultOf(r.error, nt))
      ensures r.Err? && r.error.Syntax? ==> r.error.current == TokenAt(tokens, nt - 1)
      ensures r.Ok? ==> Settled()
      ensures settled && !G.IsValueStart(At(tokens, old(nt)).kind) ==>
                r == Err(Syntax(TokenAt(tokens, old(nt) - 1), VALUE_STARTS)) && nt == old(nt) && gen == old(gen)
    {
      var k := At(tokens, nt).kind;
      if k == LBRACE {
        r := Object();
      } else if k == LBRACKET {
        ghost var seps;
        r, seps := List();
      } else if k == QUOTED_STRING {
        r := QuotedString();
      } else if k == INTEGER_LITERAL || k == FLOATING_POINT_LITERAL {
        r := Number();
      } else if k == BOOL_LITERAL {
        r := BoolVal();
      } else if k == NULL {
        r := NullVal();
      } else {
        la1[0] := gen;
        var t := ConsumeToken(-1);
        assert t.Err?;
        if settled {
          OnlyChoicePoint(0, la1[..], gen, t.error.expected);
        }
        r := Err(t.error);
      }
    }

    /** object: '{' pair ( ',' pair )* '}', putting each pair into the object in order. */
    method Object() returns (r: Result<G.Json, ParseError>)
      requires Valid()
      modifies this, la1
      decreases Rem(tokens, nt), 0
      ensures Valid() && tokens == old(tokens)
      ensures r.Ok? ==> G.Object(tokens, old(nt)) == Ok((r.value, nt))
      ensures r.Err? ==> G.Object(tokens, old(nt)) == Err(FaultOf(r.error, nt))
      ensures r.Err? && r.error.Syntax? ==> r.error.current == TokenAt(tokens, nt - 1)
      ensures r.Ok? ==> Settled()
    {
      var t := ConsumeToken(LBRACE);
      if t.Err? {
        return Err(t.error);
      }
      ghost var i := old(nt);
      var pair := Pair();
      if pair.Err? {
        G.ObjectStop(tokens, i);
        return Err(pair.error);
      }
      var key, value := pair.value.0, pair.value.1;
      G.ObjectNext(tokens, i, key, value, nt);
      var rest := Members(map[key := value]);
      if rest.Err? {
        return Err(rest.error);
      }
      var obj := rest.value;
      G.MembersClose(tokens, nt, obj);
      var t' := ConsumeToken(RBRACE);
      if t'.Err? {
        return Err(t'.error);
      }
      r := Ok(G.Obj(obj));
    }

    /**
     * The loop of object after its first pair: while the lookahead is ',' read
     * one more pair and put it into the object, which starts as `members`. It
     * stops at the first other lookahead, from which the closing '}' is due.
     */
    method Members(members: map<string, G.Json>) returns (r: Result<map<string, G.Json>, ParseError>)
      requires Valid()
      modifies this, la1
      decreases Rem(tokens, nt), 0
      ensures Valid() && tokens == old(tokens)
      ensures r.Ok? ==> At(tokens, nt).kind != COMMA
      ensures r.Ok? ==> G.Members(tokens, old(nt), members) == G.Members(tokens, nt, r.value)
      ensures r.Err? ==> G.Members(tokens, old(nt), members) == Err(FaultOf(r.error, nt))
      ensures r.Err? && r.error.Syntax? ==> r.error.current == TokenAt(tokens, nt - 1)
    {
      var obj := members;
      while At(tokens, nt).kind == COMMA
        invariant Valid() && tokens == old(tokens)
        invariant G.Members(tokens, old(nt), members) == G.Members(tokens, nt, obj)
        decreases Rem(tokens, nt)
      {
        ghost var j := nt;
        var t := ConsumeToken(COMMA);
        var pair := Pair();
        if pair.Err? {
          G.MembersStop(tokens, j, obj);
          return Err(pair.error);
        }
        var key, value := pair.value.0, pair.value.1;
        G.MembersNext(tokens, j, obj, key, value, nt);
        obj := obj[key := value];
      }
      la1[1] := gen;
      r := Ok(obj);
    }

    /**
     * The STRING ':' value step that object performs before its loop and in
     * each iteration: the key without its quotes, and the value.
     */
    method Pair() returns (r: Result<(string, G.Json), ParseError>)
      requires Valid()
      modifies this, la1
      decreases Rem(tokens, nt), 0
      ensures Valid() && tokens == old(tokens)
      ensures r.Ok? ==> G.Pair(tokens, old(nt)) == Ok((r.value, nt))
      ensures r.Err? ==> G.Pair(tokens, old(nt)) == Err(FaultOf(r.error, nt))
      ensures r.Err? && r.error.Syntax? ==> r.error.current == TokenAt(tokens, nt - 1)
      ensures r.Ok? ==> Settled()
    {
      var key := QuotedString();
      if key.Err? {
        return Err(key.error);
      }
      var t := ConsumeToken(COLON);
      if t.Err? {
        return Err(t.error);
      }
      var value := JsonValue(false);
      if value.Err? {
        return Err(value.error);
      }
      r := Ok((key.value.s, value.value));
    }

    /**
     * list: '[' value ( ',' value )* ']', adding each value to the array in
     * order; `seps` are the positions of the separating ',' tokens consumed,
     * those of `ListCommas` (JsonProperties.ListSeparated lays them out).
     */
    method List() returns (r: Result<G.Json, ParseError>, ghost seps: seq<nat>)
      requires Valid()
      modifies this, la1
      decreases Rem(tokens, nt), 0
      ensures Valid() && tokens == old(tokens)
      ensures r.Ok? ==> G.List(tokens, old(nt)) == Ok((r.value, nt))
      ensures r.Err? ==> G.List(tokens, old(nt)) == Err(FaultOf(r.error, nt))
      ensures r.Err? && r.error.Syntax? ==> r.error.current == TokenAt(tokens, nt - 1)
      ensures r.Ok? ==> Settled()
      ensures r.Ok? ==> r.value.Arr? && |r.value.elems| == |seps| + 1
      ensures r.Ok? ==> At(tokens, old(nt)).kind == LBRACKET && At(tokens, nt - 1).kind == RBRACKET
      ensures r.Ok? ==> seps == G.ListCommas(tokens, old(nt))
    {
      seps := [];
      var t := ConsumeToken(LBRACKET);
      if t.Err? {
        r := Err(t.error);
        return;
      }
      ghost var i := old(nt);
      var value := JsonValue(false);
      if value.Err? {
        G.ListStop(tokens, i);
        r := Err(value.error);
        return;
      }
      var first := value.value;
      G.ListNext(tokens, i, first, nt);
      G.ListCommasNext(tokens, i, first, nt);
      var elems;
      elems, seps := Elements([first]);
      if elems.Err? {
        r := Err(elems.error);
        return;
      }
      var arr := elems.value;
      G.ElementsClose(tokens, nt, arr);
      var t' := ConsumeToken(RBRACKET);
      if t'.Err? {
        r := Err(t'.error);
        return;
      }
      r := Ok(G.Arr(arr));
    }

    /**
     * The loop of list after its first value: while the lookahead is ',' read
     * one more value and add it after `done`; `seps` are the positions of
     * the ',' tokens consumed, the first at the starting lookahead and each
     * later one where the previous value ends. It stops at the first other
     * lookahead, from which the closing ']' is due.
     */
    method Elements(done: seq<G.Json>) returns (r: Result<seq<G.Json>, ParseError>, ghost seps: seq<nat>)
      requires Valid()
      modifies this, la1
      decreases Rem(tokens, nt), 0
      ensures Valid() && tokens == old(tokens)
      ensures r.Ok? ==> At(tokens, nt).kind != COMMA
      ensures r.Ok? ==> G.Elements(tokens, old(nt), done) == G.Elements(tokens, nt, r.value)
      ensures r.Err? ==> G.Elements(tokens, old(nt), done) == Err(FaultOf(r.error, nt))
      ensures r.Err? && r.error.Syntax? ==> r.error.current == TokenAt(tokens, nt - 1)
      ensures r.Ok? ==> |r.value| == |done| + |seps|
      ensures r.Ok? ==> seps == G.Commas(tokens, old(nt), [])
    {
      var elems := done;
      seps := [];
      while At(tokens, nt).kind == COMMA
        invariant Valid() && tokens == old(tokens)
        invariant G.Elements(tokens, old(nt), done) == G.Elements(tokens, nt, elems)
        invariant |elems| == |done| + |seps|
        invariant G.Commas(tokens, old(nt), []) == G.Commas(tokens, nt, seps)
        decreases Rem(tokens, nt)
      {
        ghost var j := nt;
        var t := ConsumeToken(COMMA);
        var value := JsonValue(false);
        if value.Err? {
          G.ElementsStop(tokens, j, elems);
          r := Err(value.error);
          return;
        }
        G.ElementsNext(tokens, j, elems, value.value, nt);
        G.CommasNext(tokens, j, seps, value.value, nt);
        elems, seps := elems + [value.value], seps + [j];
      }
      la1[2] := gen;
      G.CommasStop(tokens, nt, seps);
      r := Ok(elems);
    }

    /** nullVal: consume NULL and return the null reference. */
    method NullVal() returns (r: Result<G.Json, ParseError>)
      requires Valid()
      modifies this
      ensures Valid() && tokens == old(tokens)
      ensures r.Ok? ==> G.NullVal(tokens, old(nt)) == Ok((r.value, nt))
      ensures r.Err? ==> G.NullVal(tokens, old(nt)) == Err(FaultOf(r.error, nt))
      ensures r.Err? && r.error.Syntax? ==> r.error.current == TokenAt(tokens, nt - 1)
      ensures r.Ok? ==> Settled()
    {
      var t := ConsumeToken(NULL);
      if t.Err? {
        return Err(t.error);
      }
      r := Ok(G.Null);
    }

    /** boolVal: consume BOOL_LITERAL; its value is Boolean.parseBoolean of the image. */
    method BoolVal() returns (r: Result<G.Json, ParseError>)
      requires Valid()
      modifies this
      ensures Valid() && tokens == old(tokens)
      ensures r.Ok? ==> G.BoolVal(tokens, old(nt)) == Ok((r.value, nt))
      ensures r.Err? ==> G.BoolVal(tokens, old(nt)) == Err(FaultOf(r.error, nt))
      ensures r.Err? && r.error.Syntax? ==> r.error.current == TokenAt(tokens, nt - 1)
      ensures r.Ok? ==> Settled()
    {
      var t := ConsumeToken(BOOL_LITERAL);
      if t.Err? {
        return Err(t.error);
      }
      r := Ok(G.Bool(ParseBoolean(t.value.image)));
    }

    /** number: INTEGER_LITERAL through Long.parseLong, or FLOATING_POINT_LITERAL kept as text. */
    method Number() returns (r: Result<G.Json, ParseError>)
      requires Valid()
      modifies this, la1
      ensures Valid() && tokens == old(tokens)
      ensures r.Ok? ==> G.Number(tokens, old(nt)) == Ok((r.value, nt))
      ensures r.Err? ==> G.Number(tokens, old(nt)) == Err(FaultOf(r.error, nt))
      ensures r.Err? && r.error.Syntax? ==> r.error.current == TokenAt(tokens, nt - 1)
      ensures r.Ok? ==> Settled()
      ensures old(Settled()) && At(tokens, old(nt)).kind != INTEGER_LITERAL && At(tokens, old(nt)).kind != FLOATING_POINT_LITERAL ==>
                r == Err(Syntax(TokenAt(tokens, old(nt) - 1), NUMBER_STARTS)) && nt == old(nt) && gen == old(gen)
    {
      var k := At(tokens, nt).kind;
      if k == INTEGER_LITERAL {
        var t := ConsumeToken(INTEGER_LITERAL);
        var n := ParseLong(t.value.image);
        if n.None? {
          return Err(NumberFormat(t.value.image));
        }
        r := Ok(G.Long(n.value));
      } else if k == FLOATING_POINT_LITERAL {
        var t := ConsumeToken(FLOATING_POINT_LITERAL);
        r := Ok(G.Double(t.value.image));
      } else {
        ghost var wasSettled := Settled();
        la1[3] := gen;
        var t := ConsumeToken(-1);
        assert t.Err?;
        if wasSettled {
          OnlyChoicePoint(3, la1[..], gen, t.error.expected);
        }
        r := Err(t.error);
      }
    }

    /** string: consume QUOTED_STRING and drop the image's first and last character. */
    method QuotedString() returns (r: Result<G.Json, ParseError>)
      requires Valid()
      modifies this
      ensures Valid() && tokens == old(tokens)
      ensures r.Ok? ==> G.QuotedString(tokens, old(nt)) == Ok((r.value, nt))
      ensures r.Err? ==> G.QuotedString(tokens, old(nt)) == Err(FaultOf(r.error, nt))
      ensures r.Err? && r.error.Syntax? ==> r.error.current == TokenAt(tokens, nt - 1)
      ensures r.Ok? ==> Settled()
    {
      var t := ConsumeToken(QUOTED_STRING);
      if t.Err? {
        return Err(t.error);
      }
      var image := t.value.image;
      if |image| < 2 {
        return Err(StringIndex(image));
      }
      r := Ok(G.Str(image[1..|image| - 1]));
    }

    /**
     * jj_consume_token: take the lookahead if it has kind `k`, advancing by one
     * token and one generation; otherwise put the lookahead back and throw,
     * reporting `k` and the choice points passed at this generation.
     */
    method ConsumeToken(k: int) returns (r: Result<Token, ParseError>)
      requires Valid() && -1 <= k < KIND_COUNT
      modifies this
      ensures Valid() && tokens == old(tokens)
      ensures At(tokens, old(nt)).kind == k ==>
                r == Ok(At(tokens, old(nt))) && nt == old(nt) + 1 && gen == old(gen) + 1 && kind == old(kind)
      ensures At(tokens, old(nt)).kind != k ==>
                && nt == old(nt) && gen == old(gen) && kind == -1
                && r.Err? && r.error.Syntax? && r.error.current == TokenAt(tokens, cur)
                && StrictlyAscending(r.error.expected)
                && (forall x :: x in r.error.expected <==> IsExpected(k, la1[..], gen, x))
      ensures r.Ok? ==> Settled() && (k != EOF ==> nt < |tokens|)
      ensures r.Err? && 0 <= k && old(Settled()) ==> r.error.expected == [k]
    {
      var oldToken := cur;
      cur := nt;
      nt := nt + 1;
      if At(tokens, cur).kind == k {
        gen := gen + 1;
        if k != EOF {
          NonEofBeforeEnd(tokens, cur);
        }
        return Ok(At(tokens, cur));
      }
      nt := cur;
      cur := oldToken;
      kind := k;
      var e := GenerateParseException();
      if 0 <= k && old(Settled()) {
        OnlyRequiredKind(k, la1[..], gen, e.expected);
      }
      r := Err(e);
    }

    /** getNextToken: consume the lookahead whatever its kind. */
    method GetNextToken() returns (t: Token)
      requires Valid()
      modifies this
      ensures Valid() && tokens == old(tokens) && kind == old(kind)
      ensures t == At(tokens, old(nt)) && cur == old(nt) && nt == old(nt) + 1 && gen == old(gen) + 1
    {
      cur := nt;
      nt := nt + 1;
      gen := gen + 1;
      t := At(tokens, cur);
    }

    /** getToken: the token `index` places after `token` (`token` itself for index <= 0), changing nothing. */
    method GetToken(index: int) returns (t: Token)
      requires Valid()
      ensures t == TokenAt(tokens, if index > 0 then cur + index else cur)
      ensures index >= 1 ==> t == At(tokens, nt + index - 1)
    {
      var p := cur;
      t := TokenAt(tokens, p);
      var i := 0;
      while i < index
        invariant 0 <= i <= (if index > 0 then index else 0)
        invariant p == cur + i && t == TokenAt(tokens, p)
      {
        p := p + 1;
        t := TokenAt(tokens, p);
        i := i + 1;
      }
    }

    /** generateParseException: report the expected kinds and clear jj_kind. */
    method GenerateParseException() returns (e: ParseError)
      requires Valid()
      modifies this
      ensures Valid() && kind == -1
      ensures tokens == old(tokens) && cur == old(cur) && nt == old(nt) && gen == old(gen)
      ensures e.Syntax? && e.current == TokenAt(tokens, cur)
      ensures StrictlyAscending(e.expected)
      ensures forall x :: x in e.expected <==> IsExpected(old(kind), la1[..], gen, x)
    {
      var expected := ExpectedKinds(kind, la1[..], gen);
      kind := -1;
      e := Syntax(TokenAt(tokens, cur), expected);
    }
  }
}
