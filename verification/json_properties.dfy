/**
 * Properties of the JSON grammar that the generated parser follows: what it
 * rejects, what shape of element each lookahead kind yields, that objects and
 * arrays are never empty, that a later pair with the same key replaces an
 * earlier one, and that a parse reads no further than where it ends or fails.
 */
module JsonProperties {
  import opened Wrappers
  import opened JsonTokens
  import opened JsonGrammar

  /** Reading `ts` and `us` gives the same token at every position in [lo, hi). */
  ghost predicate Agree(ts: seq<Token>, us: seq<Token>, lo: nat, hi: nat)
    requires |ts| > 0 && |us| > 0
  {
    forall p :: lo <= p < hi ==> At(ts, p) == At(us, p)
  }

  /** The element a value parses to is decided by the kind of its first token. */
  lemma ValueShape(ts: seq<Token>, i: nat)
    requires WellFormed(ts) && Value(ts, i).Ok?
    ensures var v := Value(ts, i).value.0;
            var k := At(ts, i).kind;
            && (v.Obj? <==> k == LBRACE)
            && (v.Arr? <==> k == LBRACKET)
            && (v.Str? <==> k == QUOTED_STRING)
            && (v.Long? <==> k == INTEGER_LITERAL)
            && (v.Double? <==> k == FLOATING_POINT_LITERAL)
            && (v.Bool? <==> k == BOOL_LITERAL)
            && (v.Null? <==> k == NULL)
  {
    var k := At(ts, i).kind;
    if k == LBRACE {
      assert Value(ts, i) == Object(ts, i);
    } else if k == LBRACKET {
      assert Value(ts, i) == List(ts, i);
    }
  }

  /** '{' directly followed by '}' is a syntax error at the '}': an object needs a pair. */
  lemma EmptyObjectRejected(ts: seq<Token>, i: nat)
    requires WellFormed(ts) && At(ts, i).kind == LBRACE && At(ts, i + 1).kind == RBRACE
    ensures Value(ts, i) == Err(Fault(i + 1, Unexpected))
  {
    assert Pair(ts, i + 1) == Err(Fault(i + 1, Unexpected));
  }

  /** '[' directly followed by ']' is a syntax error at the ']': a list needs a value. */
  lemma EmptyListRejected(ts: seq<Token>, i: nat)
    requires WellFormed(ts) && At(ts, i).kind == LBRACKET && At(ts, i + 1).kind == RBRACKET
    ensures Value(ts, i) == Err(Fault(i + 1, Unexpected))
  {
    assert Value(ts, i + 1) == Err(Fault(i + 1, Unexpected));
  }

  /** A ',' directly followed by '}' inside an object is a syntax error at the '}'. */
  lemma TrailingCommaInObjectRejected(ts: seq<Token>, j: nat, m: map<string, Json>)
    requires WellFormed(ts) && At(ts, j).kind == COMMA && At(ts, j + 1).kind == RBRACE
    ensures Members(ts, j, m) == Err(Fault(j + 1, Unexpected))
  {
    assert Pair(ts, j + 1) == Err(Fault(j + 1, Unexpected));
  }

  /** A ',' directly followed by ']' inside a list is a syntax error at the ']'. */
  lemma TrailingCommaInListRejected(ts: seq<Token>, j: nat, xs: seq<Json>)
    requires WellFormed(ts) && At(ts, j).kind == COMMA && At(ts, j + 1).kind == RBRACKET
    ensures Elements(ts, j, xs) == Err(Fault(j + 1, Unexpected))
  {
    assert Value(ts, j + 1) == Err(Fault(j + 1, Unexpected));
  }

  /** Every key already put stays in the object until its '}'. */
  lemma {:induction false} MembersKeepsKeys(ts: seq<Token>, j: nat, m: map<string, Json>)
    requires WellFormed(ts) && Members(ts, j, m).Ok?
    ensures m.Keys <= Members(ts, j, m).value.0.Keys
    decreases Rem(ts, j)
  {
    if At(ts, j).kind == COMMA {
      NonEofBeforeEnd(ts, j);
      var pair := Pair(ts, j + 1).value;
      MembersKeepsKeys(ts, pair.1, m[pair.0.0 := pair.0.1]);
    }
  }

  /** A parsed object holds the key of its first pair, so it is never empty. */
  lemma ObjectNotEmpty(ts: seq<Token>, i: nat)
    requires WellFormed(ts) && Object(ts, i).Ok?
    ensures Pair(ts, i + 1).Ok?
    ensures Pair(ts, i + 1).value.0.0 in Object(ts, i).value.0.members
    ensures |Object(ts, i).value.0.members| >= 1
  {
    NonEofBeforeEnd(ts, i);
    var pair := Pair(ts, i + 1).value;
    var first := map[pair.0.0 := pair.0.1];
    MembersKeepsKeys(ts, pair.1, first);
    var members := Object(ts, i).value.0.members;
    assert pair.0.0 in members.Keys;
    assert |members.Keys| >= 1 by {
      assert {pair.0.0} <= members.Keys;
    }
  }

  /**
   * The pair read last decides a key's value: when an object's final pair is
   * (key, v), the object maps key to v whatever came before.
   */
  lemma LastPairWins(ts: seq<Token>, j: nat, m: map<string, Json>, key: string, v: Json, e: nat)
    requires WellFormed(ts) && At(ts, j).kind == COMMA && Pair(ts, j + 1) == Ok(((key, v), e))
    requires At(ts, e).kind == RBRACE
    ensures Members(ts, j, m) == Ok((m[key := v], e + 1))
    ensures Members(ts, j, m).value.0[key] == v
  {
    MembersNext(ts, j, m, key, v, e);
    MembersClose(ts, e, m[key := v]);
  }

  /**
   * The pairs after an object's first one build the same map whatever the
   * object already holds, and put it over that content: the result is `m`
   * overridden by the pairs read from scratch, with the same end or the same
   * fault.
   */
  lemma {:induction false} MembersOverride(ts: seq<Token>, j: nat, m: map<string, Json>)
    requires WellFormed(ts)
    ensures Members(ts, j, m).Ok? <==> Members(ts, j, map[]).Ok?
    ensures Members(ts, j, m).Ok? ==>
              Members(ts, j, m).value == (m + Members(ts, j, map[]).value.0, Members(ts, j, map[]).value.1)
    ensures Members(ts, j, m).Err? ==> Members(ts, j, m).error == Members(ts, j, map[]).error
    decreases Rem(ts, j)
  {
    if At(ts, j).kind != COMMA {
      MembersClose(ts, j, m);
      MembersClose(ts, j, map[]);
      assert m + map[] == m;
    } else if Pair(ts, j + 1).Err? {
      MembersStop(ts, j, m);
      MembersStop(ts, j, map[]);
    } else {
      NonEofBeforeEnd(ts, j);
      var key, v, e := Pair(ts, j + 1).value.0.0, Pair(ts, j + 1).value.0.1, Pair(ts, j + 1).value.1;
      var one := map[key := v];
      assert map[][key := v] == one;
      MembersNext(ts, j, m, key, v, e);
      MembersNext(ts, j, map[], key, v, e);
      MembersOverride(ts, e, m[key := v]);
      MembersOverride(ts, e, one);
      OverrideAfterPut(Members(ts, e, m[key := v]), Members(ts, e, one), Members(ts, e, map[]), m, key, v);
    }
  }

  /**
   * The step of MembersOverride: when the loop's rest, from `m` with one more
   * pair put and from that pair alone, is the rest from scratch put over each,
   * the first is the second put over `m`.
   */
  lemma OverrideAfterPut(withM: Result<(map<string, Json>, nat), Fault>, withOne: Result<(map<string, Json>, nat), Fault>,
                         scratch: Result<(map<string, Json>, nat), Fault>, m: map<string, Json>, key: string, v: Json)
    requires withM.Ok? <==> scratch.Ok?
    requires withM.Ok? ==> withM.value == (m[key := v] + scratch.value.0, scratch.value.1)
    requires withM.Err? ==> withM.error == scratch.error
    requires withOne.Ok? <==> scratch.Ok?
    requires withOne.Ok? ==> withOne.value == (map[key := v] + scratch.value.0, scratch.value.1)
    requires withOne.Err? ==> withOne.error == scratch.error
    ensures withM.Ok? <==> withOne.Ok?
    ensures withM.Ok? ==> withM.value == (m + withOne.value.0, withOne.value.1)
    ensures withM.Err? ==> withM.error == withOne.error
  {
    if scratch.Ok? {
      var later := scratch.value.0;
      assert m[key := v] + later == m + (map[key := v] + later);
    }
  }

  /**
   * A parsed object is its first pair overridden by the map its later pairs
   * build, each put replacing an earlier value for the same key: for every
   * key the last pair that names it decides its value.
   */
  lemma ObjectIsLastWrite(ts: seq<Token>, i: nat)
    requires WellFormed(ts) && Object(ts, i).Ok?
    ensures Pair(ts, i + 1).Ok?
    ensures var (p, e) := Pair(ts, i + 1).value;
            && Members(ts, e, map[]).Ok?
            && Object(ts, i).value.0.members == map[p.0 := p.1] + Members(ts, e, map[]).value.0
  {
    NonEofBeforeEnd(ts, i);
    var (p, e) := Pair(ts, i + 1).value;
    MembersOverride(ts, e, map[p.0 := p.1]);
  }

  /** The elements read so far stay, in order, at the front of the array. */
  lemma {:induction false} ElementsExtend(ts: seq<Token>, j: nat, xs: seq<Json>)
    requires WellFormed(ts) && Elements(ts, j, xs).Ok?
    ensures |xs| <= |Elements(ts, j, xs).value.0|
    ensures Elements(ts, j, xs).value.0[..|xs|] == xs
    decreases Rem(ts, j)
  {
    if At(ts, j).kind == COMMA {
      NonEofBeforeEnd(ts, j);
      var (v, e) := Value(ts, j + 1).value;
      ElementsExtend(ts, e, xs + [v]);
      var ys := Elements(ts, e, xs + [v]).value.0;
      assert ys[..|xs|] == ys[..|xs| + 1][..|xs|];
    }
  }

  /** A parsed array starts with its first value, so it is never empty. */
  lemma ListNotEmpty(ts: seq<Token>, i: nat)
    requires WellFormed(ts) && List(ts, i).Ok?
    ensures Value(ts, i + 1).Ok?
    ensures |List(ts, i).value.0.elems| >= 1
    ensures List(ts, i).value.0.elems[0] == Value(ts, i + 1).value.0
  {
    NonEofBeforeEnd(ts, i);
    var (v, e) := Value(ts, i + 1).value;
    ElementsExtend(ts, e, [v]);
    assert List(ts, i).value.0.elems[..1] == [v];
  }

  /**
   * A parse never faults before its start: the lookahead at which a value's
   * fault is raised is at or after the position the value began at.
   */
  lemma {:induction false} ValueFaultAhead(ts: seq<Token>, i: nat)
    requires WellFormed(ts)
    ensures Value(ts, i).Err? ==> i <= Value(ts, i).error.pos
    decreases Rem(ts, i), 1
  {
    var k := At(ts, i).kind;
    if k == LBRACE {
      ObjectFaultAhead(ts, i);
    } else if k == LBRACKET {
      ListFaultAhead(ts, i);
    }
  }

  /** An object's fault is at or after its '{'. */
  lemma {:induction false} ObjectFaultAhead(ts: seq<Token>, i: nat)
    requires WellFormed(ts)
    ensures Object(ts, i).Err? ==> i <= Object(ts, i).error.pos
    decreases Rem(ts, i), 0
  {
    if At(ts, i).kind == LBRACE {
      NonEofBeforeEnd(ts, i);
      PairFaultAhead(ts, i + 1);
      if Pair(ts, i + 1).Ok? {
        var (p, e) := Pair(ts, i + 1).value;
        MembersFaultAhead(ts, e, map[p.0 := p.1]);
      }
    }
  }

  /** A pair's fault is at or after its key. */
  lemma {:induction false} PairFaultAhead(ts: seq<Token>, i: nat)
    requires WellFormed(ts)
    ensures Pair(ts, i).Err? ==> i <= Pair(ts, i).error.pos
    decreases Rem(ts, i), 0
  {
    if QuotedString(ts, i).Ok? && At(ts, i + 1).kind == COLON {
      NonEofBeforeEnd(ts, i + 1);
      ValueFaultAhead(ts, i + 2);
    }
  }

  /** The fault of object's loop is at or after the lookahead it starts from. */
  lemma {:induction false} MembersFaultAhead(ts: seq<Token>, j: nat, m: map<string, Json>)
    requires WellFormed(ts)
    ensures Members(ts, j, m).Err? ==> j <= Members(ts, j, m).error.pos
    decreases Rem(ts, j), 0
  {
    if At(ts, j).kind == COMMA {
      NonEofBeforeEnd(ts, j);
      PairFaultAhead(ts, j + 1);
      if Pair(ts, j + 1).Ok? {
        var (p, e) := Pair(ts, j + 1).value;
        MembersFaultAhead(ts, e, m[p.0 := p.1]);
      }
    }
  }

  /** A list's fault is at or after its '['. */
  lemma {:induction false} ListFaultAhead(ts: seq<Token>, i: nat)
    requires WellFormed(ts)
    ensures List(ts, i).Err? ==> i <= List(ts, i).error.pos
    decreases Rem(ts, i), 0
  {
    if At(ts, i).kind == LBRACKET {
      NonEofBeforeEnd(ts, i);
      ValueFaultAhead(ts, i + 1);
      if Value(ts, i + 1).Ok? {
        var (v, e) := Value(ts, i + 1).value;
        ElementsFaultAhead(ts, e, [v]);
      }
    }
  }

  /** The fault of list's loop is at or after the lookahead it starts from. */
  lemma {:induction false} ElementsFaultAhead(ts: seq<Token>, j: nat, xs: seq<Json>)
    requires WellFormed(ts)
    ensures Elements(ts, j, xs).Err? ==> j <= Elements(ts, j, xs).error.pos
    decreases Rem(ts, j), 0
  {
    if At(ts, j).kind == COMMA {
      NonEofBeforeEnd(ts, j);
      ValueFaultAhead(ts, j + 1);
      if Value(ts, j + 1).Ok? {
        var (v, e) := Value(ts, j + 1).value;
        ElementsFaultAhead(ts, e, xs + [v]);
      }
    }
  }

  /**
   * One past the last position a parse reads: the end it returns on success,
   * or the lookahead position at which its fault is raised.
   */
  function Reach<T>(r: Result<(T, nat), Fault>): nat
  {
    if r.Ok? then r.value.1 else r.error.pos + 1
  }

  /**
   * A value parses the same way, with the same result or the same fault, in
   * any token sequence that yields the same tokens from its start up to its
   * reach: the parse looks at nothing beyond that.
   */
  lemma {:induction false} ValueLocal(ts: seq<Token>, us: seq<Token>, i: nat)
    requires WellFormed(ts) && WellFormed(us)
    requires Agree(ts, us, i, Reach(Value(ts, i)))
    ensures Value(us, i) == Value(ts, i)
    decreases Rem(ts, i), 1
  {
    ValueFaultAhead(ts, i);
    assert At(us, i) == At(ts, i);
    var k := At(ts, i).kind;
    if k == LBRACE {
      ObjectLocal(ts, us, i);
    } else if k == LBRACKET {
      ListLocal(ts, us, i);
    } else {
      ScalarLocal(ts, us, i);
    }
  }

  /** A one-token value reads its token and nothing after it. */
  lemma ScalarLocal(ts: seq<Token>, us: seq<Token>, i: nat)
    requires WellFormed(ts) && WellFormed(us) && At(us, i) == At(ts, i)
    ensures QuotedString(us, i) == QuotedString(ts, i) && Number(us, i) == Number(ts, i)
    ensures BoolVal(us, i) == BoolVal(ts, i) && NullVal(us, i) == NullVal(ts, i)
  {
  }

  /** An object parses the same way wherever the tokens up to its reach agree. */
  lemma {:induction false} ObjectLocal(ts: seq<Token>, us: seq<Token>, i: nat)
    requires WellFormed(ts) && WellFormed(us)
    requires Agree(ts, us, i, Reach(Object(ts, i)))
    ensures Object(us, i) == Object(ts, i)
    decreases Rem(ts, i), 0
  {
    ObjectFaultAhead(ts, i);
    assert At(us, i) == At(ts, i);
    if At(ts, i).kind == LBRACE {
      NonEofBeforeEnd(ts, i);
      if Pair(ts, i + 1).Ok? {
        var (p, e) := Pair(ts, i + 1).value;
        MembersFaultAhead(ts, e, map[p.0 := p.1]);
        MembersLocal(ts, us, e, map[p.0 := p.1]);
      }
      PairLocal(ts, us, i + 1);
    }
  }

  /** A pair parses the same way wherever the tokens up to its reach agree. */
  lemma {:induction false} PairLocal(ts: seq<Token>, us: seq<Token>, i: nat)
    requires WellFormed(ts) && WellFormed(us)
    requires Agree(ts, us, i, Reach(Pair(ts, i)))
    ensures Pair(us, i) == Pair(ts, i)
    decreases Rem(ts, i), 0
  {
    PairFaultAhead(ts, i);
    assert At(us, i) == At(ts, i);
    assert QuotedString(us, i) == QuotedString(ts, i);
    if QuotedString(ts, i).Ok? {
      if At(ts, i + 1).kind == COLON {
        NonEofBeforeEnd(ts, i + 1);
        ValueFaultAhead(ts, i + 2);
        ValueLocal(ts, us, i + 2);
      }
      assert At(us, i + 1) == At(ts, i + 1);
    }
  }

  /** The pairs after the first parse the same way wherever the tokens up to their reach agree. */
  lemma {:induction false} MembersLocal(ts: seq<Token>, us: seq<Token>, j: nat, m: map<string, Json>)
    requires WellFormed(ts) && WellFormed(us)
    requires Agree(ts, us, j, Reach(Members(ts, j, m)))
    ensures Members(us, j, m) == Members(ts, j, m)
    decreases Rem(ts, j), 0
  {
    MembersFaultAhead(ts, j, m);
    assert At(us, j) == At(ts, j);
    if At(ts, j).kind == COMMA {
      NonEofBeforeEnd(ts, j);
      if Pair(ts, j + 1).Ok? {
        var (p, e) := Pair(ts, j + 1).value;
        MembersFaultAhead(ts, e, m[p.0 := p.1]);
        MembersLocal(ts, us, e, m[p.0 := p.1]);
      }
      PairLocal(ts, us, j + 1);
    }
  }

  /** A list parses the same way wherever the tokens up to its reach agree. */
  lemma {:induction false} ListLocal(ts: seq<Token>, us: seq<Token>, i: nat)
    requires WellFormed(ts) && WellFormed(us)
    requires Agree(ts, us, i, Reach(List(ts, i)))
    ensures List(us, i) == List(ts, i)
    decreases Rem(ts, i), 0
  {
    ListFaultAhead(ts, i);
    assert At(us, i) == At(ts, i);
    if At(ts, i).kind == LBRACKET {
      NonEofBeforeEnd(ts, i);
      if Value(ts, i + 1).Ok? {
        var (v, e) := Value(ts, i + 1).value;
        ElementsFaultAhead(ts, e, [v]);
        ElementsLocal(ts, us, e, [v]);
      }
      ValueLocal(ts, us, i + 1);
    }
  }

  /** The elements after the first parse the same way wherever the tokens up to their reach agree. */
  lemma {:induction false} ElementsLocal(ts: seq<Token>, us: seq<Token>, j: nat, xs: seq<Json>)
    requires WellFormed(ts) && WellFormed(us)
    requires Agree(ts, us, j, Reach(Elements(ts, j, xs)))
    ensures Elements(us, j, xs) == Elements(ts, j, xs)
    decreases Rem(ts, j), 0
  {
    ElementsFaultAhead(ts, j, xs);
    assert At(us, j) == At(ts, j);
    if At(ts, j).kind == COMMA {
      NonEofBeforeEnd(ts, j);
      if Value(ts, j + 1).Ok? {
        var (v, e) := Value(ts, j + 1).value;
        ElementsFaultAhead(ts, e, xs + [v]);
        ElementsLocal(ts, us, e, xs + [v]);
      }
      ValueLocal(ts, us, j + 1);
    }
  }

  /**
   * A successful run of list's loop from `j` keeps the elements before it
   * and is separated along its commas: each ',' is followed by the value
   * that comes next, up to the closing ']'.
   */
  lemma {:induction false} ElementsSeparated(ts: seq<Token>, j: nat, xs: seq<Json>, acc: seq<nat>)
    requires WellFormed(ts) && Elements(ts, j, xs).Ok?
    ensures var (ys, e) := Elements(ts, j, xs).value;
      var cs := Commas(ts, j, acc);
      && |xs| <= |ys| && ys[..|xs|] == xs && At(ts, e - 1).kind == RBRACKET
      && |acc| <= |cs| && cs[..|acc|] == acc
      && Separated(ts, j, cs[|acc|..], ys[|xs|..], e - 1)
    decreases Rem(ts, j)
  {
    if At(ts, j).kind == COMMA {
      NonEofBeforeEnd(ts, j);
      var (v, e1) := Value(ts, j + 1).value;
      ElementsNext(ts, j, xs, v, e1);
      CommasNext(ts, j, acc, v, e1);
      ElementsSeparated(ts, e1, xs + [v], acc + [j]);
      var (ys, e) := Elements(ts, j, xs).value;
      var cs := Commas(ts, j, acc);
      assert ys[..|xs|] == (ys[..|xs| + 1])[..|xs|];
      assert ys[|xs|..][1..] == ys[|xs| + 1..];
      assert cs[..|acc|] == (cs[..|acc| + 1])[..|acc|];
      assert cs[|acc|..][0] == (cs[..|acc| + 1])[|acc|] == j;
      assert cs[|acc|..][1..] == cs[|acc| + 1..];
    } else {
      ElementsClose(ts, j, xs);
      CommasStop(ts, j, acc);
    }
  }

  /**
   * A successful list is '[' then its first value, separated from the
   * others along its commas, then ']'.
   */
  lemma ListSeparated(ts: seq<Token>, i: nat)
    requires WellFormed(ts) && List(ts, i).Ok?
    ensures var (a, e) := List(ts, i).value;
      && a.Arr? && |a.elems| > 0 && At(ts, i).kind == LBRACKET && At(ts, e - 1).kind == RBRACKET
      && Value(ts, i + 1).Ok? && Value(ts, i + 1).value.0 == a.elems[0]
      && Separated(ts, Value(ts, i + 1).value.1, ListCommas(ts, i), a.elems[1..], e - 1)
  {
    var (v, e1) := Value(ts, i + 1).value;
    ListNext(ts, i, v, e1);
    ListCommasNext(ts, i, v, e1);
    ElementsSeparated(ts, e1, [v], []);
    assert Commas(ts, e1, [])[0..] == Commas(ts, e1, []);
  }

  /**
   * The commas of a separated run lie in order within it: each one at or
   * after `lo`, before `hi`, and strictly after the one before it.
   */
  lemma {:induction false} SeparatedInOrder(ts: seq<Token>, lo: nat, seps: seq<nat>, vals: seq<Json>, hi: nat)
    requires WellFormed(ts) && Separated(ts, lo, seps, vals, hi)
    ensures |seps| == |vals|
    ensures forall k :: 0 <= k < |seps| ==> lo <= seps[k] < hi && At(ts, seps[k]).kind == COMMA
    ensures forall k, l :: 0 <= k < l < |seps| ==> seps[k] < seps[l]
    decreases |seps|
  {
    if |seps| > 0 {
      var next := Value(ts, lo + 1).value.1;
      SeparatedInOrder(ts, next, seps[1..], vals[1..], hi);
      forall k | 0 < k < |seps|
        ensures lo < seps[k]
      {
        assert seps[k] == seps[1..][k - 1];
      }
    }
  }

  /**
   * There is no end-of-input check: a value followed by more tokens parses
   * as that value, and the tokens after it are left unread.
   */
  lemma TrailingTokensIgnored(ts: seq<Token>)
    requires ts == [Token(NULL, "null"), Token(NULL, "null"), Token(EOF, "")]
    ensures WellFormed(ts) && Value(ts, 0) == Ok((Null, 1))
  {
    assert WellFormed(ts);
  }

  /** The tokens of { "a" : null , "a" : "b" }. */
  const DUPLICATE_KEY := [Token(LBRACE, "{"), Token(QUOTED_STRING, "\"a\""), Token(COLON, ":"), Token(NULL, "null"),
                          Token(COMMA, ","), Token(QUOTED_STRING, "\"a\""), Token(COLON, ":"), Token(QUOTED_STRING, "\"b\""),
                          Token(RBRACE, "}"), Token(EOF, "")]

  /** The first pair of DUPLICATE_KEY. */
  lemma DuplicateKeyFirstPair(ts: seq<Token>)
    requires ts == DUPLICATE_KEY
    ensures WellFormed(ts) && Pair(ts, 1) == Ok((("a", Null), 4))
    ensures At(ts, 0).kind == LBRACE && At(ts, 4).kind == COMMA
  {
    assert WellFormed(ts);
    assert "\"a\""[1..2] == "a";
    assert QuotedString(ts, 1) == Ok((Str("a"), 2));
    assert Value(ts, 3) == Ok((Null, 4));
    SimplePair(ts, 1, "a", Null);
  }

  /** The second pair of DUPLICATE_KEY. */
  lemma DuplicateKeySecondPair(ts: seq<Token>)
    requires ts == DUPLICATE_KEY
    ensures WellFormed(ts) && Pair(ts, 5) == Ok((("a", Str("b")), 8)) && At(ts, 8).kind == RBRACE
  {
    assert WellFormed(ts);
    assert "\"a\""[1..2] == "a" && "\"b\""[1..2] == "b";
    assert QuotedString(ts, 5) == Ok((Str("a"), 6));
    assert Value(ts, 7) == Ok((Str("b"), 8));
    SimplePair(ts, 5, "a", Str("b"));
  }

  /** A pair whose key and value are one token each. */
  lemma SimplePair(ts: seq<Token>, i: nat, key: string, v: Json)
    requires WellFormed(ts) && QuotedString(ts, i) == Ok((Str(key), i + 1))
    requires At(ts, i + 1).kind == COLON && Value(ts, i + 2) == Ok((v, i + 3))
    ensures Pair(ts, i) == Ok(((key, v), i + 3))
  {
    NonEofBeforeEnd(ts, i + 1);
  }

  /**
   * An object of two pairs, wherever it starts and however long its values
   * are, puts the first pair and then the second.
   */
  lemma TwoPairObject(ts: seq<Token>, i: nat, k1: string, v1: Json, e1: nat, k2: string, v2: Json, e2: nat)
    requires WellFormed(ts) && At(ts, i).kind == LBRACE && Pair(ts, i + 1) == Ok(((k1, v1), e1))
    requires At(ts, e1).kind == COMMA && Pair(ts, e1 + 1) == Ok(((k2, v2), e2)) && At(ts, e2).kind == RBRACE
    ensures Value(ts, i) == Ok((Obj(map[k1 := v1][k2 := v2]), e2 + 1))
  {
    LastPairWins(ts, e1, map[k1 := v1], k2, v2, e2);
    ObjectNext(ts, i, k1, v1, e1);
  }

  /** { "a" : null , "a" : "b" } parses to an object whose only key maps to the later value. */
  lemma DuplicateKeyLastWins()
    ensures WellFormed(DUPLICATE_KEY) && Value(DUPLICATE_KEY, 0) == Ok((Obj(map["a" := Str("b")]), 9))
  {
    DuplicateKeyFirstPair(DUPLICATE_KEY);
    DuplicateKeySecondPair(DUPLICATE_KEY);
    SameKeyTwice(DUPLICATE_KEY, 0, "a", Null, 4, Str("b"), 8);
  }

  /** Two pairs with the same key make an object holding only the later value. */
  lemma SameKeyTwice(ts: seq<Token>, i: nat, k: string, v1: Json, e1: nat, v2: Json, e2: nat)
    requires WellFormed(ts) && At(ts, i).kind == LBRACE && Pair(ts, i + 1) == Ok(((k, v1), e1))
    requires At(ts, e1).kind == COMMA && Pair(ts, e1 + 1) == Ok(((k, v2), e2)) && At(ts, e2).kind == RBRACE
    ensures Value(ts, i) == Ok((Obj(map[k := v2]), e2 + 1))
  {
    TwoPairObject(ts, i, k, v1, e1, k, v2, e2);
    assert map[k := v1][k := v2] == map[k := v2];
  }
}
