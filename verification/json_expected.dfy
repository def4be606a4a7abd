/**
 * The expected-kinds part of the generated parser's error reporting: the
 * choice-point table jj_la1_0 and the computation generateParseException
 * performs over it.
 */
module JsonExpected {

  /**
   * jj_la1_0: for each of the four choice points, the mask of token kinds it
   * accepts -- 0: the alternatives of jsonValue, 1: the ',' of object's loop,
   * 2: the ',' of list's loop, 3: the alternatives of number.
   */
  const LA1_0: seq<bv32> := [0x11e180, 0x40000, 0x40000, 0x180]

  /** The kinds jsonValue accepts, ascending: the set bits of LA1_0[0]. */
  const VALUE_STARTS: seq<int> := [7, 8, 13, 14, 15, 16, 20]

  /** The kinds number accepts, ascending: the set bits of LA1_0[3]. */
  const NUMBER_STARTS: seq<int> := [7, 8]

  /** (m & (1 << j)) != 0 */
  predicate HasBit(m: bv32, j: nat)
    requires j < 32
  {
    m & (1 << j) != 0
  }

  /** The bits of each mask; in particular none is at 22 or above, so la1tokens[j] stays in bounds. */
  lemma MaskBits(c: nat, j: nat)
    requires c < 4 && j < 32
    ensures c == 0 ==> (HasBit(LA1_0[c], j) <==> j in VALUE_STARTS)
    ensures (c == 1 || c == 2) ==> (HasBit(LA1_0[c], j) <==> j == 18)
    ensures c == 3 ==> (HasBit(LA1_0[c], j) <==> j in NUMBER_STARTS)
    ensures HasBit(LA1_0[c], j) ==> j < 22
  {
  }

  /**
   * Whether la1tokens[j] is set once jj_kind (if non-negative) and the first
   * `n` choice points have been looked at; choice point c contributes its mask
   * when la1s[c] == gen, i.e. when it was the last one passed at this generation.
   */
  predicate Marked(kind: int, la1s: seq<int>, gen: int, n: nat, j: nat)
    requires |la1s| == 4 && n <= 4 && j < 32
  {
    if n == 0 then kind >= 0 && j == kind
    else Marked(kind, la1s, gen, n - 1, j) || (la1s[n - 1] == gen && HasBit(LA1_0[n - 1], j))
  }

  /** Kind `x` belongs to the expected list generateParseException reports. */
  predicate IsExpected(kind: int, la1s: seq<int>, gen: int, x: int)
    requires |la1s| == 4
  {
    0 <= x < 22 && Marked(kind, la1s, gen, 4, x)
  }

  predicate StrictlyAscending(s: seq<int>)
  {
    forall p, q :: 0 <= p < q < |s| ==> s[p] < s[q]
  }

  /**
   * The expected kinds generateParseException reports: la1tokens is filled
   * from jj_kind and from every choice point passed at the current
   * generation, then read out in ascending order.
   */
  method ExpectedKinds(kind: int, la1s: seq<int>, gen: int) returns (expected: seq<int>)
    requires -1 <= kind < 22 && |la1s| == 4
    ensures StrictlyAscending(expected)
    ensures forall x :: x in expected <==> IsExpected(kind, la1s, gen, x)
  {
    var la1tokens := new bool[22](_ => false);
    if kind >= 0 {
      la1tokens[kind] := true;
    }
    for i := 0 to 4
      invariant forall j :: 0 <= j < 22 ==> la1tokens[j] == Marked(kind, la1s, gen, i, j)
    {
      if la1s[i] == gen {
        for j := 0 to 32
          invariant forall y :: 0 <= y < 22 ==> la1tokens[y] == (Marked(kind, la1s, gen, i, y) || (y < j && HasBit(LA1_0[i], y)))
        {
          if HasBit(LA1_0[i], j) {
            MaskBits(i, j);
            la1tokens[j] := true;
          }
        }
      }
    }
    expected := [];
    for x := 0 to 22
      invariant StrictlyAscending(expected)
      invariant forall p :: 0 <= p < |expected| ==> expected[p] < x
      invariant forall y :: y in expected <==> 0 <= y < x && la1tokens[y]
    {
      if la1tokens[x] {
        expected := expected + [x];
      }
    }
    forall x | x in expected ensures IsExpected(kind, la1s, gen, x) {
      assert 0 <= x < 22 && la1tokens[x];
    }
    forall x | IsExpected(kind, la1s, gen, x) ensures x in expected {
      assert la1tokens[x];
    }
  }

  /** la1tokens[x] ends up set when x is jj_kind or a kind of some choice point passed at the current generation. */
  lemma MarkedByChoicePoints(kind: int, la1s: seq<int>, gen: int, x: nat)
    requires |la1s| == 4 && x < 32
    ensures Marked(kind, la1s, gen, 4, x) <==>
      || (kind >= 0 && x == kind)
      || (la1s[0] == gen && HasBit(LA1_0[0], x))
      || (la1s[1] == gen && HasBit(LA1_0[1], x))
      || (la1s[2] == gen && HasBit(LA1_0[2], x))
      || (la1s[3] == gen && HasBit(LA1_0[3], x))
  {
    assert Marked(kind, la1s, gen, 1, x) == ((kind >= 0 && x == kind) || (la1s[0] == gen && HasBit(LA1_0[0], x)));
    assert Marked(kind, la1s, gen, 2, x) == (Marked(kind, la1s, gen, 1, x) || (la1s[1] == gen && HasBit(LA1_0[1], x)));
    assert Marked(kind, la1s, gen, 3, x) == (Marked(kind, la1s, gen, 2, x) || (la1s[2] == gen && HasBit(LA1_0[2], x)));
  }

  /** A strictly ascending list is determined by its elements. */
  lemma {:induction false} AscendingUnique(a: seq<int>, b: seq<int>)
    requires StrictlyAscending(a) && StrictlyAscending(b)
    requires forall x :: x in a <==> x in b
    ensures a == b
  {
    if |a| > 0 {
      assert a[0] in a;
    }
    if |b| > 0 {
      assert b[0] in b;
    }
    if |a| > 0 && |b| > 0 {
      assert b[0] in a;
      assert a[0] in b;
      assert a[0] == b[0];
      forall x ensures x in a[1..] <==> x in b[1..] {
        if x in a[1..] {
          assert x in a && x != a[0];
        }
        if x in b[1..] {
          assert x in b && x != b[0];
        }
      }
      AscendingUnique(a[1..], b[1..]);
      assert a == [a[0]] + a[1..];
      assert b == [b[0]] + b[1..];
    }
  }

  /**
   * When choice point `c` is the only one passed at the current generation and
   * no kind is pending, the report lists exactly that choice point's kinds.
   */
  lemma OnlyChoicePoint(c: nat, la1s: seq<int>, gen: int, expected: seq<int>)
    requires c < 4 && |la1s| == 4
    requires la1s[c] == gen
    requires forall i :: 0 <= i < 4 && i != c ==> la1s[i] < gen
    requires StrictlyAscending(expected)
    requires forall x :: x in expected <==> IsExpected(-1, la1s, gen, x)
    ensures c == 0 ==> expected == VALUE_STARTS
    ensures c == 3 ==> expected == NUMBER_STARTS
  {
    forall x ensures IsExpected(-1, la1s, gen, x) <==> 0 <= x < 22 && HasBit(LA1_0[c], x) {
      if 0 <= x < 22 {
        MarkedByChoicePoints(-1, la1s, gen, x);
      }
    }
    if c == 0 {
      forall x ensures x in expected <==> x in VALUE_STARTS {
        if 0 <= x < 22 { MaskBits(0, x); }
      }
      AscendingUnique(expected, VALUE_STARTS);
    } else if c == 3 {
      forall x ensures x in expected <==> x in NUMBER_STARTS {
        if 0 <= x < 22 { MaskBits(3, x); }
      }
      AscendingUnique(expected, NUMBER_STARTS);
    }
  }

  /** With no choice point passed at the current generation, the report lists only the kind that was required. */
  lemma OnlyRequiredKind(kind: int, la1s: seq<int>, gen: int, expected: seq<int>)
    requires 0 <= kind < 22 && |la1s| == 4
    requires forall i :: 0 <= i < 4 ==> la1s[i] < gen
    requires StrictlyAscending(expected)
    requires forall x :: x in expected <==> IsExpected(kind, la1s, gen, x)
    ensures expected == [kind]
  {
    forall x ensures x in expected <==> x in [kind] {
      if 0 <= x < 22 {
        MarkedByChoicePoints(kind, la1s, gen, x);
      }
    }
    AscendingUnique(expected, [kind]);
  }
}
