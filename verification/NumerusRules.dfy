/** The plural rules of a translation catalogue (src/utils/Translator.cpp): the check that runs
    when a catalogue is loaded, and the interpreter that trusts it. */
module NumerusRules {

  import opened Wrappers

  const P_EQ: bv8 := 0x01
  const P_LT: bv8 := 0x02
  const P_LEQ: bv8 := 0x03
  const P_BETWEEN: bv8 := 0x04
  const P_NOT: bv8 := 0x08
  const P_MOD_10: bv8 := 0x10
  const P_MOD_100: bv8 := 0x20
  const P_LEAD_1000: bv8 := 0x40
  const P_AND: bv8 := 0xFD
  const P_OR: bv8 := 0xFE
  const P_NEWRULE: bv8 := 0xFF
  const P_OP_MASK: bv8 := 0x07

  // ----- the grammar ---------------------------------------------------------------------

  datatype Test = Eq(right: bv8) | Lt(right: bv8) | Leq(right: bv8) | Between(bottom: bv8, top: bv8)

  datatype Term = Term(test: Test, negated: bool, mod10: bool, mod100: bool, lead1000: bool)

  /** Terms joined by AND, these joined by OR, these following one another. */
  type Conjunction = seq<Term>
  type Rule = seq<Conjunction>
  type Rules = seq<Rule>

  predicate GoodRule(rule: Rule) {
    rule != [] && forall k :: 0 <= k < |rule| ==> rule[k] != []
  }

  predicate Grammatical(rules: Rules) {
    forall k :: 0 <= k < |rules| ==> GoodRule(rules[k])
  }

  function Op(test: Test): bv8 {
    match test
    case Eq(_) => P_EQ
    case Lt(_) => P_LT
    case Leq(_) => P_LEQ
    case Between(_, _) => P_BETWEEN
  }

  function Opcode(t: Term): bv8 {
    Op(t.test) | (if t.negated then P_NOT else 0) | (if t.mod10 then P_MOD_10 else 0)
    | (if t.mod100 then P_MOD_100 else 0) | (if t.lead1000 then P_LEAD_1000 else 0)
  }

  function EncodeTerm(t: Term): (bytes: seq<bv8>)
    ensures |bytes| == if t.test.Between? then 3 else 2
  {
    match t.test
    case Between(bottom, top) => [Opcode(t), bottom, top]
    case _ => [Opcode(t), t.test.right]
  }

  function EncodeAnd(terms: Conjunction): seq<bv8>
    requires terms != []
  {
    if |terms| == 1 then EncodeTerm(terms[0]) else EncodeTerm(terms[0]) + [P_AND] + EncodeAnd(terms[1..])
  }

  function EncodeOr(rule: Rule): seq<bv8>
    requires GoodRule(rule)
  {
    if |rule| == 1 then EncodeAnd(rule[0]) else EncodeAnd(rule[0]) + [P_OR] + EncodeOr(rule[1..])
  }

  function Encode(rules: Rules): seq<bv8>
    requires Grammatical(rules)
  {
    if rules == [] then []
    else if |rules| == 1 then EncodeOr(rules[0])
    else EncodeOr(rules[0]) + [P_NEWRULE] + Encode(rules[1..])
  }

  // ----- the meaning ---------------------------------------------------------------------

  /** The remainder and the quotient of C, which round towards zero. */
  function Rem(n: int, d: nat): int
    requires d > 0
  {
    if n >= 0 then n % d else -((-n) % d)
  }

  /** The leading digits below 1000. */
  function Lead(n: int): int {
    if n >= 1000 then Lead(n / 1000) else n
  }

  function Left(t: Term, n: int): int {
    if t.mod10 then Rem(n, 10) else if t.mod100 then Rem(n, 100) else if t.lead1000 then Lead(n) else n
  }

  predicate Passes(test: Test, left: int) {
    match test
    case Eq(right) => left == right as int
    case Lt(right) => left < right as int
    case Leq(right) => left <= right as int
    case Between(bottom, top) => bottom as int <= left <= top as int
  }

  predicate TermTrue(t: Term, n: int) {
    Passes(t.test, Left(t, n)) != t.negated
  }

  predicate AndTrue(terms: Conjunction, n: int) {
    forall k :: 0 <= k < |terms| ==> TermTrue(terms[k], n)
  }

  predicate RuleTrue(rule: Rule, n: int) {
    exists k :: 0 <= k < |rule| && AndTrue(rule[k], n)
  }

  /** The index of the first true rule, or the number of rules. */
  function Form(rules: Rules, n: int): (form: nat)
    ensures form <= |rules|
    ensures forall k :: 0 <= k < form ==> !RuleTrue(rules[k], n)
    ensures form < |rules| ==> RuleTrue(rules[form], n)
  {
    if rules == [] || RuleTrue(rules[0], n) then 0
    else
      var rest := Form(rules[1..], n);
      assert forall k :: 0 < k < |rules| ==> rules[k] == rules[1..][k - 1];
      1 + rest
  }

  // ----- opcodes -------------------------------------------------------------------------

  /** The term an opcode and its operands stand for. */
  function TermOf(opcode: bv8, right: bv8, top: bv8): Option<Term> {
    if opcode & 0x80 != 0 then None
    else
      var op := opcode & P_OP_MASK;
      var test := if op == P_EQ then Some(Eq(right)) else if op == P_LT then Some(Lt(right))
                  else if op == P_LEQ then Some(Leq(right)) else if op == P_BETWEEN then Some(Between(right, top)) else None;
      if test == None then None
      else Some(Term(test.value, opcode & P_NOT != 0, opcode & P_MOD_10 != 0, opcode & P_MOD_100 != 0, opcode & P_LEAD_1000 != 0))
  }

  lemma OpcodeBits(t: Term)
    ensures Opcode(t) & 0x80 == 0 && Opcode(t) & P_OP_MASK == Op(t.test)
    ensures (Opcode(t) & P_NOT != 0) == t.negated && (Opcode(t) & P_MOD_10 != 0) == t.mod10
    ensures (Opcode(t) & P_MOD_100 != 0) == t.mod100 && (Opcode(t) & P_LEAD_1000 != 0) == t.lead1000
  {
  }

  lemma OpcodeBack(opcode: bv8, right: bv8, top: bv8)
    requires TermOf(opcode, right, top).Some?
    ensures Opcode(TermOf(opcode, right, top).value) == opcode
  {
  }

  /** C's remainder: of the sign of the number, smaller than the divisor, and congruent to it. */
  lemma RemByTen(n: int) returns (q: int)
    ensures var r := Rem(n, 10); n == 10 * q + r && -10 < r < 10 && (r > 0 ==> n > 0) && (r < 0 ==> n < 0)
  {
    q := if n >= 0 then n / 10 else -((-n) / 10);
  }

  lemma RemByHundred(n: int) returns (q: int)
    ensures var r := Rem(n, 100); n == 100 * q + r && -100 < r < 100 && (r > 0 ==> n > 0) && (r < 0 ==> n < 0)
  {
    q := if n >= 0 then n / 100 else -((-n) / 100);
  }

  function Pow1000(k: nat): (p: nat)
    ensures p > 0
  {
    if k == 0 then 1 else 1000 * Pow1000(k - 1)
  }

  lemma TimesThousand(lead: nat, p: nat, q: nat, n: nat)
    requires lead * p <= n / 1000 < (lead + 1) * p && q == 1000 * p
    ensures lead * q <= n < (lead + 1) * q
  {
    assert lead * q == 1000 * (lead * p) && (lead + 1) * q == 1000 * ((lead + 1) * p);
  }

  /** Dividing by 1000 as often as there are more than three digits leaves the first ones. */
  lemma {:induction false} LeadMeans(n: int) returns (k: nat)
    ensures n < 1000 ==> k == 0 && Lead(n) == n
    ensures n >= 1000 ==> k > 0 && 1 <= Lead(n) < 1000 && Lead(n) * Pow1000(k) <= n < (Lead(n) + 1) * Pow1000(k)
  {
    k := 0;
    if n >= 1000 {
      var j := LeadMeans(n / 1000);
      k := j + 1;
      assert j == 0 ==> Pow1000(j) == 1;
      TimesThousand(Lead(n), Pow1000(j), Pow1000(k), n);
    }
  }

  /** What an opcode and its operands say of a number: the low three bits compare, bit 3 negates,
      and of the remainders and the leading digits the first one asked for is compared. */
  lemma OpcodeMeans(opcode: bv8, right: bv8, top: bv8, n: int)
    requires TermOf(opcode, right, top).Some?
    ensures var left :=
        if opcode & 0x10 != 0 then Rem(n, 10)
        else if opcode & 0x20 != 0 then Rem(n, 100)
        else if opcode & 0x40 != 0 then Lead(n)
        else n;
      opcode & 0x80 == 0 && 1 <= opcode & 0x07 <= 4
      && (TermTrue(TermOf(opcode, right, top).value, n) <==>
            (if opcode & 0x07 == 1 then left == right as int
             else if opcode & 0x07 == 2 then left < right as int
             else if opcode & 0x07 == 3 then left < right as int || left == right as int
             else !(left < right as int) && !(top as int < left)) != (opcode & 0x08 != 0))
  {
  }

  /** 0xFD between two terms means that both hold, 0xFE that one does; 0xFF begins another rule. */
  lemma SeparatorsMean(t: Term, u: Term, n: int)
    ensures Encode([[[t, u]]]) == EncodeTerm(t) + [0xFD] + EncodeTerm(u)
    ensures Encode([[[t], [u]]]) == EncodeTerm(t) + [0xFE] + EncodeTerm(u)
    ensures Encode([[[t]], [[u]]]) == EncodeTerm(t) + [0xFF] + EncodeTerm(u)
    ensures Form([[[t, u]]], n) == if TermTrue(t, n) && TermTrue(u, n) then 0 else 1
    ensures Form([[[t], [u]]], n) == if TermTrue(t, n) || TermTrue(u, n) then 0 else 1
    ensures Form([[[t]], [[u]]], n) == if TermTrue(t, n) then 0 else if TermTrue(u, n) then 1 else 2
  {
    hide EncodeTerm, TermTrue;
    SeparatorsEncode(t, u);
    assert AndTrue([t], n) == TermTrue([t][0], n) && AndTrue([u], n) == TermTrue([u][0], n);
    assert AndTrue([t, u], n) == (TermTrue([t, u][0], n) && TermTrue([t, u][1], n));
    assert RuleTrue([[t, u]], n) == AndTrue([[t, u]][0], n);
    assert RuleTrue([[t], [u]], n) == (AndTrue([[t], [u]][0], n) || AndTrue([[t], [u]][1], n));
    assert RuleTrue([[t]], n) == AndTrue([[t]][0], n) && RuleTrue([[u]], n) == AndTrue([[u]][0], n);
  }

  lemma SeparatorsEncode(t: Term, u: Term)
    ensures Encode([[[t, u]]]) == EncodeTerm(t) + [0xFD] + EncodeTerm(u)
    ensures Encode([[[t], [u]]]) == EncodeTerm(t) + [0xFE] + EncodeTerm(u)
    ensures Encode([[[t]], [[u]]]) == EncodeTerm(t) + [0xFF] + EncodeTerm(u)
  {
    hide EncodeTerm;
    assert [t, u][1..] == [u] && [[t], [u]][1..] == [[u]] && [[[t]], [[u]]][1..] == [[[u]]];
    assert EncodeAnd([t]) == EncodeTerm(t) && EncodeAnd([u]) == EncodeTerm(u);
    assert EncodeOr([[t]]) == EncodeTerm(t) && EncodeOr([[u]]) == EncodeTerm(u);
  }

  // ----- the validator -------------------------------------------------------------------

  /** The term at `i` of a byte string, if there is one. */
  function TermAt(b: seq<bv8>, i: nat): Option<Term> {
    if i + 1 >= |b| then None
    else
      var t := TermOf(b[i], b[i + 1], if i + 2 < |b| then b[i + 2] else 0);
      if t.Some? && t.value.test.Between? && i + 2 >= |b| then None else t
  }

  function Size(t: Term): nat {
    if t.test.Between? then 3 else 2
  }

  predicate Separator(b: bv8) {
    b == P_AND || b == P_OR || b == P_NEWRULE
  }

  /** Terms with separators between them, from `i` to the end. */
  predicate Accepts(b: seq<bv8>, i: nat)
    decreases |b| - i
  {
    && TermAt(b, i).Some?
    && var j := i + Size(TermAt(b, i).value);
       j == |b| || (j < |b| && Separator(b[j]) && j + 1 < |b| && Accepts(b, j + 1))
  }

  method IsValidNumerusRules(rules: seq<bv8>) returns (ok: bool)
    ensures ok <==> exists tree :: Grammatical(tree) && rules == Encode(tree)
  {
    hide Grammatical, Encode;
    AcceptsIff(rules);
    if |rules| == 0 {
      return true;
    }
    var offset := 0;
    while true
      invariant offset < |rules| && Accepts(rules, 0) == Accepts(rules, offset)
      decreases |rules| - offset
    {
      var opcode := rules[offset];
      var op := opcode & P_OP_MASK;
      if opcode & 0x80 != 0 {
        return false;
      }
      offset := offset + 1;
      if offset == |rules| {
        return false;
      }
      offset := offset + 1;
      if op == P_EQ || op == P_LT || op == P_LEQ {
      } else if op == P_BETWEEN {
        if offset == |rules| {
          return false;
        }
        offset := offset + 1;
      } else {
        return false;
      }
      if offset == |rules| {
        return true;
      }
      if !(rules[offset] == P_AND || rules[offset] == P_OR || rules[offset] == P_NEWRULE) {
        return false;
      }
      offset := offset + 1;
      if offset == |rules| {
        return false;
      }
    }
  }

  // ----- exactly the encodings -----------------------------------------------------------

  /** `t` and a separator in front of a tree. */
  function Prepend(t: Term, sep: bv8, tree: Rules): Rules
    requires Grammatical(tree) && tree != []
  {
    if sep == P_AND then [[[t] + tree[0][0]] + tree[0][1..]] + tree[1..]
    else if sep == P_OR then [[[t]] + tree[0]] + tree[1..]
    else [[[t]]] + tree
  }

  lemma PrependTerm(t: Term, c: Conjunction)
    requires c != []
    ensures EncodeAnd([t] + c) == EncodeTerm(t) + [P_AND] + EncodeAnd(c)
  {
    assert ([t] + c)[1..] == c;
  }

  lemma Inside(x: seq<bv8>, c: seq<bv8>, sep: seq<bv8>, more: seq<bv8>)
    ensures x + c + sep + more == x + (c + sep + more)
  {
  }

  lemma PrependConjunction(t: Term, r: Rule)
    requires GoodRule(r)
    ensures EncodeOr([[t] + r[0]] + r[1..]) == EncodeTerm(t) + [P_AND] + EncodeOr(r)
  {
    PrependTerm(t, r[0]);
    var r' := [[t] + r[0]] + r[1..];
    if |r| == 1 {
      assert EncodeOr(r') == EncodeAnd([t] + r[0]);
    } else {
      assert r'[0] == [t] + r[0] && r'[1..] == r[1..];
      Inside(EncodeTerm(t) + [P_AND], EncodeAnd(r[0]), [P_OR], EncodeOr(r[1..]));
    }
  }

  lemma PrependAnd(t: Term, tree: Rules)
    requires Grammatical(tree) && tree != []
    ensures Grammatical(Prepend(t, P_AND, tree))
    ensures Encode(Prepend(t, P_AND, tree)) == EncodeTerm(t) + [P_AND] + Encode(tree)
  {
    PrependConjunction(t, tree[0]);
    assert Prepend(t, P_AND, tree)[1..] == tree[1..];
  }

  lemma PrependOr(t: Term, tree: Rules)
    requires Grammatical(tree) && tree != []
    ensures Grammatical(Prepend(t, P_OR, tree))
    ensures Encode(Prepend(t, P_OR, tree)) == EncodeTerm(t) + [P_OR] + Encode(tree)
  {
    var r := tree[0];
    var r' := [[t]] + r;
    assert r'[1..] == r;
    assert EncodeOr(r') == EncodeTerm(t) + [P_OR] + EncodeOr(r);
    assert Prepend(t, P_OR, tree)[1..] == tree[1..];
  }

  lemma PrependRule(t: Term, tree: Rules)
    requires Grammatical(tree) && tree != []
    ensures Grammatical(Prepend(t, P_NEWRULE, tree))
    ensures Encode(Prepend(t, P_NEWRULE, tree)) == EncodeTerm(t) + [P_NEWRULE] + Encode(tree)
  {
    assert Prepend(t, P_NEWRULE, tree)[1..] == tree;
    assert EncodeOr([[t]]) == EncodeTerm(t);
  }

  lemma PrependEncodes(t: Term, sep: bv8, tree: Rules)
    requires Grammatical(tree) && tree != [] && Separator(sep)
    ensures Grammatical(Prepend(t, sep, tree)) && Prepend(t, sep, tree) != []
    ensures Encode(Prepend(t, sep, tree)) == EncodeTerm(t) + [sep] + Encode(tree)
  {
    if sep == P_AND {
      PrependAnd(t, tree);
    } else if sep == P_OR {
      PrependOr(t, tree);
    } else {
      PrependRule(t, tree);
    }
  }

  /** Every tree is a single term, or a term and a separator in front of a tree. */
  lemma FirstTerm(tree: Rules) returns (t: Term, sep: bv8, rest: Rules)
    requires Grammatical(tree) && tree != []
    ensures Grammatical(rest)
    ensures if rest == [] then tree == [[[t]]] else Separator(sep) && tree == Prepend(t, sep, rest)
  {
    var r := tree[0];
    var c := r[0];
    t := c[0];
    if |c| > 1 {
      sep, rest := P_AND, [[c[1..]] + r[1..]] + tree[1..];
      assert [t] + c[1..] == c && [c] + r[1..] == r && [r] + tree[1..] == tree;
      assert rest[0][1..] == r[1..] && rest[1..] == tree[1..];
    } else if |r| > 1 {
      sep, rest := P_OR, [r[1..]] + tree[1..];
      assert c == [t] && [[t]] + r[1..] == r && [r] + tree[1..] == tree;
      assert rest[1..] == tree[1..];
    } else {
      sep, rest := P_NEWRULE, tree[1..];
      assert c == [t] && r == [[t]] && [[[t]]] + tree[1..] == tree;
    }
  }

  lemma TermAtEncoding(b: seq<bv8>, i: nat, t: Term, rest: seq<bv8>)
    requires i <= |b| && b[i..] == EncodeTerm(t) + rest
    ensures TermAt(b, i) == Some(t) && b[i + Size(t)..] == rest && i + Size(t) + |rest| == |b|
  {
    OpcodeBits(t);
    assert b[i..][0] == b[i] && b[i..][1] == b[i + 1];
    assert t.test.Between? ==> b[i..][2] == b[i + 2];
    assert b[i..][Size(t)..] == b[i + Size(t)..];
  }

  lemma EncodingAt(b: seq<bv8>, i: nat)
    requires TermAt(b, i).Some?
    ensures var t := TermAt(b, i).value; i + Size(t) <= |b| && b[i..i + Size(t)] == EncodeTerm(t)
  {
    var t := TermAt(b, i).value;
    OpcodeBack(b[i], b[i + 1], if i + 2 < |b| then b[i + 2] else 0);
  }

  lemma {:induction false} EncodingAccepted(b: seq<bv8>, i: nat, tree: Rules)
    requires i <= |b| && Grammatical(tree) && tree != [] && b[i..] == Encode(tree)
    ensures Accepts(b, i)
    decreases |b| - i
  {
    var t, sep, rest := FirstTermAt(b, i, tree);
    if rest != [] {
      EncodingAccepted(b, i + Size(t) + 1, rest);
    }
  }

  lemma {:induction false} AcceptedEncoding(b: seq<bv8>, i: nat) returns (tree: Rules)
    requires i <= |b| && Accepts(b, i)
    ensures Grammatical(tree) && tree != [] && b[i..] == Encode(tree)
    decreases |b| - i
  {
    var t := TermAt(b, i).value;
    var j := i + Size(t);
    EncodingAt(b, i);
    if j == |b| {
      tree := [[[t]]];
      assert b[i..] == b[i..j];
    } else {
      var rest := AcceptedEncoding(b, j + 1);
      tree := Prepend(t, b[j], rest);
      PrependEncodes(t, b[j], rest);
      assert b[i..] == b[i..j] + [b[j]] + b[j + 1..];
    }
  }

  /** A byte string encodes one tree at most, so what it means is not ambiguous. */
  lemma {:induction false} OneTree(b: seq<bv8>, i: nat, tree: Rules, other: Rules)
    requires i <= |b| && Grammatical(tree) && tree != [] && Grammatical(other) && other != []
    requires b[i..] == Encode(tree) && b[i..] == Encode(other)
    ensures tree == other
    decreases |b| - i
  {
    var t, sep, rest := FirstTermAt(b, i, tree);
    var t', sep', rest' := FirstTermAt(b, i, other);
    if rest != [] {
      OneTree(b, i + Size(t) + 1, rest, rest');
    }
  }

  lemma Regroup(a: seq<bv8>, b: seq<bv8>, c: seq<bv8>)
    ensures a + b + c == a + (b + c) && a + [] == a
  {
  }

  lemma FirstTermAt(b: seq<bv8>, i: nat, tree: Rules) returns (t: Term, sep: bv8, rest: Rules)
    requires i <= |b| && Grammatical(tree) && tree != [] && b[i..] == Encode(tree)
    ensures Grammatical(rest) && TermAt(b, i) == Some(t) && i + Size(t) <= |b|
    ensures rest == [] <==> i + Size(t) == |b|
    ensures rest == [] ==> tree == [[[t]]]
    ensures rest != [] ==> b[i + Size(t)] == sep && Separator(sep) && tree == Prepend(t, sep, rest) && b[i + Size(t) + 1..] == Encode(rest)
  {
    t, sep, rest := FirstTerm(tree);
    if rest == [] {
      Regroup(EncodeTerm(t), [], []);
      TermAtEncoding(b, i, t, []);
    } else {
      PrependEncodes(t, sep, rest);
      Regroup(EncodeTerm(t), [sep], Encode(rest));
      TermAtEncoding(b, i, t, [sep] + Encode(rest));
      Onward(b, i + Size(t), sep, Encode(rest), [], true);
    }
  }

  /** The validator's language is the set of encodings. */
  lemma AcceptsIff(b: seq<bv8>)
    ensures (b == [] || Accepts(b, 0)) <==> exists tree :: Grammatical(tree) && b == Encode(tree)
  {
    assert b[0..] == b;
    if b == [] {
      assert Grammatical([]) && b == Encode([]);
    } else if Accepts(b, 0) {
      var tree := AcceptedEncoding(b, 0);
    }
    if exists tree :: Grammatical(tree) && b == Encode(tree) {
      var tree :| Grammatical(tree) && b == Encode(tree);
      if tree != [] {
        EncodingAccepted(b, 0, tree);
      }
    }
  }

  // ----- the interpreter -----------------------------------------------------------------

  /** One comparison: what it reads is there, and its operand is `n` as the opcode says. */
  method EvalTerm(n: int, rules: seq<bv8>, start: nat, ghost t: Term, ghost rest: seq<bv8>) returns (truthValue: bool, i: nat)
    requires start <= |rules| && rules[start..] == EncodeTerm(t) + rest
    ensures truthValue == TermTrue(t, n)
    ensures i <= |rules| && rules[i..] == rest
  {
    TermAtEncoding(rules, start, t, rest);
    OpcodeBits(t);
    i := start;
    truthValue := true;
    var opcode := rules[i];
    i := i + 1;
    var leftOperand := n;
    if opcode & P_MOD_10 != 0 {
      leftOperand := Rem(leftOperand, 10);
    } else if opcode & P_MOD_100 != 0 {
      leftOperand := Rem(leftOperand, 100);
    } else if opcode & P_LEAD_1000 != 0 {
      while leftOperand >= 1000
        invariant Lead(leftOperand) == Lead(n)
      {
        leftOperand := leftOperand / 1000;
      }
    }
    var op := opcode & P_OP_MASK;
    var rightOperand := rules[i] as int;
    i := i + 1;
    if op == P_EQ {
      truthValue := leftOperand == rightOperand;
    } else if op == P_LT {
      truthValue := leftOperand < rightOperand;
    } else if op == P_LEQ {
      truthValue := leftOperand <= rightOperand;
    } else if op == P_BETWEEN {
      var bottom, top := rightOperand, rules[i] as int;
      i := i + 1;
      truthValue := leftOperand >= bottom && leftOperand <= top;
    }
    if opcode & P_NOT != 0 {
      truthValue := !truthValue;
    }
  }

  /** The byte behind a part, if any, is not the separator that would continue it. */
  predicate StopsAt(rest: seq<bv8>, sep: bv8) {
    rest == [] || rest[0] != sep
  }

  method EvalAnd(n: int, rules: seq<bv8>, start: nat, ghost terms: Conjunction, ghost rest: seq<bv8>)
    returns (andExprTruthValue: bool, i: nat)
    requires terms != [] && start <= |rules| && rules[start..] == EncodeAnd(terms) + rest && StopsAt(rest, P_AND)
    ensures andExprTruthValue == AndTrue(terms, n)
    ensures i <= |rules| && rules[i..] == rest
  {
    andExprTruthValue, i := true, start;
    ghost var k := 0;
    while true
      invariant k < |terms| && i <= |rules| && rules[i..] == EncodeAnd(terms[k..]) + rest
      invariant andExprTruthValue == AndTrue(terms[..k], n)
      decreases |terms| - k
    {
      ghost var more := if k + 1 < |terms| then EncodeAnd(terms[k + 1..]) + rest else [];
      ghost var after := if k + 1 < |terms| then [P_AND] + more else rest;
      AndSplit(terms, k, rest);
      var truthValue;
      truthValue, i := EvalTerm(n, rules, i, terms[k], after);
      AndSnoc(terms, k, n);
      andExprTruthValue := andExprTruthValue && truthValue;
      k := k + 1;
      Onward(rules, i, P_AND, more, rest, k < |terms|);
      if i == |rules| || rules[i] != P_AND {
        assert terms[..k] == terms;
        break;
      }
      i := i + 1;
    }
  }

  lemma AndSplit(terms: Conjunction, k: nat, rest: seq<bv8>)
    requires k < |terms|
    ensures EncodeAnd(terms[k..]) + rest
         == EncodeTerm(terms[k]) + (if k + 1 < |terms| then [P_AND] + (EncodeAnd(terms[k + 1..]) + rest) else rest)
  {
    assert terms[k..][1..] == terms[k + 1..];
  }

  /** Behind a part comes the separator and more of the same, or the rest. */
  lemma Onward(rules: seq<bv8>, i: nat, sep: bv8, more: seq<bv8>, rest: seq<bv8>, goesOn: bool)
    requires i <= |rules| && rules[i..] == if goesOn then [sep] + more else rest
    ensures goesOn ==> i < |rules| && rules[i] == sep && rules[i + 1..] == more
    ensures !goesOn && i < |rules| ==> rest != [] && rules[i] == rest[0]
  {
    if goesOn {
      assert rules[i..][0] == sep && rules[i..][1..] == more;
    } else if i < |rules| {
      assert rules[i..][0] == rules[i];
    }
  }

  lemma AndSnoc(terms: Conjunction, k: nat, n: int)
    requires k < |terms|
    ensures AndTrue(terms[..k + 1], n) == (AndTrue(terms[..k], n) && TermTrue(terms[k], n))
  {
    assert terms[..k + 1] == terms[..k] + [terms[k]];
  }

  method EvalOr(n: int, rules: seq<bv8>, start: nat, ghost rule: Rule, ghost rest: seq<bv8>)
    returns (orExprTruthValue: bool, i: nat)
    requires GoodRule(rule) && start <= |rules| && rules[start..] == EncodeOr(rule) + rest
    requires StopsAt(rest, P_AND) && StopsAt(rest, P_OR)
    ensures orExprTruthValue == RuleTrue(rule, n)
    ensures i <= |rules| && rules[i..] == rest
  {
    hide EncodeAnd;
    orExprTruthValue, i := false, start;
    ghost var k := 0;
    while true
      invariant k < |rule| && i <= |rules| && rules[i..] == EncodeOr(rule[k..]) + rest
      invariant orExprTruthValue == RuleTrue(rule[..k], n)
      decreases |rule| - k
    {
      ghost var more := if k + 1 < |rule| then EncodeOr(rule[k + 1..]) + rest else [];
      ghost var after := if k + 1 < |rule| then [P_OR] + more else rest;
      OrSplit(rule, k, rest);
      var andExprTruthValue;
      andExprTruthValue, i := EvalAnd(n, rules, i, rule[k], after);
      OrSnoc(rule, k, n);
      orExprTruthValue := orExprTruthValue || andExprTruthValue;
      k := k + 1;
      Onward(rules, i, P_OR, more, rest, k < |rule|);
      if i == |rules| || rules[i] != P_OR {
        assert rule[..k] == rule;
        break;
      }
      i := i + 1;
    }
  }

  lemma OrSplit(rule: Rule, k: nat, rest: seq<bv8>)
    requires GoodRule(rule) && k < |rule|
    ensures EncodeOr(rule[k..]) + rest
         == EncodeAnd(rule[k]) + (if k + 1 < |rule| then [P_OR] + (EncodeOr(rule[k + 1..]) + rest) else rest)
  {
    assert rule[k..][1..] == rule[k + 1..];
  }

  lemma OrSnoc(rule: Rule, k: nat, n: int)
    requires k < |rule|
    ensures RuleTrue(rule[..k + 1], n) == (RuleTrue(rule[..k], n) || AndTrue(rule[k], n))
  {
    var front := rule[..k + 1];
    assert front == rule[..k] + [rule[k]];
    if RuleTrue(rule[..k], n) {
      var j :| 0 <= j < |rule[..k]| && AndTrue(rule[..k][j], n);
      assert front[j] == rule[..k][j];
    }
    if AndTrue(rule[k], n) {
      assert front[k] == rule[k];
    }
  }

  /** `numerus_helper` on the encoding of any tree. */
  method NumerusHelper(n: int, rules: seq<bv8>, ghost tree: Rules) returns (result: nat)
    requires Grammatical(tree) && rules == Encode(tree)
    ensures result == Form(tree, n)
  {
    result := 0;
    var i := 0;
    if |rules| == 0 {
      if tree != [] {
        EncodeNonempty(tree);
      }
      return;
    }
    assert rules[0..] == rules && tree[0..] == tree;
    while true
      invariant result < |tree| && i <= |rules| && rules[i..] == Encode(tree[result..])
      invariant forall k :: 0 <= k < result ==> !RuleTrue(tree[k], n)
      decreases |tree| - result
    {
      ghost var after := if result + 1 < |tree| then [P_NEWRULE] + Encode(tree[result + 1..]) else [];
      RulesSplit(tree[result..]);
      assert tree[result..][1..] == tree[result + 1..];
      var orExprTruthValue;
      orExprTruthValue, i := EvalOr(n, rules, i, tree[result], after);
      if orExprTruthValue {
        FirstTrue(tree, n, result);
        return;
      }
      result := result + 1;
      if i == |rules| {
        FirstTrue(tree, n, result);
        return;
      }
      assert rules[i..][1..] == rules[i + 1..];
      i := i + 1;
    }
  }

  lemma EncodeNonempty(tree: Rules)
    requires Grammatical(tree) && tree != []
    ensures Encode(tree) != []
  {
    var t, sep, rest := FirstTerm(tree);
    if rest != [] {
      PrependEncodes(t, sep, rest);
    }
  }

  lemma RulesSplit(tree: Rules)
    requires Grammatical(tree) && tree != []
    ensures Encode(tree) == EncodeOr(tree[0]) + (if |tree| > 1 then [P_NEWRULE] + Encode(tree[1..]) else [])
  {
  }

  lemma FirstTrue(tree: Rules, n: int, k: nat)
    requires k <= |tree| && forall j :: 0 <= j < k ==> !RuleTrue(tree[j], n)
    requires k < |tree| ==> RuleTrue(tree[k], n)
    ensures k == Form(tree, n)
  {
  }
}
