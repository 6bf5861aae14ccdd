/** Building a query (lib/sd-journal.c): matches, conjunctions and disjunctions. */
module JournalQuery {
  import opened JournalDef
  import opened JournalView
  import opened JournalMatch

  predicate IsMatchChar(c: Byte) {
    c == UNDERSCORE || 65 <= c <= 90 || 48 <= c <= 57
  }

  /** FIELD=value with a field name of capital letters, digits and underscores that does not start with two underscores. */
  predicate IsMatch(data: Payload) {
    && |data| >= 2 && !(data[0] == UNDERSCORE && data[1] == UNDERSCORE)
    && 0 < IndexOf(data, EQUALS) < |data|
    && forall i :: 0 <= i < IndexOf(data, EQUALS) ==> IsMatchChar(data[i])
  }

  method MatchIsValid(data: Payload) returns (r: bool)
    ensures r <==> IsMatch(data)
  {
    if |data| < 2 {
      return false;
    }
    if data[0] == UNDERSCORE && data[1] == UNDERSCORE {
      return false;
    }
    var p := 0;
    while p < |data|
      invariant 0 <= p <= IndexOf(data, EQUALS)
      invariant forall i :: 0 <= i < p ==> IsMatchChar(data[i])
    {
      if data[p] == EQUALS {
        return p > 0;
      }
      if !(data[p] == UNDERSCORE || 65 <= data[p] <= 90 || 48 <= data[p] <= 57) {
        return false;
      }
      p := p + 1;
    }
    r := false;
  }

  /** The part of a payload before its first '='. */
  function FieldOf(data: Payload): Payload {
    data[..IndexOf(data, EQUALS)]
  }

  /** Compares up to the first '='; two matches always decide before one of them ends. */
  method SameField(a: Payload, b: Payload) returns (r: bool)
    requires IsMatch(a) && IsMatch(b)
    ensures r <==> FieldOf(a) == FieldOf(b)
  {
    var j := 0;
    while j < |a| && j < |b|
      invariant 0 <= j <= IndexOf(a, EQUALS) && j <= IndexOf(b, EQUALS)
      invariant a[..j] == b[..j]
    {
      if a[j] != b[j] {
        assert j < IndexOf(a, EQUALS) && j < IndexOf(b, EQUALS) ==> FieldOf(a)[j] != FieldOf(b)[j];
        return false;
      }
      if a[j] == EQUALS {
        return true;
      }
      j := j + 1;
    }
    assert false;
  }

  // ---------- what a sequence of calls means ----------

  datatype Op = Add(data: Payload) | Conjunction | Disjunction

  /** A conjunction was asked for since the last match. */
  predicate Conjoining(ops: seq<Op>) {
    ops != [] && !ops[|ops| - 1].Add? && (ops[|ops| - 1].Conjunction? || Conjoining(ops[..|ops| - 1]))
  }

  predicate Disjoining(ops: seq<Op>) {
    ops != [] && !ops[|ops| - 1].Add? && (ops[|ops| - 1].Disjunction? || Disjoining(ops[..|ops| - 1]))
  }

  /** The matches added, in conjunction groups made of disjunction groups, newest groups first. */
  function Groups(ops: seq<Op>): seq<seq<set<Payload>>> {
    if ops == [] then []
    else
      var front := ops[..|ops| - 1];
      var g := Groups(front);
      match ops[|ops| - 1]
      case Add(x) =>
        if g == [] || Conjoining(front) then [[{x}]] + g
        else if g[0] == [] || Disjoining(front) then g[0 := [{x}] + g[0]]
        else g[0 := g[0][0 := g[0][0] + {x}]]
      case _ => g
  }

  /** Every field of the group has one of its values. */
  ghost predicate GroupHolds(d: set<Payload>, fields: multiset<Payload>) {
    forall x :: x in d ==> exists y :: y in d && FieldOf(y) == FieldOf(x) && y in fields
  }

  ghost predicate SomeHolds(g: seq<set<Payload>>, fields: multiset<Payload>) {
    exists i :: 0 <= i < |g| && GroupHolds(g[i], fields)
  }

  /** All conjunction groups, in each one disjunction group, in it all fields, of each one value. */
  ghost predicate Meaning(groups: seq<seq<set<Payload>>>, fields: multiset<Payload>) {
    forall i :: 0 <= i < |groups| ==> SomeHolds(groups[i], fields)
  }

  // ---------- the tree ----------

  type Term = seq<Payload>

  /** One field, some values. */
  predicate TermOk(t: Term) {
    && t != [] && (forall i :: 0 <= i < |t| ==> IsMatch(t[i]))
    && forall i :: 0 <= i < |t| ==> FieldOf(t[i]) == FieldOf(t[0])
  }

  /** Terms of different fields. */
  predicate TermsOk(d: seq<Term>) {
    && d != [] && (forall i :: 0 <= i < |d| ==> TermOk(d[i]))
    && forall i, j :: 0 <= i < j < |d| ==> FieldOf(d[i][0]) != FieldOf(d[j][0])
  }

  predicate LevelsOk(level0: seq<seq<seq<Term>>>) {
    && (forall i :: 0 <= i < |level0| ==> level0[i] != [])
    && forall i, j :: 0 <= i < |level0| && 0 <= j < |level0[i]| ==> TermsOk(level0[i][j])
  }

  function Values(d: seq<Term>): set<Payload> {
    set i, j | 0 <= i < |d| && 0 <= j < |d[i]| :: d[i][j]
  }

  ghost predicate Mirrors(level0: seq<seq<seq<Term>>>, groups: seq<seq<set<Payload>>>) {
    && |level0| == |groups|
    && (forall i :: 0 <= i < |groups| ==> |level0[i]| == |groups[i]|)
    && forall i, j :: 0 <= i < |groups| && 0 <= j < |groups[i]| ==> Values(level0[i][j]) == groups[i][j]
  }

  function TermTree(t: Term): Match {
    OrTerm(seq(|t|, l requires 0 <= l < |t| => Discrete(t[l])))
  }

  function TermsTree(d: seq<Term>): Match {
    AndTerm(seq(|d|, k requires 0 <= k < |d| => TermTree(d[k])))
  }

  function GroupTree(g: seq<seq<Term>>): Match {
    OrTerm(seq(|g|, j requires 0 <= j < |g| => TermsTree(g[j])))
  }

  function Tree(level0: seq<seq<seq<Term>>>): Match {
    AndTerm(seq(|level0|, i requires 0 <= i < |level0| => GroupTree(level0[i])))
  }

  lemma {:induction false} TermMeaning(t: Term, fields: multiset<Payload>)
    ensures Satisfied(TermTree(t), fields) <==> exists l :: 0 <= l < |t| && t[l] in fields
  {
    var ms := TermTree(t).matches;
    if l :| 0 <= l < |t| && t[l] in fields {
      assert Satisfied(ms[l], fields);
    }
    if l :| 0 <= l < |ms| && Satisfied(ms[l], fields) {
      assert t[l] in fields;
    }
  }

  ghost predicate FieldHolds(d: set<Payload>, x: Payload, fields: multiset<Payload>) {
    exists y :: y in d && FieldOf(y) == FieldOf(x) && y in fields
  }

  /** A term holds when some value of its field, wherever it is in the group, is present. */
  lemma {:induction false} TermHolds(d: seq<Term>, k: nat, fields: multiset<Payload>)
    requires TermsOk(d) && k < |d|
    ensures Satisfied(TermTree(d[k]), fields) <==> FieldHolds(Values(d), d[k][0], fields)
  {
    hide Satisfied, IsMatch, FieldOf, TermTree;
    TermMeaning(d[k], fields);
    if l :| 0 <= l < |d[k]| && d[k][l] in fields {
      assert d[k][l] in Values(d);
    }
    if FieldHolds(Values(d), d[k][0], fields) {
      var y :| y in Values(d) && FieldOf(y) == FieldOf(d[k][0]) && y in fields;
      var i, l :| 0 <= i < |d| && 0 <= l < |d[i]| && d[i][l] == y;
      assert FieldOf(d[i][0]) == FieldOf(y);
      assert i == k;
    }
  }

  lemma {:induction false} ValueAt(d: seq<Term>, x: Payload) returns (k: nat)
    requires TermsOk(d) && x in Values(d)
    ensures k < |d| && FieldOf(d[k][0]) == FieldOf(x)
  {
    hide IsMatch, FieldOf;
    var i, l :| 0 <= i < |d| && 0 <= l < |d[i]| && d[i][l] == x;
    k := i;
  }

  lemma {:induction false} TermsMeaning(d: seq<Term>, fields: multiset<Payload>)
    requires TermsOk(d)
    ensures Satisfied(TermsTree(d), fields) <==> GroupHolds(Values(d), fields)
  {
    hide Satisfied, IsMatch, FieldOf, TermTree, TermsTree;
    AndMeaning(d, fields);
    forall k | 0 <= k < |d|
      ensures Satisfied(TermTree(d[k]), fields) <==> FieldHolds(Values(d), d[k][0], fields)
      ensures d[k][0] in Values(d)
    {
      TermHolds(d, k, fields);
    }
    hide Values;
    if forall k :: 0 <= k < |d| ==> Satisfied(TermTree(d[k]), fields) {
      forall x | x in Values(d) ensures exists y :: y in Values(d) && FieldOf(y) == FieldOf(x) && y in fields {
        var k := ValueAt(d, x);
      }
    }
  }

  lemma {:induction false} AndMeaning(d: seq<Term>, fields: multiset<Payload>)
    requires d != []
    ensures Satisfied(TermsTree(d), fields) <==> forall k :: 0 <= k < |d| ==> Satisfied(TermTree(d[k]), fields)
  {
    hide TermTree;
    var ms := TermsTree(d).matches;
    assert forall k :: 0 <= k < |d| ==> ms[k] == TermTree(d[k]);
  }

  lemma {:induction false} GroupMeaning(level0: seq<seq<seq<Term>>>, groups: seq<seq<set<Payload>>>, i: nat, fields: multiset<Payload>)
    requires LevelsOk(level0) && Mirrors(level0, groups) && i < |groups|
    ensures Satisfied(GroupTree(level0[i]), fields) <==> SomeHolds(groups[i], fields)
  {
    hide TermsTree, TermsOk, GroupHolds, Values;
    var ms := GroupTree(level0[i]).matches;
    forall j | 0 <= j < |groups[i]| ensures Satisfied(ms[j], fields) <==> GroupHolds(groups[i][j], fields) {
      TermsMeaning(level0[i][j], fields);
      assert ms[j] == TermsTree(level0[i][j]);
    }
  }

  /** The tree means what the sequence of calls means, although the check for duplicates is incomplete. */
  lemma {:induction false} TreeMeaning(level0: seq<seq<seq<Term>>>, groups: seq<seq<set<Payload>>>, fields: multiset<Payload>)
    requires LevelsOk(level0) && Mirrors(level0, groups) && groups != []
    ensures Satisfied(Tree(level0), fields) <==> Meaning(groups, fields)
  {
    hide GroupTree, SomeHolds, Values, TermsOk;
    var ms := Tree(level0).matches;
    forall i | 0 <= i < |groups| ensures Satisfied(ms[i], fields) <==> SomeHolds(groups[i], fields) {
      GroupMeaning(level0, groups, i, fields);
      assert ms[i] == GroupTree(level0[i]);
    }
  }

  // ---------- building it ----------

  lemma {:induction false} ValuesMore(d: seq<Term>, k: nat, x: Payload)
    requires k < |d|
    ensures Values(d[k := [x] + d[k]]) == Values(d) + {x}
  {
    var d' := d[k := [x] + d[k]];
    forall y | y in Values(d) + {x} ensures y in Values(d') {
      if y == x {
        assert d'[k][0] == x;
      } else {
        var i, j :| 0 <= i < |d| && 0 <= j < |d[i]| && d[i][j] == y;
        assert d'[i][if i == k then j + 1 else j] == y;
      }
    }
    forall y | y in Values(d') ensures y in Values(d) + {x} {
      var i, j :| 0 <= i < |d'| && 0 <= j < |d'[i]| && d'[i][j] == y;
      if i != k {
        assert d[i][j] == y;
      } else if j > 0 {
        assert d[i][j - 1] == y;
      }
    }
  }

  lemma {:induction false} NoValues()
    ensures Values([]) == {}
  {
  }

  lemma {:induction false} ValuesNew(d: seq<Term>)
    ensures Values([[]] + d) == Values(d)
  {
    var d' := [[]] + d;
    forall y | y in Values(d) ensures y in Values(d') {
      var i, j :| 0 <= i < |d| && 0 <= j < |d[i]| && d[i][j] == y;
      assert d'[i + 1][j] == y;
    }
    forall y | y in Values(d') ensures y in Values(d) {
      var i, j :| 0 <= i < |d'| && 0 <= j < |d'[i]| && d'[i][j] == y;
      assert d[i - 1][j] == y;
    }
  }

  /** The terms with x added to term k, or in a new term. */
  function WithMatch(d: seq<Term>, k: Option<nat>, x: Payload): seq<Term>
    requires k.Some? ==> k.value < |d|
  {
    match k
    case Some(i) => d[i := [x] + d[i]]
    case None => ([[]] + d)[0 := [x] + []]
  }

  lemma {:induction false} WithMatchOk(d: seq<Term>, k: Option<nat>, x: Payload)
    requires d == [] || TermsOk(d)
    requires IsMatch(x)
    requires k.Some? ==> k.value < |d| && FieldOf(d[k.value][0]) == FieldOf(x)
    requires k.None? ==> forall i :: 0 <= i < |d| ==> FieldOf(d[i][0]) != FieldOf(x)
    ensures TermsOk(WithMatch(d, k, x)) && Values(WithMatch(d, k, x)) == Values(d) + {x}
  {
    hide IsMatch, FieldOf, Values;
    match k {
      case Some(i) => ValuesMore(d, i, x);
      case None =>
        ValuesNew(d);
        ValuesMore([[]] + d, 0, x);
    }
  }

  class Query {
    /** The tree, with the newest members of a term first. */
    var level0: seq<seq<seq<Term>>>
    /** Whether the newest level 1 and level 2 terms take further matches. */
    var level1: bool
    var level2: bool
    ghost var ops: seq<Op>

    ghost predicate Valid()
      reads this
    {
      && LevelsOk(level0) && Mirrors(level0, Groups(ops))
      && (level1 <==> level0 != [] && !Conjoining(ops))
      && (level2 <==> level0 != [] && !Conjoining(ops) && !Disjoining(ops))
    }

    constructor ()
      ensures Valid() && ops == [] && level0 == []
    {
      level0, level1, level2, ops := [], false, false, [];
    }

    /** Looks for a term of the field of `data`, or for the same match. */
    static method FindTerm(d: seq<Term>, data: Payload) returns (duplicate: bool, k: Option<nat>)
      requires (d == [] || TermsOk(d)) && IsMatch(data)
      ensures duplicate ==> data in Values(d)
      ensures k.Some? ==> k.value < |d| && FieldOf(d[k.value][0]) == FieldOf(data)
      ensures !duplicate && k.None? ==> forall i :: 0 <= i < |d| ==> FieldOf(d[i][0]) != FieldOf(data)
    {
      hide IsMatch, FieldOf;
      var l3 := 0;
      while l3 < |d|
        invariant 0 <= l3 <= |d|
        invariant forall i :: 0 <= i < l3 ==> FieldOf(d[i][0]) != FieldOf(data)
      {
        var l4 := 0;
        while l4 < |d[l3]|
          invariant 0 <= l4 <= |d[l3]|
          invariant l4 > 0 ==> FieldOf(d[l3][0]) != FieldOf(data)
        {
          if d[l3][l4] == data {
            return true, None;
          }
          var same := SameField(data, d[l3][l4]);
          if same {
            return false, Some(l3);
          }
          l4 := l4 + 1;
        }
        l3 := l3 + 1;
      }
      duplicate, k := false, None;
    }

    method AddMatch(data: Payload) returns (ok: bool)
      requires Valid()
      modifies this
      ensures Valid() && (ok <==> IsMatch(data))
      ensures ops == if ok then old(ops) + [Add(data)] else old(ops)
    {
      hide IsMatch, FieldOf, Values, TermsOk;
      NoValues();
      ok := MatchIsValid(data);
      if !ok {
        return;
      }
      ghost var groups := Groups(ops);
      ghost var ops' := ops + [Add(data)];
      assert ops'[..|ops|] == ops;
      if !level1 {
        level0 := [[]] + level0;
        level1 := true;
      }
      if !level2 {
        level0 := level0[0 := [[]] + level0[0]];
        level2 := true;
      }
      var terms := level0[0][0];
      var duplicate, k := FindTerm(terms, data);
      if duplicate {
        assert Values(terms) + {data} == Values(terms);
        ops := ops';
        return;
      }
      WithMatchOk(terms, k, data);
      ghost var terms' := WithMatch(terms, k, data);
      var addHere := 0;
      match k {
        case Some(i) => addHere := i;
        case None => terms := [[]] + terms;
      }
      terms := terms[addHere := [data] + terms[addHere]];
      level0 := level0[0 := level0[0][0 := terms]];
      ops := ops';
    }

    method AddConjunction()
      requires Valid()
      modifies this
      ensures Valid() && ops == old(ops) + [Conjunction]
    {
      ghost var ops' := ops + [Conjunction];
      assert ops'[..|ops|] == ops;
      ops := ops';
      if level0 == [] || !level1 || level0[0] == [] {
        return;
      }
      level1, level2 := false, false;
    }

    method AddDisjunction()
      requires Valid()
      modifies this
      ensures Valid() && ops == old(ops) + [Disjunction]
    {
      hide Values;
      ghost var ops' := ops + [Disjunction];
      assert ops'[..|ops|] == ops;
      ops := ops';
      if level0 == [] || !level1 || !level2 || level0[0][0] == [] {
        return;
      }
      level2 := false;
    }
  }
}
