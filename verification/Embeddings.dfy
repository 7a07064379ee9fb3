/**
 * Whether a batch of embeddings can be trusted to answer the inputs it was asked for.
 * What a component is, and when it is a usable number, is left open.
 */
module Embeddings {

  import opened Wrappers
  import Sets

  datatype Embedding<F> = Embedding(index: nat, vector: seq<F>)

  datatype Defect =
    | CountMismatch(expected: nat, actual: nat)
    | EmptyVector(index: nat)
    | NonFiniteValue(index: nat)
    | InconsistentDimension
    | UnattributableIndex(index: nat)

  predicate Finite<F>(vector: seq<F>, usable: F -> bool) {
    forall i :: 0 <= i < |vector| ==> usable(vector[i])
  }

  /** The first embedding for an input. */
  function ForInput<F>(es: seq<Embedding<F>>, index: nat): Option<Embedding<F>> {
    if es == [] then None else if es[0].index == index then Some(es[0]) else ForInput(es[1..], index)
  }

  /** The dimension all embeddings share, if there are any and they do. */
  function Dimension<F>(es: seq<Embedding<F>>): Option<nat> {
    if es != [] && forall i :: 0 <= i < |es| ==> |es[i].vector| == |es[0].vector| then Some(|es[0].vector|) else None
  }

  // ---------------------------------------------------------- what is meant

  predicate Answered<F>(es: seq<Embedding<F>>, index: nat) {
    exists k :: 0 <= k < |es| && es[k].index == index
  }

  /** One non-empty vector of usable numbers for every input, all of one length, and there is an input. */
  ghost predicate Trustworthy<F>(inputs: nat, es: seq<Embedding<F>>, usable: F -> bool) {
    && inputs > 0 && |es| == inputs
    && (forall index: nat :: index < inputs ==> Answered(es, index))
    && (forall k :: 0 <= k < |es| ==> es[k].vector != [] && Finite(es[k].vector, usable))
    && (forall k :: 0 <= k < |es| ==> |es[k].vector| == |es[0].vector|)
  }

  // ------------------------------------------------------------- pigeonholes

  function IndicesOf<F>(es: seq<Embedding<F>>): (indices: seq<nat>)
    ensures |indices| == |es|
    ensures forall k :: 0 <= k < |es| ==> indices[k] == es[k].index
  {
    seq(|es|, k requires 0 <= k < |es| => es[k].index)
  }

  function Elements(s: seq<nat>): set<nat> {
    set x <- s
  }

  predicate Distinct(s: seq<nat>) {
    forall j, k :: 0 <= j < k < |s| ==> s[j] != s[k]
  }

  /** There are as many different elements as there are places exactly when none is repeated. */
  lemma {:induction false} CountsWhenDistinct(s: seq<nat>)
    ensures |Elements(s)| <= |s|
    ensures |Elements(s)| == |s| <==> Distinct(s)
  {
    if s != [] {
      var before, last := s[..|s| - 1], s[|s| - 1];
      CountsWhenDistinct(before);
      assert Elements(s) == Elements(before) + {last};
      if last in before {
        var j :| 0 <= j < |before| && before[j] == last;
        assert s[j] == s[|s| - 1];
      } else {
        assert Distinct(before) ==> Distinct(s);
        assert Distinct(s) ==> Distinct(before);
      }
    }
  }

  /** As many places as values: every value is taken exactly when no place holds a foreign or a repeated one. */
  lemma Pigeonholes(s: seq<nat>)
    ensures (forall i: nat :: i < |s| ==> i in s) <==> Distinct(s) && forall i: nat :: i in s ==> i < |s|
  {
    CountsWhenDistinct(s);
    var range := Sets.Below(|s|);
    if Distinct(s) && forall i: nat :: i in s ==> i < |s| {
      assert Elements(s) <= range;
      Sets.SameWhenAsMany(Elements(s), range);
      forall i: nat | i < |s| ensures i in s {
        assert i in range && i in Elements(s);
      }
    }
    if forall i: nat :: i < |s| ==> i in s {
      assert range <= Elements(s);
      Sets.SameWhenAsMany(range, Elements(s));
      assert |Elements(s)| == |range|;
      forall i: nat | i in s ensures i < |s| {
        assert i in Elements(s);
      }
    }
  }

  /** Counted right, every input is answered exactly when no index is foreign or repeated. */
  lemma EveryInputAnswered<F>(es: seq<Embedding<F>>)
    ensures (forall index: nat :: index < |es| ==> Answered(es, index))
            <==> Distinct(IndicesOf(es)) && forall k :: 0 <= k < |es| ==> es[k].index < |es|
  {
    var s := IndicesOf(es);
    Pigeonholes(s);
    forall index: nat ensures Answered(es, index) <==> index in s {
      if index in s {
        var k :| 0 <= k < |s| && s[k] == index;
        assert es[k].index == index;
      }
      if Answered(es, index) {
        var k :| 0 <= k < |es| && es[k].index == index;
        assert s[k] == index;
      }
    }
    assert forall k :: 0 <= k < |es| ==> es[k].index in s by {
      assert forall k :: 0 <= k < |es| ==> s[k] in s;
    }
  }

  /** What is found for an index is the first embedding that bears it. */
  lemma {:induction false} FindsTheFirst<F>(es: seq<Embedding<F>>, index: nat)
    ensures ForInput(es, index).None? <==> forall k :: 0 <= k < |es| ==> es[k].index != index
    ensures ForInput(es, index).Some? ==>
              exists k :: 0 <= k < |es| && ForInput(es, index) == Some(es[k]) && es[k].index == index
                && forall j :: 0 <= j < k ==> es[j].index != index
  {
    if es != [] && es[0].index != index {
      FindsTheFirst(es[1..], index);
      if ForInput(es, index).Some? {
        var k :| 0 <= k < |es| - 1 && ForInput(es, index) == Some(es[1..][k]) && es[1..][k].index == index
                 && forall j :: 0 <= j < k ==> es[1..][j].index != index;
        assert es[k + 1] == es[1..][k];
        forall j | 0 <= j < k + 1 ensures es[j].index != index {
          assert j > 0 ==> es[1..][j - 1] == es[j];
        }
      } else {
        assert forall k :: 0 < k < |es| ==> es[k] == es[1..][k - 1];
      }
    }
  }

  /** In a trustworthy answer every input has an embedding, the one found for it, and no other. */
  lemma FoundForEveryInput<F>(inputs: nat, es: seq<Embedding<F>>, usable: F -> bool, index: nat)
    requires Trustworthy(inputs, es, usable) && index < inputs
    ensures ForInput(es, index).Some? && ForInput(es, index).value in es
    ensures forall e <- es :: e.index == index <==> e == ForInput(es, index).value
  {
    EveryInputAnswered(es);
    hide Distinct, Finite, IndicesOf;
    assert Answered(es, index);
    var k :| 0 <= k < |es| && es[k].index == index;
    Finds(es, k);
    forall e <- es | e.index == index ensures e == es[k] {
      var j :| 0 <= j < |es| && es[j] == e;
      OnlyOne(es, j, k);
    }
  }

  lemma OnlyOne<F>(es: seq<Embedding<F>>, j: nat, k: nat)
    requires j < |es| && k < |es| && es[j].index == es[k].index && Distinct(IndicesOf(es))
    ensures j == k
  {
    assert IndicesOf(es)[j] == IndicesOf(es)[k];
  }

  lemma {:induction false} Finds<F>(es: seq<Embedding<F>>, k: nat)
    requires k < |es| && Distinct(IndicesOf(es))
    ensures ForInput(es, es[k].index) == Some(es[k])
  {
    var s, t := IndicesOf(es), IndicesOf(es[1..]);
    if k > 0 {
      assert s[0] != s[k];
      forall i, j | 0 <= i < j < |t| ensures t[i] != t[j] {
        assert s[i + 1] != s[j + 1];
      }
      Finds(es[1..], k - 1);
    }
  }

  // ----------------------------------------------------------------- checking

  /** What is wrong with one embedding, given those before it. */
  ghost function DefectAt<F>(inputs: nat, es: seq<Embedding<F>>, usable: F -> bool, k: nat): Option<Defect>
    requires k < |es|
  {
    var e := es[k];
    if e.index >= inputs || exists j :: 0 <= j < k && es[j].index == e.index then Some(UnattributableIndex(e.index))
    else if e.vector == [] then Some(EmptyVector(e.index))
    else if !Finite(e.vector, usable) then Some(NonFiniteValue(e.index))
    else None
  }

  ghost predicate SoundUpto<F>(inputs: nat, es: seq<Embedding<F>>, usable: F -> bool, k: nat)
    requires k <= |es|
  {
    forall j :: 0 <= j < k ==> DefectAt(inputs, es, usable, j) == None
  }

  lemma SoundMeansTrustworthy<F>(inputs: nat, es: seq<Embedding<F>>, usable: F -> bool)
    requires |es| == inputs
    ensures SoundUpto(inputs, es, usable, |es|) && Dimension(es).Some? <==> Trustworthy(inputs, es, usable)
  {
    EveryInputAnswered(es);
    if SoundUpto(inputs, es, usable, |es|) {
      forall k | 0 <= k < |es| ensures es[k].index < inputs && es[k].vector != [] && Finite(es[k].vector, usable) {
        assert DefectAt(inputs, es, usable, k) == None;
      }
      forall j, k | 0 <= j < k < |es| ensures IndicesOf(es)[j] != IndicesOf(es)[k] {
        assert DefectAt(inputs, es, usable, k) == None;
      }
    }
    if Trustworthy(inputs, es, usable) {
      forall k | 0 <= k < |es| ensures DefectAt(inputs, es, usable, k) == None {
        forall j | 0 <= j < k ensures es[j].index != es[k].index {
          assert IndicesOf(es)[j] != IndicesOf(es)[k];
        }
      }
    }
  }

  /** The defect is one the answer has, at a position that shows it. */
  ghost predicate Explains<F>(inputs: nat, es: seq<Embedding<F>>, usable: F -> bool, defect: Defect) {
    match defect
    case CountMismatch(expected, actual) => expected == inputs && actual == |es| && expected != actual
    case UnattributableIndex(index) =>
      exists k :: 0 <= k < |es| && es[k].index == index
        && (index >= inputs || exists j :: 0 <= j < k && es[j].index == index)
    case EmptyVector(index) => exists k :: 0 <= k < |es| && es[k].index == index && es[k].vector == []
    case NonFiniteValue(index) =>
      exists k :: 0 <= k < |es| && es[k].index == index && es[k].vector != [] && !Finite(es[k].vector, usable)
    case InconsistentDimension =>
      es == [] || exists k :: 0 <= k < |es| && |es[k].vector| != |es[0].vector|
  }

  /**
   * Accepts exactly the trustworthy answers, and reports of any other the first defect
   * it meets.
   */
  method Validate<F>(inputs: nat, es: seq<Embedding<F>>, usable: F -> bool) returns (r: Option<Defect>)
    ensures r.None? <==> Trustworthy(inputs, es, usable)
    ensures r.Some? ==> Explains(inputs, es, usable, r.value)
    ensures r.Some? ==>
              if |es| != inputs then r.value == CountMismatch(inputs, |es|)
              else if SoundUpto(inputs, es, usable, |es|) then r.value == InconsistentDimension && Dimension(es) == None
              else exists k :: 0 <= k < |es| && SoundUpto(inputs, es, usable, k) && DefectAt(inputs, es, usable, k) == r
  {
    if |es| != inputs {
      return Some(CountMismatch(inputs, |es|));
    }
    SoundMeansTrustworthy(inputs, es, usable);
    var seen := new bool[inputs](_ => false);
    for k := 0 to |es|
      invariant SoundUpto(inputs, es, usable, k)
      invariant forall i :: 0 <= i < inputs ==> (seen[i] <==> exists j :: 0 <= j < k && es[j].index == i)
    {
      ghost var defect := DefectAt(inputs, es, usable, k);
      var e := es[k];
      if e.index >= inputs || seen[e.index] {
        assert defect == Some(UnattributableIndex(e.index));
        return Some(UnattributableIndex(e.index));
      }
      seen[e.index] := true;
      if e.vector == [] {
        assert defect == Some(EmptyVector(e.index));
        return Some(EmptyVector(e.index));
      }
      if !Finite(e.vector, usable) {
        assert defect == Some(NonFiniteValue(e.index));
        return Some(NonFiniteValue(e.index));
      }
    }
    if Dimension(es).None? {
      return Some(InconsistentDimension);
    }
    r := None;
  }
}
