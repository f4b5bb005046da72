/** `ribose_label_sort` (ribose_analysis.py) and the `sorted` calls that
    use it: the contact-map axes list D-ribose atoms first, then L-ribose,
    cytosine and guanine atoms. */
module LabelSort {
  import opened Text
  import opened HBonds

  /** Python compares key tuples component by component. */
  type Key = (int, int)

  predicate KeyLe(a: Key, b: Key)
  {
    a.0 < b.0 || (a.0 == b.0 && a.1 <= b.1)
  }

  /** The key with its rank in front; `None` when `int` raised. */
  function Ranked(rank: int, v: Option<int>): (r: Option<Key>)
    ensures r.Some? <==> v.Some?
    ensures r.Some? ==> r.value == (rank, v.value)
  {
    if v.None? then None else Some((rank, v.value))
  }

  /** `ribose_label_sort(item)`: the prefix tests in their order and the
      integer after each prefix; `None` where `int` raises `ValueError`. */
  function RiboseLabelSort(item: string): (r: Option<Key>)
    ensures r.Some? ==> 0 <= r.value.0 <= 4
  {
    if StartsWith(item, DRibose) then Ranked(0, ParseInt(Drop(item, 3)))
    else if StartsWith(item, LRibose) then Ranked(1, ParseInt(Drop(item, 3)))
    else if StartsWith(item, Cytosine) then Ranked(2, ParseInt(Drop(item, 1)))
    else if StartsWith(item, Guanine) then Ranked(3, ParseInt(Drop(item, 1)))
    else Ranked(4, ParseInt(Drop(item, 2)))
  }

  /** The residue names the contact maps label atoms with, in axis order. */
  function Rank(name: string): int
  {
    if name == DRibose then 0 else if name == LRibose then 1 else if name == Cytosine then 2 else 3
  }

  predicate IsBaseOrSugar(name: string)
  {
    name == DRibose || name == LRibose || name == Cytosine || name == Guanine
  }

  /** A label `f"{name}-{role}"` as the contact maps build it. */
  function Label(name: string, role: nat): string
  {
    name + [Dash] + NatToString(role)
  }

  /** A string whose first character differs from a prefix's does not
      start with it. */
  lemma NotPrefix(item: string, p: string)
    requires |item| > 0 && |p| > 0 && item[0] != p[0]
    ensures !StartsWith(item, p)
  {
    assert |p| > |item| || item[..|p|][0] == item[0];
  }

  /** A label whose role part is a run of digits has a key: its residue's
      rank and the digits' value negated, for the slice after the prefix
      keeps the dash, which `int` reads as a minus sign. */
  lemma DigitLabelKey(name: string, digits: string)
    requires IsBaseOrSugar(name) && |digits| > 0 && AllDigits(digits)
    ensures RiboseLabelSort(name + [Dash] + digits) == Some((Rank(name), -(DigitsValue(digits) as int)))
  {
    NamesDistinct();
    var rest := [Dash] + digits;
    ParseNegative(digits);
    var item := name + [Dash] + digits;
    assert item[..|name|] == name && item[0] == name[0];
    assert item[|name|..] == rest;
    if name != DRibose {
      NotPrefix(item, DRibose);
      if name != LRibose {
        NotPrefix(item, LRibose);
        if name != Cytosine {
          NotPrefix(item, Cytosine);
        }
      }
    }
  }

  /** The key of a label is its residue's rank and its role negated. */
  lemma LabelKey(name: string, role: nat)
    requires IsBaseOrSugar(name)
    ensures RiboseLabelSort(Label(name, role)) == Some((Rank(name), -(role as int)))
  {
    DigitLabelKey(name, NatToString(role));
    DigitsOfNat(role);
  }

  /** On the labels of the contact maps the key orders by residue first
      and, within a residue, by decreasing role. */
  lemma LabelOrder(n1: string, r1: nat, n2: string, r2: nat)
    requires IsBaseOrSugar(n1) && IsBaseOrSugar(n2)
    ensures RiboseLabelSort(Label(n1, r1)).Some? && RiboseLabelSort(Label(n2, r2)).Some?
    ensures KeyLe(RiboseLabelSort(Label(n1, r1)).value, RiboseLabelSort(Label(n2, r2)).value)
        <==> Rank(n1) < Rank(n2) || (n1 == n2 && r1 >= r2)
  {
    LabelKey(n1, r1);
    LabelKey(n2, r2);
    NamesDistinct();
  }

  // ----- sorted(labels, key=ribose_label_sort, reverse=...) -----

  /** Every label has a key, so `sorted` does not raise. */
  predicate Keyed(labels: set<string>)
  {
    forall l :: l in labels ==> RiboseLabelSort(l).Some?
  }

  predicate AllKeyed(xs: seq<string>)
  {
    forall i :: 0 <= i < |xs| ==> RiboseLabelSort(xs[i]).Some?
  }

  /** `a` may come before `b` in the order asked for. */
  predicate Before(a: string, b: string, reverse: bool)
    requires RiboseLabelSort(a).Some? && RiboseLabelSort(b).Some?
  {
    if reverse then KeyLe(RiboseLabelSort(b).value, RiboseLabelSort(a).value)
    else KeyLe(RiboseLabelSort(a).value, RiboseLabelSort(b).value)
  }

  predicate SortedBy(xs: seq<string>, reverse: bool)
    requires AllKeyed(xs)
  {
    forall i, j :: 0 <= i < j < |xs| ==> Before(xs[i], xs[j], reverse)
  }

  predicate Distinct(xs: seq<string>)
  {
    forall i, j :: 0 <= i < j < |xs| ==> xs[i] != xs[j]
  }

  /** `xs` lists the elements of `labels`, each once. */
  predicate Lists(xs: seq<string>, labels: set<string>)
  {
    Distinct(xs) && (forall i :: 0 <= i < |xs| ==> xs[i] in labels) && (forall l :: l in labels ==> l in xs)
  }

  lemma BeforeTotal(a: string, b: string, reverse: bool)
    requires RiboseLabelSort(a).Some? && RiboseLabelSort(b).Some?
    ensures Before(a, b, reverse) || Before(b, a, reverse)
  {
  }

  lemma BeforeTransitive(a: string, b: string, c: string, reverse: bool)
    requires RiboseLabelSort(a).Some? && RiboseLabelSort(b).Some? && RiboseLabelSort(c).Some?
    requires Before(a, b, reverse) && Before(b, c, reverse)
    ensures Before(a, c, reverse)
  {
  }

  /** A label of `rest` that may come first among them. */
  method First(rest: set<string>, reverse: bool) returns (m: string)
    requires rest != {} && Keyed(rest)
    ensures m in rest
    ensures forall y :: y in rest ==> Before(m, y, reverse)
  {
    m :| m in rest;
    var todo := rest - {m};
    while todo != {}
      invariant todo <= rest && m in rest
      invariant forall z :: z in rest && z !in todo ==> Before(m, z, reverse)
      decreases todo
    {
      var y :| y in todo;
      if !Before(m, y, reverse) {
        BeforeTotal(m, y, reverse);
        forall z | z in rest && z !in todo
          ensures Before(y, z, reverse)
        {
          BeforeTransitive(y, m, z, reverse);
        }
        m := y;
      }
      todo := todo - {y};
    }
  }

  /** `sorted(labels, key=ribose_label_sort, reverse=reverse)` on a set
      whose labels all have keys: each label once, in key order (reversed
      when asked). */
  method SortLabels(labels: set<string>, reverse: bool) returns (xs: seq<string>)
    requires Keyed(labels)
    ensures Lists(xs, labels) && |xs| == |labels|
    ensures AllKeyed(xs) && SortedBy(xs, reverse)
  {
    xs := [];
    var rest := labels;
    while rest != {}
      invariant rest <= labels
      invariant Distinct(xs)
      invariant forall i :: 0 <= i < |xs| ==> xs[i] in labels && xs[i] !in rest
      invariant forall l :: l in labels ==> l in xs || l in rest
      invariant |xs| + |rest| == |labels|
      invariant AllKeyed(xs) && SortedBy(xs, reverse)
      invariant forall i, y :: 0 <= i < |xs| && y in rest ==> Before(xs[i], y, reverse)
      decreases rest
    {
      var m := First(rest, reverse);
      xs := xs + [m];
      rest := rest - {m};
    }
  }
}
