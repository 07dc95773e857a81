/**
 Resource vectors (pkg/common/resources/resources.go): sparse maps from a resource type to a
 quantity, with several conventions for a type that is not defined. A nil resource is `None`.

 The functions give the meaning of each operation on values. The class `Resource` holds the
 operations that the source runs as loops over its map, each proved against its function.
 */
module Resources {
  import opened Quantities

  datatype Option<+T> = None | Some(value: T)

  type Amounts = map<string, Quantity>

  /** An undefined quantity counts as zero. */
  function Get(a: Amounts, k: string): Quantity {
    if k in a then a[k] else 0
  }

  /** nil is treated as the empty resource. */
  function OrZero(a: Option<Amounts>): Amounts {
    if a.None? then map[] else a.value
  }

  predicate IsEmpty(a: Option<Amounts>) {
    a.None? || a.value == map[]
  }

  predicate IsZero(a: Amounts) {
    forall k | k in a :: a[k] == 0
  }

  predicate HasNegativeValue(a: Amounts) {
    exists k | k in a :: a[k] < 0
  }

  predicate NonNegative(a: Amounts) {
    forall k | k in a :: a[k] >= 0
  }

  /** Two resources that cannot be told apart by reading quantities. */
  ghost predicate SameView(a: Amounts, b: Amounts) {
    forall k: string :: Get(a, k) == Get(b, k)
  }

  // ---------- arithmetic ----------

  function Plus(a: Amounts, b: Amounts): Amounts {
    map k | k in a.Keys + b.Keys :: if k in b then SatAdd(Get(a, k), b[k]) else a[k]
  }

  function Minus(a: Amounts, b: Amounts): Amounts {
    map k | k in a.Keys + b.Keys :: if k in b then SatSub(Get(a, k), b[k]) else a[k]
  }

  /** The running total of a base and a list. */
  function PlusAll(base: Amounts, rs: seq<Amounts>): Amounts {
    if rs == [] then base else Plus(PlusAll(base, rs[..|rs| - 1]), rs[|rs| - 1])
  }

  function Pruned(a: Amounts): (r: Amounts)
    ensures SameView(r, a)
  {
    map k | k in a && a[k] != 0 :: a[k]
  }

  function Multiply(a: Amounts, ratio: Quantity): Amounts {
    if ratio == 0 then map[] else map k | k in a :: Clamp(a[k] * ratio)
  }

  function SubOnlyExisting(base: Option<Amounts>, delta: Option<Amounts>): Option<Amounts> {
    if base.None? || delta.None? then
      base
    else
      Some(map k | k in base.value :: SatSub(base.value[k], Get(delta.value, k)))
  }

  function SubEliminateNegative(left: Amounts, right: Amounts): Amounts {
    map k | k in left.Keys + right.Keys ::
      if k in right then
        var v := SatSub(Get(left, k), right[k]);
        if v < 0 then 0 else v
      else
        left[k]
  }

  function ComponentWiseMin(left: Option<Amounts>, right: Option<Amounts>): Option<Amounts> {
    if left.None? then right
    else if right.None? then left
    else
      Some(map k | k in left.value.Keys + right.value.Keys ::
        if k !in left.value then right.value[k]
        else if k !in right.value then left.value[k]
        else if left.value[k] <= right.value[k] then left.value[k] else right.value[k])
  }

  function ComponentWiseMinOnlyExisting(left: Option<Amounts>, right: Option<Amounts>): Option<Amounts> {
    if left.None? || right.None? then
      left
    else
      Some(map k | k in left.value ::
        if k in right.value && right.value[k] < left.value[k] then right.value[k] else left.value[k])
  }

  function MergeIfNotPresent(left: Option<Amounts>, right: Option<Amounts>): Option<Amounts> {
    if left.None? then right
    else if right.None? then left
    else Some(right.value + left.value)
  }

  // ---------- comparison ----------

  /**
   Does smaller fit? `skipUndef`: a type the larger side does not define has no limit.
   `actual`: negative quantities of the larger side are compared as they are, not as zero.
   */
  predicate Fits(larger: Amounts, smaller: Amounts, skipUndef: bool, actual: bool) {
    forall k | k in smaller ::
      (skipUndef && k !in larger)
      || smaller[k] <= (if actual || Get(larger, k) > 0 then Get(larger, k) else 0)
  }

  predicate FitIn(larger: Amounts, smaller: Amounts) {
    Fits(larger, smaller, false, false)
  }

  predicate FitInMaxUndef(larger: Option<Amounts>, smaller: Amounts) {
    Fits(OrZero(larger), smaller, true, false)
  }

  predicate FitInActual(larger: Amounts, smaller: Amounts) {
    Fits(larger, smaller, true, true)
  }

  predicate StrictlyGreaterThanOrEquals(larger: Amounts, smaller: Amounts) {
    && (forall k | k in larger :: Get(smaller, k) <= larger[k])
    && (forall k | k in smaller :: smaller[k] <= Get(larger, k))
  }

  /** Nothing is negative and something is not zero. */
  predicate StrictlyGreaterThanZero(a: Amounts) {
    NonNegative(a) && !IsZero(a)
  }

  predicate Equals(left: Amounts, right: Amounts) {
    && (forall k | k in left :: Get(right, k) == left[k])
    && (forall k | k in right :: Get(left, k) == right[k])
  }

  predicate EqualsOrEmpty(left: Amounts, right: Amounts) {
    (IsZero(left) && IsZero(right)) || Equals(left, right)
  }

  predicate MatchAny(a: Amounts, b: Amounts) {
    a.Keys * b.Keys != {}
  }

  /**
   The "only existing" comparison: only the types both sides define are compared, an empty larger
   side is never greater, an empty smaller side is passed by strictly positive quantities only, and
   two resources without a common type pass.
   */
  predicate GreaterOnlyExisting(larger: Amounts, smaller: Amounts, orEqual: bool) {
    if larger == map[] then
      false
    else if smaller == map[] then
      forall k | k in larger :: larger[k] > 0
    else
      && (forall k | k in larger && k in smaller :: smaller[k] <= larger[k])
      && (orEqual || !MatchAny(larger, smaller)
          || exists k | k in larger && k in smaller :: smaller[k] != larger[k])
  }

  // ---------- laws ----------

  /** No entry of the sum saturates. */
  predicate SumFits(a: Amounts, b: Amounts) {
    forall k | k in b :: InRange(Get(a, k) + b[k])
  }

  /** No entry of the difference saturates, and no entry is the one value without a negation. */
  predicate DifferenceFits(a: Amounts, b: Amounts) {
    forall k | k in b :: b[k] != MIN_INT64 && InRange(Get(a, k) - b[k])
  }

  lemma PlusExact(a: Amounts, b: Amounts, k: string)
    requires SumFits(a, b)
    ensures Get(Plus(a, b), k) == Get(a, k) + Get(b, k)
  {
  }

  lemma MinusExact(a: Amounts, b: Amounts, k: string)
    requires DifferenceFits(a, b)
    ensures Get(Minus(a, b), k) == Get(a, k) - Get(b, k)
  {
  }

  /** Taking a resource away and putting it back restores every quantity. */
  lemma MinusThenPlus(a: Amounts, b: Amounts)
    requires DifferenceFits(a, b)
    ensures SumFits(Minus(a, b), b)
    ensures SameView(Plus(Minus(a, b), b), a)
  {
  }

  lemma PlusThenMinus(a: Amounts, b: Amounts)
    requires SumFits(a, b) && NonNegative(b)
    ensures DifferenceFits(Plus(a, b), b)
    ensures SameView(Minus(Plus(a, b), b), a)
  {
  }

  /** Once a sum has saturated, taking the resource away again does not restore the base. */
  lemma SaturatedSumIsNotUndone()
    ensures var a: Amounts := map["memory" := MAX_INT64];
            var b: Amounts := map["memory" := 1];
            !SumFits(a, b) && Get(Minus(Plus(a, b), b), "memory") == MAX_INT64 - 1
  {
    var b: Amounts := map["memory" := 1];
    assert "memory" in b;
  }

  /** Comparing with nil or the zero resource asks for the absence of negative quantities. */
  lemma AtLeastZero(a: Amounts)
    ensures StrictlyGreaterThanOrEquals(a, map[]) <==> NonNegative(a)
  {
  }

  /** Equality ignores the difference between an undefined type and an explicit zero. */
  lemma EqualsIsSameView(a: Amounts, b: Amounts)
    ensures Equals(a, b) <==> SameView(a, b)
    ensures EqualsOrEmpty(a, b) <==> SameView(a, b)
  {
    if Equals(a, b) {
      forall k: string ensures Get(a, k) == Get(b, k) {}
    }
    if SameView(a, b) {
      forall k | k in a ensures Get(b, k) == a[k] { assert Get(a, k) == Get(b, k); }
      forall k | k in b ensures Get(a, k) == b[k] { assert Get(a, k) == Get(b, k); }
    }
  }

  // ---------- the loops ----------

  class Resource {
    var Resources: Amounts

    constructor (amounts: Amounts)
      ensures Resources == amounts
    {
      Resources := amounts;
    }

    /** Adds in place. The argument may be the same object. */
    method AddTo(add: Resource?)
      modifies this
      ensures Resources == if add == null then old(Resources) else Plus(old(Resources), old(add.Resources))
    {
      if add == null { return; }
      ghost var base, delta := Resources, add.Resources;
      var todo := add.Resources.Keys;
      while todo != {}
        modifies this
        invariant todo <= delta.Keys
        invariant if add == this then add.Resources == Resources else add.Resources == delta
        invariant Resources.Keys == base.Keys + (delta.Keys - todo)
        invariant forall k | k in delta && k !in todo :: Resources[k] == SatAdd(Get(base, k), delta[k])
        invariant forall k | k in base && (k !in delta || k in todo) :: Resources[k] == base[k]
        decreases todo
      {
        var k :| k in todo;
        todo := todo - {k};
        Resources := Resources[k := AddVal(Get(Resources, k), add.Resources[k])];
      }
      assert Resources == Plus(base, delta);
    }

    method SubFrom(sub: Resource?)
      modifies this
      ensures Resources == if sub == null then old(Resources) else Minus(old(Resources), old(sub.Resources))
    {
      if sub == null { return; }
      ghost var base, delta := Resources, sub.Resources;
      var todo := sub.Resources.Keys;
      while todo != {}
        modifies this
        invariant todo <= delta.Keys
        invariant if sub == this then sub.Resources == Resources else sub.Resources == delta
        invariant Resources.Keys == base.Keys + (delta.Keys - todo)
        invariant forall k | k in delta && k !in todo :: Resources[k] == SatSub(Get(base, k), delta[k])
        invariant forall k | k in base && (k !in delta || k in todo) :: Resources[k] == base[k]
        decreases todo
      {
        var k :| k in todo;
        todo := todo - {k};
        Resources := Resources[k := SubVal(Get(Resources, k), sub.Resources[k])];
      }
      assert Resources == Minus(base, delta);
    }

    method Prune()
      modifies this
      ensures Resources == Pruned(old(Resources))
    {
      ghost var base := Resources;
      var todo := Resources.Keys;
      while todo != {}
        modifies this
        invariant todo <= base.Keys
        invariant Resources == map k | k in base && (k in todo || base[k] != 0) :: base[k]
        decreases todo
      {
        var k :| k in todo;
        todo := todo - {k};
        if Resources[k] == 0 {
          Resources := Resources - {k};
        }
      }
    }

    static method FitInLoop(larger: Resource?, smaller: Resource?, skipUndef: bool, actual: bool) returns (fits: bool)
      ensures fits <==> Fits(OrZero(Value(larger)), OrZero(Value(smaller)), skipUndef, actual)
    {
      var r: Amounts := if larger == null then map[] else larger.Resources;
      if smaller == null { return true; }
      var todo := smaller.Resources.Keys;
      while todo != {}
        invariant todo <= smaller.Resources.Keys
        invariant forall k | k in smaller.Resources && k !in todo ::
          (skipUndef && k !in r)
          || smaller.Resources[k] <= (if actual || Get(r, k) > 0 then Get(r, k) else 0)
        decreases todo
      {
        var k :| k in todo;
        todo := todo - {k};
        if skipUndef && k !in r { continue; }
        var largerValue := Get(r, k);
        if !actual && largerValue < 0 { largerValue := 0; }
        if smaller.Resources[k] > largerValue { return false; }
      }
      return true;
    }

    /** The four flags of the source's single pass decide exactly GreaterOnlyExisting. */
    static method StrictlyOnlyExisting(larger: Resource?, smaller: Resource?, doEqualsCheck: bool) returns (b: bool)
      ensures b <==> GreaterOnlyExisting(OrZero(Value(larger)), OrZero(Value(smaller)), doEqualsCheck)
    {
      var r: Amounts := if larger == null then map[] else larger.Resources;
      var s: Amounts := if smaller == null then map[] else smaller.Resources;
      var notEqual, equal, common, allPositive := false, false, false, true;
      var todo := r.Keys;
      while todo != {}
        invariant todo <= r.Keys
        invariant forall k | k in r && k !in todo && k in s :: s[k] <= r[k]
        invariant common <==> exists k | k in r && k !in todo :: k in s
        invariant equal == common
        invariant notEqual <==> exists k | k in r && k !in todo && k in s :: s[k] != r[k]
        invariant allPositive <==> forall k | k in r && k !in todo :: s == map[] ==> r[k] > 0
        decreases todo
      {
        var k :| k in todo;
        todo := todo - {k};
        if s == map[] && r[k] <= 0 { allPositive := false; }
        if k in s {
          common := true;
          if s[k] > r[k] { return false; }
          equal := true;
          if s[k] != r[k] { notEqual := true; }
        }
      }
      assert common <==> MatchAny(r, s) by {
        if common { var k :| k in r && k in s; assert k in r.Keys * s.Keys; }
        if MatchAny(r, s) { var k :| k in r.Keys * s.Keys; assert k in r && k in s; }
      }
      if s == map[] && r != map[] {
        b := allPositive;
      } else if common {
        b := if doEqualsCheck then equal else notEqual;
      } else {
        b := r != map[] && s != map[];
      }
    }
  }

  ghost function Value(r: Resource?): Option<Amounts>
    reads r
  {
    if r == null then None else Some(r.Resources)
  }
}
