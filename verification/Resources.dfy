/** The scheduler's resource vectors (framework.Resource): four built-in
    dimensions plus a table of scalar resources. A missing scalar counts as
    zero when it is read, but a comparison only visits the scalars listed by
    its left operand, so listing and amount are kept apart here. */
module Resources {

  datatype Resource = Resource(
    milliCPU: int,
    memory: int,
    ephemeralStorage: int,
    allowedPodNumber: int,
    scalars: map<string, int>)

  datatype Dimension = CPU | Memory | EphemeralStorage | PodNumber | Scalar(name: string)

  const ZERO := Resource(0, 0, 0, 0, map[])

  const UPPER_BOUND_OF_MAX := 0x7fff_ffff_ffff_ffff
  const LOWER_BOUND_OF_MIN := 0

  function ScalarOf(r: Resource, name: string): int
  {
    if name in r.scalars then r.scalars[name] else 0
  }

  function Amount(r: Resource, d: Dimension): int
  {
    match d
    case CPU => r.milliCPU
    case Memory => r.memory
    case EphemeralStorage => r.ephemeralStorage
    case PodNumber => r.allowedPodNumber
    case Scalar(name) => ScalarOf(r, name)
  }

  predicate Listed(r: Resource, d: Dimension)
  {
    d.Scalar? ==> d.name in r.scalars
  }

  ghost predicate NonNegative(r: Resource)
  {
    forall d :: Amount(r, d) >= 0
  }

  function Plus(a: Resource, b: Resource): (r: Resource)
    ensures forall d :: Amount(r, d) == Amount(a, d) + Amount(b, d)
    ensures forall d :: Listed(r, d) <==> Listed(a, d) || Listed(b, d)
  {
    Resource(a.milliCPU + b.milliCPU, a.memory + b.memory,
             a.ephemeralStorage + b.ephemeralStorage, a.allowedPodNumber + b.allowedPodNumber,
             map name | name in a.scalars.Keys + b.scalars.Keys :: ScalarOf(a, name) + ScalarOf(b, name))
  }

  function Minus(a: Resource, b: Resource): (r: Resource)
    ensures forall d :: Amount(r, d) == Amount(a, d) - Amount(b, d)
    ensures forall d :: Listed(r, d) <==> Listed(a, d) || Listed(b, d)
  {
    Resource(a.milliCPU - b.milliCPU, a.memory - b.memory,
             a.ephemeralStorage - b.ephemeralStorage, a.allowedPodNumber - b.allowedPodNumber,
             map name | name in a.scalars.Keys + b.scalars.Keys :: ScalarOf(a, name) - ScalarOf(b, name))
  }

  function Max(a: int, b: int): int { if a < b then b else a }

  /** SetMaxResource raises every dimension except the pod number. */
  function Raise(a: Resource, b: Resource): Resource
  {
    Resource(Max(a.milliCPU, b.milliCPU), Max(a.memory, b.memory),
             Max(a.ephemeralStorage, b.ephemeralStorage), a.allowedPodNumber,
             map name | name in a.scalars.Keys + b.scalars.Keys ::
               if name in b.scalars then Max(ScalarOf(a, name), b.scalars[name]) else a.scalars[name])
  }

  /** The limit that `y` puts on a dimension; `bound` stands in for a scalar that `y` does not list. */
  function Limit(y: Resource, d: Dimension, bound: int): int
  {
    if Listed(y, d) then Amount(y, d) else bound
  }

  /** cmp2: does x1 + x2 exceed y somewhere? Only scalars listed by x1 are looked at. */
  predicate Exceeds(x1: Resource, x2: Resource, y: Resource, bound: int)
  {
    || x1.milliCPU + x2.milliCPU > y.milliCPU
    || x1.memory + x2.memory > y.memory
    || x1.ephemeralStorage + x2.ephemeralStorage > y.ephemeralStorage
    || x1.allowedPodNumber + x2.allowedPodNumber > y.allowedPodNumber
    || exists name :: name in x1.scalars &&
         x1.scalars[name] + ScalarOf(x2, name) > (if name in y.scalars then y.scalars[name] else bound)
  }

  lemma ExceedsIff(x1: Resource, x2: Resource, y: Resource, bound: int)
    ensures Exceeds(x1, x2, y, bound) <==>
            exists d :: Listed(x1, d) && Amount(x1, d) + Amount(x2, d) > Limit(y, d, bound)
  {
    if Exceeds(x1, x2, y, bound) {
      var d := if x1.milliCPU + x2.milliCPU > y.milliCPU then CPU
               else if x1.memory + x2.memory > y.memory then Memory
               else if x1.ephemeralStorage + x2.ephemeralStorage > y.ephemeralStorage then EphemeralStorage
               else if x1.allowedPodNumber + x2.allowedPodNumber > y.allowedPodNumber then PodNumber
               else var name :| name in x1.scalars && x1.scalars[name] + ScalarOf(x2, name) >
                                  (if name in y.scalars then y.scalars[name] else bound); Scalar(name);
      assert Listed(x1, d) && Amount(x1, d) + Amount(x2, d) > Limit(y, d, bound);
    }
    forall d | Listed(x1, d) && Amount(x1, d) + Amount(x2, d) > Limit(y, d, bound)
      ensures Exceeds(x1, x2, y, bound)
    {
      match d
      case CPU => case Memory => case EphemeralStorage => case PodNumber =>
      case Scalar(name) => assert name in x1.scalars;
    }
  }

  /** Against a non-negative minimum the listing no longer matters: usage is over
      the minimum exactly when some amount is larger. */
  lemma ExceedsMinIff(x1: Resource, x2: Resource, y: Resource)
    requires NonNegative(y)
    requires forall d :: !Listed(x1, d) ==> Amount(x2, d) <= 0
    ensures Exceeds(x1, x2, y, LOWER_BOUND_OF_MIN) <==>
            exists d :: Amount(x1, d) + Amount(x2, d) > Amount(y, d)
  {
    ExceedsIff(x1, x2, y, LOWER_BOUND_OF_MIN);
    assert forall d :: Limit(y, d, LOWER_BOUND_OF_MIN) == Amount(y, d);
    forall d | Amount(x1, d) + Amount(x2, d) > Amount(y, d)
      ensures Listed(x1, d) && Amount(x1, d) + Amount(x2, d) > Limit(y, d, LOWER_BOUND_OF_MIN)
    {
      assert Amount(y, d) >= 0;
    }
  }

  /** `big` asks for at least what `small` asks for, in every dimension small lists. */
  ghost predicate Dominates(big: Resource, small: Resource)
  {
    forall d :: Listed(small, d) ==> Listed(big, d) && Amount(big, d) >= Amount(small, d)
  }

  lemma ExceedsDominated(small: Resource, big: Resource, x: Resource, y: Resource, bound: int)
    requires Dominates(big, small)
    requires Exceeds(small, x, y, bound)
    ensures Exceeds(big, x, y, bound)
  {
    ExceedsIff(small, x, y, bound);
    ExceedsIff(big, x, y, bound);
    var d :| Listed(small, d) && Amount(small, d) + Amount(x, d) > Limit(y, d, bound);
    assert Listed(big, d) && Amount(big, d) + Amount(x, d) > Limit(y, d, bound);
  }

  /** cmp2 reads its second operand by amount only, and grows with it. */
  lemma ExceedsMonotone(x: Resource, lo: Resource, hi: Resource, y: Resource, bound: int)
    requires forall d :: Amount(lo, d) <= Amount(hi, d)
    requires Exceeds(x, lo, y, bound)
    ensures Exceeds(x, hi, y, bound)
  {
    ExceedsIff(x, lo, y, bound);
    ExceedsIff(x, hi, y, bound);
    var d :| Listed(x, d) && Amount(x, d) + Amount(lo, d) > Limit(y, d, bound);
    assert Listed(x, d) && Amount(x, d) + Amount(hi, d) > Limit(y, d, bound);
  }
}
