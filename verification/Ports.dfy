/**
 Port numbers of a node and the search for free port blocks (`tempo/devnet/ports.py`). The port the
 system offers and the outcome of a probe are parameters, indexed by the attempt.
 */
module Ports {
  import opened Outcomes

  const PORTS_PER_NODE := 6
  const PORT_LIMIT := 65500
  const ATTEMPTS := 200

  datatype SearchError = NothingToReserve | NoFreeRegion

  /** The `k`-th service port of a node */
  function ServicePort(basePort: int, k: nat): int {
    basePort + k
  }

  /** The `k`-th service port of node `i` when the first block starts at `base` */
  function DerivedPort(base: int, stride: int, i: nat, k: nat): int {
    ServicePort(base + i * stride, k)
  }

  function Bases(base: int, stride: int, count: nat): seq<int> {
    seq(count, i requires 0 <= i < count => base + i * stride)
  }

  /** Every derived port is below the limit and was probed bindable. */
  ghost predicate Region(base: int, stride: int, count: nat, canBind: int -> bool) {
    forall i | 0 <= i < count :: PortsFree(base + i * stride, 6, canBind)
  }

  /** The `n` port numbers from `base` on */
  ghost predicate PortsFree(base: int, n: nat, canBind: int -> bool) {
    forall p | base <= p < base + n :: canBind(p) && p < 65500
  }

  lemma {:induction false} OnePortMore(base: int, n: nat, canBind: int -> bool)
    ensures PortsFree(base, n + 1, canBind) <==>
            PortsFree(base, n, canBind) && canBind(base + n) && base + n < 65500
  {
    var last := base + n;
    if PortsFree(base, n, canBind) && last < 65500 && canBind(last) {
      forall p | base <= p < base + n + 1
        ensures canBind(p) && p < 65500
      {
        assert p == last || p < base + n;
      }
    }
    if PortsFree(base, n + 1, canBind) {
      assert canBind(last) && last < 65500;
      forall p | base <= p < base + n
        ensures canBind(p) && p < 65500
      {
      }
    }
  }

  /** One attempt: every derived port of every block is compared with the limit and probed. */
  method TryBase(base: int, stride: int, count: nat, canBind: int -> bool) returns (ok: bool)
    ensures ok <==> Region(base, stride, count, canBind)
  {
    ok := true;
    for i := 0 to count
      invariant ok <==> Region(base, stride, i, canBind)
    {
      ghost var before, block := ok, base + i * stride;
      for k := 0 to PORTS_PER_NODE
        invariant ok <==> before && PortsFree(block, k, canBind)
      {
        var p := DerivedPort(base, stride, i, k);
        OnePortMore(block, k, canBind);
        ok := ok && p < PORT_LIMIT && canBind(p);
      }
    }
  }

  /** Attempt `a` is within the bound, finds its region free, and is the first to do so. */
  ghost predicate FirstFree(a: nat, stride: int, count: nat, offered: nat -> int, canBind: (nat, int) -> bool) {
    && a < 200
    && Region(offered(a), stride, count, p => canBind(a, p))
    && forall b: nat :: b < a ==> !Region(offered(b), stride, count, p => canBind(b, p))
  }

  /**
   `find_free_base_ports`: the first of at most 200 offered ports whose whole region is free. A count
   below one leaves nothing to take the maximum of, which is an error in the source.
   */
  method FindFreeBasePorts(count: int, stride: int, offered: nat -> int, canBind: (nat, int) -> bool)
    returns (r: Result<seq<int>, SearchError>)
    ensures count < 1 <==> r == Err(NothingToReserve)
    ensures r.Ok? ==> exists a: nat :: FirstFree(a, stride, count, offered, canBind)
                                       && r.value == Bases(offered(a), stride, count)
    ensures r == Err(NoFreeRegion) ==>
              forall a: nat :: a < 200 ==> !Region(offered(a), stride, count, p => canBind(a, p))
  {
    if count < 1 {
      return Err(NothingToReserve);
    }
    for attempt := 0 to ATTEMPTS
      invariant forall b: nat :: b < attempt ==> !Region(offered(b), stride, count, p => canBind(b, p))
    {
      var base := offered(attempt);
      var ok := TryBase(base, stride, count, p => canBind(attempt, p));
      if ok {
        assert FirstFree(attempt, stride, count, offered, canBind);
        return Ok(Bases(base, stride, count));
      }
    }
    return Err(NoFreeRegion);
  }

  ghost predicate AllDistinct(base: int, stride: int, count: nat) {
    forall i, k, j, l | 0 <= i < count && 0 <= k < PORTS_PER_NODE && 0 <= j < count && 0 <= l < PORTS_PER_NODE ::
      DerivedPort(base, stride, i, k) == DerivedPort(base, stride, j, l) ==> i == j && k == l
  }

  lemma {:induction false} StrideSeparates(stride: int, i: nat, j: nat, k: nat, l: nat)
    requires i < j && k < PORTS_PER_NODE && l < PORTS_PER_NODE
    requires stride >= PORTS_PER_NODE || stride <= -PORTS_PER_NODE
    ensures i * stride + k != j * stride + l
  {
    var d := j - i;
    assert j * stride - i * stride == d * stride;
    if stride > 0 {
      assert d * stride >= stride;
    } else {
      assert d * stride <= stride;
    }
  }

  /** The derived ports of all blocks are distinct exactly for strides of at least six in size, or one block. */
  lemma {:induction false} DistinctIff(base: int, stride: int, count: nat)
    ensures AllDistinct(base, stride, count) <==> count <= 1 || stride >= 6 || stride <= -6
  {
    if count <= 1 {
    } else if stride >= PORTS_PER_NODE || stride <= -PORTS_PER_NODE {
      forall i, k, j, l | 0 <= i < count && 0 <= k < PORTS_PER_NODE && 0 <= j < count && 0 <= l < PORTS_PER_NODE
        && DerivedPort(base, stride, i, k) == DerivedPort(base, stride, j, l)
        ensures i == j && k == l
      {
        if i < j {
          StrideSeparates(stride, i, j, k, l);
        } else if j < i {
          StrideSeparates(stride, j, i, l, k);
        }
      }
    } else if stride >= 0 {
      assert DerivedPort(base, stride, 0, stride) == DerivedPort(base, stride, 1, 0);
    } else {
      assert DerivedPort(base, stride, 1, -stride) == DerivedPort(base, stride, 0, 0);
    }
  }

  /** All service ports of all blocks: distinct, below the limit and bindable */
  ghost predicate Reserved(bases: seq<int>, canBind: int -> bool) {
    && (forall i, k, j, l |
          0 <= i < |bases| && 0 <= k < PORTS_PER_NODE && 0 <= j < |bases| && 0 <= l < PORTS_PER_NODE ::
          ServicePort(bases[i], k) == ServicePort(bases[j], l) ==> i == j && k == l)
    && (forall i | 0 <= i < |bases| :: PortsFree(bases[i], 6, canBind))
  }

  /** What a successful search returns is reserved exactly when the stride separates the blocks. */
  lemma {:induction false} FreeRegionReservedIff(base: int, stride: int, count: nat, canBind: int -> bool)
    requires Region(base, stride, count, canBind)
    ensures Reserved(Bases(base, stride, count), canBind) <==> count <= 1 || stride >= 6 || stride <= -6
  {
    DistinctIff(base, stride, count);
    var bases := Bases(base, stride, count);
    forall i, k | 0 <= i < count && 0 <= k < PORTS_PER_NODE
      ensures ServicePort(bases[i], k) == DerivedPort(base, stride, i, k)
    {
    }
    if Reserved(bases, canBind) {
      forall i, k, j, l | 0 <= i < count && 0 <= k < PORTS_PER_NODE && 0 <= j < count && 0 <= l < PORTS_PER_NODE
        && DerivedPort(base, stride, i, k) == DerivedPort(base, stride, j, l)
        ensures i == j && k == l
      {
        assert ServicePort(bases[i], k) == ServicePort(bases[j], l);
      }
    }
  }
}
