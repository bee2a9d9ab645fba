/** Vocabulary shared by every component of the escrow contract model. */
module Common {

  /** An account or contract address; only equality matters. */
  datatype Address = Address(id: nat)

  datatype Option<+T> = None | Some(value: T)

  /** The stored status of an escrow of any kind. */
  datatype Status = Locked | Disputed | Released | Resolved | Cancelled

  datatype Result<+T> = Ok(value: T) | Err(error: Error)

  /** The error variants that the modelled entry points return. */
  datatype Error =
    | NotFound
    | InvalidStatus
    | AlreadyProcessed
    | ReleaseNotYetAvailable
    | ReleaseOnHoldPeriod
    | TimeoutNotReached
    | EscrowAlreadyExpired
    | EscrowNotExpired
    | ExpiryBeforeRelease
    | ChildrenNotResolved
    | ParentEscrowNotFound
    | MaxHierarchyDepth
    | ConditionalEscrowNotFound
    | InvalidVestingSchedule
    | CliffPeriodNotPassed
    | MilestoneAlreadyReleased
    | AccelerationLimitExceeded
    | InvalidThreshold
    | SuccessionPlanExists
    | Unauthorized
    | NotAnAdmin
    | DuplicateApproval
    | AlreadyApproved
    | ParticipantNotFound
    | InsufficientAdmins
    | InvalidAddress
    | SameBeneficiary
    | TransferNotAllowed
    | NotDisputed
    | NotReady
    | ApprovalsThresholdNotMet
    | ConditionAlreadyEvaluated
    | BatchReleaseSizeLimitExceeded
    | TransferFailed
    | MultiSigNotInitialized
    | AlreadyInitialized
    | CounterOverflow
    | SwapOutputBelowMinimum

  /** The largest ledger timestamp, `u64::MAX`. */
  const U64_MAX: nat := 0xFFFF_FFFF_FFFF_FFFF

  /** `u64::saturating_add`. */
  function SaturatingAdd(a: nat, b: nat): nat {
    if a + b <= U64_MAX then a + b else U64_MAX
  }

  type U32 = n: nat | n < 0x1_0000_0000

  const U32_MAX: U32 := 0xFFFF_FFFF

  function SaturatingAdd32(a: U32, b: U32): U32 {
    if a + b <= U32_MAX then a + b else U32_MAX
  }

  /** `u64::saturating_sub`. */
  function SaturatingSub(a: nat, b: nat): nat {
    if a >= b then a - b else 0
  }

  /** Rust's integer division by a positive divisor: it truncates toward zero. */
  function TruncDiv(a: int, b: int): int
    requires b > 0
  {
    if a >= 0 then a / b else -((-a) / b)
  }

  /** No element occurs twice. */
  ghost predicate Distinct<T>(s: seq<T>) {
    forall i, j :: 0 <= i < j < |s| ==> s[i] != s[j]
  }

  /** The elements of `s` other than `x`, in their order. */
  function Without<T(==)>(s: seq<T>, x: T): seq<T> {
    if s == [] then []
    else if s[0] == x then Without(s[1..], x)
    else [s[0]] + Without(s[1..], x)
  }

  lemma {:induction false} WithoutMembers<T>(s: seq<T>, x: T)
    ensures forall y :: y in Without(s, x) <==> y in s && y != x
  {
    if s != [] {
      assert s == [s[0]] + s[1..];
      WithoutMembers(s[1..], x);
    }
  }

  lemma WithoutMember<T>(s: seq<T>, x: T, y: T)
    ensures y in Without(s, x) <==> y in s && y != x
  {
    WithoutMembers(s, x);
  }

  lemma {:induction false} WithoutAppend<T>(s: seq<T>, t: seq<T>, x: T)
    ensures Without(s + t, x) == Without(s, x) + Without(t, x)
  {
    if s == [] {
      assert s + t == t;
    } else {
      assert (s + t)[1..] == s[1..] + t;
      WithoutAppend(s[1..], t, x);
    }
  }

  lemma {:induction false} WithoutAbsent<T>(s: seq<T>, x: T)
    requires x !in s
    ensures Without(s, x) == s
  {
    if s != [] {
      WithoutAbsent(s[1..], x);
    }
  }

  lemma {:induction false} WithoutDistinct<T>(s: seq<T>, x: T)
    requires Distinct(s)
    ensures Distinct(Without(s, x))
    ensures |Without(s, x)| == if x in s then |s| - 1 else |s|
  {
    if s != [] {
      assert s == [s[0]] + s[1..];
      WithoutDistinct(s[1..], x);
      WithoutMembers(s[1..], x);
      var w := Without(s[1..], x);
      assert s[0] !in w by { assert s[0] !in s[1..]; }
      assert forall i :: 0 <= i < |w| ==> w[i] in w;
    }
  }

  /** The loop of the source that copies all elements but one. */
  method CopyWithout<T(==)>(s: seq<T>, x: T) returns (kept: seq<T>)
    ensures kept == Without(s, x)
  {
    kept := [];
    for i := 0 to |s|
      invariant kept == Without(s[..i], x)
    {
      assert s[..i + 1] == s[..i] + [s[i]];
      WithoutAppend(s[..i], [s[i]], x);
      assert [s[i]][1..] == [];
      if s[i] != x {
        kept := kept + [s[i]];
      }
    }
    assert s[..|s|] == s;
  }

  lemma HeadIn<T>(s: seq<T>)
    ensures s != [] ==> s[0] in s
  {}

  lemma DistinctAppend<T>(s: seq<T>, x: T)
    requires Distinct(s) && x !in s
    ensures Distinct(s + [x])
  {}

  // ----- Arithmetic -----

  lemma Product(a: int, b: int, c: int)
    requires a <= b && c >= 0
    ensures a * c <= b * c
    ensures a >= 0 ==> a * c >= 0
  {}

  /** The quotient `q` of a number between `b` and `c` times `d` lies between `b` and `c`. */
  lemma QuotientBetween(q: int, r: int, b: int, c: int, d: int)
    requires d > 0 && 0 <= r < d && b * d <= q * d + r <= c * d
    ensures b <= q <= c
  {
    if q < b {
      Product(q + 1, b, d);
    } else if q > c {
      Product(c + 1, q, d);
    }
  }

  lemma DivideUnique(a: nat, d: nat, q: nat, r: nat)
    requires d > 0 && a == q * d + r && r < d
    ensures a / d == q && a % d == r
  {
    assert a == (a / d) * d + a % d;
    if a / d > q {
      Product(q + 1, a / d, d);
    } else if a / d < q {
      Product(a / d + 1, q, d);
    }
  }
}
