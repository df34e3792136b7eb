/** Addresses, hashes, errors and results shared by every contract of the model. */
module Types {

  const MAX_UINT32 := 0xFFFF_FFFF
  const TWO_63 := 0x8000_0000_0000_0000
  const TWO_64 := 0x1_0000_0000_0000_0000
  const MAX_UINT256 :=
    0xFFFF_FFFF_FFFF_FFFF_FFFF_FFFF_FFFF_FFFF_FFFF_FFFF_FFFF_FFFF_FFFF_FFFF_FFFF_FFFF

  /** `block.timestamp`: positive, and small enough for the contracts' uint64 casts to be exact. */
  type Timestamp = t: int | 0 < t < TWO_64 witness 1

  /** What Go's int64 keeps of a number: of an overflowing expression, of a uint64, of a big.Int. */
  function Wrap64(x: int): int { (x + TWO_63) % TWO_64 - TWO_63 }

  /** Only an `Account` ever signs a call. `Deployed(k)` is the CREATE address of the factory's
      k-th successful deployment, so a deployment that reverts does not use its address up. */
  datatype Address = Zero | Protocol | Factory | Deployed(index: nat) | Account(tag: nat)

  /** keccak256 as a free constructor: injective, and never the zero word. */
  datatype NameHash = Keccak(name: string)
  datatype MasjidId = IdHash(nonce: nat, sender: Address, nameHash: NameHash)

  datatype Error =
    | ZeroAddress | EmptyName | Panic
    | NotAuthority | AlreadyVerifier | NotVerifier
    | OnlyProtocol | AlreadyDeployed
    | NotAdmin | NotMasjidAdmin | NotAuthorizedVerifier | InvalidStatus
    | AlreadyRegisteredName | MasjidNotFound | AlreadyAttested
    | AccessControlUnauthorized | AccessControlBadConfirmation
    | AmountZero | TransferFailed | InvalidThreshold | DuplicateVerifier | InvalidExpiry
    | CashOutNotFound | CashOutExpired | CashOutAlreadyApproved | CashOutAlreadyExecuted
    | CashOutIsCanceled | CashOutThresholdNotReached
    | InsufficientBalance | InsufficientAllowance

  datatype Option<+T> = None | Some(value: T)

  /** A call either commits a value or reverts with an error and no effect. */
  datatype Result<+T> = Ok(value: T) | Revert(error: Error)

  /** What a committed call leaves behind: the new state and the logs it emitted, in order. */
  datatype Effect<+S, +E> = Effect(state: S, logs: seq<E>)

  /** What a call on mutable storage did is what a specification says of it: it answered with the logs and
      left the new state, or it answered with the error and left the old one. */
  ghost predicate Did<S, E>(answer: Result<seq<E>>, was: S, now: S, spec: Result<Effect<S, E>>) {
    match spec
    case Ok(effect) => answer == Ok(effect.logs) && now == effect.state
    case Revert(e) => answer == Revert(e) && now == was
  }

  predicate NoDuplicates<T(==)>(s: seq<T>) {
    forall i, j :: 0 <= i < j < |s| ==> s[i] != s[j]
  }

  ghost function ToSet<T>(s: seq<T>): set<T> {
    set x | x in s
  }

  lemma {:induction false} CardinalityOfDistinct<T>(s: seq<T>)
    requires NoDuplicates(s)
    ensures |ToSet(s)| == |s|
  {
    if s == [] {
      assert ToSet(s) == {};
    } else {
      var init, last := s[..|s| - 1], s[|s| - 1];
      CardinalityOfDistinct(init);
      assert s == init + [last];
      assert ToSet(s) == ToSet(init) + {last};
      assert last !in init;
    }
  }

  lemma SubsetCardinality<T>(small: set<T>, big: set<T>)
    requires small <= big
    ensures |small| <= |big|
    ensures |small| == |big| ==> small == big
  {
    var rest := big - small;
    assert big == small + rest;
    assert |big| == |small| + |rest|;
  }
}
