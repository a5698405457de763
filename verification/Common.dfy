/** Vocabulary shared by the strategic coordination (SCD), vertiport (VRP) and remote ID (RID) services. */
module Common {

  datatype Option<+T> = None | Some(value: T)

  datatype Result<+T, +E> = Ok(value: T) | Err(error: E) {
    predicate IsFailure() { Err? }

    function PropagateFailure<U>(): Result<U, E>
      requires Err?
    {
      Err(error)
    }

    function Extract(): T
      requires Ok?
    {
      value
    }
  }

  type Id = string
  type Manager = string
  type Ovn = string
  type Cell = int

  /** Nanoseconds on one time line; `ZERO_TIME` is the instant for which Go's `IsZero` holds. */
  type Time = int

  const ZERO_TIME: Time := 0
  const MINUTE: int := 60_000_000_000
  const MAX_CLOCK_SKEW: int := 5 * MINUTE
  const MAX_SUBSCRIPTION_DURATION: int := 24 * 60 * MINUTE

  /** The text returned in place of an OVN that belongs to another client. */
  const NO_OVN_PHRASE: Ovn := "Available from USS"

  datatype Error =
    | BadRequest
    | NotFound
    | PermissionDenied
    | AlreadyExists
    | VersionMismatch
    | Exhausted
    | NilDereference
    | SubscriptionMissing
    | NoDependents
    | MissingOvns(intents: map<Id, Ovn>, constraints: map<Id, Ovn>)

  /** Conversion of an unbounded integer to Go's `int32`: wrap-around in two's complement. */
  function ToInt32(x: int): (r: int)
    ensures -0x8000_0000 <= r < 0x8000_0000
    ensures (x - r) % 0x1_0000_0000 == 0
    ensures -0x8000_0000 <= x < 0x8000_0000 ==> r == x
  {
    (x + 0x8000_0000) % 0x1_0000_0000 - 0x8000_0000
  }

  lemma ToInt32Successor(x: int)
    ensures ToInt32(ToInt32(x) + 1) == ToInt32(x + 1)
  {
  }

  /** What calls have to bring from outside: the clock, a new UUID and the version strings of new rows. */
  datatype Env = Env(now: Time, newId: Id, intentOvn: Ovn, subscriptionOvn: Ovn, constraintOvn: Ovn)

  datatype Config = Config(enableHttp: bool, validBaseUrl: string -> bool) {
    predicate AcceptsUrl(url: string) {
      enableHttp || validBaseUrl(url)
    }
  }

  // ----- shared by operational intents at large and at vertiports -----

  /** Comparison of times in searches: a null bound matches everything. */
  predicate TimeAtMost(a: Option<Time>, b: Option<Time>) {
    a.None? || b.None? || a.value <= b.value
  }

  predicate RequiresKey(state: string) {
    state != "Nonconforming" && state != "Contingent"
  }

  predicate IsValidInDSS(state: string) {
    state == "Accepted" || state == "Activated" || state == "Nonconforming" || state == "Contingent"
  }

  /** The version string that one client gets to see of another's entity. */
  function Masked(owner: Manager, client: Manager, ovn: Ovn): Ovn {
    if owner != client then NO_OVN_PHRASE else ovn
  }

  /** Lists a set in some order, each element once. */
  method Enumerate<T(==)>(s: set<T>) returns (list: seq<T>)
    ensures forall x :: x in list <==> x in s
    ensures |list| == |s|
    ensures forall i, j :: 0 <= i < j < |list| ==> list[i] != list[j]
  {
    list := [];
    var rest := s;
    while rest != {}
      invariant rest <= s
      invariant forall x :: x in list <==> x in s - rest
      invariant |list| + |rest| == |s|
      invariant forall i, j :: 0 <= i < j < |list| ==> list[i] != list[j]
    {
      var x :| x in rest;
      list, rest := list + [x], rest - {x};
    }
  }

  lemma {:induction false} SubsetIsSmaller<T>(a: set<T>, b: set<T>)
    requires a <= b
    ensures |a| <= |b|
  {
    if a != {} {
      var x :| x in a;
      SubsetIsSmaller(a - {x}, b - {x});
    }
  }
}
