/**
 * The three `@validates` hooks of the camp models (server/models.py).
 * Each hook either hands its argument back, to be stored in the column,
 * or raises `ValueError`; here that choice is the `Validated` datatype.
 */
module Validation {
  import opened Wrappers

  /** Outcome of a validator: the value to store, or the `ValueError` message. */
  datatype Validated<+T> = Accepted(value: T) | Rejected(message: string)

  const NameError: string := "Camper should have a name."
  const AgeError: string := "Camper's age must be between 8 and 18."
  const TimeError: string := "Time can only be between 0 and 23."

  /** The values each validated column may hold. */
  predicate IsName(name: string) { |name| >= 1 }
  predicate IsAge(age: int) { 8 <= age <= 18 }
  predicate IsTime(time: int) { 0 <= time <= 23 }

  /** Python truthiness of an optional string: `None` and `""` are false. */
  predicate Truthy(s: Option<string>) { s.Some? && s.value != [] }

  /** Python's `range(n)`: the integers 0, 1, ..., n - 1, empty when `n <= 0`. */
  function PyRange(n: int): (r: seq<int>)
    ensures |r| == if n <= 0 then 0 else n
    ensures forall i :: 0 <= i < |r| ==> r[i] == i
    decreases n
  {
    if n <= 0 then [] else PyRange(n - 1) + [n - 1]
  }

  /** Membership in `range(n)` is exactly the half-open interval [0, n). */
  lemma {:induction false} InPyRange(t: int, n: int)
    ensures t in PyRange(n) <==> 0 <= t < n
    decreases n
  {
    if n > 0 {
      InPyRange(t, n - 1);
      assert PyRange(n) == PyRange(n - 1) + [n - 1];
    }
  }

  /** `Camper.validate_name`: rejects `None` and the empty string. */
  function ValidateName(name: Option<string>): (r: Validated<string>)
    ensures r.Accepted? <==> name.Some? && IsName(name.value)
    ensures r.Accepted? ==> r.value == name.value
    ensures r.Rejected? ==> r.message == NameError
  {
    if !Truthy(name) || |name.value| < 1 then Rejected(NameError) else Accepted(name.value)
  }

  /** `Camper.validate_age`: the chained comparison `8 <= age <= 18`. */
  function ValidateAge(age: int): (r: Validated<int>)
    ensures r.Accepted? <==> IsAge(age)
    ensures r.Accepted? ==> r.value == age
    ensures r.Rejected? ==> r.message == AgeError
  {
    if !(8 <= age && age <= 18) then Rejected(AgeError) else Accepted(age)
  }

  /**
   * `Signup.validate_time`: `time not in range(24)` raises. `None` is not a
   * member of the range, so it is rejected like any other value outside it.
   */
  function ValidateTime(time: Option<int>): (r: Validated<int>)
    ensures r.Accepted? <==> time.Some? && IsTime(time.value)
    ensures r.Accepted? ==> r.value == time.value
    ensures r.Rejected? ==> r.message == TimeError
  {
    if time.None? then Rejected(TimeError)
    else
      InPyRange(time.value, 24);
      if time.value !in PyRange(24) then Rejected(TimeError) else Accepted(time.value)
  }
}
