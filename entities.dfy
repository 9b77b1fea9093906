/**
 * The three mapped classes of server/models.py as mutable objects.
 * Primary keys and foreign keys are never reassigned by the models, so
 * they are `const`; the columns that carry a `@validates` hook change
 * only through the setter methods, which run the hook first.
 */
module Entities {
  import opened Wrappers
  import opened Validation

  /** A row of `activities`; `name` and `difficulty` have no validator. */
  class Activity {
    const id: nat
    var name: string
    var difficulty: int

    constructor (id: nat, name: string, difficulty: int)
      ensures this.id == id && this.name == name && this.difficulty == difficulty
    {
      this.id := id;
      this.name := name;
      this.difficulty := difficulty;
    }
  }

  /** A row of `campers`, guarded by `validate_name` and `validate_age`. */
  class Camper {
    const id: nat
    var name: string
    var age: int

    /** What the two validators guarantee of every stored camper. */
    predicate Valid()
      reads this
    {
      IsName(name) && IsAge(age)
    }

    /** Builds a camper from values the validators have already accepted. */
    constructor (id: nat, name: string, age: int)
      requires IsName(name) && IsAge(age)
      ensures Valid()
      ensures this.id == id && this.name == name && this.age == age
    {
      this.id := id;
      this.name := name;
      this.age := age;
    }

    /** `camper.name = name`: stored only when `validate_name` returns it. */
    method SetName(name: Option<string>) returns (r: Validated<string>)
      requires Valid()
      modifies this
      ensures Valid()
      ensures r == ValidateName(name)
      ensures this.name == (if r.Accepted? then r.value else old(this.name))
      ensures age == old(age)
    {
      r := ValidateName(name);
      if r.Accepted? {
        this.name := r.value;
      }
    }

    /** `camper.age = age`: stored only when `validate_age` returns it. */
    method SetAge(age: int) returns (r: Validated<int>)
      requires Valid()
      modifies this
      ensures Valid()
      ensures r == ValidateAge(age)
      ensures this.age == (if r.Accepted? then age else old(this.age))
      ensures name == old(name)
    {
      r := ValidateAge(age);
      if r.Accepted? {
        this.age := r.value;
      }
    }
  }

  /**
   * A row of `signups`, the edge between one activity and one camper.
   * `time` is `None` while unset, as for a signup made through an
   * association proxy.
   */
  class Signup {
    const id: nat
    const activityId: nat
    const camperId: nat
    var time: Option<int>

    /** What `validate_time` guarantees of every time that has been set. */
    predicate Valid()
      reads this
    {
      time.Some? ==> IsTime(time.value)
    }

    /** Builds a signup whose time, if any, `validate_time` has accepted. */
    constructor (id: nat, activityId: nat, camperId: nat, time: Option<int>)
      requires time.Some? ==> IsTime(time.value)
      ensures Valid()
      ensures this.id == id && this.activityId == activityId && this.camperId == camperId
      ensures this.time == time
    {
      this.id := id;
      this.activityId := activityId;
      this.camperId := camperId;
      this.time := time;
    }

    /** `signup.time = time`: stored only when `validate_time` returns it. */
    method SetTime(time: Option<int>) returns (r: Validated<int>)
      requires Valid()
      modifies this
      ensures Valid()
      ensures r == ValidateTime(time)
      ensures this.time == (if r.Accepted? then time else old(this.time))
    {
      r := ValidateTime(time);
      if r.Accepted? {
        this.time := Some(r.value);
      }
    }
  }
}
