/**
 * The `activities`, `campers` and `signups` tables and the relationships
 * that server/models.py declares between them: the foreign keys of
 * `Signup`, the `signups` collections with `cascade='all, delete-orphan'`,
 * and the `campers` / `activities` association proxies.
 */
module CampStore {
  import opened Wrappers
  import opened Validation
  import opened Entities

  /** The parent row a signup hangs from: its activity or its camper. */
  datatype Parent = OfActivity(activityId: nat) | OfCamper(camperId: nat)

  predicate BelongsTo(s: Signup, p: Parent) {
    match p
    case OfActivity(a) => s.activityId == a
    case OfCamper(c) => s.camperId == c
  }

  /** Signup ids strictly increase along `ss`, as along the table. */
  predicate IdsIncreasing(ss: seq<Signup>) {
    forall i, j :: 0 <= i < j < |ss| ==> ss[i].id < ss[j].id
  }

  /**
   * The signups of `ss` that belong to `p` (`keep`) or that do not
   * (`!keep`), in their original order: `activity.signups` and
   * `camper.signups` are `Select(table, p, true)`.
   */
  function Select(ss: seq<Signup>, p: Parent, keep: bool): (r: seq<Signup>)
    ensures |r| <= |ss|
    ensures forall i :: 0 <= i < |r| ==> r[i] in ss && BelongsTo(r[i], p) == keep
  {
    if ss == [] then []
    else (if BelongsTo(ss[0], p) == keep then [ss[0]] else []) + Select(ss[1..], p, keep)
  }

  /** Every row of `ss` whose parent test agrees with `keep` is selected. */
  lemma {:induction false} SelectMembers(ss: seq<Signup>, p: Parent, keep: bool)
    ensures forall i :: 0 <= i < |ss| && BelongsTo(ss[i], p) == keep ==> ss[i] in Select(ss, p, keep)
  {
    if ss != [] {
      SelectMembers(ss[1..], p, keep);
      var rest := Select(ss[1..], p, keep);
      var r := Select(ss, p, keep);
      assert r == (if BelongsTo(ss[0], p) == keep then [ss[0]] else []) + rest;
      forall i | 0 <= i < |ss| && BelongsTo(ss[i], p) == keep ensures ss[i] in r {
        if i == 0 {
          assert r[0] == ss[0];
        } else {
          assert ss[i] == ss[1..][i - 1];
          assert ss[i] in rest;
        }
      }
    }
  }

  /** Selection keeps the relative order of the rows it keeps. */
  lemma {:induction false} SelectIncreasing(ss: seq<Signup>, p: Parent, keep: bool)
    requires IdsIncreasing(ss)
    ensures IdsIncreasing(Select(ss, p, keep))
  {
    if ss != [] {
      var tail := ss[1..];
      var rest := Select(tail, p, keep);
      SelectIncreasing(tail, p, keep);
      if BelongsTo(ss[0], p) == keep {
        assert Select(ss, p, keep) == [ss[0]] + rest;
        forall j | 0 <= j < |rest| ensures ss[0].id < rest[j].id {
          var k :| 0 <= k < |tail| && tail[k] == rest[j];
          assert tail[k] == ss[k + 1];
        }
        PrependIncreasing(ss[0], rest);
      } else {
        assert Select(ss, p, keep) == [] + rest == rest;
      }
    }
  }

  lemma PrependIncreasing(s: Signup, rest: seq<Signup>)
    requires IdsIncreasing(rest)
    requires forall j :: 0 <= j < |rest| ==> s.id < rest[j].id
    ensures IdsIncreasing([s] + rest)
  {
    var r := [s] + rest;
    assert forall j :: 1 <= j < |r| ==> r[j] == rest[j - 1];
  }

  /** Selection distributes over concatenation. */
  lemma {:induction false} SelectAppend(ss: seq<Signup>, tt: seq<Signup>, p: Parent, keep: bool)
    ensures Select(ss + tt, p, keep) == Select(ss, p, keep) + Select(tt, p, keep)
  {
    if ss == [] {
      assert ss + tt == tt;
    } else {
      var s, rest := ss[0], ss[1..];
      var head := if BelongsTo(s, p) == keep then [s] else [];
      var whole := ss + tt;
      assert whole[0] == s && whole[1..] == rest + tt;
      SelectAppend(rest, tt, p, keep);
      calc {
        Select(whole, p, keep);
        head + Select(rest + tt, p, keep);
        head + (Select(rest, p, keep) + Select(tt, p, keep));
        (head + Select(rest, p, keep)) + Select(tt, p, keep);
        Select(ss, p, keep) + Select(tt, p, keep);
      }
    }
  }

  /** A parent's children and the other rows together are the whole table. */
  lemma {:induction false} SelectPartition(ss: seq<Signup>, p: Parent)
    ensures multiset(Select(ss, p, true)) + multiset(Select(ss, p, false)) == multiset(ss)
  {
    if ss != [] {
      var s, rest := ss[0], ss[1..];
      SelectPartition(rest, p);
      assert ss == [s] + rest;
      var kept := Select(rest, p, true);
      var dropped := Select(rest, p, false);
      if BelongsTo(s, p) {
        assert Select(ss, p, true) == [s] + kept;
        assert Select(ss, p, false) == [] + dropped;
      } else {
        assert Select(ss, p, true) == [] + kept;
        assert Select(ss, p, false) == [s] + dropped;
      }
    }
  }

  /** Removing one parent's rows, then taking another parent's, commutes. */
  lemma {:induction false} SelectCommute(ss: seq<Signup>, p: Parent, q: Parent)
    ensures Select(Select(ss, p, false), q, true) == Select(Select(ss, q, true), p, false)
  {
    if ss != [] {
      var s := ss[0];
      SelectCommute(ss[1..], p, q);
      var dropped := Select(ss, p, false);
      var taken := Select(ss, q, true);
      assert dropped == (if !BelongsTo(s, p) then [s] else []) + Select(ss[1..], p, false);
      assert taken == (if BelongsTo(s, q) then [s] else []) + Select(ss[1..], q, true);
      SelectAppend(if !BelongsTo(s, p) then [s] else [], Select(ss[1..], p, false), q, true);
      SelectAppend(if BelongsTo(s, q) then [s] else [], Select(ss[1..], q, true), p, false);
    }
  }

  /** Once a parent's rows are removed, selecting its children finds none. */
  lemma NoneLeft(ss: seq<Signup>, p: Parent)
    ensures Select(Select(ss, p, false), p, true) == []
  {
    NoneSelected(Select(ss, p, false), p);
  }

  lemma {:induction false} NoneSelected(ss: seq<Signup>, p: Parent)
    requires forall i :: 0 <= i < |ss| ==> !BelongsTo(ss[i], p)
    ensures Select(ss, p, true) == []
  {
    if ss != [] {
      NoneSelected(ss[1..], p);
    }
  }

  /**
   * Dropping one parent's rows keeps every other row, removes exactly that
   * parent's children, and leaves every other parent's children in order.
   */
  lemma DropFacts(ss: seq<Signup>, p: Parent)
    ensures forall i :: 0 <= i < |ss| && !BelongsTo(ss[i], p) ==> ss[i] in Select(ss, p, false)
    ensures multiset(ss) == multiset(Select(ss, p, false)) + multiset(Select(ss, p, true))
    ensures Select(Select(ss, p, false), p, true) == []
    ensures forall q :: Select(Select(ss, p, false), q, true) == Select(Select(ss, q, true), p, false)
  {
    SelectMembers(ss, p, false);
    SelectPartition(ss, p);
    NoneLeft(ss, p);
    forall q ensures Select(Select(ss, p, false), q, true) == Select(Select(ss, q, true), p, false) {
      SelectCommute(ss, p, q);
    }
  }

  /** `[s.activity for s in ss]`. */
  function ActivitiesVia(ss: seq<Signup>, activities: map<nat, Activity>): (r: seq<Activity>)
    requires forall i :: 0 <= i < |ss| ==> ss[i].activityId in activities
    ensures |r| == |ss|
    ensures forall i :: 0 <= i < |ss| ==> r[i] == activities[ss[i].activityId]
  {
    if ss == [] then [] else [activities[ss[0].activityId]] + ActivitiesVia(ss[1..], activities)
  }

  /** `[s.camper for s in ss]`. */
  function CampersVia(ss: seq<Signup>, campers: map<nat, Camper>): (r: seq<Camper>)
    requires forall i :: 0 <= i < |ss| ==> ss[i].camperId in campers
    ensures |r| == |ss|
    ensures forall i :: 0 <= i < |ss| ==> r[i] == campers[ss[i].camperId]
  {
    if ss == [] then [] else [campers[ss[0].camperId]] + CampersVia(ss[1..], campers)
  }

  /**
   * The integrity of the three tables: primary keys match the rows and
   * lie below the next key to hand out, every signup's foreign keys
   * resolve, and signup ids increase along the table.
   */
  predicate TablesValid(
    activities: map<nat, Activity>, campers: map<nat, Camper>, signups: seq<Signup>,
    nextActivityId: nat, nextCamperId: nat, nextSignupId: nat)
  {
    && (forall id :: id in activities ==> activities[id].id == id && id < nextActivityId)
    && (forall id :: id in campers ==> campers[id].id == id && id < nextCamperId)
    && (forall i :: 0 <= i < |signups| ==>
          && signups[i].activityId in activities
          && signups[i].camperId in campers
          && signups[i].id < nextSignupId)
    && IdsIncreasing(signups)
  }

  /** Every camper and signup satisfies its validators. */
  ghost predicate RowsSatisfyValidators(campers: map<nat, Camper>, signups: seq<Signup>)
    reads campers.Values, signups
  {
    && (forall id :: id in campers ==> campers[id].Valid())
    && (forall i :: 0 <= i < |signups| ==> signups[i].Valid())
  }

  /** Appending a signup with the next id and existing parents keeps the tables intact. */
  lemma AppendKeepsTables(
    activities: map<nat, Activity>, campers: map<nat, Camper>, signups: seq<Signup>,
    nextActivityId: nat, nextCamperId: nat, nextSignupId: nat, s: Signup)
    requires TablesValid(activities, campers, signups, nextActivityId, nextCamperId, nextSignupId)
    requires s.id == nextSignupId && s.activityId in activities && s.camperId in campers
    ensures TablesValid(activities, campers, signups + [s], nextActivityId, nextCamperId, nextSignupId + 1)
  {
    var after := signups + [s];
    assert forall i :: 0 <= i < |signups| ==> after[i] == signups[i];
  }

  /** Appending a valid signup keeps every row valid. */
  lemma AppendKeepsRows(campers: map<nat, Camper>, signups: seq<Signup>, s: Signup)
    requires RowsSatisfyValidators(campers, signups) && s.Valid()
    ensures RowsSatisfyValidators(campers, signups + [s])
  {
    var after := signups + [s];
    assert forall i :: 0 <= i < |signups| ==> after[i] == signups[i];
  }

  /** Deleting an activity together with its signups keeps the tables intact. */
  lemma DropActivityKeepsTables(
    activities: map<nat, Activity>, campers: map<nat, Camper>, signups: seq<Signup>,
    nextActivityId: nat, nextCamperId: nat, nextSignupId: nat, activityId: nat)
    requires TablesValid(activities, campers, signups, nextActivityId, nextCamperId, nextSignupId)
    ensures TablesValid(
      activities - {activityId}, campers, Select(signups, OfActivity(activityId), false),
      nextActivityId, nextCamperId, nextSignupId)
  {
    SelectIncreasing(signups, OfActivity(activityId), false);
  }

  /** Deleting a camper together with its signups keeps the tables intact. */
  lemma DropCamperKeepsTables(
    activities: map<nat, Activity>, campers: map<nat, Camper>, signups: seq<Signup>,
    nextActivityId: nat, nextCamperId: nat, nextSignupId: nat, camperId: nat)
    requires TablesValid(activities, campers, signups, nextActivityId, nextCamperId, nextSignupId)
    ensures TablesValid(
      activities, campers - {camperId}, Select(signups, OfCamper(camperId), false),
      nextActivityId, nextCamperId, nextSignupId)
  {
    SelectIncreasing(signups, OfCamper(camperId), false);
  }

  /** Dropping rows, and campers, keeps the remaining ones valid. */
  lemma DropKeepsRows(campers: map<nat, Camper>, signups: seq<Signup>, p: Parent, kept: map<nat, Camper>)
    requires RowsSatisfyValidators(campers, signups)
    requires forall id :: id in kept ==> id in campers && kept[id] == campers[id]
    ensures RowsSatisfyValidators(kept, Select(signups, p, false))
  {
  }

  /**
   * The three tables. Rows are the entity objects; `signups` is kept in
   * insertion order, which is also increasing id order. The `next...`
   * counters stand for the database's primary-key generation.
   */
  class Store {
    var activities: map<nat, Activity>
    var campers: map<nat, Camper>
    var signups: seq<Signup>
    var nextActivityId: nat
    var nextCamperId: nat
    var nextSignupId: nat

    /** Primary keys match the rows, foreign keys resolve, ids are fresh and ordered. */
    predicate Valid()
      reads this
    {
      TablesValid(activities, campers, signups, nextActivityId, nextCamperId, nextSignupId)
    }

    /** Every stored camper and signup satisfies its validators. */
    ghost predicate RowsValid()
      reads this, campers.Values, signups
    {
      RowsSatisfyValidators(campers, signups)
    }

    constructor ()
      ensures Valid() && RowsValid()
      ensures activities == map[] && campers == map[] && signups == []
    {
      activities, campers, signups := map[], map[], [];
      nextActivityId, nextCamperId, nextSignupId := 1, 1, 1;
    }

    /** `activity.signups`. */
    function ActivitySignups(activityId: nat): (r: seq<Signup>)
      reads this
      ensures forall i :: 0 <= i < |r| ==> r[i] in signups && r[i].activityId == activityId
      ensures forall i :: 0 <= i < |signups| && signups[i].activityId == activityId ==> signups[i] in r
    {
      SelectMembers(signups, OfActivity(activityId), true);
      Select(signups, OfActivity(activityId), true)
    }

    /** `camper.signups`. */
    function CamperSignups(camperId: nat): (r: seq<Signup>)
      reads this
      ensures forall i :: 0 <= i < |r| ==> r[i] in signups && r[i].camperId == camperId
      ensures forall i :: 0 <= i < |signups| && signups[i].camperId == camperId ==> signups[i] in r
    {
      SelectMembers(signups, OfCamper(camperId), true);
      Select(signups, OfCamper(camperId), true)
    }

    /** The `camper.activities` association proxy over `camper.signups`. */
    function CamperActivities(camperId: nat): (r: seq<Activity>)
      requires Valid()
      reads this
      ensures |r| == |CamperSignups(camperId)|
      ensures forall i :: 0 <= i < |r| ==> r[i] == activities[CamperSignups(camperId)[i].activityId]
    {
      var ss := CamperSignups(camperId);
      assert forall i :: 0 <= i < |ss| ==> ss[i] in signups;
      ActivitiesVia(ss, activities)
    }

    /** The `activity.campers` association proxy over `activity.signups`. */
    function ActivityCampers(activityId: nat): (r: seq<Camper>)
      requires Valid()
      reads this
      ensures |r| == |ActivitySignups(activityId)|
      ensures forall i :: 0 <= i < |r| ==> r[i] == campers[ActivitySignups(activityId)[i].camperId]
    {
      var ss := ActivitySignups(activityId);
      assert forall i :: 0 <= i < |ss| ==> ss[i] in signups;
      CampersVia(ss, campers)
    }

    /** `Activity(name=..., difficulty=...)`, added and committed. */
    method AddActivity(name: string, difficulty: int) returns (a: Activity)
      requires Valid() && RowsValid()
      modifies this
      ensures Valid() && RowsValid()
      ensures fresh(a) && a.id == old(nextActivityId) && a.name == name && a.difficulty == difficulty
      ensures activities == old(activities)[a.id := a] && a.id !in old(activities)
      ensures campers == old(campers) && signups == old(signups)
      ensures nextActivityId == old(nextActivityId) + 1
      ensures nextCamperId == old(nextCamperId) && nextSignupId == old(nextSignupId)
    {
      a := new Activity(nextActivityId, name, difficulty);
      activities := activities[a.id := a];
      nextActivityId := nextActivityId + 1;
    }

    /**
     * `Camper(name=..., age=...)`, added and committed. The validators run
     * in keyword order, name first; a `ValueError` leaves the tables as
     * they were.
     */
    method AddCamper(name: Option<string>, age: int) returns (r: Validated<Camper>)
      requires Valid() && RowsValid()
      modifies this
      ensures Valid() && RowsValid()
      ensures r.Rejected? <==> ValidateName(name).Rejected? || ValidateAge(age).Rejected?
      ensures ValidateName(name).Rejected? ==> r == Rejected(NameError)
      ensures ValidateName(name).Accepted? && ValidateAge(age).Rejected? ==> r == Rejected(AgeError)
      ensures r.Rejected? ==> campers == old(campers)
      ensures r.Accepted? ==>
        && fresh(r.value) && r.value.id == old(nextCamperId) && r.value.id !in old(campers)
        && r.value.name == name.value && r.value.age == age
        && campers == old(campers)[r.value.id := r.value]
      ensures activities == old(activities) && signups == old(signups)
      ensures nextCamperId == old(nextCamperId) + (if r.Accepted? then 1 else 0)
      ensures nextActivityId == old(nextActivityId) && nextSignupId == old(nextSignupId)
    {
      var checkedName := ValidateName(name);
      if checkedName.Rejected? {
        return Rejected(checkedName.message);
      }
      var checkedAge := ValidateAge(age);
      if checkedAge.Rejected? {
        return Rejected(checkedAge.message);
      }
      var c := new Camper(nextCamperId, checkedName.value, checkedAge.value);
      campers := campers[c.id := c];
      nextCamperId := nextCamperId + 1;
      r := Accepted(c);
    }

    /**
     * `Signup(time=..., activity_id=..., camper_id=...)`, added and
     * committed; both parents must already exist.
     */
    method AddSignup(activityId: nat, camperId: nat, time: Option<int>) returns (r: Validated<Signup>)
      requires Valid() && RowsValid()
      requires activityId in activities && camperId in campers
      modifies this
      ensures Valid() && RowsValid()
      ensures r.Rejected? <==> ValidateTime(time).Rejected?
      ensures r.Rejected? ==> r.message == TimeError && signups == old(signups)
      ensures r.Accepted? ==>
        && fresh(r.value) && r.value.id == old(nextSignupId)
        && r.value.activityId == activityId && r.value.camperId == camperId && r.value.time == time
        && signups == old(signups) + [r.value]
      ensures activities == old(activities) && campers == old(campers)
      ensures nextSignupId == old(nextSignupId) + (if r.Accepted? then 1 else 0)
      ensures nextActivityId == old(nextActivityId) && nextCamperId == old(nextCamperId)
    {
      var checked := ValidateTime(time);
      if checked.Rejected? {
        return Rejected(checked.message);
      }
      var s := new Signup(nextSignupId, activityId, camperId, Some(checked.value));
      ghost var before := signups;
      assert RowsSatisfyValidators(campers, before);
      signups := signups + [s];
      nextSignupId := nextSignupId + 1;
      AppendKeepsTables(activities, campers, before, nextActivityId, nextCamperId, nextSignupId - 1, s);
      AppendKeepsRows(campers, before, s);
      r := Accepted(s);
    }

    /**
     * `camper.activities.append(activity)` or
     * `activity.campers.append(camper)`: either proxy's creator builds one
     * new Signup, with no time, linking the pair.
     */
    method Link(activityId: nat, camperId: nat) returns (s: Signup)
      requires Valid() && RowsValid()
      requires activityId in activities && camperId in campers
      modifies this
      ensures Valid() && RowsValid()
      ensures fresh(s) && s.id == old(nextSignupId) && s.time == None
      ensures s.activityId == activityId && s.camperId == camperId
      ensures signups == old(signups) + [s]
      ensures activities == old(activities) && campers == old(campers)
      ensures nextSignupId == old(nextSignupId) + 1
      ensures nextActivityId == old(nextActivityId) && nextCamperId == old(nextCamperId)
      ensures CamperActivities(camperId) == old(CamperActivities(camperId)) + [activities[activityId]]
      ensures ActivityCampers(activityId) == old(ActivityCampers(activityId)) + [campers[camperId]]
    {
      s := new Signup(nextSignupId, activityId, camperId, None);
      ghost var before := signups;
      assert RowsSatisfyValidators(campers, before);
      signups := signups + [s];
      nextSignupId := nextSignupId + 1;
      AppendKeepsTables(activities, campers, before, nextActivityId, nextCamperId, nextSignupId - 1, s);
      AppendKeepsRows(campers, before, s);
      LinkExtendsCamperActivities(before, s, activities);
      LinkExtendsActivityCampers(before, s, campers);
    }

    /** `camper.name = name` on a stored camper. */
    method SetCamperName(camperId: nat, name: Option<string>) returns (r: Validated<string>)
      requires Valid() && RowsValid() && camperId in campers
      modifies campers[camperId]
      ensures Valid() && RowsValid()
      ensures r == ValidateName(name)
      ensures campers[camperId].name == (if r.Accepted? then r.value else old(campers[camperId].name))
      ensures campers[camperId].age == old(campers[camperId].age)
    {
      r := campers[camperId].SetName(name);
    }

    /** `camper.age = age` on a stored camper. */
    method SetCamperAge(camperId: nat, age: int) returns (r: Validated<int>)
      requires Valid() && RowsValid() && camperId in campers
      modifies campers[camperId]
      ensures Valid() && RowsValid()
      ensures r == ValidateAge(age)
      ensures campers[camperId].age == (if r.Accepted? then age else old(campers[camperId].age))
      ensures campers[camperId].name == old(campers[camperId].name)
    {
      r := campers[camperId].SetAge(age);
    }

    /** `signup.time = time` on a stored signup. */
    method SetSignupTime(s: Signup, time: Option<int>) returns (r: Validated<int>)
      requires Valid() && RowsValid() && s in signups
      modifies s
      ensures Valid() && RowsValid()
      ensures r == ValidateTime(time)
      ensures s.time == (if r.Accepted? then time else old(s.time))
    {
      r := s.SetTime(time);
    }

    /**
     * `db.session.delete(activity)`: the cascade on `Activity.signups`
     * deletes exactly the signups whose `activity_id` is this activity.
     */
    method DeleteActivity(activityId: nat)
      requires Valid() && RowsValid() && activityId in activities
      modifies this
      ensures Valid() && RowsValid()
      ensures nextActivityId == old(nextActivityId) && nextCamperId == old(nextCamperId) && nextSignupId == old(nextSignupId)
      ensures activities == old(activities) - {activityId} && campers == old(campers)
      ensures signups == Select(old(signups), OfActivity(activityId), false)
      ensures forall i :: 0 <= i < |signups| ==> signups[i] in old(signups) && signups[i].activityId != activityId
      ensures forall i :: 0 <= i < |old(signups)| && old(signups)[i].activityId != activityId ==>
        old(signups)[i] in signups
      ensures multiset(old(signups)) == multiset(signups) + multiset(old(ActivitySignups(activityId)))
      ensures ActivitySignups(activityId) == []
      ensures forall c :: CamperSignups(c) == Select(old(CamperSignups(c)), OfActivity(activityId), false)
    {
      ghost var before := signups;
      assert RowsSatisfyValidators(campers, before);
      signups := Select(signups, OfActivity(activityId), false);
      activities := activities - {activityId};
      DropActivityKeepsTables(old(activities), campers, before, nextActivityId, nextCamperId, nextSignupId, activityId);
      DropKeepsRows(campers, before, OfActivity(activityId), campers);
      DropFacts(before, OfActivity(activityId));
    }

    /**
     * `db.session.delete(camper)`: the cascade on `Camper.signups`
     * deletes exactly the signups whose `camper_id` is this camper.
     */
    method DeleteCamper(camperId: nat)
      requires Valid() && RowsValid() && camperId in campers
      modifies this
      ensures Valid() && RowsValid()
      ensures nextActivityId == old(nextActivityId) && nextCamperId == old(nextCamperId) && nextSignupId == old(nextSignupId)
      ensures campers == old(campers) - {camperId} && activities == old(activities)
      ensures signups == Select(old(signups), OfCamper(camperId), false)
      ensures forall i :: 0 <= i < |signups| ==> signups[i] in old(signups) && signups[i].camperId != camperId
      ensures forall i :: 0 <= i < |old(signups)| && old(signups)[i].camperId != camperId ==>
        old(signups)[i] in signups
      ensures multiset(old(signups)) == multiset(signups) + multiset(old(CamperSignups(camperId)))
      ensures CamperSignups(camperId) == []
      ensures forall a :: ActivitySignups(a) == Select(old(ActivitySignups(a)), OfCamper(camperId), false)
    {
      ghost var before := signups;
      assert RowsSatisfyValidators(campers, before);
      signups := Select(signups, OfCamper(camperId), false);
      campers := campers - {camperId};
      DropCamperKeepsTables(activities, old(campers), before, nextActivityId, nextCamperId, nextSignupId, camperId);
      DropKeepsRows(old(campers), before, OfCamper(camperId), campers);
      DropFacts(before, OfCamper(camperId));
    }
  }

  /**
   * A signup appended to the table puts its activity at the end of its
   * camper's `activities` proxy.
   */
  lemma LinkExtendsCamperActivities(before: seq<Signup>, s: Signup, activities: map<nat, Activity>)
    requires forall i :: 0 <= i < |before| ==> before[i].activityId in activities
    requires s.activityId in activities
    ensures ActivitiesVia(Select(before + [s], OfCamper(s.camperId), true), activities)
         == ActivitiesVia(Select(before, OfCamper(s.camperId), true), activities) + [activities[s.activityId]]
  {
    SelectAppend(before, [s], OfCamper(s.camperId), true);
    ActivitiesViaAppend(Select(before, OfCamper(s.camperId), true), s, activities);
  }

  /**
   * A signup appended to the table puts its camper at the end of its
   * activity's `campers` proxy.
   */
  lemma LinkExtendsActivityCampers(before: seq<Signup>, s: Signup, campers: map<nat, Camper>)
    requires forall i :: 0 <= i < |before| ==> before[i].camperId in campers
    requires s.camperId in campers
    ensures CampersVia(Select(before + [s], OfActivity(s.activityId), true), campers)
         == CampersVia(Select(before, OfActivity(s.activityId), true), campers) + [campers[s.camperId]]
  {
    SelectAppend(before, [s], OfActivity(s.activityId), true);
    CampersViaAppend(Select(before, OfActivity(s.activityId), true), s, campers);
  }

  /** Appending a signup through a proxy appends its activity to the view. */
  lemma {:induction false} ActivitiesViaAppend(ss: seq<Signup>, s: Signup, activities: map<nat, Activity>)
    requires forall i :: 0 <= i < |ss| ==> ss[i].activityId in activities
    requires s.activityId in activities
    ensures ActivitiesVia(ss + [s], activities) == ActivitiesVia(ss, activities) + [activities[s.activityId]]
  {
  }

  /** Appending a signup through a proxy appends its camper to the view. */
  lemma {:induction false} CampersViaAppend(ss: seq<Signup>, s: Signup, campers: map<nat, Camper>)
    requires forall i :: 0 <= i < |ss| ==> ss[i].camperId in campers
    requires s.camperId in campers
    ensures CampersVia(ss + [s], campers) == CampersVia(ss, campers) + [campers[s.camperId]]
  {
  }
}
