/**
 * `to_dict()` on a stored row: its columns, then each relationship that
 * the rules in force leave, rendered one level down under the rules that
 * travel into it. Relationships are read from the tables, the way the ORM
 * loads them.
 */
module Serialize {
  import opened Wrappers
  import opened Json
  import opened SerializeRules
  import opened Entities
  import opened CampStore

  /** A row of one of the three tables. */
  datatype Entity =
    | ActivityRow(activity: Activity)
    | CamperRow(camper: Camper)
    | SignupRow(signup: Signup)

  function KindOf(e: Entity): Kind {
    match e
    case ActivityRow(_) => ActivityKind
    case CamperRow(_) => CamperKind
    case SignupRow(_) => SignupKind
  }

  /** The row is one of the store's. */
  predicate Stored(st: Store, e: Entity)
    reads st
  {
    match e
    case ActivityRow(a) => a in st.activities.Values
    case CamperRow(c) => c in st.campers.Values
    case SignupRow(s) => s in st.signups
  }

  /** The column attributes of each model, in declaration order. */
  function ColumnNames(k: Kind): seq<string> {
    match k
    case ActivityKind => ["id", "name", "difficulty"]
    case CamperKind => ["id", "name", "age"]
    case SignupKind => ["id", "time", "activity_id", "camper_id"]
  }

  function ActivityColumns(a: Activity): (ms: seq<Member>)
    reads a
    ensures KeysOf(ms) == ColumnNames(ActivityKind)
    ensures forall i :: 0 <= i < |ms| ==> Depth(ms[i].value) == 0
  {
    Zip(ColumnNames(ActivityKind), [JInt(a.id), JStr(a.name), JInt(a.difficulty)])
  }

  function CamperColumns(c: Camper): (ms: seq<Member>)
    reads c
    ensures KeysOf(ms) == ColumnNames(CamperKind)
    ensures forall i :: 0 <= i < |ms| ==> Depth(ms[i].value) == 0
  {
    Zip(ColumnNames(CamperKind), [JInt(c.id), JStr(c.name), JInt(c.age)])
  }

  /** A signup made through a proxy has no time yet; it serializes as null. */
  function SignupColumns(s: Signup): (ms: seq<Member>)
    reads s
    ensures KeysOf(ms) == ColumnNames(SignupKind)
    ensures forall i :: 0 <= i < |ms| ==> Depth(ms[i].value) == 0
  {
    Zip(ColumnNames(SignupKind),
      [JInt(s.id), if s.time.Some? then JInt(s.time.value) else JNull, JInt(s.activityId), JInt(s.camperId)])
  }

  /** No relationship shares its name with a column. */
  lemma RelationsAreNotColumns()
    ensures "signups" !in ColumnNames(ActivityKind) && "signups" !in ColumnNames(CamperKind)
    ensures "activity" !in ColumnNames(SignupKind) && "camper" !in ColumnNames(SignupKind)
  {
  }

  /** Two relationship members after the columns are found under their keys. */
  lemma LookupPair(cols: seq<Member>, k1: string, v1: Json, k2: string, v2: Json)
    requires k1 !in KeysOf(cols) && k2 !in KeysOf(cols) && k1 != k2
    ensures KeysOf(cols + [Member(k1, v1), Member(k2, v2)]) == KeysOf(cols) + [k1, k2]
    ensures Lookup(cols + [Member(k1, v1), Member(k2, v2)], k1) == Some(v1)
    ensures Lookup(cols + [Member(k1, v1), Member(k2, v2)], k2) == Some(v2)
  {
    var rels := [Member(k1, v1), Member(k2, v2)];
    KeysOfAppend(cols, rels);
    LookupAppend(cols, rels, k1);
    LookupAppend(cols, rels, k2);
    assert rels[1..] == [Member(k2, v2)];
  }

  /** One relationship member after the columns is found under its key. */
  lemma LookupOne(cols: seq<Member>, k: string, v: Json)
    requires k !in KeysOf(cols)
    ensures KeysOf(cols + [Member(k, v)]) == KeysOf(cols) + [k]
    ensures Lookup(cols + [Member(k, v)], k) == Some(v)
  {
    KeysOfAppend(cols, [Member(k, v)]);
    LookupAppend(cols, [Member(k, v)], k);
  }

  /** Every column of the row, under its own name, as a scalar. */
  function Columns(st: Store, e: Entity): (ms: seq<Member>)
    requires Stored(st, e)
    reads st, st.activities.Values, st.campers.Values, st.signups
    ensures KeysOf(ms) == ColumnNames(KindOf(e))
    ensures forall i :: 0 <= i < |ms| ==> Depth(ms[i].value) == 0
  {
    match e
    case ActivityRow(a) => ActivityColumns(a)
    case CamperRow(c) => CamperColumns(c)
    case SignupRow(s) => SignupColumns(s)
  }

  /** The row rendered as an object, expanding exactly the branches of `sh`. */
  function Render(st: Store, e: Entity, sh: Shape): (r: Json)
    requires Stored(st, e)
    reads st, st.activities.Values, st.campers.Values, st.signups
    ensures r.JObject?
    ensures Keys(r) == ColumnNames(KindOf(e)) + BranchKeys(sh.branches)
    decreases sh, 0
  {
    var cols := Columns(st, e);
    var rels := RenderRelations(st, e, sh.branches);
    KeysOfAppend(cols, rels);
    JObject(cols + rels)
  }

  /** One member per branch, in branch order. */
  function RenderRelations(st: Store, e: Entity, bs: seq<Branch>): (ms: seq<Member>)
    requires Stored(st, e)
    reads st, st.activities.Values, st.campers.Values, st.signups
    ensures KeysOf(ms) == BranchKeys(bs)
    decreases bs
  {
    if bs == [] then []
    else [Member(bs[0].key, RenderRelation(st, e, bs[0].key, bs[0].shape))] + RenderRelations(st, e, bs[1..])
  }

  /**
   * Relationship `key` of the row: a collection becomes an array of its
   * rows, a reference the object it points to; a reference whose row is
   * missing is null.
   */
  function RenderRelation(st: Store, e: Entity, key: string, sub: Shape): Json
    requires Stored(st, e)
    reads st, st.activities.Values, st.campers.Values, st.signups
    decreases sub, 2
  {
    match e
    case ActivityRow(a) =>
      if key == "signups" then JArray(RenderAll(st, st.ActivitySignups(a.id), sub)) else JNull
    case CamperRow(c) =>
      if key == "signups" then JArray(RenderAll(st, st.CamperSignups(c.id), sub)) else JNull
    case SignupRow(s) =>
      if key == "activity" && s.activityId in st.activities then
        Render(st, ActivityRow(st.activities[s.activityId]), sub)
      else if key == "camper" && s.camperId in st.campers then
        Render(st, CamperRow(st.campers[s.camperId]), sub)
      else JNull
  }

  /** The signups `ss`, each rendered with shape `sub`, in order. */
  function RenderAll(st: Store, ss: seq<Signup>, sub: Shape): (r: seq<Json>)
    requires forall i :: 0 <= i < |ss| ==> ss[i] in st.signups
    reads st, st.activities.Values, st.campers.Values, st.signups
    ensures |r| == |ss|
    ensures forall i :: 0 <= i < |ss| ==> r[i] == Render(st, SignupRow(ss[i]), sub)
    decreases sub, 1, |ss|
  {
    if ss == [] then [] else [Render(st, SignupRow(ss[0]), sub)] + RenderAll(st, ss[1..], sub)
  }

  /**
   * `row.to_dict()`: the row rendered with the shape its model's
   * `serialize_rules`, and those of the models it reaches, leave
   * (`ToDictFollowsRules`).
   */
  function ToDict(st: Store, e: Entity): (r: Json)
    requires Stored(st, e)
    reads st, st.activities.Values, st.campers.Values, st.signups
    ensures Keys(r) == ColumnNames(KindOf(e)) + BranchKeys(DefaultShape(KindOf(e)).branches)
  {
    Render(st, e, DefaultShape(KindOf(e)))
  }

  /** `to_dict()` expands exactly what the declared rules leave, and that expansion closes. */
  lemma ToDictFollowsRules(st: Store, e: Entity)
    requires Stored(st, e)
    ensures Expand(KindOf(e), {}, DeclaredRules, 2).Some?
    ensures ToDict(st, e) == Render(st, e, Expand(KindOf(e), {}, DeclaredRules, 2).value)
  {
    DeclaredRulesClose(KindOf(e), 2);
  }

  /** A row rendered with no branches is its columns alone. */
  lemma RenderLeaf(st: Store, e: Entity, k: Kind)
    requires Stored(st, e)
    ensures Render(st, e, Shape(k, [])) == JObject(Columns(st, e))
    ensures Keys(Render(st, e, Shape(k, []))) == ColumnNames(KindOf(e))
  {
    assert Columns(st, e) + [] == Columns(st, e);
  }

  /** A camper serializes as its three columns only: no `signups`. */
  lemma CamperToDict(st: Store, c: Camper)
    requires c in st.campers.Values
    ensures ToDict(st, CamperRow(c)) == JObject(CamperColumns(c))
    ensures Keys(ToDict(st, CamperRow(c))) == ColumnNames(CamperKind)
    ensures !HasKey(ToDict(st, CamperRow(c)), "signups")
  {
    RenderLeaf(st, CamperRow(c), CamperKind);
  }

  /** A stored signup's parents are stored. */
  lemma SignupParents(st: Store, s: Signup)
    requires st.Valid() && s in st.signups
    ensures s.activityId in st.activities && s.camperId in st.campers
  {
    var i :| 0 <= i < |st.signups| && st.signups[i] == s;
  }

  /** `signup.to_dict()` in full: its columns, its activity's, its camper's. */
  lemma SignupDict(st: Store, s: Signup)
    requires s in st.signups && s.activityId in st.activities && s.camperId in st.campers
    ensures ToDict(st, SignupRow(s)) == JObject(SignupColumns(s) + [
      Member("activity", JObject(ActivityColumns(st.activities[s.activityId]))),
      Member("camper", JObject(CamperColumns(st.campers[s.camperId])))])
  {
    var e := SignupRow(s);
    var sh := DefaultShape(SignupKind);
    var a := st.activities[s.activityId];
    var c := st.campers[s.camperId];
    RenderLeaf(st, ActivityRow(a), ActivityKind);
    RenderLeaf(st, CamperRow(c), CamperKind);
    var activity := Member("activity", JObject(ActivityColumns(a)));
    var camper := Member("camper", JObject(CamperColumns(c)));
    assert RenderRelation(st, e, "activity", Shape(ActivityKind, [])) == activity.value;
    assert RenderRelation(st, e, "camper", Shape(CamperKind, [])) == camper.value;
    assert RenderRelations(st, e, sh.branches[1..]) == [camper] by {
      assert sh.branches[1..][1..] == [];
      assert RenderRelations(st, e, []) == [];
    }
    assert RenderRelations(st, e, sh.branches) == [activity] + [camper];
    assert Columns(st, e) == SignupColumns(s);
  }

  /**
   * A signup serializes as its columns, then its activity and its camper,
   * each with its columns only: neither lists its `signups` again.
   */
  lemma SignupToDict(st: Store, s: Signup)
    requires st.Valid() && s in st.signups
    ensures s.activityId in st.activities && s.camperId in st.campers
    ensures Keys(ToDict(st, SignupRow(s))) == ColumnNames(SignupKind) + ["activity", "camper"]
    ensures Get(ToDict(st, SignupRow(s)), "activity") == Some(JObject(ActivityColumns(st.activities[s.activityId])))
    ensures Get(ToDict(st, SignupRow(s)), "camper") == Some(JObject(CamperColumns(st.campers[s.camperId])))
    ensures Keys(Get(ToDict(st, SignupRow(s)), "activity").value) == ColumnNames(ActivityKind)
    ensures Keys(Get(ToDict(st, SignupRow(s)), "camper").value) == ColumnNames(CamperKind)
  {
    SignupParents(st, s);
    SignupDict(st, s);
    RelationsAreNotColumns();
    LookupPair(SignupColumns(s),
      "activity", JObject(ActivityColumns(st.activities[s.activityId])),
      "camper", JObject(CamperColumns(st.campers[s.camperId])));
  }

  /** How a signup is shaped inside its activity's `signups`. */
  function SignupUnderActivity(): Shape {
    Shape(SignupKind, [Branch("camper", Shape(CamperKind, []))])
  }

  /** `activity.to_dict()` in full: its columns, then its signups rendered as nested. */
  lemma ActivityDict(st: Store, a: Activity)
    requires a in st.activities.Values
    ensures ToDict(st, ActivityRow(a)) == JObject(ActivityColumns(a) + [
      Member("signups", JArray(RenderAll(st, st.ActivitySignups(a.id), SignupUnderActivity())))])
  {
    var e := ActivityRow(a);
    var sh := DefaultShape(ActivityKind);
    var signups := Member("signups", JArray(RenderAll(st, st.ActivitySignups(a.id), SignupUnderActivity())));
    assert sh.branches[0].shape == SignupUnderActivity();
    assert RenderRelation(st, e, "signups", SignupUnderActivity()) == signups.value;
    assert RenderRelations(st, e, sh.branches) == [signups] by {
      assert sh.branches[1..] == [];
      assert RenderRelations(st, e, []) == [];
    }
    assert Columns(st, e) == ActivityColumns(a);
  }

  /** A signup nested in an activity has its columns and its camper, not its activity. */
  lemma NestedSignupKeys(st: Store, s: Signup)
    requires s in st.signups
    ensures Keys(Render(st, SignupRow(s), SignupUnderActivity())) == ColumnNames(SignupKind) + ["camper"]
    ensures !HasKey(Render(st, SignupRow(s), SignupUnderActivity()), "activity")
  {
    assert BranchKeys(SignupUnderActivity().branches) == ["camper"];
  }

  /**
   * An activity serializes as its columns and its `signups`; each nested
   * signup carries its camper and no `activity`.
   */
  lemma ActivityToDict(st: Store, a: Activity)
    requires a in st.activities.Values
    ensures Keys(ToDict(st, ActivityRow(a))) == ColumnNames(ActivityKind) + ["signups"]
    ensures Get(ToDict(st, ActivityRow(a)), "signups").Some?
    ensures var items := Get(ToDict(st, ActivityRow(a)), "signups").value;
      && items.JArray?
      && |items.items| == |st.ActivitySignups(a.id)|
      && forall i :: 0 <= i < |items.items| ==>
           Keys(items.items[i]) == ColumnNames(SignupKind) + ["camper"] && !HasKey(items.items[i], "activity")
  {
    ActivityDict(st, a);
    var ss := st.ActivitySignups(a.id);
    var items := RenderAll(st, ss, SignupUnderActivity());
    RelationsAreNotColumns();
    LookupOne(ActivityColumns(a), "signups", JArray(items));
    forall i | 0 <= i < |items|
      ensures Keys(items[i]) == ColumnNames(SignupKind) + ["camper"] && !HasKey(items[i], "activity")
    {
      NestedSignupKeys(st, ss[i]);
    }
  }

  /**
   * Each level of expansion costs at most two levels of nesting (an
   * array and an object), so a shape of finite depth renders to a tree of
   * bounded depth.
   */
  lemma RenderDepth(st: Store, e: Entity, sh: Shape)
    requires Stored(st, e)
    ensures Depth(Render(st, e, sh)) <= 2 * ShapeDepth(sh) + 1
    decreases sh, 0
  {
    var cols := Columns(st, e);
    var rels := RenderRelations(st, e, sh.branches);
    RenderRelationsDepth(st, e, sh.branches);
    var d := 2 * ShapeDepth(sh);
    if sh.branches != [] {
      assert ShapeDepth(sh) == 1 + BranchesDepth(sh.branches);
    }
    assert forall i :: 0 <= i < |rels| ==> Depth(rels[i].value) <= d;
    MembersDepthAppend(cols, rels, d);
  }

  lemma RenderRelationsDepth(st: Store, e: Entity, bs: seq<Branch>)
    requires Stored(st, e)
    ensures forall i :: 0 <= i < |RenderRelations(st, e, bs)| ==>
      Depth(RenderRelations(st, e, bs)[i].value) <= 2 * BranchesDepth(bs) + 2
    ensures bs == [] ==> RenderRelations(st, e, bs) == []
    decreases bs
  {
    if bs != [] {
      RenderRelationDepth(st, e, bs[0].key, bs[0].shape);
      RenderRelationsDepth(st, e, bs[1..]);
      assert BranchesDepth(bs[1..]) <= BranchesDepth(bs);
      var ms := RenderRelations(st, e, bs);
      var rest := RenderRelations(st, e, bs[1..]);
      assert forall i :: 1 <= i < |ms| ==> ms[i] == rest[i - 1];
    }
  }

  lemma RenderRelationDepth(st: Store, e: Entity, key: string, sub: Shape)
    requires Stored(st, e)
    ensures Depth(RenderRelation(st, e, key, sub)) <= 2 * ShapeDepth(sub) + 2
    decreases sub, 2
  {
    match e
    case ActivityRow(a) =>
      if key == "signups" {
        var ss := st.ActivitySignups(a.id);
        assert forall i :: 0 <= i < |ss| ==> ss[i] in st.signups;
        RenderAllDepth(st, ss, sub);
        var r := RenderAll(st, ss, sub);
        assert forall i :: 0 <= i < |r| ==> Depth(r[i]) <= 2 * ShapeDepth(sub) + 1;
        ItemsDepthAtMost(r, 2 * ShapeDepth(sub) + 1);
      }
    case CamperRow(c) =>
      if key == "signups" {
        var ss := st.CamperSignups(c.id);
        assert forall i :: 0 <= i < |ss| ==> ss[i] in st.signups;
        RenderAllDepth(st, ss, sub);
        var r := RenderAll(st, ss, sub);
        assert forall i :: 0 <= i < |r| ==> Depth(r[i]) <= 2 * ShapeDepth(sub) + 1;
        ItemsDepthAtMost(r, 2 * ShapeDepth(sub) + 1);
      }
    case SignupRow(s) =>
      if key == "activity" && s.activityId in st.activities {
        RenderDepth(st, ActivityRow(st.activities[s.activityId]), sub);
      } else if key == "camper" && s.camperId in st.campers {
        RenderDepth(st, CamperRow(st.campers[s.camperId]), sub);
      }
  }

  lemma RenderAllDepth(st: Store, ss: seq<Signup>, sub: Shape)
    requires forall i :: 0 <= i < |ss| ==> ss[i] in st.signups
    ensures forall i :: 0 <= i < |ss| ==> Depth(RenderAll(st, ss, sub)[i]) <= 2 * ShapeDepth(sub) + 1
    decreases sub, 1, |ss|
  {
    forall i | 0 <= i < |ss|
      ensures Depth(Render(st, SignupRow(ss[i]), sub)) <= 2 * ShapeDepth(sub) + 1
    {
      RenderDepth(st, SignupRow(ss[i]), sub);
    }
  }

  /** No `to_dict()` output nests more than five levels deep. */
  lemma ToDictDepth(st: Store, e: Entity)
    requires Stored(st, e)
    ensures Depth(ToDict(st, e)) <= 5
  {
    RenderDepth(st, e, DefaultShape(KindOf(e)));
  }
}
