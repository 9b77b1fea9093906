/**
 * The `serialize_rules` tuples of the three models and the shape of the
 * tree `to_dict()` builds from them. sqlalchemy_serializer expands every
 * relationship attribute a model declares unless a rule `-key` removes it;
 * a rule `-key.rest` travels down into `key` as `-rest`, and there it is
 * joined by the nested model's own `serialize_rules`.
 */
module SerializeRules {
  import opened Wrappers

  /** The three mapped classes. */
  datatype Kind = ActivityKind | CamperKind | SignupKind

  /** A rule such as `-signups.activity`, without its '-' and split at the dots. */
  type Path = seq<string>

  /** The relationship attributes of each model, in declaration order. */
  function Relationships(k: Kind): seq<string> {
    match k
    case ActivityKind => ["signups"]
    case CamperKind => ["signups"]
    case SignupKind => ["activity", "camper"]
  }

  /** The model at the far end of relationship `key` of model `k`. */
  function Target(k: Kind, key: string): Kind {
    match k
    case SignupKind => if key == "activity" then ActivityKind else CamperKind
    case _ => SignupKind
  }

  /** Each model's own `serialize_rules`. */
  function DeclaredRules(k: Kind): set<Path> {
    match k
    case ActivityKind => {["signups", "activity"]}
    case CamperKind => {["signups"]}
    case SignupKind => {["activity", "signups"], ["camper", "signups"]}
  }

  /**
   * Every declared rule names a relationship of its own model and, when it
   * goes one level down, a relationship of the model that one points to:
   * no rule is silently inert.
   */
  lemma DeclaredRulesNameRelationships(k: Kind)
    ensures forall p :: p in DeclaredRules(k) ==> 1 <= |p| <= 2 && p[0] in Relationships(k)
    ensures forall p :: p in DeclaredRules(k) && |p| == 2 ==> p[1] in Relationships(Target(k, p[0]))
  {
  }

  /** Models with no `serialize_rules` at all, for comparison. */
  function NoRules(k: Kind): set<Path> {
    {}
  }

  /** The rules that apply one level down, inside relationship `key`. */
  function Descend(rules: set<Path>, key: string): set<Path> {
    set p | p in rules && |p| >= 2 && p[0] == key :: p[1..]
  }

  /** The relationship keys that no rule of the form `-key` removes, in order. */
  function Kept(keys: seq<string>, rules: set<Path>): (r: seq<string>)
    ensures forall key :: key in r <==> key in keys && [key] !in rules
  {
    if keys == [] then []
    else (if [keys[0]] in rules then [] else [keys[0]]) + Kept(keys[1..], rules)
  }

  /** Which relationships an output expands, and how, level by level. */
  datatype Shape = Shape(kind: Kind, branches: seq<Branch>)
  datatype Branch = Branch(key: string, shape: Shape)

  function BranchKeys(bs: seq<Branch>): (ks: seq<string>)
    ensures |ks| == |bs|
    ensures forall i :: 0 <= i < |bs| ==> ks[i] == bs[i].key
  {
    if bs == [] then [] else [bs[0].key] + BranchKeys(bs[1..])
  }

  /** Levels of relationships below the top: 0 when nothing is expanded. */
  function ShapeDepth(sh: Shape): nat
    decreases sh, 1
  {
    if sh.branches == [] then 0 else 1 + BranchesDepth(sh.branches)
  }

  function BranchesDepth(bs: seq<Branch>): (d: nat)
    ensures forall i :: 0 <= i < |bs| ==> ShapeDepth(bs[i].shape) <= d
    ensures bs == [] ==> d == 0
    decreases bs, 0
  {
    if bs == [] then 0
    else
      var rest := BranchesDepth(bs[1..]);
      var first := ShapeDepth(bs[0].shape);
      if first < rest then rest else first
  }

  /**
   * The shape `to_dict()` gives model `k` under the extra `rules`, when
   * `ruleOf` gives each model's own rules; `None` when the expansion
   * would nest deeper than `fuel` levels.
   */
  function Expand(k: Kind, rules: set<Path>, ruleOf: Kind -> set<Path>, fuel: nat): Option<Shape>
    decreases fuel, 1, 0
  {
    var effective := rules + ruleOf(k);
    match ExpandBranches(k, Kept(Relationships(k), effective), effective, ruleOf, fuel)
    case None => None
    case Some(bs) => Some(Shape(k, bs))
  }

  function ExpandBranches(k: Kind, keys: seq<string>, rules: set<Path>, ruleOf: Kind -> set<Path>, fuel: nat)
    : Option<seq<Branch>>
    decreases fuel, 0, |keys|
  {
    if keys == [] then Some([])
    else if fuel == 0 then None
    else
      var head := Expand(Target(k, keys[0]), Descend(rules, keys[0]), ruleOf, fuel - 1);
      var tail := ExpandBranches(k, keys[1..], rules, ruleOf, fuel);
      if head.None? || tail.None? then None
      else Some([Branch(keys[0], head.value)] + tail.value)
  }

  /** The outputs the source intends: what each declared rule tuple leaves. */
  function DefaultShape(k: Kind): Shape {
    match k
    case CamperKind => Shape(CamperKind, [])
    case SignupKind =>
      Shape(SignupKind, [Branch("activity", Shape(ActivityKind, [])), Branch("camper", Shape(CamperKind, []))])
    case ActivityKind =>
      Shape(ActivityKind, [Branch("signups", Shape(SignupKind, [Branch("camper", Shape(CamperKind, []))]))])
  }

  /** Under the declared rules, every model's output closes within two levels. */
  lemma DeclaredRulesClose(k: Kind, fuel: nat)
    requires fuel >= 2
    ensures Expand(k, {}, DeclaredRules, fuel) == Some(DefaultShape(k))
  {
    match k
    case CamperKind =>
      CamperCloses({}, fuel);
    case SignupKind =>
      SignupCloses(fuel);
    case ActivityKind =>
      var effective := DeclaredRules(ActivityKind);
      assert {} + DeclaredRules(ActivityKind) == effective;
      assert Kept(["signups"], effective) == ["signups"];
      assert Descend(effective, "signups") == {["activity"]};
      SignupClosesUnderActivity(fuel - 1);
      var inner := DefaultShape(ActivityKind).branches[0].shape;
      assert ["signups"][1..] == [];
      assert ExpandBranches(ActivityKind, [], effective, DeclaredRules, fuel) == Some([]);
      assert [Branch("signups", inner)] + [] == [Branch("signups", inner)];
      assert ExpandBranches(ActivityKind, ["signups"], effective, DeclaredRules, fuel)
          == Some([Branch("signups", inner)]);
  }

  /** A camper expands nothing: its own `-signups` removes its one relationship. */
  lemma CamperCloses(rules: set<Path>, fuel: nat)
    ensures Expand(CamperKind, rules, DeclaredRules, fuel) == Some(Shape(CamperKind, []))
  {
    var effective := rules + DeclaredRules(CamperKind);
    assert ["signups"] in effective;
    assert Kept(["signups"], effective) == [];
  }

  /** Inside a signup, the camper is expanded with its columns only. */
  lemma SignupCamperBranch(rules: set<Path>, fuel: nat)
    requires fuel >= 1
    requires rules == {} || rules == {["activity"]}
    ensures ExpandBranches(SignupKind, ["camper"], rules + DeclaredRules(SignupKind), DeclaredRules, fuel)
         == Some([Branch("camper", Shape(CamperKind, []))])
  {
    var effective := rules + DeclaredRules(SignupKind);
    assert Descend(effective, "camper") == {["signups"]};
    CamperCloses({["signups"]}, fuel - 1);
    assert ["camper"][1..] == [];
    assert ExpandBranches(SignupKind, [], effective, DeclaredRules, fuel) == Some([]);
    var camperBranch := Branch("camper", Shape(CamperKind, []));
    assert [camperBranch] + [] == [camperBranch];
  }

  /**
   * A signup expands its activity and camper one level and no further:
   * `-activity.signups` and `-camper.signups` stop the way back.
   */
  lemma SignupCloses(fuel: nat)
    requires fuel >= 1
    ensures Expand(SignupKind, {}, DeclaredRules, fuel) == Some(DefaultShape(SignupKind))
  {
    var effective := {} + DeclaredRules(SignupKind);
    SignupCamperBranch({}, fuel);
    assert ["activity", "camper"][1..] == ["camper"];
    assert Kept(["camper"], effective) == ["camper"];
    assert Kept(["activity", "camper"], effective) == ["activity", "camper"];
    assert Descend(effective, "activity") == {["signups"]};
    var activityRules := {["signups"]} + DeclaredRules(ActivityKind);
    assert ["signups"] in activityRules;
    assert Kept(["signups"], activityRules) == [];
    assert Expand(ActivityKind, {["signups"]}, DeclaredRules, fuel - 1) == Some(Shape(ActivityKind, []));
    var activityBranch := Branch("activity", Shape(ActivityKind, []));
    var camperBranch := Branch("camper", Shape(CamperKind, []));
    assert [activityBranch] + [camperBranch] == [activityBranch, camperBranch];
  }

  /**
   * Inside an activity's signups, the inherited `-activity` (from the
   * activity's `-signups.activity`) leaves a signup only its camper.
   */
  lemma SignupClosesUnderActivity(fuel: nat)
    requires fuel >= 1
    ensures Expand(SignupKind, {["activity"]}, DeclaredRules, fuel) == Some(DefaultShape(ActivityKind).branches[0].shape)
  {
    var effective := {["activity"]} + DeclaredRules(SignupKind);
    SignupCamperBranch({["activity"]}, fuel);
    assert ["activity"] in effective && ["camper"] !in effective;
    assert ["activity", "camper"][1..] == ["camper"];
    assert Kept(["camper"], effective) == ["camper"];
    assert Kept(["activity", "camper"], effective) == [] + ["camper"];
    var camperBranch := Branch("camper", Shape(CamperKind, []));
    assert DefaultShape(ActivityKind).branches[0].shape == Shape(SignupKind, [camperBranch]);
    assert ExpandBranches(SignupKind, Kept(Relationships(SignupKind), effective), effective, DeclaredRules, fuel)
        == Some([camperBranch]);
  }

  /** Without any rules the bidirectional relationships recurse for ever. */
  lemma {:induction false} NoRulesNeverClose(k: Kind, fuel: nat)
    ensures Expand(k, {}, NoRules, fuel) == None
    decreases fuel
  {
    var effective: set<Path> := {} + NoRules(k);
    assert effective == {};
    var keys := Kept(Relationships(k), effective);
    assert Relationships(k)[0] in keys;
    if fuel > 0 {
      assert Descend(effective, keys[0]) == {};
      NoRulesNeverClose(Target(k, keys[0]), fuel - 1);
    }
  }
  /**
   * Whatever `Expand` builds nests no deeper than the fuel allowed: the
   * output is a finite tree whose depth does not depend on the data.
   */
  lemma {:induction false} ExpandBounded(k: Kind, rules: set<Path>, ruleOf: Kind -> set<Path>, fuel: nat)
    ensures var r := Expand(k, rules, ruleOf, fuel);
      r.Some? ==> ShapeDepth(r.value) <= fuel
    decreases fuel, 1, 0
  {
    var effective := rules + ruleOf(k);
    var keys := Kept(Relationships(k), effective);
    ExpandBranchesBounded(k, keys, effective, ruleOf, fuel);
  }

  lemma {:induction false} ExpandBranchesBounded(
    k: Kind, keys: seq<string>, rules: set<Path>, ruleOf: Kind -> set<Path>, fuel: nat)
    ensures var r := ExpandBranches(k, keys, rules, ruleOf, fuel);
      r.Some? && r.value != [] ==> BranchesDepth(r.value) < fuel
    decreases fuel, 0, |keys|
  {
    if keys != [] && fuel > 0 {
      var head := Expand(Target(k, keys[0]), Descend(rules, keys[0]), ruleOf, fuel - 1);
      var tail := ExpandBranches(k, keys[1..], rules, ruleOf, fuel);
      if head.Some? && tail.Some? {
        ExpandBounded(Target(k, keys[0]), Descend(rules, keys[0]), ruleOf, fuel - 1);
        ExpandBranchesBounded(k, keys[1..], rules, ruleOf, fuel);
        var bs := [Branch(keys[0], head.value)] + tail.value;
        assert ExpandBranches(k, keys, rules, ruleOf, fuel) == Some(bs);
        assert bs[0].shape == head.value && bs[1..] == tail.value;
      }
    }
  }

  /**
   * `Expand` expands exactly the relationships of `k` that no rule in
   * force removes, in declaration order, each into its target model.
   */
  lemma ExpandHonoursRules(k: Kind, rules: set<Path>, ruleOf: Kind -> set<Path>, fuel: nat)
    ensures var r := Expand(k, rules, ruleOf, fuel);
      r.Some? ==>
        && r.value.kind == k
        && BranchKeys(r.value.branches) == Kept(Relationships(k), rules + ruleOf(k))
        && (forall i :: 0 <= i < |r.value.branches| ==>
              var key := r.value.branches[i].key;
              key in Relationships(k) && [key] !in rules + ruleOf(k) &&
              r.value.branches[i].shape.kind == Target(k, key))
  {
    var effective := rules + ruleOf(k);
    var keys := Kept(Relationships(k), effective);
    ExpandBranchesKeys(k, keys, effective, ruleOf, fuel);
    var r := Expand(k, rules, ruleOf, fuel);
    if r.Some? {
      var bs := r.value.branches;
      assert BranchKeys(bs) == keys;
      forall i | 0 <= i < |bs|
        ensures bs[i].key in Relationships(k) && [bs[i].key] !in effective
      {
        assert bs[i].key == keys[i];
      }
    }
  }

  lemma {:induction false} ExpandBranchesKeys(
    k: Kind, keys: seq<string>, rules: set<Path>, ruleOf: Kind -> set<Path>, fuel: nat)
    ensures var r := ExpandBranches(k, keys, rules, ruleOf, fuel);
      r.Some? ==>
        && |r.value| == |keys|
        && forall i :: 0 <= i < |keys| ==> r.value[i].key == keys[i] && r.value[i].shape.kind == Target(k, keys[i])
    decreases |keys|
  {
    if keys != [] && fuel > 0 {
      var head := Expand(Target(k, keys[0]), Descend(rules, keys[0]), ruleOf, fuel - 1);
      var tail := ExpandBranches(k, keys[1..], rules, ruleOf, fuel);
      if head.Some? && tail.Some? {
        ExpandBranchesKeys(k, keys[1..], rules, ruleOf, fuel);
        var bs := [Branch(keys[0], head.value)] + tail.value;
        assert ExpandBranches(k, keys, rules, ruleOf, fuel) == Some(bs);
        assert head.value.kind == Target(k, keys[0]);
        assert forall i :: 1 <= i < |bs| ==> bs[i] == tail.value[i - 1] && keys[i] == keys[1..][i - 1];
      }
    }
  }
}
