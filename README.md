# Camp signups: models, validators, cascade and serialization rules

This project models the data layer of a small summer-camp signup backend
(`server/models.py`). The backend has three mapped classes:

- `Activity` (name, difficulty);
- `Camper` (name, age);
- `Signup` (time, plus foreign keys to one activity and one camper).

The model covers:

- the three `@validates` hooks that gate `Camper.name`, `Camper.age` and
  `Signup.time`;
- the objects whose validated fields are only ever assigned accepted values;
- the three tables linked by `activity_id` and `camper_id`;
- the `cascade='all, delete-orphan'` on both `signups` relationships;
- the `Camper.activities` and `Activity.campers` association proxies;
- the `serialize_rules` tuples that prune the `to_dict()` tree.

Modules:

- `Wrappers`: `Option`.
- `Validation`: the validators as total functions returning `Accepted(value)` or `Rejected(message)`, where a rejection stands for the `ValueError` the hook raises. The messages are the source's own.
- `Entities`: classes `Activity`, `Camper` and `Signup`. Ids and foreign keys are `const`. The validated fields change only through setter methods that run the validator first.
- `CampStore`: class `Store`, holding the `activities` and `campers` tables as maps from id to object and the `signups` table as a sequence in insertion order. Its methods cover creation, validated updates, the proxy appends and the cascading deletes. Table integrity is the predicate `TablesValid`, and the validators' guarantees over every stored row are `RowsSatisfyValidators`.
- `Json`: the output tree that `to_dict()` returns.
- `SerializeRules`: a rule `-a.b` as the path `["a","b"]`. `Expand` computes the expansion shape the serializer follows:
  - every relationship is expanded unless a rule `-key` removes it;
  - a rule `-key.rest` travels into `key` as `-rest`;
  - at each level the nested model's own `serialize_rules` join the inherited ones.
- `Serialize`: `Render` builds the output of a stored row along a shape. `ToDict` is the default `to_dict()`.

## Model

| member | source | states |
|---|---|---|
| Validation.ValidateName | server/models.py:46-50 | accepts exactly a present string of length at least 1 and returns it unchanged; `None` and `""` are rejected with "Camper should have a name." |
| Validation.ValidateAge | server/models.py:52-56 | accepts exactly the ages 8..18 inclusive and returns them unchanged; every other age is rejected with "Camper's age must be between 8 and 18." |
| Validation.ValidateTime | server/models.py:75-79 | accepts exactly a present time in 0..23 and returns it unchanged; `None` and every other time are rejected with "Time can only be between 0 and 23." |
| Validation.InPyRange | server/models.py:77 | membership in `range(n)` is exactly `0 <= t < n`, the step that turns `time not in range(24)` into a bound check |
| Validation.PyRange | server/models.py:77 | `range(n)` is the sequence 0, 1, ..., n-1, empty when n <= 0 |
| Entities.Camper.SetName | server/models.py:39-50 | the name is replaced only by a value `validate_name` accepts; a rejected name leaves the old name, and the age is untouched; the camper stays valid |
| Entities.Camper.SetAge | server/models.py:40-56 | the age is replaced only by a value `validate_age` accepts; a rejected age leaves the old age, and the name is untouched; the camper stays valid |
| Entities.Signup.SetTime | server/models.py:66-79 | the time is set only to a value `validate_time` accepts; a rejected time, `None` included, leaves the previous time (possibly unset) |
| CampStore.Store.AddActivity | server/models.py:20-25 | a fresh activity with the next id is added with the given name and difficulty; campers and signups are unchanged |
| CampStore.Store.AddCamper | server/models.py:35-56 | for the call `Camper(name=..., age=...)`: a camper is created iff both validators accept; with the keywords in that order the name runs first, so a bad name reports the name error even when the age is also bad; on rejection no table changes |
| CampStore.Store.AddSignup | server/models.py:62-79 | a signup for an existing activity and camper is appended iff `validate_time` accepts (so `time=None` is rejected); on rejection the signups table is unchanged |
| CampStore.Store.Link | server/models.py:28-43 | a proxy append adds exactly one new signup, with no time, linking the pair; the camper's `activities` view gains the activity at the end and the activity's `campers` view gains the camper at the end |
| CampStore.Store.SetCamperName | server/models.py:46-50 | updates a stored camper through `validate_name`; all stored rows still satisfy the validators |
| CampStore.Store.SetCamperAge | server/models.py:52-56 | updates a stored camper through `validate_age`; all stored rows still satisfy the validators |
| CampStore.Store.SetSignupTime | server/models.py:75-79 | updates a stored signup through `validate_time`; all stored rows still satisfy the validators |
| CampStore.Store.DeleteActivity | server/models.py:27 | removes the activity and exactly the signups whose `activity_id` is it: every survivor was there before and points elsewhere, every signup pointing elsewhere survives, in order; the removed rows are the activity's old `signups`; campers are unchanged and each camper's `signups` loses only that activity's rows |
| CampStore.Store.DeleteCamper | server/models.py:42 | removes the camper and exactly the signups whose `camper_id` is it, with the same guarantees; activities are unchanged and each activity's `signups` loses only that camper's rows |
| CampStore.Store.ActivitySignups | server/models.py:27 | `activity.signups` holds exactly the stored signups whose `activity_id` is the activity |
| CampStore.Store.CamperSignups | server/models.py:42 | `camper.signups` holds exactly the stored signups whose `camper_id` is the camper |
| CampStore.Store.CamperActivities | server/models.py:43 | `camper.activities` is `s.activity` for each `s` in `camper.signups`, in order |
| CampStore.Store.ActivityCampers | server/models.py:28 | `activity.campers` is `s.camper` for each `s` in `activity.signups`, in order |
| CampStore.Select | server/models.py:27-42 | a parent's `signups` collection (keep) or the table after its cascade (drop): only rows of the table, each belonging or not to the parent as asked, in table order |
| CampStore.TablesValid | server/models.py:65-68 | table integrity: each map key is its row's id, ids are below the next key, every signup's `activity_id` and `camper_id` name stored rows, and signups are in key order; definition |
| CampStore.RowsSatisfyValidators | server/models.py:46-79 | every stored camper has a valid name and age and every stored signup a time that is unset or valid; definition, kept by every store method through `Store.RowsValid` |
| CampStore.Store.Valid | server/models.py:65-68 | the store's tables satisfy `TablesValid`; every store method keeps it |
| CampStore.Store.constructor | server/models.py:20-68 | an empty database: three empty tables, which are valid |
| Entities.Activity.constructor | server/models.py:20-25 | a row with the given id, name and difficulty |
| Entities.Camper.constructor | server/models.py:35-40 | a row built from a name and age both validators accepted, so it is valid |
| Entities.Signup.constructor | server/models.py:62-68 | a row with its id, foreign keys and a time that is unset or accepted by `validate_time` |
| CampStore.SelectMembers | server/models.py:27-42 | every row of the table that belongs (or does not belong) to a parent appears in the corresponding selection |
| CampStore.SelectIncreasing | server/models.py:65 | selecting rows keeps them in primary-key order |
| CampStore.SelectAppend | server/models.py:28-43 | a parent's children after an append are its old children followed by the new row if it belongs |
| CampStore.SelectPartition | server/models.py:27-42 | the rows of one parent and all other rows together are exactly the table (as a multiset) |
| CampStore.SelectCommute | server/models.py:27-42 | dropping one parent's rows and then taking another parent's children is the same as taking those children and then dropping the first parent's rows |
| CampStore.NoneSelected | server/models.py:27-42 | a table with no rows of a parent gives that parent no children |
| CampStore.DropFacts | server/models.py:27-42 | after a cascade, every other row survives, the removed rows are exactly the parent's, none of the parent's rows remain, and every other parent's children are its old children minus the removed rows |
| CampStore.AppendKeepsTables | server/models.py:65-68 | appending a signup with the next id and existing foreign keys keeps the tables consistent |
| CampStore.DropActivityKeepsTables | server/models.py:67 | deleting an activity together with its signups leaves no dangling `activity_id` |
| CampStore.DropCamperKeepsTables | server/models.py:68 | deleting a camper together with its signups leaves no dangling `camper_id` |
| CampStore.LinkExtendsCamperActivities | server/models.py:43 | after a proxy append, the camper's activities are the old ones followed by the new activity |
| CampStore.LinkExtendsActivityCampers | server/models.py:28 | after a proxy append, the activity's campers are the old ones followed by the new camper |
| SerializeRules.DeclaredRules | server/models.py:29-73 | the three `serialize_rules` tuples as paths: `-signups.activity`, `-signups`, `-activity.signups` and `-camper.signups`; definition, its properties are the two lemmas below |
| SerializeRules.DeclaredRulesNameRelationships | server/models.py:29-73 | every declared rule names a relationship of its own model and, one level down, a relationship of the model it points to |
| SerializeRules.Expand | server/models.py:29-73 | the serializer's rule semantics: a model expands the relationships no rule in force removes, each under the rules that travel into it joined with the target model's own; no contract of its own, stated by `ExpandHonoursRules`, `ExpandBounded` and `DeclaredRulesClose` |
| SerializeRules.ExpandBranches | server/models.py:29-73 | the branches of one expansion level, in key order, failing when any of them does not close; stated by `ExpandBranchesKeys` |
| SerializeRules.ExpandBranchesKeys | server/models.py:29-73 | a closed branch list has one branch per kept key, in order, each pointing to the relationship's target model |
| SerializeRules.Kept | server/models.py:29-73 | a relationship is expanded exactly when it is declared and no rule `-key` removes it |
| SerializeRules.DeclaredRulesClose | server/models.py:29-73 | with the declared rules, expansion of every model closes within two levels: Activity → signups → camper, Camper alone, Signup → activity and camper |
| SerializeRules.SignupCloses | server/models.py:73 | a Signup expands its `activity` and `camper`, neither of which expands its own `signups` |
| SerializeRules.SignupClosesUnderActivity | server/models.py:29-73 | a signup nested in an Activity keeps only `camper`, which expands nothing |
| SerializeRules.CamperCloses | server/models.py:44 | a Camper expands nothing, whatever rules it inherits |
| SerializeRules.NoRulesNeverClose | server/models.py:70-71 | without any `serialize_rules` the two-way relationships never close: expansion runs out of every depth bound |
| SerializeRules.ExpandBounded | server/models.py:29-73 | an expansion that closes nests no deeper than its fuel, so the output shape is finite |
| SerializeRules.ExpandHonoursRules | server/models.py:29-73 | a closed expansion expands exactly the declared relationships that no rule in force removes, in declaration order, each into the model it points to |
| Serialize.ActivityColumns | server/models.py:23-25 | an activity's columns are `id`, `name`, `difficulty`, all scalars |
| Serialize.CamperColumns | server/models.py:38-40 | a camper's columns are `id`, `name`, `age`, all scalars |
| Serialize.SignupColumns | server/models.py:65-68 | a signup's columns are `id`, `time`, `activity_id`, `camper_id`, all scalars, with an unset time as `null` |
| Serialize.ToDictFollowsRules | server/models.py:29-73 | `to_dict()` renders the row along the expansion its model's rules produce |
| Serialize.Render | server/models.py:29-73 | the serializer's walk along a shape: the output is an object whose keys are the model's columns followed by the shape's expanded relationships |
| Serialize.RenderRelations | server/models.py:29-73 | one member per expanded relationship, keyed by the relationship's name, in shape order |
| Serialize.RenderRelation | server/models.py:27-71 | a `signups` collection becomes an array of the children, a reference becomes the parent rendered one level down, a reference to a missing row is null; no contract of its own, its outputs are stated by `SignupToDict` and `ActivityToDict` |
| Serialize.RenderAll | server/models.py:27-42 | a collection renders as one item per child, in order, each the child rendered with the nested shape |
| Serialize.ToDict | server/models.py:29-73 | `to_dict()`: the keys are the model's columns followed by the relationships its default shape keeps |
| Serialize.CamperToDict | server/models.py:44 | a camper's output is its columns alone and has no `signups` key |
| Serialize.SignupToDict | server/models.py:73 | a signup's output has its columns plus `activity` and `camper`, each of which is that parent's columns alone, with no `signups` |
| Serialize.NestedSignupKeys | server/models.py:29 | a signup nested in an activity's output has no `activity` key |
| Serialize.ActivityToDict | server/models.py:29 | an activity's output has its columns plus `signups`, one entry per signup of the activity, each with its columns and `camper` and no `activity` |
| Serialize.RenderDepth | server/models.py:29-73 | an output is a finite tree whose nesting is bounded by its expansion depth |
| Serialize.ToDictDepth | server/models.py:29-73 | every default output is a finite tree at most five levels deep |

## Left out

- The Flask application, its routes and the 404 reply for a missing camper are outside this model. It is HTTP plumbing, and the create, update and delete handlers do not exist there.
- The constraint naming convention and `MetaData` setup (server/models.py:7-17) are left out. They only name DDL objects.
- `__repr__` (server/models.py:31-32, 58-59, 81-82) is left out. It is debug output.
- Primary keys are the store's counters `nextActivityId`, `nextCamperId` and `nextSignupId`. SQLite's own key allocation and persistence are not modelled.
- CampStore.Store.AddSignup: the referenced activity and camper must exist (a precondition). The model does not reproduce whether the database enforces the foreign key or returns `IntegrityError`.
- Foreign keys are never reassigned. `activity_id` and `camper_id` are `const`, so moving a signup to another parent (and the orphan removal that would trigger) is not modelled.
- Removing a signup from a parent's collection without deleting the parent is not modelled. That is the other half of `delete-orphan`, and no code in the core does it.
- Entities.Camper.constructor: a camper always has both a name and an age. A camper created without an age (its column is nullable, and `validate_age` only runs on assignment) is not modelled.
- Ages and times are integers or `None`; other Python values are not modelled. `None` reaches `validate_name` and `validate_time` as `Option`, and both reject it with their `ValueError`, keeping the old value. `validate_age` compares with `<=`, so `None` or a string age raises `TypeError` (not modelled: the age is `int`), and a float such as `10.5` is accepted. `time not in range(24)` never raises `TypeError`: a string is rejected with the `ValueError`, and a float such as `5.0` is accepted. Floats are not modelled for either field.
- CampStore.Store.AddCamper: the model runs `validate_name` before `validate_age`, the order of the call `Camper(name=..., age=...)`. SQLAlchemy assigns keyword arguments in the order the caller passes them, so `Camper(age=7, name="")` would report the age error first. No code in the core creates a Camper, so the source fixes no order.
- Entities.Activity: `name` and `difficulty` are nullable columns with no validator. The model gives every activity a `string` name and an `int` difficulty, and does not model an activity whose name or difficulty is `None`.
- `to_dict()` accepts per-call `rules` and `only` arguments. Only the default call, driven by each model's `serialize_rules`, is modelled.
- The association proxies `campers` and `activities` are not serialized. Relationship keys are placed after the columns, in declaration order, rather than in the serializer's own key order.
- SerializeRules.Expand takes a fuel bound in place of the serializer's unbounded recursion. This is how `NoRulesNeverClose` states non-termination.
- Object identity and sessions are not modelled. Stored rows are distinct heap objects, and identity-map caching, flushing and transactions are not modelled.

Where the code and the written description of the system differ, the model follows the code:

- `Signup.time` is nullable: a signup made through a proxy has no time. So the invariant is "every time that is set lies in 0..23".
- Assigning `signup.time = None` is not a type error: `validate_time` rejects it with its `ValueError`, and the signup keeps its old time.
- A Camper's default output omits `signups` entirely.
- Only the cascade through the ORM relationships is modelled, not a database-level `ON DELETE`.
