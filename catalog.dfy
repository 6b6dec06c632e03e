/**
 * The questionnaire catalog of the assessment page: five titled groups of
 * four metric fields each, the flattened field list, and the initial answer
 * form with every field at 0.
 */
module Catalog {

  /** One metric input: its form key, its on-screen caption and the `max` hint of its number input. */
  datatype Field = Field(name: string, caption: string, max: nat)

  datatype Group = Group(title: string, fields: seq<Field>)

  /** The answer form: metric name to the number last entered for it. */
  type Form = map<string, int>

  const FieldGroups: seq<Group> := [
    Group("Mental & Emotional", [
      Field("anxiety_level", "Anxiety (GAD-7)", 21),
      Field("depression", "Depression (PHQ-9)", 27),
      Field("self_esteem", "Self Esteem", 30),
      Field("mental_health_history", "History of Illness", 1)]),
    Group("Physical Health", [
      Field("headache", "Headache Freq.", 5),
      Field("blood_pressure", "Blood Pressure", 3),
      Field("sleep_quality", "Sleep Quality", 5),
      Field("breathing_problem", "Breathing Issues", 5)]),
    Group("Academic Life", [
      Field("academic_performance", "Performance/Grades", 5),
      Field("study_load", "Study Load", 5),
      Field("teacher_student_relationship", "Teacher Relationship", 5),
      Field("future_career_concerns", "Career Worry", 5)]),
    Group("Social Context", [
      Field("social_support", "Support System", 3),
      Field("peer_pressure", "Peer Pressure", 5),
      Field("extracurricular_activities", "Activities", 5),
      Field("bullying", "Bullying", 5)]),
    Group("Environment", [
      Field("noise_level", "Noise Level", 5),
      Field("living_conditions", "Living Condition", 5),
      Field("safety", "Safety", 5),
      Field("basic_needs", "Basic Needs", 5)])
  ]

  /** `groups.flatMap(g => g.fields)`. */
  function FlatFields(groups: seq<Group>): seq<Field>
  {
    if groups == [] then [] else groups[0].fields + FlatFields(groups[1..])
  }

  function AllFields(): seq<Field>
  {
    FlatFields(FieldGroups)
  }

  function Names(fields: seq<Field>): (names: seq<string>)
    ensures |names| == |fields|
    ensures forall i :: 0 <= i < |fields| ==> names[i] == fields[i].name
  {
    seq(|fields|, i requires 0 <= i < |fields| => fields[i].name)
  }

  /** The keys every form carries: the names of the catalog's fields. */
  function FieldNames(): set<string>
  {
    NameSet(AllFields())
  }

  ghost predicate Distinct(names: seq<string>)
  {
    forall i, j :: 0 <= i < j < |names| ==> names[i] != names[j]
  }

  /** The catalog as the page lays it out: the five groups' fields, in group order. */
  lemma CatalogConcatenation()
    ensures AllFields() == FieldGroups[0].fields + FieldGroups[1].fields + FieldGroups[2].fields
                           + FieldGroups[3].fields + FieldGroups[4].fields
  {
    var g := FieldGroups;
    assert FlatFields(g[4..]) == g[4].fields + FlatFields(g[5..]);
  }

  /** The form keys in the order the page lays the inputs out. */
  const LayoutOrder: seq<string> := [
    "anxiety_level", "depression", "self_esteem", "mental_health_history",
    "headache", "blood_pressure", "sleep_quality", "breathing_problem",
    "academic_performance", "study_load", "teacher_student_relationship", "future_career_concerns",
    "social_support", "peer_pressure", "extracurricular_activities", "bullying",
    "noise_level", "living_conditions", "safety", "basic_needs"]

  /** The flattened catalog's names are the layout order. */
  lemma NamesInLayoutOrder()
    ensures Names(AllFields()) == LayoutOrder
  {
    NamesByGroup();
    GroupInLayout(0);
    GroupInLayout(1);
    GroupInLayout(2);
    GroupInLayout(3);
    GroupInLayout(4);
    RunsOfFour(LayoutOrder);
  }

  lemma RunsOfFour(l: seq<string>)
    requires |l| == 20
    ensures l == l[0..4] + l[4..8] + l[8..12] + l[12..16] + l[16..20]
  {
    assert l[0..4] + l[4..8] == l[0..8];
    assert l[0..8] + l[8..12] == l[0..12];
    assert l[0..12] + l[12..16] == l[0..16];
    assert l[0..16] + l[16..20] == l[0..20];
  }

  /** Group `k`'s names are the `k`-th run of four in the layout order. */
  lemma GroupInLayout(k: nat)
    requires k < |FieldGroups|
    ensures GroupNames(k) == LayoutOrder[4 * k..4 * k + 4]
  {
    var n := GroupNames(k);
    assert |n| == 4;
    if k == 0 {
      assert n == LayoutOrder[0..4];
    } else if k == 1 {
      assert n == LayoutOrder[4..8];
    } else if k == 2 {
      assert n == LayoutOrder[8..12];
    } else if k == 3 {
      assert n == LayoutOrder[12..16];
    } else {
      assert n == LayoutOrder[16..20];
    }
  }

  /** The flattened names are the groups' names, group after group. */
  lemma NamesByGroup()
    ensures Names(AllFields()) == GroupNames(0) + GroupNames(1) + GroupNames(2) + GroupNames(3) + GroupNames(4)
  {
    var g := FieldGroups;
    CatalogConcatenation();
    NamesAppend(g[0].fields, g[1].fields);
    NamesAppend(g[0].fields + g[1].fields, g[2].fields);
    NamesAppend(g[0].fields + g[1].fields + g[2].fields, g[3].fields);
    NamesAppend(g[0].fields + g[1].fields + g[2].fields + g[3].fields, g[4].fields);
  }

  /** Twenty fields, each with a `max` of at least 1. */
  lemma CatalogSize()
    ensures |AllFields()| == 20
    ensures forall f :: f in AllFields() ==> f.max >= 1
  {
    CatalogConcatenation();
    forall f | f in AllFields()
      ensures f.max >= 1
    {
      var k, i := FlatFieldsFrom(FieldGroups, f);
      GroupMaxes(k);
    }
  }

  /** Each field of the flattened list comes from one of the groups. */
  lemma {:induction false} FlatFieldsFrom(groups: seq<Group>, f: Field) returns (k: nat, i: nat)
    requires f in FlatFields(groups)
    ensures k < |groups| && i < |groups[k].fields| && groups[k].fields[i] == f
  {
    if f in groups[0].fields {
      k := 0;
      i :| i < |groups[0].fields| && groups[0].fields[i] == f;
    } else {
      k, i := FlatFieldsFrom(groups[1..], f);
      k := k + 1;
    }
  }

  /** Every field of group `k` has a `max` of at least 1. */
  lemma GroupMaxes(k: nat)
    requires k < |FieldGroups|
    ensures forall i :: 0 <= i < |FieldGroups[k].fields| ==> FieldGroups[k].fields[i].max >= 1
  {
  }

  /** No name of `a` is a name of `b`. */
  ghost predicate Apart(a: seq<string>, b: seq<string>)
  {
    forall i, j :: 0 <= i < |a| && 0 <= j < |b| ==> a[i] != b[j]
  }

  lemma NamesAppend(x: seq<Field>, y: seq<Field>)
    ensures Names(x + y) == Names(x) + Names(y)
  {
    assert forall i :: 0 <= i < |x + y| ==> Names(x + y)[i] == (Names(x) + Names(y))[i];
  }

  lemma DistinctAppend(a: seq<string>, b: seq<string>)
    requires Distinct(a) && Distinct(b) && Apart(a, b)
    ensures Distinct(a + b)
  {
    forall i, j | 0 <= i < j < |a + b|
      ensures (a + b)[i] != (a + b)[j]
    {
      if j < |a| {
        assert (a + b)[i] == a[i] && (a + b)[j] == a[j];
      } else if i < |a| {
        assert (a + b)[i] == a[i] && (a + b)[j] == b[j - |a|];
      } else {
        assert (a + b)[i] == b[i - |a|] && (a + b)[j] == b[j - |a|];
      }
    }
  }

  lemma ApartAppend(a: seq<string>, b: seq<string>, c: seq<string>)
    requires Apart(a, c) && Apart(b, c)
    ensures Apart(a + b, c)
  {
    forall i, j | 0 <= i < |a + b| && 0 <= j < |c|
      ensures (a + b)[i] != c[j]
    {
      if i < |a| {
        assert (a + b)[i] == a[i];
      } else {
        assert (a + b)[i] == b[i - |a|];
      }
    }
  }

  /** The names of group `k`. */
  function GroupNames(k: nat): seq<string>
    requires k < |FieldGroups|
  {
    Names(FieldGroups[k].fields)
  }

  /** Within a group, the four names are distinct. */
  lemma GroupDistinct(k: nat)
    requires k < |FieldGroups|
    ensures Distinct(GroupNames(k))
  {
  }

  /** Two different groups share no name. */
  lemma GroupsApart(k: nat, l: nat)
    requires k < l < |FieldGroups|
    ensures Apart(GroupNames(k), GroupNames(l))
  {
  }

  /** No two fields share a name, so each form key belongs to exactly one input. */
  lemma CatalogDistinct()
    ensures Distinct(Names(AllFields()))
  {
    NamesByGroup();
    var n0, n1, n2, n3, n4 := GroupNames(0), GroupNames(1), GroupNames(2), GroupNames(3), GroupNames(4);
    GroupDistinct(0); GroupDistinct(1); GroupDistinct(2); GroupDistinct(3); GroupDistinct(4);
    GroupsApart(0, 1);
    DistinctAppend(n0, n1);
    GroupsApart(0, 2); GroupsApart(1, 2);
    ApartAppend(n0, n1, n2);
    DistinctAppend(n0 + n1, n2);
    GroupsApart(0, 3); GroupsApart(1, 3); GroupsApart(2, 3);
    ApartAppend(n0, n1, n3);
    ApartAppend(n0 + n1, n2, n3);
    DistinctAppend(n0 + n1 + n2, n3);
    GroupsApart(0, 4); GroupsApart(1, 4); GroupsApart(2, 4); GroupsApart(3, 4);
    ApartAppend(n0, n1, n4);
    ApartAppend(n0 + n1, n2, n4);
    ApartAppend(n0 + n1 + n2, n3, n4);
    DistinctAppend(n0 + n1 + n2 + n3, n4);
  }

  /** The fields' names as a sequence have exactly the members of `FieldNames()`. */
  lemma FieldNamesListed()
    ensures forall n :: n in FieldNames() <==> n in Names(AllFields())
  {
  }

  // ---------------------------------------------------------------------------
  // The initial form

  /** `fields.reduce((acc, f) => ({ ...acc, [f.name]: 0 }), acc)`. */
  function ZeroAll(acc: Form, fields: seq<Field>): Form
    decreases |fields|
  {
    if fields == [] then acc else ZeroAll(acc[fields[0].name := 0], fields[1..])
  }

  /** The form the assessment page starts with. */
  function InitialForm(): Form
  {
    ZeroAll(map[], AllFields())
  }

  /** The names the fields carry. */
  function NameSet(fields: seq<Field>): set<string>
  {
    set f | f in fields :: f.name
  }

  lemma NameSetCons(fields: seq<Field>)
    requires fields != []
    ensures NameSet(fields) == {fields[0].name} + NameSet(fields[1..])
  {
    assert fields == [fields[0]] + fields[1..];
  }

  /** Folding adds every field's name at 0 and keeps the other keys as they were. */
  lemma {:induction false} ZeroAllSpec(acc: Form, fields: seq<Field>)
    ensures ZeroAll(acc, fields).Keys == acc.Keys + NameSet(fields)
    ensures forall k :: k in NameSet(fields) ==> ZeroAll(acc, fields)[k] == 0
    ensures forall k :: k in acc && k !in NameSet(fields) ==> ZeroAll(acc, fields)[k] == acc[k]
    decreases |fields|
  {
    if fields != [] {
      var name := fields[0].name;
      var acc' := acc[name := 0];
      var r := ZeroAll(acc, fields);
      assert r == ZeroAll(acc', fields[1..]);
      ZeroAllSpec(acc', fields[1..]);
      NameSetCons(fields);
      var rest := NameSet(fields[1..]);
      forall k | k in NameSet(fields)
        ensures r[k] == 0
      {
        if k !in rest {
          assert k == name && k in acc';
        }
      }
      forall k | k in acc && k !in NameSet(fields)
        ensures r[k] == acc[k]
      {
        assert k != name && k !in rest && k in acc';
      }
    }
  }

  /** The initial form has exactly the catalog's keys, each mapped to 0. */
  lemma InitialFormZero()
    ensures InitialForm().Keys == FieldNames()
    ensures forall n :: n in FieldNames() ==> InitialForm()[n] == 0
  {
    ZeroAllSpec(map[], AllFields());
  }
}
