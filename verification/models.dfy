/** The two model classes whose behaviour feeds the sort keys and the
    labels: `Creator` (a person or a group) and the role linking a creator
    to a work. Timestamps, URLs and database queries are not modelled. */
module Models {
  import opened Options
  import opened Strings
  import opened NaturalSort

  /** The stored values of `Creator.KIND_CHOICES`. */
  const Individual: string := "individual"
  const Group: string := "group"
  const KindChoices: seq<string> := [Individual, Group]

  /** `kind` is a plain text column: the choices restrict forms, not the
      values the model can hold, so any text is kept. */
  datatype Creator = Creator(name: string, kind: string)

  /** A role of a creator in a work; `roleName` may be blank. */
  datatype Role = Role(creator: Creator, roleName: string)

  /** A creator made with only a name takes the default kind. */
  function NewCreator(name: string): (c: Creator)
    ensures c.name == name && c.kind in KindChoices
    ensures SortAs(c) == "person"
  {
    Creator(name, Individual)
  }

  /** `Creator.sort_as`: individuals are sorted as people, every other kind
      as things. */
  function SortAs(c: Creator): (r: string)
    ensures r == "person" || r == "thing"
    ensures r == "person" <==> c.kind == Individual
  {
    if c.kind == Individual then "person" else "thing"
  }

  /** The `name_sort` column: the natural sort key of `name`, computed as a
      person's or a thing's according to `sort_as`. */
  function NameSort(c: Creator): (r: string)
    ensures IsLowerCase(r)
    ensures c.kind == Individual ==> r == PersonKey(c.name)
    ensures c.kind != Individual ==> r == ThingKey(c.name)
    ensures AllSpace(IsSpace, c.name) ==> r == ""
  {
    PreSave(c.name, Some(SortAs(c)))
  }

  /** A group and an individual with the same name share a key exactly when
      the person and thing keys of that name agree. */
  lemma NameSortByKind(name: string, kind: string)
    ensures NameSort(Creator(name, kind)) == NameSort(Creator(name, Group))
      <==> kind != Individual || PersonKey(name) == ThingKey(name)
  {
  }

  /** A creator made with only a name is sorted by surname. */
  lemma NewCreatorSortsAsPerson(name: string)
    ensures NameSort(NewCreator(name)) == PersonKey(name)
  {
  }

  /** `Creator.__str__`: the name itself. */
  function CreatorLabel(c: Creator): (r: string)
    ensures |r| == |c.name| && forall i :: 0 <= i < |r| ==> r[i] == c.name[i]
  {
    c.name
  }

  /** `BaseRole.__str__`: the creator's label, followed by the role name in
      parentheses when there is one. */
  function RoleLabel(role: Role): (r: string)
    ensures |CreatorLabel(role.creator)| <= |r|
    ensures r[..|CreatorLabel(role.creator)|] == CreatorLabel(role.creator)
    ensures role.roleName == "" <==> |r| == |CreatorLabel(role.creator)|
    ensures role.roleName != "" ==> r[|CreatorLabel(role.creator)|..] == " (" + role.roleName + ")"
    ensures role.roleName != "" ==> RoleNameOfLabel(r, role.creator) == role.roleName
  {
    var who := CreatorLabel(role.creator);
    if role.roleName != "" then
      var r := who + " (" + role.roleName + ")";
      assert r[|who| + 2..|r| - 1] == role.roleName;
      r
    else who
  }

  /** Reads the role name back from a role's label, given the creator. */
  function RoleNameOfLabel(text: string, c: Creator): string
  {
    var n := |CreatorLabel(c)|;
    if |text| >= n + 3 then text[n + 2..|text| - 1] else ""
  }

  /** Two roles of the same creator have the same label only when they
      have the same role name. */
  lemma RoleLabelInjective(r1: Role, r2: Role)
    requires r1.creator == r2.creator
    ensures RoleLabel(r1) == RoleLabel(r2) <==> r1.roleName == r2.roleName
  {
    if RoleLabel(r1) == RoleLabel(r2) && r1.roleName != "" {
      assert r2.roleName != "";
    }
  }
}
