/** The per-affiliation row logic of the driver (net.py:63-69): one row of
    result id, surname, role and institution per affiliation, where the role and
    the institution name are taken with `popitem()`, which also removes them. */
module Rows {
  import opened Common
  import opened Contributors

  datatype Row = Row(resultId: string, surname: string, role: string, institution: string)

  /** The row one affiliation gives (None where `popitem` raises KeyError on an
      empty map), and the affiliation as the pops leave it. */
  datatype RowStep = RowStep(row: Option<Row>, after: AffiliationView)

  function Last(m: LangMap): Entry
    requires m != []
  {
    m[|m| - 1]
  }

  function AllButLast(m: LangMap): LangMap
    requires m != []
  {
    m[..|m| - 1]
  }

  /** Lines 64-67 for one affiliation. The role is popped first, so when the
      institution-name pop then raises, the role map has already lost its entry. */
  function FlattenAffiliation(resultId: string, surname: string, a: AffiliationView): RowStep
  {
    match PopItem(a.roleName)
    case None => RowStep(None, a)
    case Some((role, otherRoles)) =>
      var popped := a.(roleName := otherRoles);
      match a.institutionName
      case None => RowStep(Some(Row(resultId, surname, role.text, a.institutionId)), popped)
      case Some(names) =>
        match PopItem(names)
        case None => RowStep(None, popped)
        case Some((name, otherNames)) =>
          RowStep(Some(Row(resultId, surname, role.text, name.text)), popped.(institutionName := Some(otherNames)))
  }

  /** The affiliation has what lines 64-67 pop: a role, and a name if a name map is attached. */
  predicate Flattenable(v: AffiliationView)
  {
    v.roleName != [] && (v.institutionName.Some? ==> v.institutionName.value != [])
  }

  /** What lines 64-68 do to one affiliation: a row exists iff the role map is
      non-empty and so is the institution-name map when one is attached; the row's
      role is the last-inserted role, its institution the last-inserted name or else
      the institution id; the pops remove exactly those entries. */
  lemma FlattenAffiliationSpec(resultId: string, surname: string, a: AffiliationView)
    ensures var r := FlattenAffiliation(resultId, surname, a);
            r.row.Some? <==> Flattenable(a)
    ensures var r := FlattenAffiliation(resultId, surname, a);
            r.row.Some? ==>
              r.row.value == Row(resultId, surname, Last(a.roleName).text,
                                 if a.institutionName.Some? then Last(a.institutionName.value).text
                                 else a.institutionId)
    ensures var r := FlattenAffiliation(resultId, surname, a);
            if a.roleName == [] then r.after == a
            else r.after == a.(roleName := AllButLast(a.roleName),
                               institutionName := if a.institutionName.Some? && a.institutionName.value != []
                                                  then Some(AllButLast(a.institutionName.value))
                                                  else a.institutionName)
  {
  }

  /** On maps decoded from JSON, the pops of lines 64-67 leave JSON maps behind,
      and the language a printed role or name came from is no longer a key of its
      map. */
  lemma PopsRemovePrintedKeys(resultId: string, surname: string, a: AffiliationView)
    requires JsonMaps(a) && Flattenable(a)
    ensures JsonMaps(FlattenAffiliation(resultId, surname, a).after)
    ensures Last(a.roleName).lang !in Keys(FlattenAffiliation(resultId, surname, a).after.roleName)
    ensures a.institutionName.Some? ==>
              Last(a.institutionName.value).lang
              !in Keys(FlattenAffiliation(resultId, surname, a).after.institutionName.value)
  {
    FlattenAffiliationSpec(resultId, surname, a);
    PopItemKeepsUniqueKeys(a.roleName);
    if a.institutionName.Some? {
      PopItemKeepsUniqueKeys(a.institutionName.value);
    }
  }

  /** Rows printed for one contributor, its affiliations afterwards, and whether a KeyError stopped it. */
  datatype Flattening = Flattening(rows: seq<Row>, after: seq<AffiliationView>, raised: bool)

  /** The loop at line 63 with the per-affiliation step as a parameter: one row
      per affiliation, in order, until a step gives no row. */
  function FlattenWith(step: AffiliationView -> RowStep, vs: seq<AffiliationView>): Flattening
  {
    if vs == [] then Flattening([], [], false)
    else
      var s := step(vs[0]);
      if s.row.None? then Flattening([], [s.after] + vs[1..], true)
      else
        var rest := FlattenWith(step, vs[1..]);
        Flattening([s.row.value] + rest.rows, [s.after] + rest.after, rest.raised)
  }

  /** The loop at line 63: one row per affiliation, in order, until a pop raises. */
  function FlattenAll(resultId: string, surname: string, vs: seq<AffiliationView>): Flattening
  {
    FlattenWith(v => FlattenAffiliation(resultId, surname, v), vs)
  }

  /** Flattening gives exactly one row per affiliation, in affiliation order, iff
      every affiliation is flattenable; otherwise a pop raises KeyError. Each row
      carries the result id, the surname and the popped role, and its institution is
      the popped name when `institution_name` is present, `cristin_institution_id`
      otherwise. */
  lemma {:induction false} OneRowPerAffiliation(resultId: string, surname: string, vs: seq<AffiliationView>)
    ensures var f := FlattenAll(resultId, surname, vs);
            !f.raised <==> forall k :: 0 <= k < |vs| ==> Flattenable(vs[k])
    ensures var f := FlattenAll(resultId, surname, vs);
            !f.raised ==>
              && |f.rows| == |vs|
              && forall k :: 0 <= k < |vs| ==>
                   && f.rows[k] == Row(resultId, surname, Last(vs[k].roleName).text, f.rows[k].institution)
                   && f.rows[k].institution
                      == if vs[k].institutionName.Some? then Last(vs[k].institutionName.value).text
                         else vs[k].institutionId
  {
    if vs != [] {
      OneRowPerAffiliation(resultId, surname, vs[1..]);
      FlattenAffiliationSpec(resultId, surname, vs[0]);
      var f := FlattenAll(resultId, surname, vs);
      if Flattenable(vs[0]) {
        var rest := FlattenAll(resultId, surname, vs[1..]);
        assert f.rows == [FlattenAffiliation(resultId, surname, vs[0]).row.value] + rest.rows;
        assert f.raised == rest.raised;
        assert (forall k :: 0 <= k < |vs| ==> Flattenable(vs[k]))
               <==> (forall k :: 0 <= k < |vs| - 1 ==> Flattenable(vs[1..][k])) by {
          forall k | 0 < k < |vs| ensures vs[k] == vs[1..][k - 1] { }
        }
        if !f.raised {
          forall k | 0 < k < |vs| ensures f.rows[k] == rest.rows[k - 1] && vs[k] == vs[1..][k - 1] { }
        }
      }
    }
  }

  /** Every row printed for a contributor carries the result id and the surname,
      also when a later pop raises. */
  lemma {:induction false} FlattenRowsCarryIds(resultId: string, surname: string, vs: seq<AffiliationView>)
    ensures forall r :: r in FlattenAll(resultId, surname, vs).rows ==> r.resultId == resultId && r.surname == surname
  {
    if vs != [] {
      FlattenRowsCarryIds(resultId, surname, vs[1..]);
    }
  }

  /** The loop's exits in terms of FlattenWith: the first step without a row at
      `i`, after the rows of the steps before it; or the end of the list. */
  lemma {:induction false} FlattenStopsAt(step: AffiliationView -> RowStep, vs: seq<AffiliationView>, rows: seq<Row>, i: nat)
    requires i < |vs| && |rows| == i
    requires forall k :: 0 <= k < i ==> step(vs[k]).row == Some(rows[k])
    requires step(vs[i]).row.None?
    ensures FlattenWith(step, vs).raised && FlattenWith(step, vs).rows == rows
    ensures |FlattenWith(step, vs).after| == |vs|
    ensures forall k :: 0 <= k < |vs| ==>
              FlattenWith(step, vs).after[k] == if k <= i then step(vs[k]).after else vs[k]
  {
    if i > 0 {
      FlattenStopsAt(step, vs[1..], rows[1..], i - 1);
      var f := FlattenWith(step, vs);
      var rest := FlattenWith(step, vs[1..]);
      assert f.rows == [rows[0]] + rest.rows;
      forall k | 0 < k < |vs| ensures f.after[k] == rest.after[k - 1] && vs[k] == vs[1..][k - 1] { }
    }
  }

  lemma {:induction false} FlattenCompletes(step: AffiliationView -> RowStep, vs: seq<AffiliationView>, rows: seq<Row>)
    requires |rows| == |vs|
    requires forall k :: 0 <= k < |vs| ==> step(vs[k]).row == Some(rows[k])
    ensures !FlattenWith(step, vs).raised && FlattenWith(step, vs).rows == rows
    ensures |FlattenWith(step, vs).after| == |vs|
    ensures forall k :: 0 <= k < |vs| ==> FlattenWith(step, vs).after[k] == step(vs[k]).after
  {
    if vs != [] {
      FlattenCompletes(step, vs[1..], rows[1..]);
      var f := FlattenWith(step, vs);
      var rest := FlattenWith(step, vs[1..]);
      assert f.rows == [rows[0]] + rest.rows;
      forall k | 0 < k < |vs| ensures f.after[k] == rest.after[k - 1] && vs[k] == vs[1..][k - 1] { }
    }
  }

  /** Lines 64-68 on one affiliation object: pop a role, then take the institution
      id or pop an institution name. */
  method FlattenOne(resultId: string, surname: string, affiliation: Affiliation) returns (row: Option<Row>)
    modifies affiliation, affiliation.institution
    ensures var step := FlattenAffiliation(resultId, surname, old(affiliation.View()));
            row == step.row && affiliation.View() == step.after
  {
    var institution := affiliation.institution;
    match PopItem(affiliation.roleName) {
      case None =>
        return None;
      case Some((role, otherRoles)) =>
        affiliation.roleName := otherRoles;
        var name := institution.cristinInstitutionId;
        match institution.institutionName {
          case None =>
          case Some(names) =>
            match PopItem(names) {
              case None =>
                return None;
              case Some((entry, otherNames)) =>
                institution.institutionName := Some(otherNames);
                name := entry.text;
            }
        }
        row := Some(Row(resultId, surname, role.text, name));
    }
  }

  /** One iteration of the loop at lines 63-69: flattens the contributor's `i`-th
      affiliation and leaves every other affiliation as it was. */
  method FlattenAt(resultId: string, c: Contributor, i: nat) returns (row: Option<Row>)
    requires c.TreeShaped() && i < |c.affiliations|
    modifies c.affiliations[i], c.affiliations[i].institution
    ensures var step := FlattenAffiliation(resultId, c.surname, old(c.affiliations[i].View()));
            row == step.row && c.affiliations[i].View() == step.after
    ensures forall k :: 0 <= k < |c.affiliations| && k != i ==>
              c.affiliations[k].View() == old(c.affiliations[k].View())
  {
    row := FlattenOne(resultId, c.surname, c.affiliations[i]);
    forall k | 0 <= k < |c.affiliations| && k != i
      ensures c.affiliations[k].View() == old(c.affiliations[k].View())
    {
      assert c.affiliations[k] != c.affiliations[i] && c.affiliations[k].institution != c.affiliations[i].institution;
    }
  }

  /** The loop at lines 63-69 on the contributor's objects: one row per affiliation,
      in order. Returns the rows emitted and whether a pop raised KeyError. */
  method FlattenContributor(resultId: string, c: Contributor) returns (rows: seq<Row>, raised: bool)
    requires c.TreeShaped()
    modifies c.affiliations, c.Institutions()
    ensures FlattenAll(resultId, c.surname, old(c.Views())) == Flattening(rows, c.Views(), raised)
  {
    ghost var before := c.Views();
    ghost var step := v => FlattenAffiliation(resultId, c.surname, v);
    var n := |c.affiliations|;
    rows := [];
    var i := 0;
    while i < n
      invariant 0 <= i <= n && |rows| == i
      invariant forall k :: 0 <= k < i ==> step(before[k]).row == Some(rows[k])
      invariant forall k :: 0 <= k < i ==> c.affiliations[k].View() == step(before[k]).after
      invariant forall k :: i <= k < n ==> c.affiliations[k].View() == before[k]
    {
      assert c.affiliations[i].institution in c.Institutions();
      var row := FlattenAt(resultId, c, i);
      if row.None? {
        FlattenStopsAt(step, before, rows, i);
        ghost var f := FlattenWith(step, before);
        assert forall k :: 0 <= k < n ==> c.Views()[k] == f.after[k];
        return rows, true;
      }
      rows := rows + [row.value];
      i := i + 1;
    }
    FlattenCompletes(step, before, rows);
    ghost var f := FlattenWith(step, before);
    assert forall k :: 0 <= k < n ==> c.Views()[k] == f.after[k];
    raised := false;
  }
}
