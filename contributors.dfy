/** Contributors and their affiliations as the mutable JSON objects net.py works
    on, and `enrich_contributor`, which writes `institution_name` into each
    affiliation's `institution` object when the institution lookup answers OK. */
module Contributors {
  import opened Common

  /** The value of one affiliation: the role-name map, the institution id and
      lookup URL, and the institution name if one has been attached. */
  datatype AffiliationView = AffiliationView(
    roleName: LangMap,
    institutionId: string,
    institutionUrl: Url,
    institutionName: Option<LangMap>)

  /** The affiliation's maps are JSON objects: no language code occurs twice. */
  predicate JsonMaps(v: AffiliationView)
  {
    UniqueKeys(v.roleName) && (v.institutionName.Some? ==> UniqueKeys(v.institutionName.value))
  }

  /** A contributor as the contributors endpoint returns it. */
  datatype ContributorRecord = ContributorRecord(surname: string, affiliations: seq<AffiliationView>)

  /** `affiliation['institution']`: a JSON object whose `institution_name` key the
      enrichment adds and the flattening pops from. */
  class Institution {
    const cristinInstitutionId: string
    const url: Url
    var institutionName: Option<LangMap>

    constructor (cristinInstitutionId: string, url: Url, institutionName: Option<LangMap>)
      ensures this.cristinInstitutionId == cristinInstitutionId && this.url == url
      ensures this.institutionName == institutionName
    {
      this.cristinInstitutionId := cristinInstitutionId;
      this.url := url;
      this.institutionName := institutionName;
    }
  }

  /** One element of `contributor['affiliations']`; `roleName` is `affiliation['role']['name']`. */
  class Affiliation {
    var roleName: LangMap
    const institution: Institution

    constructor (roleName: LangMap, institution: Institution)
      ensures this.roleName == roleName && this.institution == institution
    {
      this.roleName := roleName;
      this.institution := institution;
    }

    function View(): AffiliationView
      reads this, institution
    {
      AffiliationView(roleName, institution.cristinInstitutionId, institution.url, institution.institutionName)
    }
  }

  class Contributor {
    const surname: string
    const affiliations: seq<Affiliation>

    constructor (surname: string, affiliations: seq<Affiliation>)
      ensures this.surname == surname && this.affiliations == affiliations
    {
      this.surname := surname;
      this.affiliations := affiliations;
    }

    ghost function Institutions(): set<Institution>
    {
      set a | a in affiliations :: a.institution
    }

    /** No two affiliations share an object, as in a tree decoded from JSON. */
    ghost predicate TreeShaped()
    {
      forall j, k :: 0 <= j < k < |affiliations| ==>
        affiliations[j] != affiliations[k] && affiliations[j].institution != affiliations[k].institution
    }

    function Views(): (vs: seq<AffiliationView>)
      reads affiliations, Institutions()
      ensures |vs| == |affiliations|
      ensures forall k :: 0 <= k < |affiliations| ==> vs[k] == affiliations[k].View()
    {
      seq(|affiliations|, k requires 0 <= k < |affiliations| reads affiliations, Institutions() =>
        affiliations[k].View())
    }
  }

  /** `resp.json()` for one contributor: a fresh object for every JSON object. */
  method Decode(record: ContributorRecord) returns (c: Contributor)
    ensures fresh(c) && c.TreeShaped()
    ensures forall k :: 0 <= k < |c.affiliations| ==> fresh(c.affiliations[k]) && fresh(c.affiliations[k].institution)
    ensures c.surname == record.surname && c.Views() == record.affiliations
  {
    var affs: seq<Affiliation> := [];
    for i := 0 to |record.affiliations|
      invariant |affs| == i
      invariant forall k :: 0 <= k < i ==> fresh(affs[k]) && fresh(affs[k].institution)
      invariant forall k :: 0 <= k < i ==> affs[k].View() == record.affiliations[k]
      invariant forall j, k :: 0 <= j < k < i ==> affs[j] != affs[k] && affs[j].institution != affs[k].institution
    {
      var v := record.affiliations[i];
      var inst := new Institution(v.institutionId, v.institutionUrl, v.institutionName);
      var a := new Affiliation(v.roleName, inst);
      affs := affs + [a];
    }
    c := new Contributor(record.surname, affs);
  }

  /** The answer of the institution endpoint: not OK, or OK with the body's
      `institution_name` map, absent when the body lacks that key. */
  datatype InstitutionResponse = NotOk | Ok(institutionName: Option<LangMap>)

  /** The institution endpoint; a URL it does not hold answers non-OK. */
  type InstitutionApi = map<Url, InstitutionResponse>

  function Lookup(api: InstitutionApi, url: Url): InstitutionResponse
  {
    if url in api then api[url] else NotOk
  }

  /** Reading `institution['institution_name']` from an OK body without that key raises KeyError. */
  predicate Raises(v: AffiliationView, api: InstitutionApi)
  {
    Lookup(api, v.institutionUrl) == Ok(None)
  }

  /** The affiliation after its lookup: the name attached on OK, untouched otherwise. */
  function Enriched(v: AffiliationView, api: InstitutionApi): AffiliationView
  {
    match Lookup(api, v.institutionUrl)
    case Ok(Some(name)) => v.(institutionName := Some(name))
    case _ => v
  }

  /** Affiliations after the enrichment loop, and whether it raised. */
  datatype Enrichment = Enrichment(affiliations: seq<AffiliationView>, raised: bool)

  /** The loop at net.py:48-52 over affiliation values: in order, each affiliation is
      enriched; the first KeyError stops the loop and leaves the rest as they were. */
  function EnrichAll(vs: seq<AffiliationView>, api: InstitutionApi): Enrichment
  {
    if vs == [] then Enrichment([], false)
    else if Raises(vs[0], api) then Enrichment(vs, true)
    else
      var rest := EnrichAll(vs[1..], api);
      Enrichment([Enriched(vs[0], api)] + rest.affiliations, rest.raised)
  }

  /** Some affiliation before position `k` raises. */
  predicate RaisesBefore(vs: seq<AffiliationView>, k: nat, api: InstitutionApi)
    requires k <= |vs|
  {
    exists j :: 0 <= j < k && Raises(vs[j], api)
  }

  /** The enrichment keeps every affiliation in its place; it raises iff some lookup
      answers OK without `institution_name`; up to that point each affiliation gets
      its looked-up name exactly when the lookup is OK, and after it nothing changes. */
  lemma {:induction false} EnrichAllSpec(vs: seq<AffiliationView>, api: InstitutionApi)
    ensures |EnrichAll(vs, api).affiliations| == |vs|
    ensures EnrichAll(vs, api).raised <==> RaisesBefore(vs, |vs|, api)
    ensures forall k :: 0 <= k < |vs| ==>
              EnrichAll(vs, api).affiliations[k]
              == if RaisesBefore(vs, k, api) then vs[k] else Enriched(vs[k], api)
  {
    if vs != [] {
      EnrichAllSpec(vs[1..], api);
      var r := EnrichAll(vs, api);
      if Raises(vs[0], api) {
        assert RaisesBefore(vs, |vs|, api);
        forall k | 0 <= k < |vs|
          ensures r.affiliations[k] == if RaisesBefore(vs, k, api) then vs[k] else Enriched(vs[k], api)
        {
          if k > 0 { assert RaisesBefore(vs, k, api); }
        }
      } else {
        forall k | 1 <= k <= |vs| ensures RaisesBefore(vs, k, api) <==> RaisesBefore(vs[1..], k - 1, api) {
          if RaisesBefore(vs, k, api) {
            var j :| 0 <= j < k && Raises(vs[j], api);
            assert vs[1..][j - 1] == vs[j];
          }
          if RaisesBefore(vs[1..], k - 1, api) {
            var j :| 0 <= j < k - 1 && Raises(vs[1..][j], api);
            assert vs[j + 1] == vs[1..][j];
          }
        }
        forall k | 0 <= k < |vs|
          ensures r.affiliations[k] == if RaisesBefore(vs, k, api) then vs[k] else Enriched(vs[k], api)
        {
          if k > 0 { assert r.affiliations[k] == EnrichAll(vs[1..], api).affiliations[k - 1]; }
        }
      }
    }
  }

  /** Enrichment changes only `institution_name`: the role map, the institution id
      and the lookup URL of every affiliation stay as they were. */
  lemma EnrichChangesOnlyInstitutionName(vs: seq<AffiliationView>, api: InstitutionApi, k: nat)
    requires k < |vs|
    ensures |EnrichAll(vs, api).affiliations| == |vs|
    ensures var after := EnrichAll(vs, api).affiliations[k];
            after.roleName == vs[k].roleName && after.institutionId == vs[k].institutionId
            && after.institutionUrl == vs[k].institutionUrl
    ensures !EnrichAll(vs, api).raised ==>
              EnrichAll(vs, api).affiliations[k].institutionName
              == match Lookup(api, vs[k].institutionUrl)
                 case Ok(Some(name)) => Some(name)
                 case _ => vs[k].institutionName
  {
    EnrichAllSpec(vs, api);
    if !EnrichAll(vs, api).raised {
      assert forall j :: 0 <= j < |vs| ==> !Raises(vs[j], api);
    }
  }

  /** The loop's exits in terms of EnrichAll: stopped by a KeyError at `i`, or run to the end. */
  lemma EnrichAllRaisesAt(vs: seq<AffiliationView>, api: InstitutionApi, i: nat)
    requires i < |vs| && Raises(vs[i], api)
    requires forall j :: 0 <= j < i ==> !Raises(vs[j], api)
    ensures EnrichAll(vs, api).raised
    ensures |EnrichAll(vs, api).affiliations| == |vs|
    ensures forall k :: 0 <= k < |vs| ==>
              EnrichAll(vs, api).affiliations[k] == if k < i then Enriched(vs[k], api) else vs[k]
  {
    EnrichAllSpec(vs, api);
    assert RaisesBefore(vs, |vs|, api);
    forall k | i < k < |vs| ensures RaisesBefore(vs, k, api) {
      assert Raises(vs[i], api);
    }
  }

  lemma EnrichAllCompletes(vs: seq<AffiliationView>, api: InstitutionApi)
    requires forall j :: 0 <= j < |vs| ==> !Raises(vs[j], api)
    ensures !EnrichAll(vs, api).raised
    ensures |EnrichAll(vs, api).affiliations| == |vs|
    ensures forall k :: 0 <= k < |vs| ==> EnrichAll(vs, api).affiliations[k] == Enriched(vs[k], api)
  {
    EnrichAllSpec(vs, api);
  }

  /** `enrich_contributor`: walks the affiliations in order and, for each one whose
      lookup is OK, stores the returned name in its institution object. Returns the
      same contributor, or None where Python raises KeyError. */
  method EnrichContributor(c: Contributor, api: InstitutionApi) returns (r: Option<Contributor>)
    requires c.TreeShaped()
    modifies c.Institutions()
    ensures r.None? <==> EnrichAll(old(c.Views()), api).raised
    ensures r.Some? ==> r.value == c
    ensures c.Views() == EnrichAll(old(c.Views()), api).affiliations
  {
    ghost var before := c.Views();
    var n := |c.affiliations|;
    var i := 0;
    while i < n
      invariant 0 <= i <= n
      invariant forall j :: 0 <= j < i ==> !Raises(before[j], api)
      invariant forall k :: 0 <= k < i ==> c.affiliations[k].View() == Enriched(before[k], api)
      invariant forall k :: i <= k < n ==> c.affiliations[k].View() == before[k]
    {
      var institution := c.affiliations[i].institution;
      assert institution in c.Institutions();
      match Lookup(api, institution.url) {
        case NotOk =>
        case Ok(None) =>
          EnrichAllRaisesAt(before, api, i);
          ghost var after := EnrichAll(before, api).affiliations;
          assert forall k :: 0 <= k < n ==> c.Views()[k] == after[k];
          return None;
        case Ok(Some(name)) =>
          institution.institutionName := Some(name);
      }
      i := i + 1;
    }
    EnrichAllCompletes(before, api);
    ghost var after := EnrichAll(before, api).affiliations;
    assert forall k :: 0 <= k < n ==> c.Views()[k] == after[k];
    r := Some(c);
  }
}
