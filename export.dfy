/** The driver of net.py (lines 55-69): collect every person's results, drop
    repeated results, pair results with contributors, enrich each contributor and
    print one row per affiliation. A KeyError anywhere ends the program, so the
    output is the rows printed before it and whether it happened. As written, the
    pairing at lines 59-61 gives result `2k` the contributors of result `2k + 1`
    (`ZipAsWritten`, used by `ExportAsWritten`); `ExportAll` and `Run` pair each
    result with its own contributors (`PairWithContributors`). */
module Export {
  import opened Common
  import opened Pagination
  import opened Queries
  import opened Dedup
  import opened Contributors
  import opened Rows

  /** The rows printed, in order, and whether a KeyError ended the run. */
  datatype Output = Output(rows: seq<Row>, raised: bool)

  /** `a` followed by `b`; `b` never runs when `a` raised. */
  function Then(a: Output, b: Output): Output
  {
    if a.raised then a else Output(a.rows + b.rows, b.raised)
  }

  lemma ThenAssociative(a: Output, b: Output, c: Output)
    ensures Then(Then(a, b), c) == Then(a, Then(b, c))
  {
    if !a.raised && !b.raised {
      assert a.rows + b.rows + c.rows == a.rows + (b.rows + c.rows);
    }
  }

  /** A `for` loop of the driver: `step` on each element in order, until one raises. */
  function RunAll<T>(step: T -> Output, xs: seq<T>): Output
  {
    if xs == [] then Output([], false) else Then(step(xs[0]), RunAll(step, xs[1..]))
  }

  lemma {:induction false} RunAllConcat<T>(step: T -> Output, xs: seq<T>, ys: seq<T>)
    ensures RunAll(step, xs + ys) == Then(RunAll(step, xs), RunAll(step, ys))
  {
    if xs == [] {
      assert xs + ys == ys;
    } else {
      assert (xs + ys)[1..] == xs[1..] + ys;
      RunAllConcat(step, xs[1..], ys);
      ThenAssociative(step(xs[0]), RunAll(step, xs[1..]), RunAll(step, ys));
    }
  }

  /** One more iteration of the loop. */
  lemma RunAllExtend<T>(step: T -> Output, xs: seq<T>, i: nat)
    requires i < |xs|
    ensures RunAll(step, xs[..i + 1]) == Then(RunAll(step, xs[..i]), step(xs[i]))
  {
    assert xs[..i + 1] == xs[..i] + [xs[i]];
    RunAllConcat(step, xs[..i], [xs[i]]);
    assert [xs[i]][1..] == [];
  }

  /** A loop over one element does what its step does. */
  lemma RunAllSingle<T>(step: T -> Output, x: T)
    ensures RunAll(step, [x]) == step(x)
  {
    assert [x][1..] == [];
    assert step(x).rows + [] == step(x).rows;
  }

  /** The loop ends at the first element whose step raises. */
  lemma RunAllStopsAt<T>(step: T -> Output, xs: seq<T>, i: nat)
    requires i < |xs| && !RunAll(step, xs[..i]).raised && step(xs[i]).raised
    ensures RunAll(step, xs) == Then(RunAll(step, xs[..i]), step(xs[i]))
  {
    assert xs == xs[..i + 1] + xs[i + 1..];
    RunAllConcat(step, xs[..i + 1], xs[i + 1..]);
    RunAllExtend(step, xs, i);
  }

  /** Every row of the loop's output comes from the step of one of its elements. */
  lemma {:induction false} RunAllRowsFromSteps<T>(step: T -> Output, xs: seq<T>)
    ensures forall r :: r in RunAll(step, xs).rows ==> exists i :: 0 <= i < |xs| && r in step(xs[i]).rows
  {
    if xs != [] {
      RunAllRowsFromSteps(step, xs[1..]);
      forall r | r in RunAll(step, xs).rows ensures exists i :: 0 <= i < |xs| && r in step(xs[i]).rows {
        if r !in step(xs[0]).rows {
          assert r in RunAll(step, xs[1..]).rows;
          var i :| 0 <= i < |xs[1..]| && r in step(xs[1..][i]).rows;
          assert xs[1..][i] == xs[i + 1];
        }
      }
    }
  }

  /** Lines 62-69 for one contributor record: the enrichment of line 62, then the
      rows of lines 63-69; a KeyError in either ends the run. */
  function ExportContributor(resultId: string, rec: ContributorRecord, api: InstitutionApi): Output
  {
    var e := EnrichAll(rec.affiliations, api);
    if e.raised then Output([], true)
    else
      var f := FlattenAll(resultId, rec.surname, e.affiliations);
      Output(f.rows, f.raised)
  }

  /** The institution column for one affiliation: the last name the lookup returned
      when it answered OK with a name, otherwise the last name already attached,
      otherwise `cristin_institution_id`. */
  function InstitutionColumn(v: AffiliationView, api: InstitutionApi): string
    requires Flattenable(Enriched(v, api))
  {
    match Lookup(api, v.institutionUrl)
    case Ok(Some(name)) => Last(name).text
    case _ => if v.institutionName.Some? then Last(v.institutionName.value).text else v.institutionId
  }

  /** A contributor prints without a KeyError iff no lookup answers OK without
      `institution_name` and every enriched affiliation has a role and, when a name
      map is attached, a name; it then prints one row per affiliation, in order,
      with the popped role and the institution column above. */
  lemma ContributorRows(resultId: string, rec: ContributorRecord, api: InstitutionApi)
    ensures var vs := rec.affiliations;
            !ExportContributor(resultId, rec, api).raised
            <==> forall k :: 0 <= k < |vs| ==> !Raises(vs[k], api) && Flattenable(Enriched(vs[k], api))
    ensures var vs := rec.affiliations;
            var o := ExportContributor(resultId, rec, api);
            !o.raised ==>
              && |o.rows| == |vs|
              && forall k :: 0 <= k < |vs| ==>
                   o.rows[k] == Row(resultId, rec.surname, Last(vs[k].roleName).text, InstitutionColumn(vs[k], api))
  {
    var vs := rec.affiliations;
    var e := EnrichAll(vs, api);
    EnrichAllSpec(vs, api);
    if e.raised {
      assert RaisesBefore(vs, |vs|, api);
    } else {
      assert forall k :: 0 <= k < |vs| ==> !Raises(vs[k], api) by {
        forall k | 0 <= k < |vs| ensures !Raises(vs[k], api) {
          assert !RaisesBefore(vs, |vs|, api);
        }
      }
      assert forall k :: 0 <= k < |vs| ==> e.affiliations[k] == Enriched(vs[k], api) by {
        forall k | 0 <= k < |vs| ensures e.affiliations[k] == Enriched(vs[k], api) {
          assert !RaisesBefore(vs, k, api);
        }
      }
      OneRowPerAffiliation(resultId, rec.surname, e.affiliations);
    }
  }

  function ContributorStep(resultId: string, api: InstitutionApi): ContributorRecord -> Output
  {
    (rec: ContributorRecord) => ExportContributor(resultId, rec, api)
  }

  /** Lines 62-69 for the contributors paired with one result. */
  function ExportResult(resultId: string, recs: seq<ContributorRecord>, api: InstitutionApi): Output
  {
    RunAll(ContributorStep(resultId, api), recs)
  }

  /** A result and the contributors the loop at line 61 processes with it. */
  datatype Pairing = Pairing(result: ResultRecord, contributors: seq<ContributorRecord>)

  function PairStep(api: InstitutionApi): Pairing -> Output
  {
    (p: Pairing) => ExportResult(p.result.cristinResultId, p.contributors, api)
  }

  /** The loop at lines 61-69. */
  function ExportPairings(ps: seq<Pairing>, api: InstitutionApi): Output
  {
    RunAll(PairStep(api), ps)
  }

  /** `get_result_contributors`: the first page of the result's contributors URL. */
  function ContributorsOf(api: Api<ContributorRecord>, r: ResultRecord): seq<ContributorRecord>
  {
    FirstPage(api, r.contributorsUrl)
  }

  /** `zip(results, map(get_result_contributors, results))` over one generator, as
      written: `zip` draws a result, then the `map` draws the next result from the
      same generator and fetches that one's contributors; a last unpaired result is
      dropped. */
  function ZipAsWritten(rs: seq<ResultRecord>, api: Api<ContributorRecord>): seq<Pairing>
    decreases |rs|
  {
    if |rs| < 2 then []
    else [Pairing(rs[0], ContributorsOf(api, rs[1]))] + ZipAsWritten(rs[2..], api)
  }

  /** The evidently intended pairing: every result with its own contributors. */
  function PairWithContributors(rs: seq<ResultRecord>, api: Api<ContributorRecord>): seq<Pairing>
  {
    if rs == [] then []
    else [Pairing(rs[0], ContributorsOf(api, rs[0]))] + PairWithContributors(rs[1..], api)
  }

  /** As written, the loop runs half as often as there are results, and pass `k`
      prints result `2k` with the contributors of result `2k + 1`. */
  lemma {:induction false} ZipAsWrittenShape(rs: seq<ResultRecord>, api: Api<ContributorRecord>)
    ensures |ZipAsWritten(rs, api)| == |rs| / 2
    ensures forall k :: 0 <= k < |rs| / 2 ==>
              ZipAsWritten(rs, api)[k] == Pairing(rs[2 * k], ContributorsOf(api, rs[2 * k + 1]))
  {
    if |rs| >= 2 {
      ZipAsWrittenShape(rs[2..], api);
      var z := ZipAsWritten(rs, api);
      forall k | 1 <= k < |rs| / 2
        ensures z[k] == Pairing(rs[2 * k], ContributorsOf(api, rs[2 * k + 1]))
      {
        assert z[k] == ZipAsWritten(rs[2..], api)[k - 1];
        assert rs[2..][2 * (k - 1)] == rs[2 * k] && rs[2..][2 * (k - 1) + 1] == rs[2 * k + 1];
      }
    }
  }

  /** The intended loop runs once per result, with that result's own contributors. */
  lemma {:induction false} PairWithContributorsShape(rs: seq<ResultRecord>, api: Api<ContributorRecord>)
    ensures |PairWithContributors(rs, api)| == |rs|
    ensures forall k :: 0 <= k < |rs| ==>
              PairWithContributors(rs, api)[k] == Pairing(rs[k], ContributorsOf(api, rs[k]))
  {
    if rs != [] {
      PairWithContributorsShape(rs[1..], api);
      var p := PairWithContributors(rs, api);
      forall k | 1 <= k < |rs| ensures p[k] == Pairing(rs[k], ContributorsOf(api, rs[k])) {
        assert p[k] == PairWithContributors(rs[1..], api)[k - 1];
      }
    }
  }

  /** For every non-empty list of results the pairing as written differs from the
      intended one: it has half as many passes. */
  lemma ZipAsWrittenDiffers(rs: seq<ResultRecord>, api: Api<ContributorRecord>)
    requires rs != []
    ensures ZipAsWritten(rs, api) != PairWithContributors(rs, api)
  {
    ZipAsWrittenShape(rs, api);
    PairWithContributorsShape(rs, api);
  }

  /** Two results, each with one contributor of one affiliation, and an institution
      endpoint that answers no lookup: as written, result 1 is printed with the second
      result's contributor and result 2 is not printed; the intended run prints each
      result with its own contributor. */
  lemma ZipAsWrittenSwapsContributors()
    ensures var hansen := ContributorRecord("Hansen", [AffiliationView([Entry("en", "Author")], "8", "/i8", None)]);
            var olsen := ContributorRecord("Olsen", [AffiliationView([Entry("en", "Author")], "7", "/i7", None)]);
            var api := Api(map["/r1" := Page(true, [hansen], None), "/r2" := Page(true, [olsen], None)],
                           map["/r1" := 0, "/r2" := 0]);
            var rs := [ResultRecord("1", "/r1"), ResultRecord("2", "/r2")];
            && ZipAsWritten(rs, api) == [Pairing(rs[0], [olsen])]
            && PairWithContributors(rs, api) == [Pairing(rs[0], [hansen]), Pairing(rs[1], [olsen])]
            && ExportPairings(ZipAsWritten(rs, api), map[]) == Output([Row("1", "Olsen", "Author", "7")], false)
            && ExportPairings(PairWithContributors(rs, api), map[])
               == Output([Row("1", "Hansen", "Author", "8"), Row("2", "Olsen", "Author", "7")], false)
  {
    var hansen := ContributorRecord("Hansen", [AffiliationView([Entry("en", "Author")], "8", "/i8", None)]);
    var olsen := ContributorRecord("Olsen", [AffiliationView([Entry("en", "Author")], "7", "/i7", None)]);
    var api := Api(map["/r1" := Page(true, [hansen], None), "/r2" := Page(true, [olsen], None)],
                   map["/r1" := 0, "/r2" := 0]);
    var rs := [ResultRecord("1", "/r1"), ResultRecord("2", "/r2")];
    var none: InstitutionApi := map[];
    var rowH := Row("1", "Hansen", "Author", "8");
    var rowO1 := Row("1", "Olsen", "Author", "7");
    var rowO2 := Row("2", "Olsen", "Author", "7");
    assert ExportContributor("1", hansen, none) == Output([rowH], false) by {
      assert EnrichAll(hansen.affiliations, none) == Enrichment(hansen.affiliations, false);
      assert FlattenAll("1", "Hansen", hansen.affiliations) == Flattening([rowH], [hansen.affiliations[0].(roleName := [])], false);
    }
    assert ExportContributor("1", olsen, none) == Output([rowO1], false) by {
      assert EnrichAll(olsen.affiliations, none) == Enrichment(olsen.affiliations, false);
      assert FlattenAll("1", "Olsen", olsen.affiliations) == Flattening([rowO1], [olsen.affiliations[0].(roleName := [])], false);
    }
    assert ExportContributor("2", olsen, none) == Output([rowO2], false) by {
      assert EnrichAll(olsen.affiliations, none) == Enrichment(olsen.affiliations, false);
      assert FlattenAll("2", "Olsen", olsen.affiliations) == Flattening([rowO2], [olsen.affiliations[0].(roleName := [])], false);
    }
    RunAllSingle(ContributorStep("1", none), hansen);
    RunAllSingle(ContributorStep("1", none), olsen);
    RunAllSingle(ContributorStep("2", none), olsen);
    assert ZipAsWritten(rs, api) == [Pairing(rs[0], [olsen])] by {
      assert rs[2..] == [];
    }
    assert PairWithContributors(rs, api) == [Pairing(rs[0], [hansen]), Pairing(rs[1], [olsen])] by {
      assert rs[1..][1..] == [];
      assert PairWithContributors(rs[1..], api) == [Pairing(rs[1], [olsen])];
    }
    RunAllSingle(PairStep(none), Pairing(rs[0], [olsen]));
    RunAllSingle(PairStep(none), Pairing(rs[0], [hansen]));
    RunAllSingle(PairStep(none), Pairing(rs[1], [olsen]));
    RunAllConcat(PairStep(none), [Pairing(rs[0], [hansen])], [Pairing(rs[1], [olsen])]);
    assert [Pairing(rs[0], [hansen])] + [Pairing(rs[1], [olsen])] == [Pairing(rs[0], [hansen]), Pairing(rs[1], [olsen])];
  }

  /** The four endpoints the driver reads. */
  datatype Server = Server(
    people: Api<Person>,
    results: Api<ResultRecord>,
    contributors: Api<ContributorRecord>,
    institutions: InstitutionApi)

  predicate ValidServer(s: Server)
  {
    Ranked(s.people) && Ranked(s.results)
  }

  /** The list comprehension at line 58: every person's results, person by person. */
  function MergedResults(people: seq<Person>, api: Api<ResultRecord>): seq<ResultRecord>
    requires Ranked(api)
  {
    if people == [] then [] else GetPersonResults(api, people[0]) + MergedResults(people[1..], api)
  }

  /** The results line 58 keeps: the merged list without repeated ids. */
  function KeptResults(s: Server): seq<ResultRecord>
    requires ValidServer(s)
  {
    Deduplicated(MergedResults(GetPeople(s.people), s.results))
  }

  /** What lines 55-69 print as written. */
  function ExportAsWritten(s: Server): Output
    requires ValidServer(s)
  {
    ExportPairings(ZipAsWritten(KeptResults(s), s.contributors), s.institutions)
  }

  /** What lines 55-69 print with each result paired with its own contributors. */
  function ExportAll(s: Server): Output
    requires ValidServer(s)
  {
    ExportPairings(PairWithContributors(KeptResults(s), s.contributors), s.institutions)
  }

  /** As written, a run that keeps a single result prints nothing at all. */
  lemma LoneResultPrintsNothing(s: Server)
    requires ValidServer(s) && |KeptResults(s)| == 1
    ensures ExportAsWritten(s) == Output([], false)
    ensures ExportAll(s) == ExportResult(KeptResults(s)[0].cristinResultId,
                                         ContributorsOf(s.contributors, KeptResults(s)[0]), s.institutions)
  {
    var rs := KeptResults(s);
    assert rs[1..] == [];
    var ps := PairWithContributors(rs, s.contributors);
    assert PairWithContributors(rs[1..], s.contributors) == [];
    assert ps == [Pairing(rs[0], ContributorsOf(s.contributors, rs[0]))];
    var o := PairStep(s.institutions)(ps[0]);
    assert ps[1..] == [];
    assert o.rows + [] == o.rows;
  }

  lemma ExportResultRowsCarryId(resultId: string, recs: seq<ContributorRecord>, api: InstitutionApi)
    ensures forall r :: r in ExportResult(resultId, recs, api).rows ==> r.resultId == resultId
  {
    RunAllRowsFromSteps(ContributorStep(resultId, api), recs);
    forall rec | rec in recs
      ensures forall r :: r in ExportContributor(resultId, rec, api).rows ==> r.resultId == resultId
    {
      var e := EnrichAll(rec.affiliations, api);
      FlattenRowsCarryIds(resultId, rec.surname, e.affiliations);
    }
  }

  /** Every printed row names a kept result, in the program as written and in the
      corrected one, and the kept results have distinct ids, so each result's rows
      are printed under one result only. */
  lemma ExportRowsNameKeptResults(s: Server)
    requires ValidServer(s)
    ensures DistinctIds(KeptResults(s))
    ensures forall r :: r in ExportAsWritten(s).rows ==> r.resultId in IdsOf(KeptResults(s))
    ensures forall r :: r in ExportAll(s).rows ==> r.resultId in IdsOf(KeptResults(s))
  {
    var rs := KeptResults(s);
    DeduplicatedHasDistinctIds(MergedResults(GetPeople(s.people), s.results));
    var ps := PairWithContributors(rs, s.contributors);
    PairWithContributorsShape(rs, s.contributors);
    RunAllRowsFromSteps(PairStep(s.institutions), ps);
    forall r | r in ExportAll(s).rows ensures r.resultId in IdsOf(rs) {
      var i :| 0 <= i < |ps| && r in PairStep(s.institutions)(ps[i]).rows;
      ExportResultRowsCarryId(rs[i].cristinResultId, ps[i].contributors, s.institutions);
    }
    var zs := ZipAsWritten(rs, s.contributors);
    ZipAsWrittenShape(rs, s.contributors);
    RunAllRowsFromSteps(PairStep(s.institutions), zs);
    forall r | r in ExportAsWritten(s).rows ensures r.resultId in IdsOf(rs) {
      var i :| 0 <= i < |zs| && r in PairStep(s.institutions)(zs[i]).rows;
      ExportResultRowsCarryId(rs[2 * i].cristinResultId, zs[i].contributors, s.institutions);
    }
  }

  /** Lines 62-69 on the objects of one contributor record: decode it, enrich it in
      place, then pop and print its rows. */
  method ExportContributorObjects(resultId: string, rec: ContributorRecord, api: InstitutionApi)
    returns (rows: seq<Row>, raised: bool)
    ensures Output(rows, raised) == ExportContributor(resultId, rec, api)
  {
    var c := Decode(rec);
    var enriched := EnrichContributor(c, api);
    if enriched.None? {
      return [], true;
    }
    rows, raised := FlattenContributor(resultId, c);
  }

  /** The loop at line 62 for one result. */
  method ExportResultObjects(resultId: string, recs: seq<ContributorRecord>, api: InstitutionApi)
    returns (rows: seq<Row>, raised: bool)
    ensures Output(rows, raised) == ExportResult(resultId, recs, api)
  {
    ghost var step := ContributorStep(resultId, api);
    rows := [];
    var i := 0;
    while i < |recs|
      invariant 0 <= i <= |recs|
      invariant Output(rows, false) == RunAll(step, recs[..i])
    {
      var more, stop := ExportContributorObjects(resultId, recs[i], api);
      RunAllExtend(step, recs, i);
      if stop {
        RunAllStopsAt(step, recs, i);
        return rows + more, true;
      }
      rows := rows + more;
      i := i + 1;
    }
    assert recs[..i] == recs;
    raised := false;
  }

  /** Lines 55-69 with each result paired with its own contributors. */
  method Run(s: Server) returns (rows: seq<Row>, raised: bool)
    requires ValidServer(s)
    ensures Output(rows, raised) == ExportAll(s)
  {
    var results := FilterResults(MergedResults(GetPeople(s.people), s.results));
    ghost var ps := PairWithContributors(results, s.contributors);
    ghost var step := PairStep(s.institutions);
    PairWithContributorsShape(results, s.contributors);
    rows := [];
    var i := 0;
    while i < |results|
      invariant 0 <= i <= |results|
      invariant Output(rows, false) == RunAll(step, ps[..i])
    {
      var result := results[i];
      var more, stop := ExportResultObjects(result.cristinResultId, ContributorsOf(s.contributors, result), s.institutions);
      RunAllExtend(step, ps, i);
      if stop {
        RunAllStopsAt(step, ps, i);
        return rows + more, true;
      }
      rows := rows + more;
      i := i + 1;
    }
    assert ps[..i] == ps;
    raised := false;
  }
}
