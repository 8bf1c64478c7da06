/** The "All Problems" view (`buildAllProblems` in build-dashboard.js): the
    rows of every company merged by their `Link` field, each merged record
    carrying the sorted list of the companies that list it. */
module Aggregate {
  import opened Options
  import opened Seqs
  import opened Strings
  import opened Sorting
  import opened Records

  /** `ALL_LABEL`, the name of the merged view. */
  const AllLabel: string := "All Problems"
  /** The field that identifies a problem across companies. */
  const LinkKey: string := "Link"
  /** The field the merged view adds. */
  const CompaniesKey: string := "Companies"
  /** The separator of the joined company list. */
  const CompanySep: string := ", "

  /** One row met while walking the companies, with the company it came from. */
  datatype Sighting = Sighting(company: string, row: Record)

  /** The link of a row, or `None` when the row has no `Link` field or an
      empty one (`if (!link) return;`). */
  function LinkOf(row: Record): (r: Option<string>)
    ensures r.Some? ==> LinkKey in row && r.value == row[LinkKey] && r.value != ""
    ensures r.None? <==> LinkKey !in row || row[LinkKey] == ""
  {
    if LinkKey in row && row[LinkKey] != "" then Some(row[LinkKey]) else None
  }

  /** The rows of `company` in order, or none when it has no data
      (`if (!info || !info.data) return;`). */
  function CompanyRows(data: map<string, Company>, company: string): (r: seq<Sighting>)
    ensures company in data ==> |r| == |data[company].data|
  {
    if company in data then
      var rows := data[company].data;
      seq(|rows|, j requires 0 <= j < |rows| => Sighting(company, rows[j]))
    else []
  }

  /** Every row of the companies in `names`, company by company, in order. */
  function Sightings(data: map<string, Company>, names: seq<string>): seq<Sighting>
    decreases |names|
  {
    if |names| == 0 then []
    else Sightings(data, names[..|names| - 1]) + CompanyRows(data, names[|names| - 1])
  }

  // ---------------------------------------------------------------------------
  // What the merged view should hold

  /** The links of the rows that have one, in order, repeats included. */
  function LinkSeq(ss: seq<Sighting>): seq<string>
    decreases |ss|
  {
    if |ss| == 0 then []
    else
      var s := ss[|ss| - 1];
      LinkSeq(ss[..|ss| - 1]) + (if LinkOf(s.row).Some? then [LinkOf(s.row).value] else [])
  }

  /** The distinct links, in the order they are first met. */
  function AggLinks(ss: seq<Sighting>): seq<string> {
    Dedup(LinkSeq(ss))
  }

  /** The first row that carries link `l`. */
  function FirstRow(ss: seq<Sighting>, l: string): Option<Record>
    decreases |ss|
  {
    if |ss| == 0 then None
    else if LinkOf(ss[0].row) == Some(l) then Some(ss[0].row)
    else FirstRow(ss[1..], l)
  }

  /** The companies of the rows that carry link `l`, in order, repeats included. */
  function CompaniesWithLink(ss: seq<Sighting>, l: string): seq<string>
    decreases |ss|
  {
    if |ss| == 0 then []
    else
      var s := ss[|ss| - 1];
      CompaniesWithLink(ss[..|ss| - 1], l) + (if LinkOf(s.row) == Some(l) then [s.company] else [])
  }

  /** Each company that lists link `l`, once, in the order first met. */
  function CompanyList(ss: seq<Sighting>, l: string): seq<string> {
    Dedup(CompaniesWithLink(ss, l))
  }

  /** The merged record: the first row, its `Companies` field replaced by the
      sorted company list joined with `", "`. */
  function MergedRecord(first: Record, companies: seq<string>): Record {
    first[CompaniesKey := Join(Sort(companies), CompanySep)]
  }

  /** The headers of the merged view: the first company's, with `Companies`
      appended unless already there. */
  function AllHeaders(base: seq<string>): (r: seq<string>)
    ensures |r| == if CompaniesKey in base then |base| else |base| + 1
    ensures CompaniesKey in r && r[..|base|] == base
  {
    if CompaniesKey in base then base else base + [CompaniesKey]
  }

  /** The guards of `buildAllProblems`: some company, whose data is present
      and whose headers include `Link`. */
  predicate CanAggregate(data: map<string, Company>, names: seq<string>) {
    |names| > 0 && names[0] in data && LinkKey in data[names[0]].headers
  }

  /** The merged view: one record per distinct link, in the order first met. */
  function AllProblems(data: map<string, Company>, names: seq<string>): (r: Company)
    requires CanAggregate(data, names)
    ensures CompaniesKey in r.headers
    ensures |data[names[0]].headers| <= |r.headers| && r.headers[..|data[names[0]].headers|] == data[names[0]].headers
    ensures |r.data| == |AggLinks(Sightings(data, names))|
    ensures forall i :: 0 <= i < |r.data| ==> CompaniesKey in r.data[i]
  {
    var ss := Sightings(data, names);
    var links := AggLinks(ss);
    LinksHaveFirstRow(ss);
    Company(AllHeaders(data[names[0]].headers),
      seq(|links|, i requires 0 <= i < |links| =>
        MergedRecord(FirstRow(ss, links[i]).value, CompanyList(ss, links[i]))))
  }

  // ---------------------------------------------------------------------------
  // Facts about the specification

  /** A link is met exactly when some row carries it. */
  lemma {:induction false} LinkSeqMembers(ss: seq<Sighting>)
    ensures forall l :: l in LinkSeq(ss) <==> exists i :: 0 <= i < |ss| && LinkOf(ss[i].row) == Some(l)
    decreases |ss|
  {
    if |ss| > 0 {
      var init := ss[..|ss| - 1];
      LinkSeqMembers(init);
      forall l | exists i :: 0 <= i < |ss| && LinkOf(ss[i].row) == Some(l)
        ensures l in LinkSeq(ss)
      {
        var i :| 0 <= i < |ss| && LinkOf(ss[i].row) == Some(l);
        if i < |ss| - 1 {
          assert init[i] == ss[i];
        }
      }
    }
  }

  /** A first row exists exactly for the links some row carries. */
  lemma {:induction false} FirstRowExists(ss: seq<Sighting>, l: string)
    ensures FirstRow(ss, l).Some? <==> exists i :: 0 <= i < |ss| && LinkOf(ss[i].row) == Some(l)
    decreases |ss|
  {
    if |ss| > 0 {
      FirstRowExists(ss[1..], l);
      if exists i :: 0 <= i < |ss| && LinkOf(ss[i].row) == Some(l) {
        var i :| 0 <= i < |ss| && LinkOf(ss[i].row) == Some(l);
        if i > 0 {
          assert ss[1..][i - 1] == ss[i];
        }
      }
    }
  }

  /** Every merged link has a first row. */
  lemma LinksHaveFirstRow(ss: seq<Sighting>)
    ensures forall l :: l in AggLinks(ss) ==> FirstRow(ss, l).Some?
  {
    LinkSeqMembers(ss);
    forall l | l in AggLinks(ss) ensures FirstRow(ss, l).Some? {
      FirstRowExists(ss, l);
    }
  }

  /** The first row of `l` is the row of the earliest sighting carrying `l`. */
  lemma {:induction false} FirstRowIsEarliest(ss: seq<Sighting>, l: string, i: nat)
    requires i < |ss| && LinkOf(ss[i].row) == Some(l)
    requires forall j :: 0 <= j < i ==> LinkOf(ss[j].row) != Some(l)
    ensures FirstRow(ss, l) == Some(ss[i].row)
    decreases |ss|
  {
    if i > 0 {
      assert LinkOf(ss[0].row) != Some(l);
      forall j | 0 <= j < i - 1 ensures LinkOf(ss[1..][j].row) != Some(l) {
        assert ss[1..][j] == ss[j + 1];
      }
      FirstRowIsEarliest(ss[1..], l, i - 1);
    }
  }

  /** A row appended after the others only matters for a link not seen yet. */
  lemma {:induction false} FirstRowSnoc(ss: seq<Sighting>, s: Sighting, l: string)
    ensures FirstRow(ss + [s], l) ==
      if FirstRow(ss, l).Some? then FirstRow(ss, l)
      else if LinkOf(s.row) == Some(l) then Some(s.row) else None
    decreases |ss|
  {
    if |ss| > 0 {
      assert (ss + [s])[1..] == ss[1..] + [s];
      FirstRowSnoc(ss[1..], s, l);
    }
  }

  /** A company lists link `l` exactly when one of its rows carries `l`. */
  lemma {:induction false} CompaniesWithLinkMembers(ss: seq<Sighting>, l: string)
    ensures forall c :: c in CompaniesWithLink(ss, l) <==>
      exists i :: 0 <= i < |ss| && ss[i].company == c && LinkOf(ss[i].row) == Some(l)
    decreases |ss|
  {
    if |ss| > 0 {
      var init := ss[..|ss| - 1];
      CompaniesWithLinkMembers(init, l);
      forall c | exists i :: 0 <= i < |ss| && ss[i].company == c && LinkOf(ss[i].row) == Some(l)
        ensures c in CompaniesWithLink(ss, l)
      {
        var i :| 0 <= i < |ss| && ss[i].company == c && LinkOf(ss[i].row) == Some(l);
        if i < |ss| - 1 {
          assert init[i] == ss[i];
        }
      }
    }
  }

  /** `Dedup` of a sequence with one more element at its end. */
  lemma DedupSnoc(xs: seq<string>, x: string)
    ensures Dedup(xs + [x]) == if x in Dedup(xs) then Dedup(xs) else Dedup(xs) + [x]
  {
    assert (xs + [x])[..|xs|] == xs;
  }

  /** The merged links after one more row: its link is added if new. */
  lemma AggLinksSnoc(ss: seq<Sighting>, s: Sighting)
    ensures AggLinks(ss + [s]) ==
      if LinkOf(s.row).None? || LinkOf(s.row).value in AggLinks(ss) then AggLinks(ss)
      else AggLinks(ss) + [LinkOf(s.row).value]
  {
    assert (ss + [s])[..|ss|] == ss;
    if LinkOf(s.row).Some? {
      DedupSnoc(LinkSeq(ss), LinkOf(s.row).value);
    } else {
      assert LinkSeq(ss + [s]) == LinkSeq(ss);
    }
  }

  /** A company list after one more row: its company is added if the row
      carries the link and the company is not listed yet. */
  lemma CompanyListSnoc(ss: seq<Sighting>, s: Sighting, l: string)
    ensures CompanyList(ss + [s], l) ==
      if LinkOf(s.row) == Some(l) && s.company !in CompanyList(ss, l)
      then CompanyList(ss, l) + [s.company] else CompanyList(ss, l)
  {
    assert (ss + [s])[..|ss|] == ss;
    if LinkOf(s.row) == Some(l) {
      DedupSnoc(CompaniesWithLink(ss, l), s.company);
    } else {
      assert CompaniesWithLink(ss + [s], l) == CompaniesWithLink(ss, l);
    }
  }

  /** A link no row carries has no companies. */
  lemma UnseenLinkNoCompanies(ss: seq<Sighting>, l: string)
    requires l !in AggLinks(ss)
    ensures CompanyList(ss, l) == []
  {
    LinkSeqMembers(ss);
    CompaniesWithLinkMembers(ss, l);
    if CompaniesWithLink(ss, l) != [] {
      assert CompaniesWithLink(ss, l)[0] in CompaniesWithLink(ss, l);
    }
  }

  // ---------------------------------------------------------------------------
  // One step of the walk

  /** What the walk keeps for the rows seen so far: `order` is the key order
      of the `agg` map, `recs` the copied rows, `comps` the company lists. */
  ghost predicate AggInv(ss: seq<Sighting>, order: seq<string>,
                         recs: map<string, Record>, comps: map<string, seq<string>>)
  {
    && order == AggLinks(ss)
    && KeyedBy(recs, order)
    && KeyedBy(comps, order)
    && AggContent(ss, order, recs, comps)
  }

  /** The keys of `m` are the elements of `order`. */
  ghost predicate KeyedBy<V>(m: map<string, V>, order: seq<string>) {
    forall l :: l in m <==> l in order
  }

  /** Each link's copied row is its first row and its list is its company list. */
  ghost predicate AggContent(ss: seq<Sighting>, order: seq<string>,
                             recs: map<string, Record>, comps: map<string, seq<string>>)
    requires KeyedBy(recs, order) && KeyedBy(comps, order)
  {
    forall l :: l in order ==> FirstRow(ss, l) == Some(recs[l]) && comps[l] == CompanyList(ss, l)
  }

  /** A row without a link leaves the merged view as it was. */
  lemma NoLinkContributesNothing(ss: seq<Sighting>, s: Sighting)
    requires LinkOf(s.row).None?
    ensures AggLinks(ss + [s]) == AggLinks(ss)
    ensures forall l :: FirstRow(ss + [s], l) == FirstRow(ss, l)
    ensures forall l :: CompanyList(ss + [s], l) == CompanyList(ss, l)
  {
    AggLinksSnoc(ss, s);
    forall l ensures FirstRow(ss + [s], l) == FirstRow(ss, l) && CompanyList(ss + [s], l) == CompanyList(ss, l) {
      FirstRowSnoc(ss, s, l);
      CompanyListSnoc(ss, s, l);
    }
  }

  /** A row with a link not seen before starts a new merged record. */
  lemma NewLinkStep(ss: seq<Sighting>, s: Sighting, l: string)
    requires LinkOf(s.row) == Some(l) && l !in AggLinks(ss)
    ensures AggLinks(ss + [s]) == AggLinks(ss) + [l]
    ensures FirstRow(ss + [s], l) == Some(s.row) && CompanyList(ss + [s], l) == [s.company]
    ensures forall m :: m != l ==> FirstRow(ss + [s], m) == FirstRow(ss, m)
    ensures forall m :: m != l ==> CompanyList(ss + [s], m) == CompanyList(ss, m)
  {
    AggLinksSnoc(ss, s);
    LinkSeqMembers(ss);
    FirstRowExists(ss, l);
    UnseenLinkNoCompanies(ss, l);
    forall m ensures FirstRow(ss + [s], m) == (if m == l then Some(s.row) else FirstRow(ss, m))
      && CompanyList(ss + [s], m) == (if m == l then [s.company] else CompanyList(ss, m))
    {
      FirstRowSnoc(ss, s, m);
      CompanyListSnoc(ss, s, m);
    }
  }

  /** A row with a link already seen adds its company to that record's list
      unless it is there, and changes nothing else. */
  lemma SeenLinkStep(ss: seq<Sighting>, s: Sighting, l: string)
    requires LinkOf(s.row) == Some(l) && l in AggLinks(ss)
    ensures AggLinks(ss + [s]) == AggLinks(ss)
    ensures forall m :: FirstRow(ss + [s], m) == FirstRow(ss, m)
    ensures CompanyList(ss + [s], l) ==
      if s.company in CompanyList(ss, l) then CompanyList(ss, l) else CompanyList(ss, l) + [s.company]
    ensures forall m :: m != l ==> CompanyList(ss + [s], m) == CompanyList(ss, m)
  {
    AggLinksSnoc(ss, s);
    LinksHaveFirstRow(ss);
    forall m ensures FirstRow(ss + [s], m) == FirstRow(ss, m) && (m != l ==> CompanyList(ss + [s], m) == CompanyList(ss, m)) {
      FirstRowSnoc(ss, s, m);
      CompanyListSnoc(ss, s, m);
    }
    CompanyListSnoc(ss, s, l);
  }

  /** Adding a company already on a record's list is a no-op. */
  lemma ReAddIsNoOp(ss: seq<Sighting>, s: Sighting, l: string)
    requires LinkOf(s.row) == Some(l) && s.company in CompanyList(ss, l)
    ensures CompanyList(ss + [s], l) == CompanyList(ss, l)
  {
    CompanyListSnoc(ss, s, l);
  }

  // ---------------------------------------------------------------------------
  // The walk

  /** A row without a link keeps the walk's state right as it is. */
  lemma InvAfterNoLink(ss: seq<Sighting>, s: Sighting,
                       order: seq<string>, recs: map<string, Record>, comps: map<string, seq<string>>)
    requires AggInv(ss, order, recs, comps) && LinkOf(s.row).None?
    ensures AggInv(ss + [s], order, recs, comps)
  {
    AggLinksSnoc(ss, s);
    forall m | m in order
      ensures FirstRow(ss + [s], m) == Some(recs[m]) && comps[m] == CompanyList(ss + [s], m)
    {
      FirstRowSnoc(ss, s, m);
      CompanyListSnoc(ss, s, m);
    }
  }

  /** A link no row carries has no first row. */
  lemma UnseenLinkNoFirstRow(ss: seq<Sighting>, l: string)
    requires l !in AggLinks(ss)
    ensures FirstRow(ss, l).None?
  {
    LinkSeqMembers(ss);
    FirstRowExists(ss, l);
  }

  /** A row with a new link: its copy and its one-company list are added. */
  lemma InvAfterNewLink(ss: seq<Sighting>, s: Sighting, l: string,
                        order: seq<string>, recs: map<string, Record>, comps: map<string, seq<string>>)
    requires AggInv(ss, order, recs, comps) && LinkOf(s.row) == Some(l) && l !in recs
    ensures AggInv(ss + [s], order + [l], recs[l := s.row], comps[l := [s.company]])
  {
    var ss', order', recs', comps' := ss + [s], order + [l], recs[l := s.row], comps[l := [s.company]];
    AggLinksSnoc(ss, s);
    assert order' == AggLinks(ss');
    assert l !in AggLinks(ss);
    UnseenLinkNoFirstRow(ss, l);
    UnseenLinkNoCompanies(ss, l);
    assert KeyedBy(recs', order') && KeyedBy(comps', order');
    forall m | m in order'
      ensures FirstRow(ss', m) == Some(recs'[m]) && comps'[m] == CompanyList(ss', m)
    {
      FirstRowSnoc(ss, s, m);
      CompanyListSnoc(ss, s, m);
      if m != l {
        assert m in order;
      }
    }
    assert AggContent(ss', order', recs', comps');
  }

  /** A row with a link already seen: its company joins the link's list
      unless it is there. */
  lemma InvAfterSeenLink(ss: seq<Sighting>, s: Sighting, l: string,
                         order: seq<string>, recs: map<string, Record>, comps: map<string, seq<string>>)
    requires AggInv(ss, order, recs, comps) && LinkOf(s.row) == Some(l) && l in recs
    ensures AggInv(ss + [s], order, recs,
      if s.company in comps[l] then comps else comps[l := comps[l] + [s.company]])
  {
    if s.company in comps[l] {
      InvAfterListedCompany(ss, s, l, order, recs, comps);
    } else {
      InvAfterNewCompany(ss, s, l, order, recs, comps);
    }
  }

  lemma InvAfterListedCompany(ss: seq<Sighting>, s: Sighting, l: string,
                              order: seq<string>, recs: map<string, Record>, comps: map<string, seq<string>>)
    requires AggInv(ss, order, recs, comps) && LinkOf(s.row) == Some(l) && l in recs
    requires s.company in comps[l]
    ensures AggInv(ss + [s], order, recs, comps)
  {
    var ss' := ss + [s];
    AggLinksSnoc(ss, s);
    forall m | m in order
      ensures FirstRow(ss', m) == Some(recs[m]) && comps[m] == CompanyList(ss', m)
    {
      FirstRowSnoc(ss, s, m);
      CompanyListSnoc(ss, s, m);
    }
  }

  lemma InvAfterNewCompany(ss: seq<Sighting>, s: Sighting, l: string,
                           order: seq<string>, recs: map<string, Record>, comps: map<string, seq<string>>)
    requires AggInv(ss, order, recs, comps) && LinkOf(s.row) == Some(l) && l in recs
    requires s.company !in comps[l]
    ensures AggInv(ss + [s], order, recs, comps[l := comps[l] + [s.company]])
  {
    var ss' := ss + [s];
    var comps' := comps[l := comps[l] + [s.company]];
    assert l in order;
    assert AggLinks(ss') == order by {
      AggLinksSnoc(ss, s);
    }
    assert KeyedBy(comps', order);
    assert AggContent(ss', order, recs, comps') by {
      forall m | m in order
        ensures FirstRow(ss', m) == Some(recs[m]) && comps'[m] == CompanyList(ss', m)
      {
        assert FirstRow(ss, m) == Some(recs[m]) && comps[m] == CompanyList(ss, m);
        FirstRowSnoc(ss, s, m);
        CompanyListSnoc(ss, s, m);
        if m == l {
          assert comps'[m] == CompanyList(ss, m) + [s.company];
        } else {
          assert comps'[m] == comps[m];
        }
      }
    }
  }

  /** The callback of `info.data.forEach` for one row of `company`: skips a
      row without a link, copies the row of a new link, and otherwise adds
      the company to the link's list unless it is there. */
  method VisitRow(ghost ss: seq<Sighting>, company: string, row: Record,
                  order: seq<string>, recs: map<string, Record>, comps: map<string, seq<string>>)
    returns (order': seq<string>, recs': map<string, Record>, comps': map<string, seq<string>>)
    requires AggInv(ss, order, recs, comps)
    ensures AggInv(ss + [Sighting(company, row)], order', recs', comps')
  {
    ghost var s := Sighting(company, row);
    order', recs', comps' := order, recs, comps;
    // row.Link, or nothing; an absent or empty link is skipped
    var link := if LinkKey in row then row[LinkKey] else "";
    if link == "" {
      InvAfterNoLink(ss, s, order, recs, comps);
    } else if link !in recs {
      InvAfterNewLink(ss, s, link, order, recs, comps);
      order' := order + [link];
      recs' := recs[link := row];
      comps' := comps[link := [company]];
    } else {
      InvAfterSeenLink(ss, s, link, order, recs, comps);
      if company !in comps[link] {
        comps' := comps[link := comps[link] + [company]];
      }
    }
  }

  /** The callback of `COMPANY_NAMES.forEach` for one company: visits its
      rows in order, or none when it has no data. */
  method VisitCompany(ghost ss: seq<Sighting>, data: map<string, Company>, company: string,
                      order: seq<string>, recs: map<string, Record>, comps: map<string, seq<string>>)
    returns (order': seq<string>, recs': map<string, Record>, comps': map<string, seq<string>>)
    requires AggInv(ss, order, recs, comps)
    ensures AggInv(ss + CompanyRows(data, company), order', recs', comps')
  {
    order', recs', comps' := order, recs, comps;
    if company !in data {
      assert ss + CompanyRows(data, company) == ss;
      return;
    }
    var rows := data[company].data;
    ghost var mine := CompanyRows(data, company);
    assert ss + mine[..0] == ss;
    for j := 0 to |rows|
      invariant AggInv(ss + mine[..j], order', recs', comps')
    {
      assert ss + mine[..j] + [Sighting(company, rows[j])] == ss + mine[..j + 1];
      order', recs', comps' := VisitRow(ss + mine[..j], company, rows[j], order', recs', comps');
    }
    assert mine[..|rows|] == mine;
  }

  /** The walk of `buildAllProblems` over every company and row, building the
      `agg` map: its key order, its copied rows and its company lists. */
  method Aggregate(data: map<string, Company>, names: seq<string>)
    returns (order: seq<string>, recs: map<string, Record>, comps: map<string, seq<string>>)
    ensures order == AggLinks(Sightings(data, names))
    ensures forall l :: l in recs <==> l in order
    ensures forall l :: l in comps <==> l in order
    ensures forall l :: l in order ==>
      && FirstRow(Sightings(data, names), l) == Some(recs[l])
      && comps[l] == CompanyList(Sightings(data, names), l)
  {
    order, recs, comps := [], map[], map[];
    for i := 0 to |names|
      invariant AggInv(Sightings(data, names[..i]), order, recs, comps)
    {
      assert names[..i + 1][..i] == names[..i];
      order, recs, comps := VisitCompany(Sightings(data, names[..i]), data, names[i], order, recs, comps);
    }
    assert names[..|names|] == names;
  }

  // ---------------------------------------------------------------------------
  // What the merged view means

  /** The first row of a link carries that link. */
  lemma {:induction false} FirstRowCarriesLink(ss: seq<Sighting>, l: string)
    requires FirstRow(ss, l).Some?
    ensures LinkOf(FirstRow(ss, l).value) == Some(l)
    decreases |ss|
  {
    if LinkOf(ss[0].row) != Some(l) {
      FirstRowCarriesLink(ss[1..], l);
    }
  }

  /** One merged record per distinct non-empty link among all the rows, in the
      order the links are first met. */
  lemma AllProblemsLinks(data: map<string, Company>, names: seq<string>)
    requires CanAggregate(data, names)
    ensures NoDup(AggLinks(Sightings(data, names)))
    ensures |AllProblems(data, names).data| == |AggLinks(Sightings(data, names))|
    ensures forall l :: l in AggLinks(Sightings(data, names)) <==>
      exists i :: 0 <= i < |Sightings(data, names)| && LinkOf(Sightings(data, names)[i].row) == Some(l)
  {
    LinkSeqMembers(Sightings(data, names));
  }

  /** Merged record `i` has link `AggLinks[i]`; every field but `Companies`
      is that of the first row carrying the link; `Companies` is the sorted
      company list joined with `", "`. */
  lemma AllProblemsRecord(data: map<string, Company>, names: seq<string>, i: nat)
    requires CanAggregate(data, names) && i < |AggLinks(Sightings(data, names))|
    ensures FirstRow(Sightings(data, names), AggLinks(Sightings(data, names))[i]).Some?
    ensures i < |AllProblems(data, names).data|
    ensures var r := AllProblems(data, names).data[i];
      var l := AggLinks(Sightings(data, names))[i];
      var first := FirstRow(Sightings(data, names), l).value;
      && LinkKey in r && r[LinkKey] == l
      && (forall k :: k != CompaniesKey ==> (k in r <==> k in first))
      && (forall k :: k != CompaniesKey && k in first ==> r[k] == first[k])
      && CompaniesKey in r
      && r[CompaniesKey] == Join(Sort(CompanyList(Sightings(data, names), l)), CompanySep)
  {
    var ss := Sightings(data, names);
    var l := AggLinks(ss)[i];
    LinksHaveFirstRow(ss);
    FirstRowCarriesLink(ss, l);
  }

  /** The company list of a link names exactly the companies with a row
      carrying it, each once; sorted, it keeps that property. */
  lemma CompanyListMeaning(ss: seq<Sighting>, l: string)
    ensures NoDup(CompanyList(ss, l)) && NoDup(Sort(CompanyList(ss, l)))
    ensures Sorted(Sort(CompanyList(ss, l)))
    ensures forall c :: c in Sort(CompanyList(ss, l)) <==>
      exists i :: 0 <= i < |ss| && ss[i].company == c && LinkOf(ss[i].row) == Some(l)
  {
    var cl := CompanyList(ss, l);
    CompaniesWithLinkMembers(ss, l);
    SortNoDup(cl);
    forall c ensures c in Sort(cl) <==> c in cl {
      assert c in Sort(cl) <==> c in multiset(Sort(cl));
    }
  }

  /** Companies met in the order B, A are listed as `"A, B"`. */
  lemma CompaniesJoinExample()
    ensures Join(Sort(["B", "A"]), CompanySep) == "A, B"
  {
    assert Below("A", "B") && !Below("B", "A");
    assert Sort(["A"]) == ["A"];
    assert Insert("B", ["A"]) == ["A", "B"];
    assert Join(["B"], CompanySep) == "B";
  }

  /** The name list after the merge: `All Problems` put first unless present. */
  function WithLabel(names: seq<string>): (r: seq<string>)
    ensures AllLabel in r
    ensures AllLabel in names ==> r == names
    ensures AllLabel !in names ==> r[0] == AllLabel && r[1..] == names
    ensures forall n :: n in r <==> n in names || n == AllLabel
  {
    if AllLabel in names then names else [AllLabel] + names
  }

  /** A name list without repeats gets `All Problems` exactly once. */
  lemma WithLabelOnce(names: seq<string>)
    requires NoDup(names)
    ensures NoDup(WithLabel(names))
    ensures multiset(WithLabel(names))[AllLabel] == 1
  {
    var r := WithLabel(names);
    if AllLabel !in names {
      assert r == [AllLabel] + names;
    }
    NoDupCount(r, AllLabel);
  }

  // A run merged twice: one company `A` with one row linking to `x`.
  const ExampleRow: Record := map[LinkKey := "x"]
  const ExampleData: map<string, Company> := map["A" := Company([LinkKey], [ExampleRow])]
  const ExampleMerged: Record := map[LinkKey := "x", CompaniesKey := "A"]

  /** A walk that meets a single link merges into a single record. */
  lemma SingleLink(data: map<string, Company>, names: seq<string>, l: string)
    requires CanAggregate(data, names) && AggLinks(Sightings(data, names)) == [l]
    ensures FirstRow(Sightings(data, names), l).Some?
    ensures AllProblems(data, names) == Company(AllHeaders(data[names[0]].headers),
      [MergedRecord(FirstRow(Sightings(data, names), l).value, CompanyList(Sightings(data, names), l))])
  {
    var ss := Sightings(data, names);
    LinksHaveFirstRow(ss);
    assert l in AggLinks(ss);
    var c := AllProblems(data, names);
    assert |c.data| == 1;
    assert c.data == [c.data[0]];
  }

  /** The first run meets one row, `A`'s. */
  lemma FirstRunWalk(data: map<string, Company>, names: seq<string>)
    requires data == ExampleData && names == ["A"]
    ensures Sightings(data, names) == [Sighting("A", ExampleRow)]
  {
    assert names[..0] == [];
    assert CompanyRows(data, "A") == [Sighting("A", ExampleRow)];
  }

  /** That row carries `x`, so `x` is merged once, listed under `A`. */
  lemma FirstRunLinks(ss: seq<Sighting>)
    requires ss == [Sighting("A", ExampleRow)]
    ensures AggLinks(ss) == ["x"]
    ensures FirstRow(ss, "x") == Some(ExampleRow)
    ensures CompanyList(ss, "x") == ["A"]
  {
    assert LinkOf(ExampleRow) == Some("x");
    assert ss[..0] == [];
    assert LinkSeq(ss) == ["x"];
    DedupSnoc([], "x");
    assert CompaniesWithLink(ss, "x") == ["A"];
    DedupSnoc([], "A");
  }

  /** The first run merges one record, listed under `A`. */
  lemma FirstRunData(data: map<string, Company>, names: seq<string>)
    requires data == ExampleData && names == ["A"]
    ensures CanAggregate(data, names)
    ensures AllProblems(data, names).data == [ExampleMerged]
  {
    assert data["A"].headers == [LinkKey];
    FirstRunWalk(data, names);
    FirstRunLinks(Sightings(data, names));
    SingleLink(data, names, "x");
    FirstRunMerged();
  }

  /** The merged record of the first run. */
  lemma FirstRunMerged()
    ensures MergedRecord(ExampleRow, ["A"]) == ExampleMerged
  {
    SortSingleton("A");
    JoinSingleton("A", CompanySep);
  }

  /** The first run's view has `A`'s headers and `Companies`. */
  lemma FirstRunHeaders(data: map<string, Company>, names: seq<string>)
    requires data == ExampleData && names == ["A"]
    ensures CanAggregate(data, names)
    ensures AllProblems(data, names).headers == [LinkKey, CompaniesKey]
  {
    assert data["A"].headers == [LinkKey];
    assert CompaniesKey !in [LinkKey];
  }

  /** The first run over the example merges its one row, listed under `A`. */
  lemma FirstRunExample(data: map<string, Company>, names: seq<string>)
    requires data == ExampleData && names == ["A"]
    ensures CanAggregate(data, names)
    ensures AllProblems(data, names) == Company([LinkKey, CompaniesKey], [ExampleMerged])
  {
    FirstRunData(data, names);
    FirstRunHeaders(data, names);
  }

  /** The walk of the second run meets the merged row before `A`'s row. */
  lemma SecondRunWalk(data: map<string, Company>)
    requires data == ExampleData[AllLabel := Company([LinkKey, CompaniesKey], [ExampleMerged])]
    ensures Sightings(data, [AllLabel, "A"]) == [Sighting(AllLabel, ExampleMerged), Sighting("A", ExampleRow)]
  {
    var merged := [Sighting(AllLabel, ExampleMerged)];
    var mine := [Sighting("A", ExampleRow)];
    assert AllLabel != "A";
    assert CompanyRows(data, AllLabel) == merged by {
      assert data[AllLabel].data == [ExampleMerged];
    }
    assert CompanyRows(data, "A") == mine by {
      assert data["A"].data == [ExampleRow];
    }
    assert Sightings(data, [AllLabel]) == merged by {
      assert [AllLabel][..0] == [];
      assert Sightings(data, [AllLabel]) == Sightings(data, []) + CompanyRows(data, AllLabel);
    }
    assert Sightings(data, [AllLabel, "A"]) == Sightings(data, [AllLabel]) + mine by {
      assert [AllLabel, "A"][..1] == [AllLabel];
    }
  }

  /** Both rows of the second run carry `x`. */
  lemma SecondRunLinkSeq(ss: seq<Sighting>)
    requires ss == [Sighting(AllLabel, ExampleMerged), Sighting("A", ExampleRow)]
    ensures LinkSeq(ss) == ["x", "x"]
    ensures CompaniesWithLink(ss, "x") == [AllLabel, "A"]
  {
    var first := ss[..1];
    assert LinkOf(ExampleMerged) == Some("x") && LinkOf(ExampleRow) == Some("x");
    assert first == [Sighting(AllLabel, ExampleMerged)] && first[..0] == [];
    assert LinkSeq(first) == ["x"];
    assert CompaniesWithLink(first, "x") == [AllLabel];
  }

  /** The second run merges one link, first met in the merged row, listed
      under the merged view and `A`. */
  lemma SecondRunLinks(ss: seq<Sighting>)
    requires ss == [Sighting(AllLabel, ExampleMerged), Sighting("A", ExampleRow)]
    ensures AggLinks(ss) == ["x"]
    ensures FirstRow(ss, "x") == Some(ExampleMerged)
    ensures CompanyList(ss, "x") == [AllLabel, "A"]
  {
    SecondRunLinkSeq(ss);
    DedupTwice("x");
    assert LinkOf(ExampleMerged) == Some("x");
    assert |AllLabel| != |"A"|;
    DedupOfNoDup([AllLabel, "A"]);
  }

  /** `["All Problems", "A"].sort()` is `["A", "All Problems"]`: a prefix sorts first. */
  lemma LabelSortsAfterA()
    ensures Sort([AllLabel, "A"]) == ["A", AllLabel]
  {
    assert Below("A", AllLabel) by {
      assert AllLabel[0] == 'A';
    }
    assert Sorted(["A", AllLabel]);
    assert multiset(["A", AllLabel]) == multiset([AllLabel, "A"]);
    SortedUnique(Sort([AllLabel, "A"]), ["A", AllLabel]);
  }

  /** The sorted list joined with `", "`. */
  lemma LabelJoin()
    ensures Join(["A", AllLabel], CompanySep) == "A, All Problems"
  {
    assert ["A", AllLabel][..1] == ["A"];
  }

  /** The page state after the first run over the example. */
  const ExampleOnce: map<string, Company> :=
    ExampleData[AllLabel := Company([LinkKey, CompaniesKey], [ExampleMerged])]

  /** The record the second run merges: `Companies` is `A, All Problems`. */
  lemma SecondRunMerged()
    ensures CompaniesKey in MergedRecord(ExampleMerged, [AllLabel, "A"])
    ensures MergedRecord(ExampleMerged, [AllLabel, "A"])[CompaniesKey] == "A, All Problems"
  {
    LabelSortsAfterA();
    LabelJoin();
  }

  /** The second run lists the merged view as a company of the link. */
  lemma SecondRunExample(data: map<string, Company>, names: seq<string>)
    requires data == ExampleOnce && names == [AllLabel, "A"]
    ensures CanAggregate(data, names)
    ensures |AllProblems(data, names).data| == 1
    ensures CompaniesKey in AllProblems(data, names).data[0]
    ensures AllProblems(data, names).data[0][CompaniesKey] == "A, All Problems"
  {
    assert data[AllLabel].headers == [LinkKey, CompaniesKey];
    SecondRunWalk(data);
    SecondRunLinks(Sightings(data, names));
    SingleLink(data, names, "x");
    SecondRunMerged();
  }

  /** Merging a second time is not a no-op: the merged view, now first in
      the name list, is walked as a company of its own, so `All Problems`
      joins every company list. */
  lemma SecondRunAddsLabel(data: map<string, Company>, names: seq<string>)
    requires data == ExampleData && names == ["A"]
    ensures CanAggregate(data, names)
    ensures var once := data[AllLabel := AllProblems(data, names)];
      && WithLabel(names) == [AllLabel, "A"]
      && CanAggregate(once, WithLabel(names))
      && |AllProblems(data, names).data| == 1
      && CompaniesKey in AllProblems(data, names).data[0]
      && AllProblems(data, names).data[0][CompaniesKey] == "A"
      && |AllProblems(once, WithLabel(names)).data| == 1
      && CompaniesKey in AllProblems(once, WithLabel(names)).data[0]
      && AllProblems(once, WithLabel(names)).data[0][CompaniesKey] == "A, All Problems"
  {
    FirstRunExample(data, names);
    var first := AllProblems(data, names);
    assert first.data == [ExampleMerged];
    assert CompaniesKey in ExampleMerged && ExampleMerged[CompaniesKey] == "A";
    var once := data[AllLabel := first];
    assert once == ExampleOnce;
    assert AllLabel != "A";
    assert WithLabel(names) == [AllLabel, "A"];
    SecondRunExample(once, WithLabel(names));
  }

  // ---------------------------------------------------------------------------
  // The page state that buildAllProblems changes

  /** `COMPANY_DATA` and `COMPANY_NAMES` of the generated page. */
  class Dashboard {
    var data: map<string, Company>
    var names: seq<string>

    constructor (data0: map<string, Company>, names0: seq<string>)
      ensures data == data0 && names == names0
    {
      data := data0;
      names := names0;
    }

    /** `buildAllProblems`: adds the merged view under `All Problems` and puts
        that name first, or changes nothing when a guard fails. */
    method BuildAllProblems()
      modifies this
      ensures !CanAggregate(old(data), old(names)) ==> data == old(data) && names == old(names)
      ensures CanAggregate(old(data), old(names)) ==>
        && data == old(data)[AllLabel := AllProblems(old(data), old(names))]
        && names == WithLabel(old(names))
    {
      if |names| == 0 {
        return;
      }
      if names[0] !in data {
        return;
      }
      var baseHeaders := data[names[0]].headers;
      if LinkKey !in baseHeaders {
        return;
      }
      var order, recs, comps := Aggregate(data, names);
      var allHeaders := if CompaniesKey in baseHeaders then baseHeaders else baseHeaders + [CompaniesKey];
      var allData := seq(|order|, i requires 0 <= i < |order| =>
        recs[order[i]][CompaniesKey := Join(Sort(comps[order[i]]), CompanySep)]);
      assert Company(allHeaders, allData) == AllProblems(data, names);
      data := data[AllLabel := Company(allHeaders, allData)];
      if AllLabel !in names {
        names := [AllLabel] + names;
      }
    }
  }
}
