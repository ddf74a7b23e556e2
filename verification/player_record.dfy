/** Record assembly in `collect_player_info.parse`: from the selector results
    of one player page to the merged player dictionary that is yielded.
    CSS selection itself is not modelled: a page is given as the lists of
    strings its selectors return, grouped the way `parse` addresses them
    (the `article div.grid` blocks, each with its `div.col` columns). */
module PlayerRecord {
  import opened Wrappers
  import opened Dicts

  /** A dictionary key.  Keys taken from `.get()` (club, national team,
      category heading) are None when the selector finds nothing. */
  type Key = Option<string>

  /** The values a player record holds. */
  datatype Value =
    | Null                             // `.get()` that found nothing
    | Str(s: string)
    | Strs(items: seq<string>)         // a `.getall()` list
    | Obj(fields: Dict<Key, Value>)    // a nested dict

  type Record = Dict<Key, Value>

  /** The selector results of one `div.col` column. */
  datatype Column = Column(
    labelTexts: seq<string>,      // "p label::text"
    paragraphTexts: seq<string>,  // "p::text"
    linkTexts: seq<string>,       // "p a::text"
    spanTexts: seq<string>,       // "p span::text"
    emTexts: seq<string>,         // "em::text"
    headingTexts: seq<string>,    // "h5::text"
    subTexts: seq<string>         // "div.sub::text"
  )

  /** One `article div.grid` block and its `div.col` columns. */
  datatype Grid = Grid(cols: seq<Column>)

  /** The selector results of a player page that `parse` reads. */
  datatype Page = Page(
    grids: seq<Grid>,             // "article div.grid"
    nameTexts: seq<string>,       // "div.profile.clearfix h1::text"
    profileTexts: seq<string>,    // "div.profile.clearfix p::text"
    positionTexts: seq<string>    // "div.profile.clearfix p span::text"
  )

  /** The six fields of the profile template
      `"{}y.o. ({}) {}cm / {} {}kg / {}lbs"`, in order. */
  datatype Summary = Summary(age: string, birthDate: string, height: string,
                             heightImperial: string, weight: string, weightImperial: string)

  /** Why `parse` raises on a page whose layout it does not expect. */
  datatype ParseError =
    | NoProfileText         // `getall()[-1]` on an empty list
    | TemplateMismatch      // `par.parse` returned None, which is then indexed
    | MissingGrid           // `info_grid[1]` out of range
    | MissingColumn         // one of `div.col[0..3]` of the second grid out of range
    | NoAttributeColumns    // `d_attributes[-1]` on an empty list

  const IdKey: Key := Some("id")
  const NameKey: Key := Some("name")
  const PositionsKey: Key := Some("positions")
  const AgeKey: Key := Some("age")
  const BirthDateKey: Key := Some("birth_date")
  const HeightKey: Key := Some("height")
  const WeightKey: Key := Some("weight")
  const TeamsKey: Key := Some("teams")
  const SpecialitiesKey: Key := Some("Player specialities")

  function Min(a: int, b: int): int { if a <= b then a else b }

  /** `SelectorList.get()`: the first result, or None. */
  function First(xs: seq<string>): (r: Option<string>)
    ensures r.None? <==> xs == []
    ensures r.Some? ==> r.value == xs[0]
  {
    if xs == [] then None else Some(xs[0])
  }

  function TextOrNull(o: Option<string>): Value
  {
    match o
    case None => Null
    case Some(s) => Str(s)
  }

  /** The texts of several selections, one after the other. */
  function Flatten(xss: seq<seq<string>>): (r: seq<string>)
    ensures forall x :: x in r <==> exists i :: 0 <= i < |xss| && x in xss[i]
  {
    if xss == [] then []
    else
      assert forall i :: 0 < i < |xss| ==> xss[i] == xss[1..][i - 1];
      xss[0] + Flatten(xss[1..])
  }

  // ---- dict(zip(labels, values)) -----------------------------------------

  /** `zip(labels, values)` as dictionary entries: stops at the shorter list. */
  function TextPairs(labels: seq<string>, values: seq<string>): (ps: seq<(Key, Value)>)
    ensures |ps| == Min(|labels|, |values|)
    ensures forall i :: 0 <= i < |ps| ==> ps[i] == (Some(labels[i]), Str(values[i]))
  {
    seq(Min(|labels|, |values|), i requires 0 <= i < Min(|labels|, |values|) => (Some(labels[i]), Str(values[i])))
  }

  /** `dict(zip(labels, values))`. */
  function ZipDict(labels: seq<string>, values: seq<string>): (d: Dict<Key, Value>)
    ensures Valid(d)
    ensures |d| <= Min(|labels|, |values|)
    ensures forall e :: e in d ==> exists i :: 0 <= i < Min(|labels|, |values|) && e == (Some(labels[i]), Str(values[i]))
  {
    Update([], TextPairs(labels, values))
  }

  /** Label `k` is paired with the value at the LAST position (below the
      shorter length) where it occurs among the labels; a label that does
      not occur there has no entry. */
  lemma ZipDictLookup(labels: seq<string>, values: seq<string>, k: string)
    ensures Lookup(ZipDict(labels, values), Some(k)).None? <==> k !in labels[..Min(|labels|, |values|)]
    ensures Lookup(ZipDict(labels, values), Some(k)).Some? ==>
              exists j :: 0 <= j < Min(|labels|, |values|) && labels[j] == k
                          && Lookup(ZipDict(labels, values), Some(k)) == Some(Str(values[j]))
                          && forall i :: j < i < Min(|labels|, |values|) ==> labels[i] != k
  {
    var ps := TextPairs(labels, values);
    var n := Min(|labels|, |values|);
    UpdateLookup([], ps, Some(k));
    assert Some(k) in Keys(ps) <==> k in labels[..n] by {
      if Some(k) in Keys(ps) {
        var i :| 0 <= i < |ps| && Keys(ps)[i] == Some(k);
        assert labels[..n][i] == k;
      }
      if k in labels[..n] {
        var i :| 0 <= i < n && labels[..n][i] == k;
        assert Keys(ps)[i] == Some(k);
      }
    }
    if Some(k) in Keys(ps) {
      var j := LastAt(ps, Some(k));
      forall i | j < i < n ensures labels[i] != k {
        assert ps[i].0 != Some(k);
      }
    }
  }

  // ---- The parts of the record --------------------------------------------

  /** The dict display of lines 45-52: identity and the summary fields. */
  function Base(id: string, page: Page, summary: Summary): (d: Record)
    ensures Valid(d)
    ensures Keys(d) == [IdKey, NameKey, PositionsKey, AgeKey, BirthDateKey, HeightKey, WeightKey]
  {
    [ (IdKey, Str(id)),
      (NameKey, TextOrNull(First(page.nameTexts))),
      (PositionsKey, Strs(page.positionTexts)),
      (AgeKey, Str(summary.age)),
      (BirthDateKey, Str(summary.birthDate)),
      (HeightKey, Str(summary.height)),
      (WeightKey, Str(summary.weight)) ]
  }

  /** The placeholder filter of line 57. */
  predicate IsProfileValue(s: string) { s != " " }

  /** Lines 55-59: profile labels zipped with the profile paragraphs that are
      not the single-space placeholder. */
  function ProfileFields(col: Column): (d: Record)
    ensures Valid(d)
    ensures |d| <= Min(|col.labelTexts|, |Filter(IsProfileValue, col.paragraphTexts)|)
    ensures forall e :: e in d ==> e.0.Some? && e.1.Str? && e.1.s != " "
    ensures var values := Filter(IsProfileValue, col.paragraphTexts);
            forall e :: e in d ==> exists i :: 0 <= i < Min(|col.labelTexts|, |values|)
                                              && e == (Some(col.labelTexts[i]), Str(values[i]))
  {
    var values := Filter(IsProfileValue, col.paragraphTexts);
    var d := ZipDict(col.labelTexts, values);
    assert forall e :: e in d ==> e.1.Str? && e.1.s != " " by {
      forall e | e in d ensures e.1.Str? && e.1.s != " " {
        var i :| 0 <= i < Min(|col.labelTexts|, |values|) && e == (Some(col.labelTexts[i]), Str(values[i]));
        assert IsProfileValue(values[i]);
      }
    }
    d
  }

  /** Lines 62-64: the speciality links under one fixed key. */
  function Specialities(col: Column): (d: Record)
    ensures Valid(d) && Keys(d) == [SpecialitiesKey]
    ensures Lookup(d, SpecialitiesKey) == Some(Strs(col.linkTexts))
  {
    [(SpecialitiesKey, Strs(col.linkTexts))]
  }

  /** The inner dict display of lines 73-76: club name to club value, then
      national-team name to national-team value.  When the two names are
      equal there is one entry, at the club's place, holding the national
      value. */
  function Teams(club: Key, clubValue: Value, nation: Key, nationValue: Value): (d: Dict<Key, Value>)
    ensures Valid(d) && 1 <= |d| <= 2
    ensures Lookup(d, nation) == Some(nationValue)
    ensures club != nation ==> Keys(d) == [club, nation] && Lookup(d, club) == Some(clubValue)
    ensures club == nation ==> Keys(d) == [club]
  {
    Set(Set([], club, clubValue), nation, nationValue)
  }

  /** Lines 67-77: the `teams` entry, built from the club and national-team
      columns. */
  function TeamsEntry(clubCol: Column, nationCol: Column): (d: Record)
    ensures Valid(d) && Keys(d) == [TeamsKey]
  {
    var teams := Teams(First(clubCol.linkTexts), TextOrNull(First(clubCol.paragraphTexts)),
                       First(nationCol.linkTexts), TextOrNull(First(nationCol.paragraphTexts)));
    [(TeamsKey, Obj(teams))]
  }

  /** The `div.sub` texts of the columns of one grid. */
  function GridSubTexts(g: Grid): (r: seq<string>)
    ensures forall x :: x in r <==> exists c :: c in g.cols && x in c.subTexts
  {
    var xss := seq(|g.cols|, i requires 0 <= i < |g.cols| => g.cols[i].subTexts);
    forall c | c in g.cols ensures exists i :: 0 <= i < |g.cols| && xss[i] == c.subTexts {
      var i :| 0 <= i < |g.cols| && g.cols[i] == c;
      assert xss[i] == c.subTexts;
    }
    Flatten(xss)
  }

  /** Line 80: the overall labels are the `div.sub` texts of EVERY grid. */
  function OverallLabels(grids: seq<Grid>): (r: seq<string>)
    ensures forall x :: x in r <==> exists j :: 0 <= j < |grids| && x in GridSubTexts(grids[j])
  {
    var xss := seq(|grids|, i requires 0 <= i < |grids| => GridSubTexts(grids[i]));
    assert forall j :: 0 <= j < |grids| ==> xss[j] == GridSubTexts(grids[j]);
    Flatten(xss)
  }

  /** Line 81: the overall values are the `em` texts of the FIRST grid only. */
  function OverallValues(g: Grid): (r: seq<string>)
    ensures forall x :: x in r <==> exists c :: c in g.cols && x in c.emTexts
  {
    var xss := seq(|g.cols|, i requires 0 <= i < |g.cols| => g.cols[i].emTexts);
    forall c | c in g.cols ensures exists i :: 0 <= i < |g.cols| && xss[i] == c.emTexts {
      var i :| 0 <= i < |g.cols| && g.cols[i] == c;
      assert xss[i] == c.emTexts;
    }
    Flatten(xss)
  }

  /** Lines 80-83: the labels of every grid zipped, position by position,
      with the values of the first grid. */
  function OverallAttributes(grids: seq<Grid>): (r: Record)
    requires |grids| >= 1
    ensures Valid(r)
    ensures |r| <= Min(|OverallLabels(grids)|, |OverallValues(grids[0])|)
    ensures forall e :: e in r ==> exists i :: 0 <= i < Min(|OverallLabels(grids)|, |OverallValues(grids[0])|)
                                              && e == (Some(OverallLabels(grids)[i]), Str(OverallValues(grids[0])[i]))
    ensures forall e :: e in r ==> e.0.Some? && e.1.Str? && exists c :: c in grids[0].cols && e.1.s in c.emTexts
  {
    var values := OverallValues(grids[0]);
    var r := ZipDict(OverallLabels(grids), values);
    assert forall e :: e in r ==> e.0.Some? && e.1.Str? && e.1.s in values;
    r
  }

  /** Line 86: the columns of grids 3 and 4 (`info_grid[3:5]`, which is
      shorter, or empty, on a page with fewer grids). */
  function DetailColumns(grids: seq<Grid>): (cols: seq<Column>)
    ensures |grids| <= 3 ==> cols == []
    ensures |grids| == 4 ==> cols == grids[3].cols
    ensures |grids| >= 5 ==> cols == grids[3].cols + grids[4].cols
  {
    var lo := Min(3, |grids|);
    var hi := Min(5, |grids|);
    var gs := grids[lo..hi];
    if gs == [] then [] else if |gs| == 1 then gs[0].cols else gs[0].cols + gs[1].cols
  }

  /** The boost-annotation filter of line 87. */
  predicate IsAttributeLabel(s: string) { '+' !in s && '-' !in s }

  /** Line 87: the `span` labels of a column without the boost annotations. */
  function AttributeLabels(col: Column): (r: seq<string>)
    ensures forall i :: 0 <= i < |r| ==> IsAttributeLabel(r[i])
  {
    Filter(IsAttributeLabel, col.spanTexts)
  }

  /** `h5::text` `.get()` of a column (lines 91 and 93). */
  function Heading(col: Column): (k: Key)
    ensures k.None? <==> col.headingTexts == []
  {
    First(col.headingTexts)
  }

  /** The dict comprehension of line 91: each column but the last, its
      heading to its labels zipped with its values. */
  function GroupEntries(cols: seq<Column>, n: nat): (ps: seq<(Key, Value)>)
    requires n <= |cols|
    ensures |ps| == n
    ensures forall i :: 0 <= i < n ==> ps[i] == (Heading(cols[i]), Group(cols[i]))
  {
    seq(n, i requires 0 <= i < n => (Heading(cols[i]), Group(cols[i])))
  }

  /** The dict comprehension of line 91 as a dict. */
  function LeadingGroups(cols: seq<Column>): (g: Record)
    requires |cols| > 0
    ensures Valid(g)
    ensures forall e :: e in g ==> e in GroupEntries(cols, |cols| - 1)
  {
    Update([], GroupEntries(cols, |cols| - 1))
  }

  /** Lines 86-93: the detailed attribute groups.  The last column is added
      as a bare list of its labels, and only when that list is not empty;
      with no columns at all `d_attributes[-1]` raises. */
  function AttributeGroups(cols: seq<Column>): (r: Result<Record, ParseError>)
    ensures r.Failure? <==> |cols| == 0
    ensures r.Success? ==> Valid(r.value)
  {
    if |cols| == 0 then Failure(NoAttributeColumns)
    else
      var n := |cols| - 1;
      var last := AttributeLabels(cols[n]);
      if |last| > 0 then Success(Set(LeadingGroups(cols), Heading(cols[n]), Strs(last)))
      else Success(LeadingGroups(cols))
  }

  /** The last of the first `n` columns whose heading is `k`, or -1 when
      none is. */
  function LastHeading(cols: seq<Column>, k: Key, n: nat): (j: int)
    requires n <= |cols|
    ensures -1 <= j < n
    ensures j >= 0 ==> Heading(cols[j]) == k
    ensures forall i :: j < i < n ==> Heading(cols[i]) != k
    decreases n
  {
    if n == 0 then -1
    else if Heading(cols[n - 1]) == k then n - 1
    else LastHeading(cols, k, n - 1)
  }

  /** The value of one leading column in the dict comprehension. */
  function Group(col: Column): (v: Value)
    ensures v.Obj? && Valid(v.fields)
    ensures forall f :: f in v.fields ==> f.0.Some? && IsAttributeLabel(f.0.value)
  {
    GroupLabelsUnannotated(col);
    Obj(ZipDict(AttributeLabels(col), col.emTexts))
  }

  /** A heading of the leading columns maps to the group dict of the LAST
      of them that carries it, and a heading of none of them is absent. */
  lemma LeadingGroupsLookup(cols: seq<Column>, k: Key)
    requires |cols| > 0
    ensures var j := LastHeading(cols, k, |cols| - 1);
            Lookup(LeadingGroups(cols), k) == if j < 0 then None else Some(Group(cols[j]))
  {
    if LastHeading(cols, k, |cols| - 1) >= 0 {
      LeadingGroupsFound(cols, k);
    } else {
      LeadingGroupsAbsent(cols, k);
    }
  }

  lemma LeadingGroupsFound(cols: seq<Column>, k: Key)
    requires |cols| > 0 && LastHeading(cols, k, |cols| - 1) >= 0
    ensures Lookup(LeadingGroups(cols), k) == Some(Group(cols[LastHeading(cols, k, |cols| - 1)]))
  {
    var ps := GroupEntries(cols, |cols| - 1);
    var j := LastHeading(cols, k, |cols| - 1);
    assert Keys(ps)[j] == k;
    UpdateLookup([], ps, k);
    var j' := LastAt(ps, k);
    assert ps[j'].0 == Heading(cols[j']);
    assert j' == j;
  }

  lemma LeadingGroupsAbsent(cols: seq<Column>, k: Key)
    requires |cols| > 0 && LastHeading(cols, k, |cols| - 1) < 0
    ensures Lookup(LeadingGroups(cols), k) == None
  {
    var ps := GroupEntries(cols, |cols| - 1);
    forall i | 0 <= i < |Keys(ps)| ensures Keys(ps)[i] != k {
      assert Keys(ps)[i] == Heading(cols[i]);
    }
    UpdateLookup([], ps, k);
  }

  /** Which value a heading gets among the attribute groups: the labels list
      of the last column when that list is not empty and the heading is the
      last column's; otherwise the label/value dict of the LAST other column
      with that heading; no entry when no column has it. */
  lemma AttributeGroupsLookup(cols: seq<Column>, k: Key)
    requires |cols| > 0
    ensures var n := |cols| - 1;
            var j := LastHeading(cols, k, n);
            Lookup(AttributeGroups(cols).value, k) ==
              if |AttributeLabels(cols[n])| > 0 && k == Heading(cols[n]) then Some(Strs(AttributeLabels(cols[n])))
              else if j < 0 then None
              else Some(Group(cols[j]))
  {
    LeadingGroupsLookup(cols, k);
  }

  /** No label kept among the attribute groups carries a boost annotation
      ('+' or '-'), whether it is a key of a group dict or an item of the
      trailing labels list. */
  lemma AttributeLabelsUnannotated(cols: seq<Column>)
    requires |cols| > 0
    ensures forall e :: e in AttributeGroups(cols).value ==>
              (e.1.Strs? && forall s :: s in e.1.items ==> IsAttributeLabel(s))
              || (e.1.Obj? && forall f :: f in e.1.fields ==> f.0.Some? && IsAttributeLabel(f.0.value))
  {
    var n := |cols| - 1;
    var ps := GroupEntries(cols, n);
    forall e | e in LeadingGroups(cols)
      ensures e.1.Obj? && forall f :: f in e.1.fields ==> f.0.Some? && IsAttributeLabel(f.0.value)
    {
      var i :| 0 <= i < n && ps[i] == e;
      GroupLabelsUnannotated(cols[i]);
    }
    var last := AttributeLabels(cols[n]);
    forall s | s in last ensures IsAttributeLabel(s) {
      var m :| 0 <= m < |last| && last[m] == s;
    }
  }

  lemma GroupLabelsUnannotated(col: Column)
    ensures forall f :: f in ZipDict(AttributeLabels(col), col.emTexts) ==> f.0.Some? && IsAttributeLabel(f.0.value)
  {
    var labels := AttributeLabels(col);
    forall f | f in ZipDict(labels, col.emTexts) ensures f.0.Some? && IsAttributeLabel(f.0.value) {
      var m :| 0 <= m < Min(|labels|, |col.emTexts|) && f == (Some(labels[m]), Str(col.emTexts[m]));
    }
  }

  /** The `.update` chain of lines 96-100. */
  function Merge(base: Record, overall: Record, profile: Record, teams: Record,
                 specialities: Record, attributes: Record): Record
  {
    Update(Update(Update(Update(Update(base, overall), profile), teams), specialities), attributes)
  }

  /** The `.update` chain keeps a dict a dict, keeps the base keys in
      place at the front, and holds every key of the teams and specialities
      dicts. */
  lemma MergeKeys(base: Record, overall: Record, profile: Record, teams: Record,
                  specialities: Record, attributes: Record)
    requires Valid(base)
    ensures Valid(Merge(base, overall, profile, teams, specialities, attributes))
    ensures Keys(base) <= Keys(Merge(base, overall, profile, teams, specialities, attributes))
    ensures forall k :: k in Keys(teams) || k in Keys(specialities) ==>
              k in Keys(Merge(base, overall, profile, teams, specialities, attributes))
  {
    var d1 := Update(base, overall);
    var d2 := Update(d1, profile);
    var d3 := Update(d2, teams);
    var d4 := Update(d3, specialities);
    var d5 := Update(d4, attributes);
    PrefixTrans(Keys(base), Keys(d1), Keys(d2));
    PrefixTrans(Keys(base), Keys(d2), Keys(d3));
    PrefixTrans(Keys(base), Keys(d3), Keys(d4));
    PrefixTrans(Keys(base), Keys(d4), Keys(d5));
  }

  // Prefix transitivity, stated once so that MergeKeys stays cheap to verify.
  lemma PrefixTrans<T>(a: seq<T>, b: seq<T>, c: seq<T>)
    requires a <= b && b <= c
    ensures a <= c
  {
    assert a == b[..|a|];
    assert b == c[..|b|];
    assert c[..|b|][..|a|] == c[..|a|];
  }

  /** The `.update` chain gives each key the value of the LAST of the six
      dicts that holds it. */
  lemma MergeLookup(base: Record, overall: Record, profile: Record, teams: Record,
                    specialities: Record, attributes: Record, k: Key)
    requires Valid(overall) && Valid(profile) && Valid(teams) && Valid(specialities) && Valid(attributes)
    ensures Lookup(Merge(base, overall, profile, teams, specialities, attributes), k) ==
              if k in Keys(attributes) then Lookup(attributes, k)
              else if k in Keys(specialities) then Lookup(specialities, k)
              else if k in Keys(teams) then Lookup(teams, k)
              else if k in Keys(profile) then Lookup(profile, k)
              else if k in Keys(overall) then Lookup(overall, k)
              else Lookup(base, k)
  {
    var d1 := Update(base, overall);
    var d2 := Update(d1, profile);
    var d3 := Update(d2, teams);
    var d4 := Update(d3, specialities);
    UpdateWithDict(base, overall, k);
    UpdateWithDict(d1, profile, k);
    UpdateWithDict(d2, teams, k);
    UpdateWithDict(d3, specialities, k);
    UpdateWithDict(d4, attributes, k);
  }

  /** Applying the whole `.update` chain a second time changes nothing:
      re-merging the same sub-dicts into the record is idempotent. */
  lemma MergeIdempotent(base: Record, overall: Record, profile: Record, teams: Record,
                        specialities: Record, attributes: Record)
    requires Valid(base) && Valid(overall) && Valid(profile) && Valid(teams) && Valid(specialities) && Valid(attributes)
    ensures var m := Merge(base, overall, profile, teams, specialities, attributes);
            Merge(m, overall, profile, teams, specialities, attributes) == m
  {
    var m := Merge(base, overall, profile, teams, specialities, attributes);
    var twice := Merge(m, overall, profile, teams, specialities, attributes);
    MergeKeys(base, overall, profile, teams, specialities, attributes);
    MergeKeys(m, overall, profile, teams, specialities, attributes);
    var d1 := Update(m, overall);
    var d2 := Update(d1, profile);
    var d3 := Update(d2, teams);
    var d4 := Update(d3, specialities);
    KeysNoGrowth(m, overall);
    KeysNoGrowth(d1, profile);
    KeysNoGrowth(d2, teams);
    KeysNoGrowth(d3, specialities);
    KeysNoGrowth(d4, attributes);
    forall k ensures Lookup(twice, k) == Lookup(m, k) {
      MergeLookup(m, overall, profile, teams, specialities, attributes, k);
      MergeLookup(base, overall, profile, teams, specialities, attributes, k);
    }
    Extensionality(twice, m);
  }

  /** No dict merged after the display of lines 45-52 has an `id` key, so
      the updates of lines 96-100 leave the identifier in place.  (A label
      or heading that reads `id` would replace it.) */
  predicate KeepsId(page: Page)
  {
    && |page.grids| >= 2 && |page.grids[1].cols| >= 1
    && IdKey !in Keys(OverallAttributes(page.grids))
    && IdKey !in Keys(ProfileFields(page.grids[1].cols[0]))
    && (AttributeGroups(DetailColumns(page.grids)).Success? ==>
          IdKey !in Keys(AttributeGroups(DetailColumns(page.grids)).value))
  }

  /** Every assembled record starts with the `id` key: the later dicts can
      change its value but not its place.  When none of them has an `id`
      key, the entry holds the player's identifier. */
  lemma AssembledStartsWithId(id: string, page: Page, template: string -> Option<Summary>)
    requires Assemble(id, page, template).Success?
    ensures Assemble(id, page, template).value != []
    ensures Assemble(id, page, template).value[0].0 == IdKey
    ensures KeepsId(page) ==> Assemble(id, page, template).value[0] == (IdKey, Str(id))
  {
    AssembleSpec(id, page, template);
    var r := Assemble(id, page, template).value;
    var b := Base(id, page, template(Last(page.profileTexts)).value);
    assert Keys(b)[0] == IdKey;
    assert Keys(r)[0] == IdKey;
    if KeepsId(page) {
      var cols := page.grids[1].cols;
      var attributes := AttributeGroups(DetailColumns(page.grids)).value;
      assert r == Merge(b, OverallAttributes(page.grids), ProfileFields(cols[0]), TeamsEntry(cols[2], cols[3]),
                        Specialities(cols[1]), attributes);
      MergeLookup(b, OverallAttributes(page.grids), ProfileFields(cols[0]), TeamsEntry(cols[2], cols[3]),
                  Specialities(cols[1]), attributes, IdKey);
      assert Lookup(b, IdKey) == Some(Str(id));
      LookupAt(r, 0);
    }
  }

  /** `getall()[-1]` on a non-empty selection (line 40). */
  function Last(xs: seq<string>): (x: string)
    requires xs != []
    ensures x in xs
  {
    xs[|xs| - 1]
  }

  /** `parse` up to `yield player_dictionary`, for the player whose
      identifier is `id`.  `template` stands for `par.parse` with the profile
      template, applied to the last profile paragraph.  What it yields is
      stated by `AssembleSpec`. */
  function Assemble(id: string, page: Page, template: string -> Option<Summary>): Result<Record, ParseError>
  {
    if |page.profileTexts| == 0 then Failure(NoProfileText)
    else
      var summary := template(Last(page.profileTexts));
      if summary.None? then Failure(TemplateMismatch)
      else if |page.grids| < 2 then Failure(MissingGrid)
      else
        var cols := page.grids[1].cols;
        if |cols| < 4 then Failure(MissingColumn)
        else
          match AttributeGroups(DetailColumns(page.grids))
          case Failure(e) => Failure(e)
          case Success(attributes) =>
            Success(Merge(Base(id, page, summary.value), OverallAttributes(page.grids), ProfileFields(cols[0]),
                          TeamsEntry(cols[2], cols[3]), Specialities(cols[1]), attributes))
  }
  /** `parse` yields a record exactly when the page has a profile paragraph
      the template matches, a second grid with at least four columns, and
      at least one attribute column; without a profile paragraph it raises
      first.  The record is a dict (no key twice) that holds the base keys
      in their order, the teams entry and the specialities. */
  lemma AssembleSpec(id: string, page: Page, template: string -> Option<Summary>)
    ensures Assemble(id, page, template).Success? <==>
              && |page.profileTexts| > 0 && template(Last(page.profileTexts)).Some?
              && |page.grids| >= 2 && |page.grids[1].cols| >= 4
              && |DetailColumns(page.grids)| > 0
    ensures |page.profileTexts| == 0 ==> Assemble(id, page, template) == Failure(NoProfileText)
    ensures Assemble(id, page, template).Success? ==> Valid(Assemble(id, page, template).value)
    ensures Assemble(id, page, template).Success? ==>
              Keys(Base(id, page, template(Last(page.profileTexts)).value)) <= Keys(Assemble(id, page, template).value)
    ensures Assemble(id, page, template).Success? ==>
              TeamsKey in Keys(Assemble(id, page, template).value) && SpecialitiesKey in Keys(Assemble(id, page, template).value)
  {
    if |page.profileTexts| > 0 && template(Last(page.profileTexts)).Some? && |page.grids| >= 2 && |page.grids[1].cols| >= 4 {
      var cols := page.grids[1].cols;
      var base := Base(id, page, template(Last(page.profileTexts)).value);
      match AttributeGroups(DetailColumns(page.grids)) {
        case Failure(e) =>
        case Success(attributes) =>
          var teams := TeamsEntry(cols[2], cols[3]);
          var specialities := Specialities(cols[1]);
          MergeKeys(base, OverallAttributes(page.grids), ProfileFields(cols[0]), teams, specialities, attributes);
          assert Assemble(id, page, template) ==
                   Success(Merge(base, OverallAttributes(page.grids), ProfileFields(cols[0]), teams, specialities, attributes));
      }
    }
  }


}
