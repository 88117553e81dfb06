/**
 * Boundary lookups of the dashboard service: rows of the district and sub-district GeoJSON tables
 * selected by a case-insensitive name and wrapped as a GeoJSON FeatureCollection. The geometry itself
 * (parsing, ST_Union, ST_AsGeoJSON) is computed by the database and carried here as opaque text.
 */
module Geo {
  import opened Options
  import opened Collections
  import Text

  /** A row of `district_geojson` or `subdistrict_geojson` (`sub_dist` is empty in the district table). */
  datatype GeoRow = GeoRow(ogcFid: int, stateUt: string, district: string, subDist: string, geojson: Option<string>)

  /**
   * One feature: its id, the key of its top-level name (`st_nm`, `dt_name` or `ac_name`) and its value, the
   * geometry as produced by the database, and the `properties` object.
   */
  datatype Feature = Feature(id: int, nameKey: string, name: string, geometry: string, properties: map<string, string>)

  datatype FeatureCollection = FeatureCollection(kind: string, features: seq<Feature>)

  /** wrapGeoJSON: a FeatureCollection of the given features, or of none when there are none. */
  function WrapGeoJSON(features: Option<seq<Feature>>): (c: FeatureCollection)
    ensures c.kind == "FeatureCollection"
    ensures features.None? ==> c.features == []
    ensures features.Some? ==> c.features == features.value
  {
    FeatureCollection("FeatureCollection", if features.Some? then features.value else [])
  }

  // ---------------------------------------------------------------------------------------------
  // State, district and block boundaries

  function StateOf(r: GeoRow): string { r.stateUt }
  function DistrictOf(r: GeoRow): string { r.district }
  function SubDistOf(r: GeoRow): string { r.subDist }

  /** `WHERE LOWER(column) = $1 AND geojson IS NOT NULL`, with $1 the lower-cased name. */
  function NamedRows(rows: seq<GeoRow>, column: GeoRow -> string, name: string): (r: seq<GeoRow>)
    ensures forall x :: x in r <==> x in rows && x.geojson.Some? && Text.Lower(column(x)) == Text.Lower(name)
  {
    Filter(rows, (x: GeoRow) => x.geojson.Some? && Text.Lower(column(x)) == Text.Lower(name))
  }

  /** A district of a state: named by `dt_name`, with its district and state as properties. */
  function DistrictFeature(r: GeoRow): Feature
    requires r.geojson.Some?
  {
    Feature(r.ogcFid, "dt_name", r.district, r.geojson.value, map["dt_name" := r.district, "st_nm" := r.stateUt])
  }

  /** A sub-district: named by `ac_name`, with its sub-district, district and state as properties. */
  function SubDistFeature(r: GeoRow): Feature
    requires r.geojson.Some?
  {
    Feature(r.ogcFid, "ac_name", r.subDist, r.geojson.value,
            map["ac_name" := r.subDist, "dt_name" := r.district, "st_nm" := r.stateUt])
  }

  function Features(rows: seq<GeoRow>, feature: GeoRow --> Feature): (fs: seq<Feature>)
    requires forall r :: r in rows ==> feature.requires(r)
    ensures |fs| == |rows|
    ensures forall i :: 0 <= i < |rows| ==> fs[i] == feature(rows[i])
  {
    if rows == [] then [] else [feature(rows[0])] + Features(rows[1..], feature)
  }

  /**
   * `geojson::jsonb` raises on an empty text, which `geojson IS NOT NULL` lets through; the query
   * then fails as a whole.
   */
  predicate CastFails(r: GeoRow) { r.geojson == Some("") }

  /** A selection either fails on a row whose geojson cannot be cast, or yields one feature per row. */
  function Selected(named: seq<GeoRow>, feature: GeoRow --> Feature): Option<seq<Feature>>
    requires forall r :: r in named ==> feature.requires(r)
  {
    if exists r :: r in named && CastFails(r) then None else Some(Features(named, feature))
  }

  /** getStateBoundaries: the districts of the named state; None when the query fails. */
  function StateBoundaries(districts: seq<GeoRow>, stateName: string): Option<FeatureCollection> {
    var fs := Selected(NamedRows(districts, StateOf, stateName), DistrictFeature);
    if fs.None? then None else Some(WrapGeoJSON(fs))
  }

  /** getDistrictBoundaries: the sub-districts of the named district; None when the query fails. */
  function DistrictBoundaries(subDistricts: seq<GeoRow>, distName: string): Option<FeatureCollection> {
    var fs := Selected(NamedRows(subDistricts, DistrictOf, distName), SubDistFeature);
    if fs.None? then None else Some(WrapGeoJSON(fs))
  }

  /**
   * getBlockBoundaries: the sub-districts whose own name is the block's (built without wrapGeoJSON);
   * None when the query fails, whose error the catch block rethrows.
   */
  function BlockBoundaries(subDistricts: seq<GeoRow>, blockName: string): Option<FeatureCollection> {
    var fs := Selected(NamedRows(subDistricts, SubDistOf, blockName), SubDistFeature);
    if fs.None? then None else Some(FeatureCollection("FeatureCollection", fs.value))
  }

  // ---------------------------------------------------------------------------------------------
  // National boundaries: one feature per state

  /** `WHERE geojson IS NOT NULL AND geojson != ''`. */
  function HasGeometry(r: GeoRow): bool { r.geojson.Some? && r.geojson.value != "" }

  function IdOf(r: GeoRow): int { r.ogcFid }

  /** The stored GeoJSON text of a row, `''` for NULL. */
  function GeojsonOf(r: GeoRow): string { r.geojson.GetOr("") }

  /**
   * One state of `GROUP BY state_ut`: `MIN(ogc_fid)` as its id, named by `st_nm`, with the union of
   * its districts' geometries. That union is computed by the database and is a parameter here.
   */
  function StateFeature(group: seq<GeoRow>, state: string, union: seq<string> -> string): Feature
    requires group != []
  {
    Feature(MinOf(Project(group, IdOf)), "st_nm", state, union(Project(group, GeojsonOf)), map["st_nm" := state])
  }

  function StateFeatures(rows: seq<GeoRow>, states: seq<string>, union: seq<string> -> string): (fs: seq<Feature>)
    requires forall s :: s in states ==> s in GroupKeys(rows, StateOf)
    ensures |fs| == |states|
  {
    if states == [] then []
    else
      GroupNonEmpty(rows, StateOf, states[0]);
      [StateFeature(Group(rows, StateOf, states[0]), states[0], union)]
        + StateFeatures(rows, states[1..], union)
  }

  /** getNationalBoundaries; `union` stands for the database's union of one state's geometries. */
  function NationalBoundaries(districts: seq<GeoRow>, union: seq<string> -> string): FeatureCollection {
    var mapped := Filter(districts, HasGeometry);
    WrapGeoJSON(Some(StateFeatures(mapped, GroupKeys(mapped, StateOf), union)))
  }

  // ---------------------------------------------------------------------------------------------
  // Properties

  /** wrapGeoJSON always yields a FeatureCollection; an absent feature list becomes the empty one. */
  lemma WrapShape(features: Option<seq<Feature>>)
    ensures WrapGeoJSON(features).kind == "FeatureCollection"
    ensures WrapGeoJSON(None).features == []
    ensures WrapGeoJSON(Some([])) == WrapGeoJSON(None)
  {
  }

  /** The name lookup ignores case: the lower-cased name selects the same rows. */
  lemma NamedRowsIgnoreCase(rows: seq<GeoRow>, column: GeoRow -> string, name: string)
    ensures NamedRows(rows, column, Text.Lower(name)) == NamedRows(rows, column, name)
  {
    Text.LowerIdempotent(name);
    FilterCongruent(rows,
      (x: GeoRow) => x.geojson.Some? && Text.Lower(column(x)) == Text.Lower(Text.Lower(name)),
      (x: GeoRow) => x.geojson.Some? && Text.Lower(column(x)) == Text.Lower(name));
  }

  /** A name that no row with geometry carries, in any case, selects nothing. */
  lemma NamedRowsUnmatched(rows: seq<GeoRow>, column: GeoRow -> string, name: string)
    requires forall x :: x in rows && x.geojson.Some? ==> Text.Lower(column(x)) != Text.Lower(name)
    ensures NamedRows(rows, column, name) == []
  {
    FilterNone(rows, (x: GeoRow) => x.geojson.Some? && Text.Lower(column(x)) == Text.Lower(name));
  }

  /** A named selection fails exactly when a row of that name has an empty geojson text. */
  lemma SelectedFails(rows: seq<GeoRow>, column: GeoRow -> string, name: string, feature: GeoRow --> Feature)
    requires forall r :: r in NamedRows(rows, column, name) ==> feature.requires(r)
    ensures Selected(NamedRows(rows, column, name), feature).None?
      <==> exists r :: r in rows && CastFails(r) && Text.Lower(column(r)) == Text.Lower(name)
    ensures Selected(NamedRows(rows, column, name), feature).Some?
      ==> Selected(NamedRows(rows, column, name), feature).value == Features(NamedRows(rows, column, name), feature)
  {
  }

  /**
   * getStateBoundaries ignores the case of the name. It fails exactly when a district of that state
   * has an empty geojson text. Otherwise its features are the districts with geometry of that state,
   * one per row, each named by `dt_name` and carrying its state; an unknown state gives an empty
   * FeatureCollection.
   */
  lemma {:induction false} StateBoundariesFacts(districts: seq<GeoRow>, stateName: string)
    ensures StateBoundaries(districts, Text.Lower(stateName)) == StateBoundaries(districts, stateName)
    ensures StateBoundaries(districts, stateName).None?
      <==> exists r :: r in districts && CastFails(r) && Text.Lower(r.stateUt) == Text.Lower(stateName)
    ensures var c := StateBoundaries(districts, stateName);
      c.Some? ==>
        c.value.kind == "FeatureCollection"
        && (forall i :: 0 <= i < |c.value.features| ==>
              (c.value.features[i].nameKey == "dt_name" && "st_nm" in c.value.features[i].properties
               && Text.Lower(c.value.features[i].properties["st_nm"]) == Text.Lower(stateName)))
        && (forall r :: r in districts && r.geojson.Some? && Text.Lower(r.stateUt) == Text.Lower(stateName)
              ==> DistrictFeature(r) in c.value.features)
    ensures (forall r :: r in districts && r.geojson.Some? ==> Text.Lower(r.stateUt) != Text.Lower(stateName))
      ==> StateBoundaries(districts, stateName) == Some(FeatureCollection("FeatureCollection", []))
  {
    NamedRowsIgnoreCase(districts, StateOf, stateName);
    SelectedFails(districts, StateOf, stateName, DistrictFeature);
    var named := NamedRows(districts, StateOf, stateName);
    var fs := Features(named, DistrictFeature);
    DistrictsOfState(districts, stateName);
    var c := StateBoundaries(districts, stateName);
    assert c.Some? ==> c.value == FeatureCollection("FeatureCollection", fs);
    if forall r :: r in districts && r.geojson.Some? ==> Text.Lower(r.stateUt) != Text.Lower(stateName) {
      NamedRowsUnmatched(districts, StateOf, stateName);
    }
  }

  /**
   * getDistrictBoundaries ignores the case of the name. It fails exactly when a sub-district of that
   * district has an empty geojson text. Otherwise each feature is a sub-district named by `ac_name`
   * whose district matches, and every matching sub-district with geometry is among them.
   */
  lemma {:induction false} DistrictBoundariesFacts(subDistricts: seq<GeoRow>, name: string)
    ensures DistrictBoundaries(subDistricts, Text.Lower(name)) == DistrictBoundaries(subDistricts, name)
    ensures DistrictBoundaries(subDistricts, name).None?
      <==> exists r :: r in subDistricts && CastFails(r) && Text.Lower(r.district) == Text.Lower(name)
    ensures var c := DistrictBoundaries(subDistricts, name);
      c.Some? ==>
        c.value.kind == "FeatureCollection"
        && (forall i :: 0 <= i < |c.value.features| ==>
              (c.value.features[i].nameKey == "ac_name" && "dt_name" in c.value.features[i].properties
               && Text.Lower(c.value.features[i].properties["dt_name"]) == Text.Lower(name)))
        && (forall r :: r in subDistricts && r.geojson.Some? && Text.Lower(r.district) == Text.Lower(name)
              ==> SubDistFeature(r) in c.value.features)
  {
    NamedRowsIgnoreCase(subDistricts, DistrictOf, name);
    SelectedFails(subDistricts, DistrictOf, name, SubDistFeature);
    var named := NamedRows(subDistricts, DistrictOf, name);
    var fs := Features(named, SubDistFeature);
    SubDistrictsOfDistrict(subDistricts, name);
    var c := DistrictBoundaries(subDistricts, name);
    assert c.Some? ==> c.value == FeatureCollection("FeatureCollection", fs);
  }

  /**
   * getBlockBoundaries ignores the case of the name. It fails exactly when a sub-district of that
   * name has an empty geojson text. Otherwise each feature is a sub-district named by `ac_name` whose
   * own name matches, and every matching sub-district with geometry is among them.
   */
  lemma {:induction false} BlockBoundariesFacts(subDistricts: seq<GeoRow>, name: string)
    ensures BlockBoundaries(subDistricts, Text.Lower(name)) == BlockBoundaries(subDistricts, name)
    ensures BlockBoundaries(subDistricts, name).None?
      <==> exists r :: r in subDistricts && CastFails(r) && Text.Lower(r.subDist) == Text.Lower(name)
    ensures var c := BlockBoundaries(subDistricts, name);
      c.Some? ==>
        c.value.kind == "FeatureCollection"
        && (forall i :: 0 <= i < |c.value.features| ==>
              (c.value.features[i].nameKey == "ac_name" && Text.Lower(c.value.features[i].name) == Text.Lower(name)))
        && (forall r :: r in subDistricts && r.geojson.Some? && Text.Lower(r.subDist) == Text.Lower(name)
              ==> SubDistFeature(r) in c.value.features)
  {
    NamedRowsIgnoreCase(subDistricts, SubDistOf, name);
    SelectedFails(subDistricts, SubDistOf, name, SubDistFeature);
    var named := NamedRows(subDistricts, SubDistOf, name);
    var fs := Features(named, SubDistFeature);
    SubDistrictsNamed(subDistricts, name);
    var c := BlockBoundaries(subDistricts, name);
    assert c.Some? ==> c.value == FeatureCollection("FeatureCollection", fs);
  }

  /** The district features of a state: each carries the state, and every district of it with geometry is one. */
  lemma DistrictsOfState(districts: seq<GeoRow>, stateName: string)
    ensures var fs := Features(NamedRows(districts, StateOf, stateName), DistrictFeature);
      (forall i :: 0 <= i < |fs| ==>
         (fs[i].nameKey == "dt_name" && "st_nm" in fs[i].properties
          && Text.Lower(fs[i].properties["st_nm"]) == Text.Lower(stateName)))
      && (forall r :: r in districts && r.geojson.Some? && Text.Lower(r.stateUt) == Text.Lower(stateName)
            ==> DistrictFeature(r) in fs)
  {
    var named := NamedRows(districts, StateOf, stateName);
    var fs := Features(named, DistrictFeature);
    forall i | 0 <= i < |fs|
      ensures fs[i].nameKey == "dt_name" && "st_nm" in fs[i].properties
        && Text.Lower(fs[i].properties["st_nm"]) == Text.Lower(stateName)
    {
      assert named[i] in named;
    }
    forall r | r in districts && r.geojson.Some? && Text.Lower(r.stateUt) == Text.Lower(stateName)
      ensures DistrictFeature(r) in fs
    {
      var k :| 0 <= k < |named| && named[k] == r;
      assert fs[k] == DistrictFeature(r);
    }
  }

  /** The sub-district features of a district: each carries the district, and every sub-district of it with geometry is one. */
  lemma SubDistrictsOfDistrict(subDistricts: seq<GeoRow>, name: string)
    ensures var fs := Features(NamedRows(subDistricts, DistrictOf, name), SubDistFeature);
      (forall i :: 0 <= i < |fs| ==>
         (fs[i].nameKey == "ac_name" && "dt_name" in fs[i].properties
          && Text.Lower(fs[i].properties["dt_name"]) == Text.Lower(name)))
      && (forall r :: r in subDistricts && r.geojson.Some? && Text.Lower(r.district) == Text.Lower(name)
            ==> SubDistFeature(r) in fs)
  {
    var named := NamedRows(subDistricts, DistrictOf, name);
    var fs := Features(named, SubDistFeature);
    forall i | 0 <= i < |fs|
      ensures fs[i].nameKey == "ac_name" && "dt_name" in fs[i].properties
        && Text.Lower(fs[i].properties["dt_name"]) == Text.Lower(name)
    {
      assert named[i] in named;
    }
    forall r | r in subDistricts && r.geojson.Some? && Text.Lower(r.district) == Text.Lower(name)
      ensures SubDistFeature(r) in fs
    {
      var k :| 0 <= k < |named| && named[k] == r;
      assert fs[k] == SubDistFeature(r);
    }
  }

  /** The sub-district features of a name: each has that name, and every sub-district so named with geometry is one. */
  lemma SubDistrictsNamed(subDistricts: seq<GeoRow>, name: string)
    ensures var fs := Features(NamedRows(subDistricts, SubDistOf, name), SubDistFeature);
      (forall i :: 0 <= i < |fs| ==> (fs[i].nameKey == "ac_name" && Text.Lower(fs[i].name) == Text.Lower(name)))
      && (forall r :: r in subDistricts && r.geojson.Some? && Text.Lower(r.subDist) == Text.Lower(name)
            ==> SubDistFeature(r) in fs)
  {
    var named := NamedRows(subDistricts, SubDistOf, name);
    var fs := Features(named, SubDistFeature);
    forall i | 0 <= i < |fs|
      ensures fs[i].nameKey == "ac_name" && Text.Lower(fs[i].name) == Text.Lower(name)
    {
      assert named[i] in named;
    }
    forall r | r in subDistricts && r.geojson.Some? && Text.Lower(r.subDist) == Text.Lower(name)
      ensures SubDistFeature(r) in fs
    {
      var k :| 0 <= k < |named| && named[k] == r;
      assert fs[k] == SubDistFeature(r);
    }
  }

  /** The id of a state's feature is the least `ogc_fid` among its rows, and one of them. */
  lemma GroupMinId(rows: seq<GeoRow>, state: string)
    requires state in GroupKeys(rows, StateOf)
    ensures Group(rows, StateOf, state) != []
    ensures var m := MinOf(Project(Group(rows, StateOf, state), IdOf));
      (exists r :: r in rows && r.stateUt == state && r.ogcFid == m)
      && (forall r :: r in rows && r.stateUt == state ==> m <= r.ogcFid)
  {
    GroupNonEmpty(rows, StateOf, state);
    var g := Group(rows, StateOf, state);
    var ids := Project(g, IdOf);
    var m := MinOf(ids);
    var k :| 0 <= k < |ids| && ids[k] == m;
    assert g[k] in g;
    forall r | r in rows && r.stateUt == state ensures m <= r.ogcFid {
      assert r in g;
      var j :| 0 <= j < |g| && g[j] == r;
      assert ids[j] == r.ogcFid && ids[j] in ids;
    }
  }

  /** The i-th feature of the national map is built from the i-th state's group. */
  lemma {:induction false} StateFeaturesFollow(rows: seq<GeoRow>, states: seq<string>, union: seq<string> -> string, i: nat)
    requires forall s :: s in states ==> s in GroupKeys(rows, StateOf)
    requires i < |states|
    ensures Group(rows, StateOf, states[i]) != []
    ensures StateFeatures(rows, states, union)[i] == StateFeature(Group(rows, StateOf, states[i]), states[i], union)
  {
    if i == 0 {
      GroupNonEmpty(rows, StateOf, states[0]);
    } else {
      StateFeaturesFollow(rows, states[1..], union, i - 1);
      assert states[1..][i - 1] == states[i];
    }
  }

  /** Every state that has a district with non-empty geometry has a feature on the national map. */
  lemma NationalCovers(districts: seq<GeoRow>, union: seq<string> -> string, r: GeoRow)
    requires r in districts && HasGeometry(r)
    ensures exists i :: (0 <= i < |NationalBoundaries(districts, union).features|
      && NationalBoundaries(districts, union).features[i].name == r.stateUt)
  {
    var mapped := Filter(districts, HasGeometry);
    var ks := Project(mapped, StateOf);
    var states := GroupKeys(mapped, StateOf);
    assert states == Distinct(ks);
    assert r in mapped;
    var k :| 0 <= k < |mapped| && mapped[k] == r;
    assert ks[k] == r.stateUt && ks[k] in ks;
    assert r.stateUt in states;
    var i :| 0 <= i < |states| && states[i] == r.stateUt;
    StateFeaturesFollow(mapped, states, union, i);
    var c := NationalBoundaries(districts, union);
    assert c.features == StateFeatures(mapped, states, union);
    assert c.features[i].name == r.stateUt;
  }

  /**
   * Feature i of the national map: state i, identified by the least `ogc_fid` of its rows with
   * geometry, whose geometry is the union of exactly those rows' geometries.
   */
  lemma NationalFeature(districts: seq<GeoRow>, union: seq<string> -> string, i: nat)
    requires i < |NationalBoundaries(districts, union).features|
    ensures var f := NationalBoundaries(districts, union).features[i];
      f.nameKey == "st_nm"
      && f.name == GroupKeys(Filter(districts, HasGeometry), StateOf)[i]
      && f.properties == map["st_nm" := f.name]
      && f.geometry == union(Project(Group(Filter(districts, HasGeometry), StateOf, f.name), GeojsonOf))
      && (exists r :: r in districts && HasGeometry(r) && r.stateUt == f.name && r.ogcFid == f.id)
      && (forall r :: r in districts && HasGeometry(r) && r.stateUt == f.name ==> f.id <= r.ogcFid)
  {
    var mapped := Filter(districts, HasGeometry);
    var states := GroupKeys(mapped, StateOf);
    var c := NationalBoundaries(districts, union);
    assert c.features == StateFeatures(mapped, states, union);
    StateFeaturesFollow(mapped, states, union, i);
    GroupMinId(mapped, states[i]);
    var f := c.features[i];
    var w :| w in mapped && w.stateUt == states[i] && w.ogcFid == f.id;
    assert w in districts && HasGeometry(w);
    forall r | r in districts && HasGeometry(r) && r.stateUt == f.name ensures f.id <= r.ogcFid {
      assert r in mapped;
    }
  }

  /**
   * getNationalBoundaries: one feature per state that has a district with non-empty geometry, named
   * by `st_nm`, with the least `ogc_fid` of those districts as its id.
   */
  lemma NationalBoundariesFacts(districts: seq<GeoRow>, union: seq<string> -> string)
    ensures var c := NationalBoundaries(districts, union);
      c.kind == "FeatureCollection"
      && |c.features| == |GroupKeys(Filter(districts, HasGeometry), StateOf)|
      && (forall i :: 0 <= i < |c.features| ==>
            (c.features[i].nameKey == "st_nm"
             && (exists r :: r in districts && HasGeometry(r) && r.stateUt == c.features[i].name
                   && r.ogcFid == c.features[i].id)
             && (forall r :: r in districts && HasGeometry(r) && r.stateUt == c.features[i].name
                   ==> c.features[i].id <= r.ogcFid)))
  {
    var c := NationalBoundaries(districts, union);
    forall i | 0 <= i < |c.features|
      ensures c.features[i].nameKey == "st_nm"
      ensures exists r :: r in districts && HasGeometry(r) && r.stateUt == c.features[i].name && r.ogcFid == c.features[i].id
      ensures forall r :: r in districts && HasGeometry(r) && r.stateUt == c.features[i].name ==> c.features[i].id <= r.ogcFid
    {
      NationalFeature(districts, union, i);
    }
  }

  /** Each state appears once on the national map. */
  lemma NationalStatesOnce(districts: seq<GeoRow>, union: seq<string> -> string)
    ensures var c := NationalBoundaries(districts, union);
      forall i, j :: 0 <= i < j < |c.features| ==> c.features[i].name != c.features[j].name
  {
    var c := NationalBoundaries(districts, union);
    var states := GroupKeys(Filter(districts, HasGeometry), StateOf);
    assert NoDuplicates(states);
    forall i, j | 0 <= i < j < |c.features| ensures c.features[i].name != c.features[j].name {
      NationalFeature(districts, union, i);
      NationalFeature(districts, union, j);
    }
  }
}
