/**
 * The SQL text templates of gadm-api/sql-query-builder-utils.go that build a
 * GeoJSON feature, and a feature collection, in the database. The parts that
 * hand these texts to the squirrel query builder are not modelled.
 */
module SqlBuilder {

  /** `fmt.Sprintf("'%s', %s", column, column)`: the key/value pair of one column. */
  function Pair(column: string): string
  {
    "'" + column + "', " + column
  }

  /** The pairs of `columns` in order, separated by ", ". */
  function JoinedPairs(columns: seq<string>): string
    decreases |columns|
  {
    if |columns| == 0 then ""
    else if |columns| == 1 then Pair(columns[0])
    else JoinedPairs(columns[..|columns| - 1]) + ", " + Pair(columns[|columns| - 1])
  }

  const JsonBuildObjectOpen: string := "json_build_object("

  /** The expression `buildGeojsonFeaturePropertiesSqlExpression` builds. */
  function PropertiesSqlExpression(columns: seq<string>): string
  {
    JsonBuildObjectOpen + JoinedPairs(columns) + ")"
  }

  /** `s` occurs in `text` at position `i`. */
  predicate OccursAt(text: string, s: string, i: int)
  {
    0 <= i <= |text| - |s| && text[i..i + |s|] == s
  }

  /** `s` occurs in `text` at some position. */
  ghost predicate Contains(text: string, s: string)
  {
    exists i :: OccursAt(text, s, i)
  }

  /**
   * `buildGeojsonFeaturePropertiesSqlExpression`: a `json_build_object` call
   * that maps each column name to that column.
   */
  method BuildGeojsonFeaturePropertiesSqlExpression(columns: seq<string>) returns (v: string)
    ensures v == PropertiesSqlExpression(columns)
  {
    v := JsonBuildObjectOpen;
    var n := |columns|;
    for i := 0 to n
      invariant v == JsonBuildObjectOpen + JoinedPairs(columns[..i]) + (if 0 < i < n then ", " else "")
    {
      JoinedPairsPrefix(columns, i);
      v := v + Pair(columns[i]);
      if i < n - 1 {
        v := v + ", ";
      }
    }
    assert columns[..n] == columns;
    v := v + ")";
  }

  /** The properties expression opens a `json_build_object(` call and closes it. */
  lemma PropertiesExpressionShape(columns: seq<string>)
    ensures var e := PropertiesSqlExpression(columns);
      |e| > 18 && e[..18] == "json_build_object(" && e[|e| - 1] == ')'
  {
    OccursInMiddle(JsonBuildObjectOpen, JoinedPairs(columns), ")");
  }

  /** The pairs of the first i + 1 columns extend those of the first i. */
  lemma JoinedPairsPrefix(columns: seq<string>, i: nat)
    requires i < |columns|
    ensures JoinedPairs(columns[..i + 1])
      == (if i == 0 then "" else JoinedPairs(columns[..i]) + ", ") + Pair(columns[i])
  {
    assert columns[..i + 1][..i] == columns[..i];
  }

  /** Joining two non-empty column lists joins their pairs with one ", ". */
  lemma {:induction false} JoinedPairsAppend(a: seq<string>, b: seq<string>)
    requires a != [] && b != []
    ensures JoinedPairs(a + b) == JoinedPairs(a) + ", " + JoinedPairs(b)
    decreases |b|
  {
    var ab := a + b;
    if |b| == 1 {
      assert ab[..|ab| - 1] == a;
    } else {
      var b' := b[..|b| - 1];
      assert ab[..|ab| - 1] == a + b';
      JoinedPairsAppend(a, b');
    }
  }

  /** Each column contributes its pair in input order: the first pair, then the rest. */
  lemma JoinedPairsCons(c: string, rest: seq<string>)
    requires rest != []
    ensures JoinedPairs([c] + rest) == Pair(c) + ", " + JoinedPairs(rest)
  {
    JoinedPairsAppend([c], rest);
  }

  /** No columns: an empty object. */
  lemma EmptyPropertiesExpression()
    ensures PropertiesSqlExpression([]) == "json_build_object()"
  {
  }

  lemma PropertiesOfThree(a: string, b: string, c: string)
    ensures PropertiesSqlExpression([a, b, c])
      == JsonBuildObjectOpen + Pair(a) + ", " + Pair(b) + ", " + Pair(c) + ")"
  {
    assert [a, b, c][..2] == [a, b];
    assert [a, b][..1] == [a];
    assert JoinedPairs([a]) == Pair(a);
    assert JoinedPairs([a, b]) == Pair(a) + ", " + Pair(b);
    assert JoinedPairs([a, b, c]) == Pair(a) + ", " + Pair(b) + ", " + Pair(c);
  }

  lemma ThreePairsText(p0: string, p1: string, p2: string)
    requires p0 == "'fid', fid" && p1 == "'gid0', gid0" && p2 == "'country', country"
    ensures JsonBuildObjectOpen + p0 + ", " + p1 + ", " + p2 + ")"
      == "json_build_object('fid', fid, 'gid0', gid0, 'country', country)"
  {
    // built left to right, one small piece at a time
    var s0 := JsonBuildObjectOpen + p0;
    assert s0 == "json_build_object('fid', fid";
    var s1 := s0 + ", " + p1;
    assert s1 == "json_build_object('fid', fid, 'gid0', gid0";
    var s2 := s1 + ", " + p2;
    assert s2 == "json_build_object('fid', fid, 'gid0', gid0, 'country', country";
  }

  /** TestBuildJsonObjectExpression */
  lemma ThreeColumnPropertiesExpression()
    ensures PropertiesSqlExpression(["fid", "gid0", "country"])
      == "json_build_object('fid', fid, 'gid0', gid0, 'country', country)"
  {
    PropertiesOfThree("fid", "gid0", "country");
    ThreePairsText(Pair("fid"), Pair("gid0"), Pair("country"));
  }

  /** The middle part of a concatenation of three strings occurs right after the first. */
  lemma OccursInMiddle(a: string, b: string, c: string)
    ensures OccursAt(a + b + c, b, |a|) && (a + b + c)[..|a|] == a
  {
    assert (a + b + c)[|a|..|a| + |b|] == b;
  }

  /**
   * `buildGeojsonFeatureSqlExpression`: a Feature object whose geometry is the
   * geometry column read through `ST_AsGeoJSON(...)::json` and whose properties
   * are the properties expression, embedded verbatim.
   */
  function BuildGeojsonFeatureSqlExpression(featurePropertiesNames: seq<string>, geometryColumnName: string): (r: string)
    ensures |r| > 18 && r[..18] == "json_build_object(" && r[|r| - 1] == ')'
    ensures Contains(r, "'geometry', ST_AsGeoJSON(" + geometryColumnName + ")::json")
    ensures Contains(r, "'properties', " + PropertiesSqlExpression(featurePropertiesNames))
  {
    var props := PropertiesSqlExpression(featurePropertiesNames);
    var head := JsonBuildObjectOpen + "\n\t\t\t'type', 'Feature',\n\t\t\t";
    var geometry := "'geometry', ST_AsGeoJSON(" + geometryColumnName + ")::json";
    var mid := ",\n\t\t\t";
    var properties := "'properties', " + props;
    var tail := "\n\t\t)";
    var r := head + geometry + (mid + properties + tail);
    OccursInMiddle(head, geometry, mid + properties + tail);
    OccursInMiddle(head + geometry + mid, properties, tail);
    assert r == head + geometry + mid + properties + tail;
    assert r[..18] == head[..18];
    r
  }

  /**
   * `buildGeojsonFeatureCollectionSqlExpression`: a FeatureCollection object
   * whose features aggregate the feature expression with `json_agg`.
   */
  function BuildGeojsonFeatureCollectionSqlExpression(featurePropertiesNames: seq<string>, geometryColumnName: string): (r: string)
    ensures |r| > 18 && r[..18] == "json_build_object(" && r[|r| - 1] == ')'
    ensures Contains(r, "'features', json_agg(" + BuildGeojsonFeatureSqlExpression(featurePropertiesNames, geometryColumnName) + ")")
  {
    var feature := BuildGeojsonFeatureSqlExpression(featurePropertiesNames, geometryColumnName);
    var head := JsonBuildObjectOpen + "\n\t\t\t\t'type', 'FeatureCollection',\n\t\t\t\t";
    var features := "'features', json_agg(" + feature + ")";
    var tail := "\n\t\t\t)";
    var r := head + features + tail;
    OccursInMiddle(head, features, tail);
    assert r[..18] == head[..18];
    assert r[|r| - 1] == tail[|tail| - 1] == ')';
    r
  }
}
