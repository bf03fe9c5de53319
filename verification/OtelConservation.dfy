// What toOTLPMetrics emits against what it was given: the data points and the
// input values that can be converted correspond one to one.
module OtelConservation {
  import opened Options
  import opened Sequences
  import opened OtelMetrics

  // A data point with the FQDD and the metric id it belongs to.
  datatype Tagged = Tagged(fqdd: string, id: string, point: DataPoint)

  // ---- the reference: one value at a time ------------------------------------------

  // The entry for a metric id: its own, whatever the report is called; failing
  // that, the one under the report's lower-case name. An entry without a name does
  // not count.
  function EntryFor(lib: Library, table: Table, groupID: string, id: string): Option<OtelMeta> {
    var prefixed := lib.toLower(groupID) + ":" + id;
    if id in table && table[id].name != "" then Some(table[id])
    else if prefixed in table && table[prefixed].name != "" then Some(table[prefixed])
    else None
  }

  // The data point a value calls for, if any: a good timestamp, an entry for its
  // id, and a number or a text that the entry's enum knows in lower case.
  function PointFor(lib: Library, table: Table, groupID: string, v: DataValue): Option<Tagged> {
    var time, entry := lib.parseRFC3339ToNanos(v.timestamp), EntryFor(lib, table, groupID, v.id);
    if time == None || entry == None then None
    else
      var nanos := time.value % 0x1_0000_0000_0000_0000;
      match lib.parseFloat(v.value)
      case Some(f) => Some(Tagged(v.context, v.id, DataPoint(nanos, AsDouble(f))))
      case None =>
        if entry.value.enum.Some? && lib.toLower(v.value) in entry.value.enum.value then
          Some(Tagged(v.context, v.id, DataPoint(nanos, AsInt(entry.value.enum.value[lib.toLower(v.value)]))))
        else None
  }

  lemma EntryResolved(lib: Library, table: Table, groupID: string, id: string)
    ensures Resolve(lib, table, groupID, id) == EntryFor(lib, table, groupID, id)
  {
  }

  // What the conversion makes of a single value is the point it calls for.
  lemma PointConverted(lib: Library, table: Table, groupID: string, v: DataValue)
    ensures PointFor(lib, table, groupID, v)
         == match (DpOf(lib, v), Resolve(lib, table, groupID, v.id))
            case (Some(p), Some(meta)) =>
              (match PointOf(lib, meta, p)
               case Some(point) => Some(Tagged(v.context, v.id, point))
               case None => None)
            case _ => None
  {
    EntryResolved(lib, table, groupID, v.id);
  }

  function Expected(lib: Library, table: Table, groupID: string, values: seq<DataValue>): seq<Tagged> {
    if values == [] then []
    else
      Expected(lib, table, groupID, values[..|values| - 1])
      + ToSeq(PointFor(lib, table, groupID, values[|values| - 1]))
  }

  // ---- what was emitted ---------------------------------------------------------------

  function TagAll(fqdd: string, id: string, points: seq<DataPoint>): seq<Tagged> {
    seq(|points|, i requires 0 <= i < |points| => Tagged(fqdd, id, points[i]))
  }

  function TagMetrics(fqdd: string, metrics: seq<Metric>, ids: seq<string>): seq<seq<Tagged>>
    requires |metrics| == |ids|
  {
    seq(|metrics|, j requires 0 <= j < |metrics| => TagAll(fqdd, ids[j], metrics[j].points))
  }

  function TagScopes(rm: seq<ScopeMetrics>, fqdds: seq<string>, ids: seq<seq<string>>): seq<seq<Tagged>>
    requires |rm| == |fqdds| == |ids|
    requires forall i :: 0 <= i < |rm| ==> |rm[i].metrics| == |ids[i]|
  {
    seq(|rm|, i requires 0 <= i < |rm| => Flatten(TagMetrics(fqdds[i], rm[i].metrics, ids[i])))
  }

  // Every data point of the result, under the keys its metric was made for.
  function Emitted(rm: seq<ScopeMetrics>, fqdds: seq<string>, ids: seq<seq<string>>): seq<Tagged>
    requires |rm| == |fqdds| == |ids|
    requires forall i :: 0 <= i < |rm| ==> |rm[i].metrics| == |ids[i]|
  {
    Flatten(TagScopes(rm, fqdds, ids))
  }

  // ---- partitions ------------------------------------------------------------------------

  // The elements with key k, in order.
  function Select<T, K(==)>(xs: seq<T>, key: T -> K, k: K): seq<T> {
    if xs == [] then []
    else Select(xs[..|xs| - 1], key, k) + if key(xs[|xs| - 1]) == k then [xs[|xs| - 1]] else []
  }

  // The elements whose key is none of ks.
  function Without<T, K(==)>(xs: seq<T>, key: T -> K, ks: set<K>): seq<T> {
    if xs == [] then []
    else Without(xs[..|xs| - 1], key, ks) + if key(xs[|xs| - 1]) !in ks then [xs[|xs| - 1]] else []
  }

  lemma {:induction false} WithoutOne<T, K>(xs: seq<T>, key: T -> K, ks: set<K>, k: K)
    requires k !in ks
    ensures multiset(Without(xs, key, ks)) == multiset(Select(xs, key, k)) + multiset(Without(xs, key, ks + {k}))
    decreases |xs|
  {
    if xs != [] {
      WithoutOne(xs[..|xs| - 1], key, ks, k);
    }
  }

  lemma {:induction false} WithoutNone<T, K>(xs: seq<T>, key: T -> K, ks: set<K>)
    requires forall x :: x in xs ==> key(x) in ks
    ensures Without(xs, key, ks) == []
    decreases |xs|
  {
    if xs != [] {
      assert xs[|xs| - 1] in xs;
      WithoutNone(xs[..|xs| - 1], key, ks);
    }
  }

  lemma {:induction false} WithoutAny<T, K>(xs: seq<T>, key: T -> K)
    ensures Without(xs, key, {}) == xs
    decreases |xs|
  {
    if xs != [] {
      WithoutAny(xs[..|xs| - 1], key);
      assert xs == xs[..|xs| - 1] + [xs[|xs| - 1]];
    }
  }

  function Elements<K>(ks: seq<K>): set<K> { set k | k in ks }

  lemma ElementsCons<K>(ks: seq<K>, before: set<K>)
    requires ks != []
    ensures before + {ks[0]} + Elements(ks[1..]) == before + Elements(ks)
  {
    Uncons(ks);
  }

  lemma FlattenCons<T>(parts: seq<seq<T>>)
    requires parts != []
    ensures multiset(Flatten(parts)) == multiset(parts[0]) + multiset(Flatten(parts[1..]))
  {
  }

  ghost predicate Selects<T(!new), K(!new)>(xs: seq<T>, key: T -> K, ks: seq<K>, parts: seq<seq<T>>) {
    && |ks| == |parts|
    && forall i :: 0 <= i < |ks| ==> multiset(parts[i]) == multiset(Select(xs, key, ks[i]))
  }

  lemma SelectsTail<T(!new), K(!new)>(xs: seq<T>, key: T -> K, ks: seq<K>, parts: seq<seq<T>>)
    requires Selects(xs, key, ks, parts) && Distinct(ks) && ks != []
    ensures multiset(parts[0]) == multiset(Select(xs, key, ks[0]))
    ensures Selects(xs, key, ks[1..], parts[1..]) && Distinct(ks[1..])
  {
  }

  lemma {:induction false} PartitionFrom<T(!new), K(!new)>(xs: seq<T>, key: T -> K, ks: seq<K>, parts: seq<seq<T>>,
                                           before: set<K>)
    requires Selects(xs, key, ks, parts) && Distinct(ks)
    requires forall i :: 0 <= i < |ks| ==> ks[i] !in before
    ensures multiset(Without(xs, key, before))
         == multiset(Flatten(parts)) + multiset(Without(xs, key, before + Elements(ks)))
    decreases |ks|
  {
    if ks == [] {
      assert before + Elements(ks) == before;
    } else {
      var k, later := ks[0], before + {ks[0]};
      assert forall i :: 0 <= i < |ks| - 1 ==> ks[1..][i] !in later by {
        assert forall i :: 0 < i < |ks| ==> ks[i] != ks[0];
      }
      hide *;
      SelectsTail(xs, key, ks, parts);
      FlattenCons(parts);
      WithoutOne(xs, key, before, k);
      PartitionFrom(xs, key, ks[1..], parts[1..], later);
      ElementsCons(ks, before);
    }
  }

  // Splitting by distinct keys that cover everything loses and repeats nothing.
  lemma Partition<T(!new), K(!new)>(xs: seq<T>, key: T -> K, ks: seq<K>, parts: seq<seq<T>>)
    requires Selects(xs, key, ks, parts) && Distinct(ks)
    requires forall x :: x in xs ==> key(x) in ks
    ensures multiset(Flatten(parts)) == multiset(xs)
  {
    PartitionFrom(xs, key, ks, parts, {});
    WithoutAny(xs, key);
    WithoutNone(xs, key, {} + Elements(ks));
  }

  // ---- the two sides meet -------------------------------------------------------------------

  const ByFqdd: Tagged -> string := (t: Tagged) => t.fqdd
  const ById: Tagged -> string := (t: Tagged) => t.id

  // The expected points of one FQDD and metric id, in input order.
  function ExpectedFor(lib: Library, table: Table, groupID: string, values: seq<DataValue>, fqdd: string,
                       id: string): seq<Tagged> {
    Select(Select(Expected(lib, table, groupID, values), ByFqdd, fqdd), ById, id)
  }

  lemma {:induction false} SelectConcat<T, K>(a: seq<T>, b: seq<T>, key: T -> K, k: K)
    ensures Select(a + b, key, k) == Select(a, key, k) + Select(b, key, k)
    decreases |b|
  {
    if b == [] {
      assert a + b == a;
    } else {
      assert (a + b)[..|a + b| - 1] == a + b[..|b| - 1];
      SelectConcat(a, b[..|b| - 1], key, k);
    }
  }

  lemma SelectOne<T, K>(x: T, key: T -> K, k: K)
    ensures Select([x], key, k) == if key(x) == k then [x] else []
  {
    assert [x][..0] == [];
  }

  lemma TagAllConcat(fqdd: string, id: string, a: seq<DataPoint>, b: seq<DataPoint>)
    ensures TagAll(fqdd, id, a + b) == TagAll(fqdd, id, a) + TagAll(fqdd, id, b)
  {
  }

  lemma ConvertConcat(lib: Library, meta: OtelMeta, a: seq<Dp>, b: seq<Dp>)
    requires |b| <= 1
    ensures Convert(lib, meta, a + b)
        == Convert(lib, meta, a) + (if b == [] then [] else ToSeq(PointOf(lib, meta, b[0])))
  {
    if b == [] {
      assert a + b == a;
    } else {
      assert (a + b)[..|a|] == a;
    }
  }

  lemma PointsSnoc(lib: Library, table: Table, groupID: string, values: seq<DataValue>, v: DataValue, fqdd: string,
                   id: string)
    requires Resolve(lib, table, groupID, id).Some?
    ensures var meta := Resolve(lib, table, groupID, id).value;
            TagAll(fqdd, id, Convert(lib, meta, PointsFor(lib, values + [v], fqdd, id)))
            == TagAll(fqdd, id, Convert(lib, meta, PointsFor(lib, values, fqdd, id)))
              + Added(lib, table, groupID, v, fqdd, id)
  {
    var meta := Resolve(lib, table, groupID, id).value;
    var dps := if v.context == fqdd && v.id == id then ToSeq(DpOf(lib, v)) else [];
    var points := if dps == [] then [] else ToSeq(PointOf(lib, meta, dps[0]));
    var before := PointsFor(lib, values, fqdd, id);
    DropLast(values, v);
    assert PointsFor(lib, values + [v], fqdd, id) == before + dps;
    assert TagAll(fqdd, id, points) == Added(lib, table, groupID, v, fqdd, id);
    hide *;
    ConvertConcat(lib, meta, before, dps);
    TagAllConcat(fqdd, id, Convert(lib, meta, before), points);
  }

  lemma AddedSelected(lib: Library, table: Table, groupID: string, v: DataValue, fqdd: string, id: string)
    ensures Select(Select(ToSeq(PointFor(lib, table, groupID, v)), ByFqdd, fqdd), ById, id)
         == Added(lib, table, groupID, v, fqdd, id)
  {
    var t := PointFor(lib, table, groupID, v);
    hide PointFor;
    if t.Some? {
      SelectOne(t.value, ByFqdd, fqdd);
      SelectOne(t.value, ById, id);
    }
  }

  lemma ExpectedSnoc(lib: Library, table: Table, groupID: string, values: seq<DataValue>, v: DataValue, fqdd: string,
                     id: string)
    ensures ExpectedFor(lib, table, groupID, values + [v], fqdd, id)
         == ExpectedFor(lib, table, groupID, values, fqdd, id) + Added(lib, table, groupID, v, fqdd, id)
  {
    var xs, more := Expected(lib, table, groupID, values), ToSeq(PointFor(lib, table, groupID, v));
    DropLast(values, v);
    assert Expected(lib, table, groupID, values + [v]) == xs + more;
    hide Expected, Select, Added, PointFor;
    SelectConcat(xs, more, ByFqdd, fqdd);
    SelectConcat(Select(xs, ByFqdd, fqdd), Select(more, ByFqdd, fqdd), ById, id);
    AddedSelected(lib, table, groupID, v, fqdd, id);
  }

  // The points of a metric are exactly the expected ones, in input order.
  lemma {:induction false} MetricPoints(lib: Library, table: Table, groupID: string, values: seq<DataValue>,
                                        fqdd: string, id: string)
    requires Resolve(lib, table, groupID, id).Some?
    ensures TagAll(fqdd, id, Convert(lib, Resolve(lib, table, groupID, id).value, PointsFor(lib, values, fqdd, id)))
         == ExpectedFor(lib, table, groupID, values, fqdd, id)
    decreases |values|
  {
    if values != [] {
      hide *;
      var rest, v := values[..|values| - 1], values[|values| - 1];
      Unsnoc(values);
      PointsSnoc(lib, table, groupID, rest, v, fqdd, id);
      ExpectedSnoc(lib, table, groupID, rest, v, fqdd, id);
      MetricPoints(lib, table, groupID, rest, fqdd, id);
    }
  }

  // What one more value adds to the points of a pair of keys.
  function Added(lib: Library, table: Table, groupID: string, v: DataValue, fqdd: string, id: string): seq<Tagged> {
    match PointFor(lib, table, groupID, v)
    case Some(t) => if t.fqdd == fqdd && t.id == id then [t] else []
    case None => []
  }

  // An expected point lies under keys that have input points and an entry.
  lemma {:induction false} ExpectedKeys(lib: Library, table: Table, groupID: string, values: seq<DataValue>, t: Tagged)
    requires t in Expected(lib, table, groupID, values)
    ensures PointsFor(lib, values, t.fqdd, t.id) != [] && Resolve(lib, table, groupID, t.id).Some?
    decreases |values|
  {
    if values != [] && t in Expected(lib, table, groupID, values[..|values| - 1]) {
      ExpectedKeys(lib, table, groupID, values[..|values| - 1], t);
    }
  }

  lemma {:induction false} SelectMember<T, K>(xs: seq<T>, key: T -> K, k: K, x: T)
    requires x in Select(xs, key, k)
    ensures x in xs && key(x) == k
    decreases |xs|
  {
    if x in Select(xs[..|xs| - 1], key, k) {
      SelectMember(xs[..|xs| - 1], key, k, x);
    }
  }

  lemma ScopePoints(lib: Library, table: Table, group: DataGroup, fqdd: string, scope: ScopeMetrics, ids: seq<string>)
    requires ScopeFor(lib, table, group, fqdd, scope, ids)
    requires lib.parseRFC3339ToNanos(group.timestamp).Some?
    ensures multiset(Flatten(TagMetrics(fqdd, scope.metrics, ids)))
         == multiset(Select(Expected(lib, table, group.id, group.values), ByFqdd, fqdd))
  {
    var xs := Select(Expected(lib, table, group.id, group.values), ByFqdd, fqdd);
    var parts := TagMetrics(fqdd, scope.metrics, ids);
    forall j | 0 <= j < |ids| ensures multiset(parts[j]) == multiset(Select(xs, ById, ids[j])) {
      assert ids[j] in ids;
      MetricPoints(lib, table, group.id, group.values, fqdd, ids[j]);
    }
    forall x | x in xs ensures ById(x) in ids {
      SelectMember(Expected(lib, table, group.id, group.values), ByFqdd, fqdd, x);
      ExpectedKeys(lib, table, group.id, group.values, x);
    }
    Partition(xs, ById, ids, parts);
  }

  lemma AllPointsExpected(lib: Library, table: Table, group: DataGroup, rm: seq<ScopeMetrics>, fqdds: seq<string>,
                          ids: seq<seq<string>>)
    requires Converted(lib, table, group, rm, fqdds, ids)
    requires lib.parseRFC3339ToNanos(group.timestamp).Some?
    ensures multiset(Emitted(rm, fqdds, ids)) == multiset(Expected(lib, table, group.id, group.values))
  {
    hide Select, Flatten, Expected, Resolve, PointsFor, TagMetrics;
    var xs := Expected(lib, table, group.id, group.values);
    var parts := TagScopes(rm, fqdds, ids);
    hide ScopeFor;
    forall i | 0 <= i < |rm| ensures multiset(parts[i]) == multiset(Select(xs, ByFqdd, fqdds[i])) {
      ScopePoints(lib, table, group, fqdds[i], rm[i], ids[i]);
    }
    forall x | x in xs ensures ByFqdd(x) in fqdds {
      ExpectedKeys(lib, table, group.id, group.values, x);
      assert HasPoints(lib, group.values, x.fqdd);
    }
    Partition(xs, ByFqdd, fqdds, parts);
  }

  lemma ScopeMetricPoints(lib: Library, table: Table, group: DataGroup, fqdd: string, scope: ScopeMetrics,
                          ids: seq<string>, j: nat)
    requires ScopeFor(lib, table, group, fqdd, scope, ids) && j < |ids|
    ensures TagAll(fqdd, ids[j], scope.metrics[j].points)
        == ExpectedFor(lib, table, group.id, group.values, fqdd, ids[j])
  {
    assert ids[j] in ids;
    hide Convert, PointsFor, Expected, Select, Distinct, ExpectedFor, TagAll;
    MetricPoints(lib, table, group.id, group.values, fqdd, ids[j]);
  }

  lemma NoTimeNoPoints(lib: Library, table: Table, group: DataGroup, rm: seq<ScopeMetrics>, fqdds: seq<string>,
                       ids: seq<seq<string>>)
    requires Converted(lib, table, group, rm, fqdds, ids)
    requires lib.parseRFC3339ToNanos(group.timestamp) == None
    ensures Emitted(rm, fqdds, ids) == []
    ensures forall i :: 0 <= i < |rm| ==> rm[i].metrics == []
  {
    hide PointsFor, Resolve;
    forall i | 0 <= i < |rm| ensures rm[i].metrics == [] && TagScopes(rm, fqdds, ids)[i] == [] {
      assert ScopeFor(lib, table, group, fqdds[i], rm[i], ids[i]);
      SomeElement(ids[i]);
    }
    FlattenEmpty(TagScopes(rm, fqdds, ids));
  }

  // Conservation: when the report's own timestamp parses, the emitted points
  // are, as a multiset, the expected ones; under each FQDD and metric id they
  // come in input order. When it does not parse, no point is emitted.
  lemma MetricConservation(lib: Library, table: Table, group: DataGroup, rm: seq<ScopeMetrics>, fqdds: seq<string>,
                           ids: seq<seq<string>>)
    requires Converted(lib, table, group, rm, fqdds, ids)
    ensures lib.parseRFC3339ToNanos(group.timestamp).Some? ==>
              multiset(Emitted(rm, fqdds, ids)) == multiset(Expected(lib, table, group.id, group.values))
    ensures forall i, j :: 0 <= i < |rm| && 0 <= j < |rm[i].metrics| ==>
              TagAll(fqdds[i], ids[i][j], rm[i].metrics[j].points)
              == ExpectedFor(lib, table, group.id, group.values, fqdds[i], ids[i][j])
    ensures lib.parseRFC3339ToNanos(group.timestamp) == None ==>
              Emitted(rm, fqdds, ids) == [] && forall i :: 0 <= i < |rm| ==> rm[i].metrics == []
  {
    forall i, j | 0 <= i < |rm| && 0 <= j < |rm[i].metrics|
      ensures TagAll(fqdds[i], ids[i][j], rm[i].metrics[j].points)
           == ExpectedFor(lib, table, group.id, group.values, fqdds[i], ids[i][j])
    {
      ScopeMetricPoints(lib, table, group, fqdds[i], rm[i], ids[i], j);
    }
    hide Emitted, Expected, Converted, ExpectedFor, TagAll;
    if lib.parseRFC3339ToNanos(group.timestamp).Some? {
      AllPointsExpected(lib, table, group, rm, fqdds, ids);
    } else {
      NoTimeNoPoints(lib, table, group, rm, fqdds, ids);
    }
  }

  // ---- the result on its own ----------------------------------------------------------------

  // Some value of this FQDD and metric id has a good timestamp.
  ghost predicate HasValue(lib: Library, values: seq<DataValue>, fqdd: string, id: string) {
    exists v :: v in values && v.context == fqdd && v.id == id && lib.parseRFC3339ToNanos(v.timestamp).Some?
  }

  lemma {:induction false} ValueHasPoint(lib: Library, values: seq<DataValue>, fqdd: string, id: string)
    ensures PointsFor(lib, values, fqdd, id) != [] <==> HasValue(lib, values, fqdd, id)
    decreases |values|
  {
    if values != [] {
      var rest, v := values[..|values| - 1], values[|values| - 1];
      Unsnoc(values);
      ValueHasPoint(lib, rest, fqdd, id);
      assert forall x :: x in values <==> x in rest || x == v;
    }
  }

  // The attributes of a scope are those of an entry, with the FQDD and the report
  // time put in.
  ghost predicate AttributesMeant(attributes: map<string, string>, meta: OtelMeta, fqdd: string, time: string) {
    && attributes.Keys == meta.attributes.Keys
    && forall a :: a in attributes ==>
         && (meta.attributes[a] == "var-FQDD" ==> attributes[a] == fqdd)
         && (meta.attributes[a] == "var-Timestamp" ==> attributes[a] == time)
         && (meta.attributes[a] !in {"var-FQDD", "var-Timestamp"} ==> attributes[a] == meta.attributes[a])
  }

  predicate Carries(metric: Metric, meta: OtelMeta) {
    && metric.name == meta.name && metric.description == meta.description
    && metric.unit == meta.unit && metric.enum == meta.enum
  }

  // Metric j of scope i.
  ghost predicate MetricShape(lib: Library, table: Table, group: DataGroup, fqdd: string, metric: Metric, id: string) {
    && EntryFor(lib, table, group.id, id).Some?
    && Carries(metric, EntryFor(lib, table, group.id, id).value)
    && TagAll(fqdd, id, metric.points) == ExpectedFor(lib, table, group.id, group.values, fqdd, id)
  }

  ghost predicate ScopeShape(lib: Library, table: Table, group: DataGroup, fqdd: string, scope: ScopeMetrics,
                             ids: seq<string>) {
    var time := lib.parseRFC3339ToNanos(group.timestamp);
    && |scope.metrics| == |ids| && Distinct(ids)
    && (forall id :: id in ids <==>
          HasValue(lib, group.values, fqdd, id) && EntryFor(lib, table, group.id, id).Some? && time.Some?)
    && (forall j :: 0 <= j < |ids| ==> MetricShape(lib, table, group, fqdd, scope.metrics[j], ids[j]))
    && (scope.attributes.Some? <==> ids != [])
    && (ids != [] ==>
          && ids[0] in ids
          && AttributesMeant(scope.attributes.value, EntryFor(lib, table, group.id, ids[0]).value, fqdd,
                             lib.formatInt(time.value)))
  }

  lemma ScopeHasShape(lib: Library, table: Table, group: DataGroup, fqdd: string, scope: ScopeMetrics, ids: seq<string>)
    requires ScopeFor(lib, table, group, fqdd, scope, ids)
    ensures ScopeShape(lib, table, group, fqdd, scope, ids)
  {
    forall id ensures PointsFor(lib, group.values, fqdd, id) != [] <==> HasValue(lib, group.values, fqdd, id) {
      ValueHasPoint(lib, group.values, fqdd, id);
    }
    forall id ensures Resolve(lib, table, group.id, id) == EntryFor(lib, table, group.id, id) {
      EntryResolved(lib, table, group.id, id);
    }
    hide Resolve, EntryFor, PointsFor, HasValue, Expected, ExpectedFor, Distinct, Convert;
    forall j | 0 <= j < |ids| ensures MetricShape(lib, table, group, fqdd, scope.metrics[j], ids[j]) {
      assert ids[j] in ids;
      ScopeMetricPoints(lib, table, group, fqdd, scope, ids, j);
    }
  }

  // The whole result, scope by scope and metric by metric: one scope for every
  // FQDD that has a value with a good timestamp, and in it one metric for every id
  // that has one and an entry, carrying the entry's name and its own points.
  lemma ResultShape(lib: Library, table: Table, group: DataGroup, rm: seq<ScopeMetrics>, fqdds: seq<string>,
                    ids: seq<seq<string>>)
    requires Converted(lib, table, group, rm, fqdds, ids)
    ensures |rm| == |fqdds| == |ids| && Distinct(fqdds)
    ensures forall fqdd :: fqdd in fqdds <==> exists id :: HasValue(lib, group.values, fqdd, id)
    ensures forall i :: 0 <= i < |rm| ==> ScopeShape(lib, table, group, fqdds[i], rm[i], ids[i])
  {
    hide ScopeFor, ScopeShape, Distinct, PointsFor, HasValue;
    forall i | 0 <= i < |rm| ensures ScopeShape(lib, table, group, fqdds[i], rm[i], ids[i]) {
      ScopeHasShape(lib, table, group, fqdds[i], rm[i], ids[i]);
    }
    forall fqdd ensures fqdd in fqdds <==> exists id :: HasValue(lib, group.values, fqdd, id) {
      assert fqdd in fqdds <==> HasPoints(lib, group.values, fqdd);
      if id :| PointsFor(lib, group.values, fqdd, id) != [] {
        ValueHasPoint(lib, group.values, fqdd, id);
      }
      if id :| HasValue(lib, group.values, fqdd, id) {
        ValueHasPoint(lib, group.values, fqdd, id);
      }
    }
  }

  // So an id with a good value and an entry is never lost.
  lemma MetricOfId(lib: Library, table: Table, group: DataGroup, rm: seq<ScopeMetrics>, fqdd: string, id: string)
    returns (i: nat, j: nat)
    requires IsConversion(lib, table, group, rm)
    requires HasValue(lib, group.values, fqdd, id) && lib.parseRFC3339ToNanos(group.timestamp).Some?
    requires EntryFor(lib, table, group.id, id).Some?
    ensures i < |rm| && j < |rm[i].metrics| && MetricShape(lib, table, group, fqdd, rm[i].metrics[j], id)
  {
    ghost var fqdds, ids :| Converted(lib, table, group, rm, fqdds, ids);
    ResultShape(lib, table, group, rm, fqdds, ids);
    hide Converted, HasValue, EntryFor, MetricShape, Distinct, AttributesMeant;
    assert fqdd in fqdds;
    i :| i < |fqdds| && fqdds[i] == fqdd;
    assert ScopeShape(lib, table, group, fqdds[i], rm[i], ids[i]);
    assert id in ids[i];
    j :| j < |ids[i]| && ids[i][j] == id;
  }

  // ---- without the keys --------------------------------------------------------------------

  function Untag(xs: seq<Tagged>): seq<DataPoint> {
    seq(|xs|, i requires 0 <= i < |xs| => xs[i].point)
  }

  function PointsOf(metrics: seq<Metric>): seq<seq<DataPoint>> {
    seq(|metrics|, j requires 0 <= j < |metrics| => metrics[j].points)
  }

  // Every data point of the result as it goes out.
  function AllPoints(rm: seq<ScopeMetrics>): seq<DataPoint> {
    Flatten(seq(|rm|, i requires 0 <= i < |rm| => Flatten(PointsOf(rm[i].metrics))))
  }

  lemma UntagConcat(a: seq<Tagged>, b: seq<Tagged>)
    ensures Untag(a + b) == Untag(a) + Untag(b)
  {
  }

  lemma {:induction false} UntagFlatten(xss: seq<seq<Tagged>>, yss: seq<seq<DataPoint>>)
    requires |xss| == |yss| && forall i :: 0 <= i < |xss| ==> yss[i] == Untag(xss[i])
    ensures Untag(Flatten(xss)) == Flatten(yss)
    decreases |xss|
  {
    if xss != [] {
      UntagConcat(xss[0], Flatten(xss[1..]));
      UntagFlatten(xss[1..], yss[1..]);
    }
  }

  lemma UntagEmitted(rm: seq<ScopeMetrics>, fqdds: seq<string>, ids: seq<seq<string>>)
    requires |rm| == |fqdds| == |ids|
    requires forall i :: 0 <= i < |rm| ==> |rm[i].metrics| == |ids[i]|
    ensures Untag(Emitted(rm, fqdds, ids)) == AllPoints(rm)
  {
    hide Flatten;
    forall i | 0 <= i < |rm|
      ensures Flatten(PointsOf(rm[i].metrics)) == Untag(Flatten(TagMetrics(fqdds[i], rm[i].metrics, ids[i])))
    {
      UntagFlatten(TagMetrics(fqdds[i], rm[i].metrics, ids[i]), PointsOf(rm[i].metrics));
    }
    UntagFlatten(TagScopes(rm, fqdds, ids), seq(|rm|, i requires 0 <= i < |rm| => Flatten(PointsOf(rm[i].metrics))));
  }

  function RemoveAt<T>(xs: seq<T>, k: nat): seq<T>
    requires k < |xs|
  {
    xs[..k] + xs[k + 1..]
  }

  lemma Removed<T>(xs: seq<T>, k: nat)
    requires k < |xs|
    ensures multiset(xs) == multiset{xs[k]} + multiset(RemoveAt(xs, k))
    ensures multiset(RemoveAt(xs, k)) == multiset(xs) - multiset{xs[k]}
  {
    assert xs == xs[..k] + ([xs[k]] + xs[k + 1..]);
  }

  lemma UntagRemoved(xs: seq<Tagged>, k: nat)
    requires k < |xs|
    ensures Untag(RemoveAt(xs, k)) == RemoveAt(Untag(xs), k) && Untag(xs)[k] == xs[k].point
  {
  }

  lemma {:induction false} UntagPermuted(a: seq<Tagged>, b: seq<Tagged>)
    requires multiset(a) == multiset(b)
    ensures multiset(Untag(a)) == multiset(Untag(b))
    decreases |a|
  {
    if a == [] {
      assert |b| == |multiset(b)| == |multiset(a)| == 0;
    } else {
      assert a[0] in multiset(b);
      var k :| 0 <= k < |b| && b[k] == a[0];
      assert |RemoveAt(a, 0)| < |a| && |Untag(a)| == |a| && |Untag(b)| == |b|;
      hide *;
      Removed(a, 0);
      Removed(b, k);
      UntagPermuted(RemoveAt(a, 0), RemoveAt(b, k));
      UntagRemoved(a, 0);
      UntagRemoved(b, k);
      Removed(Untag(a), 0);
      Removed(Untag(b), k);
    }
  }

  // What goes out over the wire: the points that the values of the report call
  // for, each as often as it is called for, and no other.
  lemma PointConservation(lib: Library, table: Table, group: DataGroup, rm: seq<ScopeMetrics>)
    requires IsConversion(lib, table, group, rm)
    ensures multiset(AllPoints(rm))
         == if lib.parseRFC3339ToNanos(group.timestamp).Some?
            then multiset(Untag(Expected(lib, table, group.id, group.values)))
            else multiset{}
  {
    var fqdds, ids :| Converted(lib, table, group, rm, fqdds, ids);
    assert |fqdds| == |rm| == |ids| && forall i :: 0 <= i < |rm| ==> |rm[i].metrics| == |ids[i]|;
    assert Untag([]) == [];
    hide *;
    MetricConservation(lib, table, group, rm, fqdds, ids);
    UntagEmitted(rm, fqdds, ids);
    if lib.parseRFC3339ToNanos(group.timestamp).Some? {
      UntagPermuted(Emitted(rm, fqdds, ids), Expected(lib, table, group.id, group.values));
    }
  }

  lemma {:induction false} FlattenEmpty<T>(xss: seq<seq<T>>)
    requires forall i :: 0 <= i < |xss| ==> xss[i] == []
    ensures Flatten(xss) == []
    decreases |xss|
  {
    if xss != [] {
      FlattenEmpty(xss[1..]);
    }
  }
}
