// cmd/otelpump/otelpump.go: from a metric report to OTLP data points.
module OtelMetrics {
  import opened Options
  import opened Sequences

  // ---- data ------------------------------------------------------------------------

  // A float64, by its bits.
  datatype Float = Float(bits: nat)

  datatype DataValue = DataValue(id: string, context: string, value: string, timestamp: string)

  datatype DataGroup = DataGroup(id: string, timestamp: string, values: seq<DataValue>)

  datatype OtelMeta = OtelMeta(
    name: string,
    description: string,
    unit: string,
    valueType: string,
    attributes: map<string, string>,
    enum: Option<map<string, int>>)

  type Table = map<string, OtelMeta>

  // Parsers and printers of Go's library.
  datatype Library = Library(
    parseFloat: string -> Option<Float>,
    parseRFC3339ToNanos: string -> Option<int>,
    toLower: string -> string,
    formatInt: int -> string)

  datatype Reading = Number(f: Float) | Text(s: string)

  datatype Dp = Dp(value: Reading, time: int)

  datatype PointValue = AsDouble(f: Float) | AsInt(i: int)

  datatype DataPoint = DataPoint(timeUnixNano: int, value: PointValue)

  datatype Metric = Metric(name: string, description: string, unit: string, enum: Option<map<string, int>>,
                           points: seq<DataPoint>)

  datatype ScopeMetrics = ScopeMetrics(attributes: Option<map<string, string>>, metrics: seq<Metric>)

  const JOIN_CHAR: string := ":"

  // uint64(t) of an int64.
  function Uint64(t: int): int { t % 0x1_0000_0000_0000_0000 }

  // ---- one value ---------------------------------------------------------------------

  function ReadingOf(lib: Library, v: DataValue): Reading {
    match lib.parseFloat(v.value)
    case Some(f) => Number(f)
    case None => Text(v.value)
  }

  // The point a value is grouped as; none when its timestamp does not parse.
  function DpOf(lib: Library, v: DataValue): Option<Dp> {
    match lib.parseRFC3339ToNanos(v.timestamp)
    case Some(t) => Some(Dp(ReadingOf(lib, v), t))
    case None => None
  }

  function Named(table: Table, key: string): Option<OtelMeta> {
    if key in table && table[key].name != "" then Some(table[key]) else None
  }

  // The id's own entry, or the one prefixed with the report's name.
  function Resolve(lib: Library, table: Table, groupID: string, metricId: string): Option<OtelMeta> {
    match Named(table, metricId)
    case Some(meta) => Some(meta)
    case None => Named(table, lib.toLower(groupID) + JOIN_CHAR + metricId)
  }

  // Numbers pass through; a text needs an enum entry for its lower-case form.
  function PointOf(lib: Library, meta: OtelMeta, p: Dp): Option<DataPoint> {
    match p.value
    case Number(f) => Some(DataPoint(Uint64(p.time), AsDouble(f)))
    case Text(s) =>
      if meta.enum.Some? && lib.toLower(s) in meta.enum.value then
        Some(DataPoint(Uint64(p.time), AsInt(meta.enum.value[lib.toLower(s)])))
      else None
  }

  function ToSeq<T>(o: Option<T>): seq<T> {
    match o case Some(x) => [x] case None => []
  }

  // ---- grouping ------------------------------------------------------------------------

  type Grouped = map<string, map<string, seq<Dp>>>

  // The points of one FQDD and metric id, in input order.
  function PointsFor(lib: Library, values: seq<DataValue>, fqdd: string, id: string): seq<Dp> {
    if values == [] then []
    else
      var v := values[|values| - 1];
      PointsFor(lib, values[..|values| - 1], fqdd, id)
      + if v.context == fqdd && v.id == id then ToSeq(DpOf(lib, v)) else []
  }

  ghost predicate HasPoints(lib: Library, values: seq<DataValue>, fqdd: string) {
    exists id :: PointsFor(lib, values, fqdd, id) != []
  }

  function At(m: Grouped, fqdd: string, id: string): seq<Dp> {
    if fqdd in m && id in m[fqdd] then m[fqdd][id] else []
  }

  // m is the grouping of the values: the right points under every pair of keys,
  // and no key without points.
  ghost predicate Groups(lib: Library, values: seq<DataValue>, m: Grouped) {
    && (forall fqdd, id :: At(m, fqdd, id) == PointsFor(lib, values, fqdd, id))
    && (forall fqdd :: fqdd in m ==> m[fqdd] != map[])
    && (forall fqdd, id :: fqdd in m && id in m[fqdd] ==> m[fqdd][id] != [])
  }

  // Appends p under its keys, creating them as needed.
  function Add(m: Grouped, fqdd: string, id: string, p: Dp): Grouped {
    var inner := if fqdd in m then m[fqdd] else map[];
    m[fqdd := inner[id := (if id in inner then inner[id] else []) + [p]]]
  }

  lemma GroupsSnoc(lib: Library, values: seq<DataValue>, v: DataValue, m: Grouped)
    requires Groups(lib, values, m)
    ensures var t := DpOf(lib, v);
            Groups(lib, values + [v], if t.Some? then Add(m, v.context, v.id, t.value) else m)
  {
    var t := DpOf(lib, v);
    var n := if t.Some? then Add(m, v.context, v.id, t.value) else m;
    assert (values + [v])[..|values|] == values;
    forall fqdd, id ensures At(n, fqdd, id) == PointsFor(lib, values + [v], fqdd, id) {
      assert At(m, fqdd, id) == PointsFor(lib, values, fqdd, id);
    }
    forall fqdd | fqdd in n ensures n[fqdd] != map[] {
      if t.Some? && fqdd == v.context {
        assert v.id in n[fqdd];
      }
    }
  }

  method GroupMetricsByFQDDAndMetricId(lib: Library, group: DataGroup) returns (m: Grouped)
    ensures Groups(lib, group.values, m)
  {
    m := map[];
    for i := 0 to |group.values|
      invariant Groups(lib, group.values[..i], m)
    {
      var value := group.values[i];
      GroupsSnoc(lib, group.values[..i], value, m);
      TakeSnoc(group.values, i);
      var val := ReadingOf(lib, value);
      var nanos := lib.parseRFC3339ToNanos(value.timestamp);
      if nanos == None {
        continue;
      }
      ghost var before := m;
      if value.context !in m {
        m := m[value.context := map[]];
      }
      if value.id !in m[value.context] {
        m := m[value.context := m[value.context][value.id := []]];
      }
      m := m[value.context := m[value.context][value.id := m[value.context][value.id] + [Dp(val, nanos.value)]]];
      assert m[value.context] == Add(before, value.context, value.id, Dp(val, nanos.value))[value.context];
      assert m == Add(before, value.context, value.id, Dp(val, nanos.value));
    }
    assert group.values[..|group.values|] == group.values;
  }

  // ---- conversion ------------------------------------------------------------------------

  function Convert(lib: Library, meta: OtelMeta, dps: seq<Dp>): seq<DataPoint> {
    if dps == [] then []
    else Convert(lib, meta, dps[..|dps| - 1]) + ToSeq(PointOf(lib, meta, dps[|dps| - 1]))
  }

  function MetricFor(lib: Library, meta: OtelMeta, dps: seq<Dp>): Metric {
    Metric(meta.name, meta.description, meta.unit, meta.enum, Convert(lib, meta, dps))
  }

  // Attribute values that stand for the FQDD and the report time are replaced.
  function ScopeAttributes(meta: OtelMeta, fqdd: string, timestamp: string): map<string, string> {
    map a | a in meta.attributes ::
      if meta.attributes[a] == "var-FQDD" then fqdd
      else if meta.attributes[a] == "var-Timestamp" then timestamp
      else meta.attributes[a]
  }

  // The metrics of one FQDD belong to these ids: every id with points and an
  // entry, each once, provided the report has a time.
  ghost predicate ScopeFor(lib: Library, table: Table, group: DataGroup, fqdd: string, scope: ScopeMetrics,
                           ids: seq<string>) {
    && |ids| == |scope.metrics| && Distinct(ids)
    && (forall id :: id in ids <==>
          && PointsFor(lib, group.values, fqdd, id) != []
          && Resolve(lib, table, group.id, id).Some?
          && lib.parseRFC3339ToNanos(group.timestamp).Some?)
    && (forall j :: 0 <= j < |ids| ==>
          && ids[j] in ids
          && scope.metrics[j] == MetricFor(lib, Resolve(lib, table, group.id, ids[j]).value,
                                       PointsFor(lib, group.values, fqdd, ids[j])))
    && (scope.attributes == None <==> ids == [])
    && (scope.attributes.Some? ==>
          && ids[0] in ids
          && scope.attributes.value == ScopeAttributes(Resolve(lib, table, group.id, ids[0]).value, fqdd,
                                                       lib.formatInt(lib.parseRFC3339ToNanos(group.timestamp).value)))
  }

  // The whole result: one scope per FQDD that has points.
  ghost predicate Converted(lib: Library, table: Table, group: DataGroup, rm: seq<ScopeMetrics>, fqdds: seq<string>,
                            ids: seq<seq<string>>) {
    && |fqdds| == |rm| == |ids| && Distinct(fqdds)
    && (forall fqdd :: fqdd in fqdds <==> HasPoints(lib, group.values, fqdd))
    && (forall i :: 0 <= i < |rm| ==> ScopeFor(lib, table, group, fqdds[i], rm[i], ids[i]))
  }

  // The same without naming the keys, which the result itself does not carry.
  ghost predicate IsScope(lib: Library, table: Table, group: DataGroup, fqdd: string, scope: ScopeMetrics) {
    exists ids :: ScopeFor(lib, table, group, fqdd, scope, ids)
  }

  ghost predicate IsConversion(lib: Library, table: Table, group: DataGroup, rm: seq<ScopeMetrics>) {
    exists fqdds, ids :: Converted(lib, table, group, rm, fqdds, ids)
  }

  // What the scope of an FQDD is to hold when the ids in todo are still to come.
  ghost predicate PartialScope(lib: Library, table: Table, group: DataGroup, fqdd: string, byId: map<string, seq<Dp>>,
                               todo: set<string>, scope: ScopeMetrics, ids: seq<string>) {
    && |ids| == |scope.metrics| && Distinct(ids)
    && (forall id :: id in ids <==>
          && id in byId && id !in todo
          && Resolve(lib, table, group.id, id).Some?
          && lib.parseRFC3339ToNanos(group.timestamp).Some?)
    && (forall j :: 0 <= j < |ids| ==>
          && ids[j] in ids
          && scope.metrics[j] == MetricFor(lib, Resolve(lib, table, group.id, ids[j]).value, byId[ids[j]]))
    && (scope.attributes == None <==> ids == [])
    && (scope.attributes.Some? ==>
          && ids[0] in ids
          && scope.attributes.value == ScopeAttributes(Resolve(lib, table, group.id, ids[0]).value, fqdd,
                                                       lib.formatInt(lib.parseRFC3339ToNanos(group.timestamp).value)))
  }

  lemma ScopeStart(lib: Library, table: Table, group: DataGroup, fqdd: string, byId: map<string, seq<Dp>>)
    ensures PartialScope(lib, table, group, fqdd, byId, byId.Keys, ScopeMetrics(None, []), [])
  {
  }

  // An id without an entry, or any id when the report has no time, adds nothing.
  lemma ScopeSkip(lib: Library, table: Table, group: DataGroup, fqdd: string, byId: map<string, seq<Dp>>,
                  todo: set<string>, scope: ScopeMetrics, ids: seq<string>, id: string)
    requires PartialScope(lib, table, group, fqdd, byId, todo, scope, ids) && id in todo
    requires Resolve(lib, table, group.id, id) == None || lib.parseRFC3339ToNanos(group.timestamp) == None
    ensures PartialScope(lib, table, group, fqdd, byId, todo - {id}, scope, ids)
  {
    hide Resolve, Distinct, MetricFor, ScopeAttributes;
  }

  lemma ScopeAdd(lib: Library, table: Table, group: DataGroup, fqdd: string, byId: map<string, seq<Dp>>,
                 todo: set<string>, scope: ScopeMetrics, ids: seq<string>, id: string,
                 attributes: map<string, string>)
    requires PartialScope(lib, table, group, fqdd, byId, todo, scope, ids) && id in todo && id in byId
    requires Resolve(lib, table, group.id, id).Some? && lib.parseRFC3339ToNanos(group.timestamp).Some?
    requires attributes == if scope.attributes.Some? then scope.attributes.value
                           else ScopeAttributes(Resolve(lib, table, group.id, id).value, fqdd,
                                                lib.formatInt(lib.parseRFC3339ToNanos(group.timestamp).value))
    ensures var metric := MetricFor(lib, Resolve(lib, table, group.id, id).value, byId[id]);
            PartialScope(lib, table, group, fqdd, byId, todo - {id},
                         ScopeMetrics(Some(attributes), scope.metrics + [metric]), ids + [id])
  {
    hide Resolve, Distinct, MetricFor, ScopeAttributes;
    DistinctSnoc(ids, id);
  }

  lemma ScopeDone(lib: Library, table: Table, group: DataGroup, fqdd: string, byId: map<string, seq<Dp>>,
                  scope: ScopeMetrics, ids: seq<string>)
    requires forall id :: (if id in byId then byId[id] else []) == PointsFor(lib, group.values, fqdd, id)
    requires forall id :: id in byId ==> byId[id] != []
    requires PartialScope(lib, table, group, fqdd, byId, {}, scope, ids)
    ensures ScopeFor(lib, table, group, fqdd, scope, ids)
  {
    hide Resolve, Distinct, MetricFor, ScopeAttributes, PointsFor;
  }

  // The inner loop of toOTLPMetrics: the metrics of one FQDD, in any order.
  method ScopeOf(lib: Library, table: Table, group: DataGroup, fqdd: string, byId: map<string, seq<Dp>>)
    returns (scope: ScopeMetrics)
    requires forall id :: (if id in byId then byId[id] else []) == PointsFor(lib, group.values, fqdd, id)
    requires forall id :: id in byId ==> byId[id] != []
    ensures IsScope(lib, table, group, fqdd, scope)
  {
    hide Resolve, Convert, ScopeAttributes, PointsFor, Distinct, PartialScope, ScopeFor;
    scope := ScopeMetrics(None, []);
    ghost var ids: seq<string> := [];
    var todo := byId.Keys;
    ScopeStart(lib, table, group, fqdd, byId);
    while todo != {}
      invariant todo <= byId.Keys
      invariant PartialScope(lib, table, group, fqdd, byId, todo, scope, ids)
      decreases todo
    {
      var metricId :| metricId in todo;
      ghost var before := todo;
      todo := todo - {metricId};
      var otelM := Resolve(lib, table, group.id, metricId);
      if otelM == None {
        ScopeSkip(lib, table, group, fqdd, byId, before, scope, ids, metricId);
        continue;
      }
      var attributes := scope.attributes;
      if attributes == None {
        var reportTime := lib.parseRFC3339ToNanos(group.timestamp);
        if reportTime == None {
          ScopeSkip(lib, table, group, fqdd, byId, before, scope, ids, metricId);
          continue;
        }
        attributes := Some(ScopeAttributes(otelM.value, fqdd, lib.formatInt(reportTime.value)));
      }
      HasTime(lib, table, group, fqdd, byId, before, scope, ids);
      var points := ConvertPoints(lib, otelM.value, byId[metricId]);
      ScopeAdd(lib, table, group, fqdd, byId, before, scope, ids, metricId, attributes.value);
      var metric := Metric(otelM.value.name, otelM.value.description, otelM.value.unit, otelM.value.enum, points);
      scope := ScopeMetrics(attributes, scope.metrics + [metric]);
      ids := ids + [metricId];
    }
    ScopeDone(lib, table, group, fqdd, byId, scope, ids);
  }

  // Attributes are only there when the report has a time.
  lemma HasTime(lib: Library, table: Table, group: DataGroup, fqdd: string, byId: map<string, seq<Dp>>,
                todo: set<string>, scope: ScopeMetrics, ids: seq<string>)
    requires PartialScope(lib, table, group, fqdd, byId, todo, scope, ids)
    ensures scope.attributes.Some? ==> lib.parseRFC3339ToNanos(group.timestamp).Some?
  {
    hide Resolve, Distinct, MetricFor, ScopeAttributes;
  }

  method ConvertPoints(lib: Library, meta: OtelMeta, dps: seq<Dp>) returns (points: seq<DataPoint>)
    ensures points == Convert(lib, meta, dps)
  {
    points := [];
    for i := 0 to |dps|
      invariant points == Convert(lib, meta, dps[..i])
    {
      TakeSnoc(dps, i);
      assert dps[..i + 1][..i] == dps[..i];
      var p := dps[i];
      match p.value
      case Number(f) =>
        points := points + [DataPoint(Uint64(p.time), AsDouble(f))];
      case Text(s) =>
        if meta.enum == None {
          continue;
        }
        if lib.toLower(s) !in meta.enum.value {
          continue;
        }
        points := points + [DataPoint(Uint64(p.time), AsInt(meta.enum.value[lib.toLower(s)]))];
    }
    assert dps[..|dps|] == dps;
  }

  ghost predicate ScopesFor(lib: Library, table: Table, group: DataGroup, rm: seq<ScopeMetrics>, fqdds: seq<string>,
                            ids: seq<seq<string>>) {
    && |fqdds| == |rm| == |ids|
    && (forall i :: 0 <= i < |rm| ==> ScopeFor(lib, table, group, fqdds[i], rm[i], ids[i]))
  }

  lemma ScopesSnoc(lib: Library, table: Table, group: DataGroup, rm: seq<ScopeMetrics>, fqdds: seq<string>,
                   ids: seq<seq<string>>,
                   scope: ScopeMetrics, fqdd: string, scopeIds: seq<string>)
    requires ScopesFor(lib, table, group, rm, fqdds, ids) && ScopeFor(lib, table, group, fqdd, scope, scopeIds)
    ensures ScopesFor(lib, table, group, rm + [scope], fqdds + [fqdd], ids + [scopeIds])
  {
    hide ScopeFor;
  }

  // The FQDDs of the grouping are those that have points.
  lemma KeysHavePoints(lib: Library, values: seq<DataValue>, m: Grouped)
    requires Groups(lib, values, m)
    ensures forall fqdd :: fqdd in m <==> HasPoints(lib, values, fqdd)
  {
    hide PointsFor;
    forall fqdd ensures fqdd in m <==> HasPoints(lib, values, fqdd) {
      if fqdd in m {
        assert m[fqdd].Keys != {};
        var id :| id in m[fqdd];
        assert At(m, fqdd, id) == PointsFor(lib, values, fqdd, id);
      }
      if id :| PointsFor(lib, values, fqdd, id) != [] {
        assert At(m, fqdd, id) == PointsFor(lib, values, fqdd, id);
      }
    }
  }

  lemma InnerPoints(lib: Library, values: seq<DataValue>, m: Grouped, fqdd: string)
    requires Groups(lib, values, m) && fqdd in m
    ensures forall id :: (if id in m[fqdd] then m[fqdd][id] else []) == PointsFor(lib, values, fqdd, id)
    ensures forall id :: id in m[fqdd] ==> m[fqdd][id] != []
  {
    hide PointsFor;
    forall id ensures (if id in m[fqdd] then m[fqdd][id] else []) == PointsFor(lib, values, fqdd, id) {
      assert At(m, fqdd, id) == PointsFor(lib, values, fqdd, id);
    }
  }

  method ToOTLPMetrics(lib: Library, table: Table, group: DataGroup) returns (rm: seq<ScopeMetrics>)
    ensures IsConversion(lib, table, group, rm)
  {
    hide Groups, ScopeFor, PointsFor, HasPoints, ScopesFor, Distinct, Converted;
    var m := GroupMetricsByFQDDAndMetricId(lib, group);
    rm := [];
    ghost var fqdds: seq<string>, ids: seq<seq<string>> := [], [];
    NoScopes(lib, table, group);
    var todo := m.Keys;
    while todo != {}
      invariant todo <= m.Keys
      invariant Distinct(fqdds) && ScopesFor(lib, table, group, rm, fqdds, ids)
      invariant forall fqdd :: fqdd in fqdds <==> fqdd in m && fqdd !in todo
      decreases todo
    {
      var fqdd :| fqdd in todo;
      todo := todo - {fqdd};
      InnerPoints(lib, group.values, m, fqdd);
      var scope := ScopeOf(lib, table, group, fqdd, m[fqdd]);
      ghost var scopeIds :| ScopeFor(lib, table, group, fqdd, scope, scopeIds);
      DistinctSnoc(fqdds, fqdd);
      ScopesSnoc(lib, table, group, rm, fqdds, ids, scope, fqdd, scopeIds);
      rm, fqdds, ids := rm + [scope], fqdds + [fqdd], ids + [scopeIds];
    }
    KeysHavePoints(lib, group.values, m);
    ScopesAreConverted(lib, table, group, rm, fqdds, ids);
  }

  lemma NoScopes(lib: Library, table: Table, group: DataGroup)
    ensures ScopesFor(lib, table, group, [], [], []) && Distinct<string>([])
  {
  }

  lemma ScopesAreConverted(lib: Library, table: Table, group: DataGroup, rm: seq<ScopeMetrics>, fqdds: seq<string>,
                           ids: seq<seq<string>>)
    requires Distinct(fqdds) && ScopesFor(lib, table, group, rm, fqdds, ids)
    requires forall fqdd :: fqdd in fqdds <==> HasPoints(lib, group.values, fqdd)
    ensures Converted(lib, table, group, rm, fqdds, ids)
  {
    hide ScopeFor, PointsFor, Distinct;
  }
}
