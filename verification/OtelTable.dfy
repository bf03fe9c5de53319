// readOtelMeta of cmd/otelpump/otelpump.go: building the metadata table from
// the sections of the mapping file.
module OtelTable {
  import opened Options
  import opened Sequences
  import opened OtelMetrics

  // One item of a section's metric list; a key that is missing or not a string
  // is None.
  datatype RawMetric = RawMetric(
    otelMetricName: Option<string>,
    otelType: Option<string>,
    unit: Option<string>,
    description: Option<string>,
    redfishName: Option<string>,
    attr: Option<map<string, string>>,
    enum: Option<map<string, int>>)

  datatype Section = Section(scopeAttr: map<string, string>, metrics: seq<RawMetric>)

  // The file: None is a section that cannot be unmarshalled.
  datatype Config = Config(
    repeatedMetricIds: seq<string>,
    scopeDef: map<string, string>,
    sections: map<string, Option<Section>>)

  function OrEmpty(s: Option<string>): string {
    match s case Some(x) => x case None => ""
  }

  // An item counts only with a name, a type and a Redfish name.
  predicate Counts(m: RawMetric) {
    m.otelMetricName.Some? && m.otelType.Some? && m.redfishName.Some?
  }

  function MetaOf(config: Config, section: Section, m: RawMetric): OtelMeta
    requires Counts(m)
  {
    var attributes := config.scopeDef + section.scopeAttr + (match m.attr case Some(a) => a case None => map[]);
    OtelMeta(m.otelMetricName.value, OrEmpty(m.description), OrEmpty(m.unit), m.otelType.value, attributes, m.enum)
  }

  // Repeated ids are told apart by their section.
  function KeyOf(config: Config, sectionName: string, redfishName: string): string {
    if redfishName in config.repeatedMetricIds then sectionName + JOIN_CHAR + redfishName else redfishName
  }

  // The table after the first n items of a section.
  function AddItems(config: Config, table: Table, name: string, section: Section, n: nat): Table
    requires n <= |section.metrics|
  {
    if n == 0 then table
    else
      var m := section.metrics[n - 1];
      var before := AddItems(config, table, name, section, n - 1);
      if Counts(m) then before[KeyOf(config, name, m.redfishName.value) := MetaOf(config, section, m)] else before
  }

  // What a section defines on its own.
  function Defs(config: Config, name: string): Table
    requires name in config.sections
  {
    match config.sections[name]
    case Some(section) => AddItems(config, map[], name, section, |section.metrics|)
    case None => map[]
  }

  // The table for one order of the sections.
  function Build(config: Config, order: seq<string>): Table
    requires forall name :: name in order ==> name in config.sections
  {
    if order == [] then map[]
    else Build(config, order[..|order| - 1]) + Defs(config, order[|order| - 1])
  }

  ghost predicate IsOrder(config: Config, order: seq<string>) {
    && Distinct(order)
    && (forall name :: name in order <==> name in config.sections)
  }

  // A table readOtelMeta can come to.
  ghost predicate IsTable(config: Config, table: Table) {
    exists order :: IsOrder(config, order) && table == Build(config, order)
  }

  lemma {:induction false} AddItemsMerges(config: Config, table: Table, name: string, section: Section, n: nat)
    requires n <= |section.metrics|
    ensures AddItems(config, table, name, section, n) == table + AddItems(config, map[], name, section, n)
    decreases n
  {
    if n > 0 {
      AddItemsMerges(config, table, name, section, n - 1);
    }
  }

  lemma BuildSnoc(config: Config, order: seq<string>, name: string)
    requires forall x :: x in order ==> x in config.sections
    requires name in config.sections
    ensures forall x :: x in order + [name] ==> x in config.sections
    ensures Build(config, order + [name]) == Build(config, order) + Defs(config, name)
  {
    DropLast(order, name);
  }

  // readOtelMeta visits the sections in whatever order the map yields.
  method ReadOtelMeta(config: Config) returns (idrac2Otel: Table)
    ensures IsTable(config, idrac2Otel)
  {
    idrac2Otel := map[];
    ghost var order: seq<string> := [];
    var todo := config.sections.Keys;
    while todo != {}
      invariant todo <= config.sections.Keys
      invariant Distinct(order)
      invariant forall name :: name in order <==> name in config.sections && name !in todo
      invariant idrac2Otel == Build(config, order)
      decreases todo
    {
      var metricReport :| metricReport in todo;
      todo := todo - {metricReport};
      BuildSnoc(config, order, metricReport);
      DistinctSnoc(order, metricReport);
      order := order + [metricReport];
      if config.sections[metricReport] == None {
        continue;
      }
      var r2o := config.sections[metricReport].value;
      ghost var before := idrac2Otel;
      for i := 0 to |r2o.metrics|
        invariant idrac2Otel == AddItems(config, before, metricReport, r2o, i)
      {
        var m := r2o.metrics[i];
        if m.otelMetricName == None || m.otelType == None || m.redfishName == None {
          continue;
        }
        var rnm := m.redfishName.value;
        if rnm in config.repeatedMetricIds {
          rnm := metricReport + JOIN_CHAR + rnm;
        }
        idrac2Otel := idrac2Otel[rnm := MetaOf(config, r2o, m)];
      }
      AddItemsMerges(config, before, metricReport, r2o, |r2o.metrics|);
    }
  }

  // ---- when the order does not matter --------------------------------------------------

  ghost predicate OrderIndependent(config: Config) {
    forall a, b :: IsTable(config, a) && IsTable(config, b) ==> a == b
  }

  // Two sections that define the same key define it alike.
  ghost predicate SectionsAgree(config: Config) {
    forall s, t, key ::
      s in config.sections && t in config.sections && key in Defs(config, s) && key in Defs(config, t) ==>
        Defs(config, s)[key] == Defs(config, t)[key]
  }

  lemma {:induction false} BuildHas(config: Config, order: seq<string>, key: string)
    requires forall name :: name in order ==> name in config.sections
    ensures key in Build(config, order) <==> exists s :: s in order && key in Defs(config, s)
    ensures key in Build(config, order) ==>
              exists s :: s in order && key in Defs(config, s) && Build(config, order)[key] == Defs(config, s)[key]
    decreases |order|
  {
    if order != [] {
      var rest, last := order[..|order| - 1], order[|order| - 1];
      BuildHas(config, rest, key);
      assert last in order && forall x :: x in order <==> x in rest || x == last by { Unsnoc(order); }
    }
  }

  lemma AgreementSuffices(config: Config, a: seq<string>, b: seq<string>)
    requires SectionsAgree(config) && IsOrder(config, a) && IsOrder(config, b)
    ensures Build(config, a) == Build(config, b)
  {
    forall key ensures key in Build(config, a) <==> key in Build(config, b) {
      BuildHas(config, a, key);
      BuildHas(config, b, key);
    }
    forall key | key in Build(config, a) && key in Build(config, b)
      ensures Build(config, a)[key] == Build(config, b)[key]
    {
      BuildHas(config, a, key);
      BuildHas(config, b, key);
    }
  }

  lemma {:induction false} Enumerate(names: set<string>) returns (order: seq<string>)
    ensures Distinct(order) && forall name :: name in order <==> name in names
    decreases names
  {
    if names == {} {
      order := [];
    } else {
      var name :| name in names;
      order := Enumerate(names - {name});
      DistinctSnoc(order, name);
      order := order + [name];
    }
  }

  // Any section can come last, and then its definitions win.
  lemma Last(config: Config, s: string) returns (order: seq<string>)
    requires s in config.sections
    ensures IsOrder(config, order)
    ensures forall key :: key in Defs(config, s) ==>
              key in Build(config, order) && Build(config, order)[key] == Defs(config, s)[key]
  {
    order := Enumerate(config.sections.Keys - {s});
    BuildSnoc(config, order, s);
    DistinctSnoc(order, s);
    order := order + [s];
  }

  // The table is independent of the iteration order exactly when sections that
  // share a key agree on it.
  lemma OrderIndependence(config: Config)
    ensures OrderIndependent(config) <==> SectionsAgree(config)
  {
    if SectionsAgree(config) {
      forall a, b | IsTable(config, a) && IsTable(config, b) ensures a == b {
        var first :| IsOrder(config, first) && a == Build(config, first);
        var second :| IsOrder(config, second) && b == Build(config, second);
        AgreementSuffices(config, first, second);
      }
    }
    if OrderIndependent(config) {
      forall s, t, key | s in config.sections && t in config.sections
        && key in Defs(config, s) && key in Defs(config, t)
        ensures Defs(config, s)[key] == Defs(config, t)[key]
      {
        var a := Last(config, s);
        var b := Last(config, t);
        assert IsTable(config, Build(config, a)) && IsTable(config, Build(config, b));
      }
    }
  }

  // A file whose table depends on the order: two sections name one metric
  // differently and it is not listed as repeated.
  const FAN: RawMetric := RawMetric(Some("hw.fan.speed"), Some("gauge"), None, None, Some("Reading"), None, None)

  const CLASHING: Config :=
    Config([], map[], map["fans" := Some(Section(map[], [FAN])),
                          "psus" := Some(Section(map[], [FAN.(otelMetricName := Some("hw.power"))]))])

  lemma ClashingDependsOnOrder()
    ensures !OrderIndependent(CLASHING)
  {
    var fans, psus := Defs(CLASHING, "fans"), Defs(CLASHING, "psus");
    assert fans["Reading"].name == "hw.fan.speed" && psus["Reading"].name == "hw.power";
    assert "hw.fan.speed"[3] != "hw.power"[3];
    OrderIndependence(CLASHING);
  }

  // ---- what the table holds ----------------------------------------------------------------

  // Item i of section s is complete and goes under this key.
  ghost predicate ItemAt(config: Config, s: string, i: nat, key: string) {
    && s in config.sections && config.sections[s].Some? && i < |config.sections[s].value.metrics|
    && var m := config.sections[s].value.metrics[i];
       && m.otelMetricName.Some? && m.otelType.Some? && m.redfishName.Some?
       && key == if m.redfishName.value in config.repeatedMetricIds then s + ":" + m.redfishName.value
                 else m.redfishName.value
  }

  // The entry says what the item says. An attribute comes from the item, failing
  // that from its section, failing that from the defaults.
  ghost predicate Describes(config: Config, section: Section, m: RawMetric, meta: OtelMeta) {
    && m.otelMetricName == Some(meta.name) && m.otelType == Some(meta.valueType)
    && meta.unit == (if m.unit.Some? then m.unit.value else "")
    && meta.description == (if m.description.Some? then m.description.value else "")
    && meta.enum == m.enum
    && forall a ::
         var own := m.attr.Some? && a in m.attr.value;
         && (a in meta.attributes <==> own || a in section.scopeAttr || a in config.scopeDef)
         && (own ==> meta.attributes[a] == m.attr.value[a])
         && (!own && a in section.scopeAttr ==> meta.attributes[a] == section.scopeAttr[a])
         && (!own && a !in section.scopeAttr && a in config.scopeDef ==> meta.attributes[a] == config.scopeDef[a])
  }

  lemma MetaDescribes(config: Config, section: Section, m: RawMetric)
    requires Counts(m)
    ensures Describes(config, section, m, MetaOf(config, section, m))
  {
  }

  // Item i, and none after it in its section, has made this entry.
  ghost predicate Made(config: Config, s: string, i: nat, n: nat, key: string, meta: OtelMeta) {
    && ItemAt(config, s, i, key) && i < n
    && (forall j: nat :: i < j < n ==> !ItemAt(config, s, j, key))
    && Describes(config, config.sections[s].value, config.sections[s].value.metrics[i], meta)
  }

  lemma {:induction false} ItemsHold(config: Config, s: string, n: nat, key: string)
    requires s in config.sections && config.sections[s].Some? && n <= |config.sections[s].value.metrics|
    ensures var table := AddItems(config, map[], s, config.sections[s].value, n);
            && (key in table <==> exists i: nat :: i < n && ItemAt(config, s, i, key))
            && (key in table ==> exists i: nat :: Made(config, s, i, n, key, table[key]))
    decreases n
  {
    if n > 0 {
      ItemsHold(config, s, n - 1, key);
      var section := config.sections[s].value;
      var m := section.metrics[n - 1];
      var before, table := AddItems(config, map[], s, section, n - 1), AddItems(config, map[], s, section, n);
      assert ItemAt(config, s, n - 1, key) <==> Counts(m) && key == KeyOf(config, s, m.redfishName.value);
      hide Describes;
      if ItemAt(config, s, n - 1, key) {
        MetaDescribes(config, section, m);
        assert Made(config, s, n - 1, n, key, table[key]);
      } else if key in table {
        assert key in before && before[key] == table[key];
        var i: nat :| Made(config, s, i, n - 1, key, before[key]);
        assert Made(config, s, i, n, key, table[key]);
      }
    }
  }

  // A key is in the table exactly when some complete item goes under it, and its
  // entry says what the last such item of some section says.
  lemma TableHolds(config: Config, table: Table, key: string)
    requires IsTable(config, table)
    ensures key in table <==> exists s, i: nat :: ItemAt(config, s, i, key)
    ensures key in table ==>
              exists s, i: nat :: s in config.sections && config.sections[s].Some?
                && Made(config, s, i, |config.sections[s].value.metrics|, key, table[key])
  {
    var order :| IsOrder(config, order) && table == Build(config, order);
    BuildHas(config, order, key);
    hide Build, AddItems, Made, ItemAt;
    if key in table {
      var s :| s in order && key in Defs(config, s) && table[key] == Defs(config, s)[key];
      ItemsHold(config, s, |config.sections[s].value.metrics|, key);
    }
    if s, i: nat :| ItemAt(config, s, i, key) {
      ItemInDefs(config, s, i, key);
    }
  }

  lemma ItemInDefs(config: Config, s: string, i: nat, key: string)
    requires ItemAt(config, s, i, key)
    ensures s in config.sections && key in Defs(config, s)
  {
    ItemsHold(config, s, |config.sections[s].value.metrics|, key);
  }

  // ---- the naming rule of the mapping file -----------------------------------------------

  // Section s defines Redfish name n.
  ghost predicate Defines(config: Config, s: string, n: string) {
    && s in config.sections && config.sections[s].Some?
    && exists m :: m in config.sections[s].value.metrics && Counts(m) && m.redfishName.value == n
  }

  // Names defined in two sections are listed as repeated, and none contains the
  // join character.
  ghost predicate WellNamed(config: Config) {
    && (forall s, t, n :: Defines(config, s, n) && Defines(config, t, n) && s != t ==> n in config.repeatedMetricIds)
    && (forall s, n :: Defines(config, s, n) ==> JOIN_CHAR[0] !in n)
  }

  lemma {:induction false} DefsKeys(config: Config, s: string, section: Section, n: nat, key: string)
    requires s in config.sections && config.sections[s] == Some(section) && n <= |section.metrics|
    requires key in AddItems(config, map[], s, section, n)
    ensures exists name :: Defines(config, s, name) && key == KeyOf(config, s, name)
    decreases n
  {
    if n > 0 {
      var m := section.metrics[n - 1];
      if Counts(m) && key == KeyOf(config, s, m.redfishName.value) {
        assert m in section.metrics && Defines(config, s, m.redfishName.value);
      } else {
        DefsKeys(config, s, section, n - 1, key);
      }
    }
  }

  // The join character splits a prefixed key in one way only.
  lemma JoinSplits(s: string, t: string, a: string, b: string)
    requires JOIN_CHAR[0] !in a && JOIN_CHAR[0] !in b
    ensures s + JOIN_CHAR + a == t + JOIN_CHAR + b ==> s == t && a == b
  {
    var x, y := s + JOIN_CHAR + a, t + JOIN_CHAR + b;
    if x == y {
      assert x[|s|] == JOIN_CHAR[0] && y[|t|] == JOIN_CHAR[0];
      assert forall i :: |s| < i < |x| ==> x[i] == a[i - |s| - 1];
      assert forall i :: |t| < i < |y| ==> y[i] == b[i - |t| - 1];
      assert |s| == |t|;
      assert s == x[..|s|] && t == y[..|t|];
      assert a == x[|s| + 1..] && b == y[|t| + 1..];
    }
  }

  lemma PrefixedHasJoin(s: string, n: string)
    ensures JOIN_CHAR[0] in s + JOIN_CHAR + n
  {
    assert (s + JOIN_CHAR + n)[|s|] == JOIN_CHAR[0];
  }

  lemma KeyDetermines(config: Config, s: string, n: string, t: string, k: string)
    requires WellNamed(config) && Defines(config, s, n) && Defines(config, t, k)
    requires KeyOf(config, s, n) == KeyOf(config, t, k)
    ensures s == t && n == k
  {
    JoinSplits(s, t, n, k);
    PrefixedHasJoin(s, n);
    PrefixedHasJoin(t, k);
  }

  // Under the naming rule the order of the sections never matters.
  lemma WellNamedIsOrderIndependent(config: Config)
    requires WellNamed(config)
    ensures OrderIndependent(config)
  {
    forall s, t, key | s in config.sections && t in config.sections && key in Defs(config, s) && key in Defs(config, t)
      ensures Defs(config, s)[key] == Defs(config, t)[key]
    {
      DefsKeys(config, s, config.sections[s].value, |config.sections[s].value.metrics|, key);
      DefsKeys(config, t, config.sections[t].value, |config.sections[t].value.metrics|, key);
      var n :| Defines(config, s, n) && key == KeyOf(config, s, n);
      var k :| Defines(config, t, k) && key == KeyOf(config, t, k);
      KeyDetermines(config, s, n, t, k);
    }
    OrderIndependence(config);
  }

  // ---- looking up a repeated id ------------------------------------------------------------

  // m is the only item of section s for its Redfish name.
  ghost predicate OnlyItem(section: Section, m: RawMetric) {
    && m in section.metrics && Counts(m)
    && forall x :: x in section.metrics && Counts(x) && x.redfishName == m.redfishName ==> x == m
  }

  lemma {:induction false} OwnItem(config: Config, s: string, section: Section, m: RawMetric, n: nat)
    requires OnlyItem(section, m) && n <= |section.metrics| && JOIN_CHAR[0] !in m.redfishName.value
    requires forall x :: x in section.metrics && Counts(x) ==> JOIN_CHAR[0] !in x.redfishName.value
    ensures var key, table := KeyOf(config, s, m.redfishName.value), AddItems(config, map[], s, section, n);
            && (m in section.metrics[..n] ==> key in table)
            && (key in table ==> table[key] == MetaOf(config, section, m))
    decreases n
  {
    if n > 0 {
      OwnItem(config, s, section, m, n - 1);
      var x := section.metrics[n - 1];
      assert x in section.metrics;
      TakeSnoc(section.metrics, n - 1);
      var name := m.redfishName.value;
      if Counts(x) {
        var other := x.redfishName.value;
        JoinSplits(s, s, name, other);
        PrefixedHasJoin(s, name);
        PrefixedHasJoin(s, other);
      }
    }
  }

  // A repeated id, looked up for the report named like section s, gives that
  // section's own definition, whatever the other sections say.
  lemma RepeatedIdResolves(lib: Library, config: Config, table: Table, s: string, m: RawMetric, groupID: string)
    requires WellNamed(config) && IsTable(config, table)
    requires s in config.sections && config.sections[s].Some? && OnlyItem(config.sections[s].value, m)
    requires m.redfishName.value in config.repeatedMetricIds && lib.toLower(groupID) == s
    ensures var meta := MetaOf(config, config.sections[s].value, m);
            Resolve(lib, table, groupID, m.redfishName.value)
            == if meta.name != "" then Some(meta) else None
  {
    var section, name := config.sections[s].value, m.redfishName.value;
    var order :| IsOrder(config, order) && table == Build(config, order);
    var key := s + JOIN_CHAR + name;
    forall x | x in section.metrics && Counts(x) ensures Defines(config, s, x.redfishName.value) {
    }
    assert section.metrics[..|section.metrics|] == section.metrics;
    OwnItem(config, s, section, m, |section.metrics|);
    BuildHas(config, order, key);
    BuildHas(config, order, name);
    if name in table {
      var t :| t in order && name in Defs(config, t);
      NotPrefixed(config, t, s, name);
      assert false;
    }
    var t :| t in order && key in Defs(config, t) && table[key] == Defs(config, t)[key];
    DefsKeys(config, t, config.sections[t].value, |config.sections[t].value.metrics|, key);
    var k :| Defines(config, t, k) && key == KeyOf(config, t, k);
    KeyDetermines(config, s, name, t, k);
  }

  // A name that is not listed as repeated gives the definition of its only
  // section, whatever the report is called.
  lemma PlainIdResolves(lib: Library, config: Config, table: Table, s: string, m: RawMetric, groupID: string)
    requires WellNamed(config) && IsTable(config, table)
    requires s in config.sections && config.sections[s].Some? && OnlyItem(config.sections[s].value, m)
    requires m.redfishName.value !in config.repeatedMetricIds && m.otelMetricName != Some("")
    ensures Resolve(lib, table, groupID, m.redfishName.value) == Some(MetaOf(config, config.sections[s].value, m))
  {
    var section, name := config.sections[s].value, m.redfishName.value;
    var order :| IsOrder(config, order) && table == Build(config, order);
    forall x | x in section.metrics && Counts(x) ensures Defines(config, s, x.redfishName.value) {
    }
    assert section.metrics[..|section.metrics|] == section.metrics;
    OwnItem(config, s, section, m, |section.metrics|);
    BuildHas(config, order, name);
    var t :| t in order && name in Defs(config, t) && table[name] == Defs(config, t)[name];
    DefsKeys(config, t, config.sections[t].value, |config.sections[t].value.metrics|, name);
    var k :| Defines(config, t, k) && name == KeyOf(config, t, k);
    KeyDetermines(config, s, name, t, k);
  }

  // A repeated name is never a key by itself.
  lemma NotPrefixed(config: Config, t: string, s: string, name: string)
    requires WellNamed(config) && Defines(config, s, name) && name in config.repeatedMetricIds
    requires t in config.sections
    ensures name !in Defs(config, t)
  {
    if name in Defs(config, t) {
      DefsKeys(config, t, config.sections[t].value, |config.sections[t].value.metrics|, name);
    }
    forall k | Defines(config, t, k) ensures KeyOf(config, t, k) != name {
      PrefixedHasJoin(t, k);
    }
  }
}
