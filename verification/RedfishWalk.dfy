// The resource graph walk: Walk and walkUri of internal/redfish/redfish.go,
// walk and walkChild of internal/redfish/payload.go.
module RedfishWalk {
  import opened Options

  // A decoded JSON value. Scalars hold nothing the walk looks at, except that a
  // string may be a link.
  datatype Json =
    | Obj(fields: map<string, Json>)
    | Arr(items: seq<Json>)
    | Str(text: string)
    | Scalar(code: int)

  type Fields = map<string, Json>

  // What GetUri answers: the object at a URI, or nothing for any failure.
  type Service = map<string, Fields>

  const ROOT: string := "/redfish/v1"
  const ODATA_ID: string := "@odata.id"

  // ---- links ---------------------------------------------------------------------

  // The links walkChild follows below v: the nearest "@odata.id" on every path,
  // without looking inside the object that carries it.
  ghost predicate LinksTo(v: Json, uri: string) {
    match v
    case Obj(fields) =>
      if ODATA_ID in fields then fields[ODATA_ID] == Str(uri)
      else exists k | k in fields :: LinksTo(fields[k], uri)
    case Arr(items) => exists x | x in items :: LinksTo(x, uri)
    case _ => false
  }

  // Somewhere a link is not a string; the walk panics when it gets there.
  ghost predicate HasBadLink(v: Json) {
    match v
    case Obj(fields) =>
      if ODATA_ID in fields then !fields[ODATA_ID].Str?
      else exists k | k in fields :: HasBadLink(fields[k])
    case Arr(items) => exists x | x in items :: HasBadLink(x)
    case _ => false
  }

  // The same for the children of a fetched object; its own "@odata.id" is a
  // plain field here.
  ghost predicate PageLinksTo(page: Fields, uri: string) {
    exists k | k in page :: LinksTo(page[k], uri)
  }

  ghost predicate PageHasBadLink(page: Fields) {
    exists k | k in page :: HasBadLink(page[k])
  }

  // ---- reachability, independent of the walk ---------------------------------------

  ghost predicate IsPath(service: Service, path: seq<string>) {
    && path != [] && path[0] == ROOT
    && (forall i :: 0 <= i < |path| ==> path[i] in service)
    && (forall i :: 0 <= i < |path| - 1 ==> PageLinksTo(service[path[i]], path[i + 1]))
  }

  ghost predicate Reachable(service: Service, uri: string) {
    exists path :: IsPath(service, path) && path[|path| - 1] == uri
  }

  lemma ReachableStep(service: Service, from: string, to: string)
    requires Reachable(service, from) && to in service && from in service && PageLinksTo(service[from], to)
    ensures Reachable(service, to)
  {
    var path :| IsPath(service, path) && path[|path| - 1] == from;
    assert IsPath(service, path + [to]);
    assert (path + [to])[|path + [to]| - 1] == to;
  }

  lemma ReachableRoot(service: Service)
    ensures ROOT in service <==> Reachable(service, ROOT)
  {
    if ROOT in service {
      assert IsPath(service, [ROOT]);
      assert [ROOT][|[ROOT]| - 1] == ROOT;
    }
  }

  // A set that holds the root and all fetchable links of its members holds
  // everything reachable.
  lemma {:induction false} PathInside(service: Service, s: set<string>, path: seq<string>, i: nat)
    requires ROOT in s && IsPath(service, path) && i < |path|
    requires forall u, v :: u in s && u in service && v in service && PageLinksTo(service[u], v) ==> v in s
    ensures path[i] in s
    decreases i
  {
    if i > 0 {
      PathInside(service, s, path, i - 1);
      assert PageLinksTo(service[path[i - 1]], path[i - 1 + 1]);
    }
  }

  // ---- the walk ----------------------------------------------------------------------

  datatype RedfishPayload = ObjectPayload(object_: Fields) | ArrayPayload(array_: seq<Json>)

  function ValueOf(r: RedfishPayload): Json {
    match r
    case ObjectPayload(fields) => Obj(fields)
    case ArrayPayload(items) => Arr(items)
  }

  // u has been dealt with: its fetchable links are among the keys.
  ghost predicate Complete(service: Service, keys: set<string>, u: string)
    requires u in service
  {
    && (forall v :: v in service && PageLinksTo(service[u], v) ==> v in keys)
    && !PageHasBadLink(service[u])
  }

  ghost predicate AllComplete(service: Service, keys: set<string>, some: set<string>)
    requires some <= service.Keys
  {
    forall u :: u in some ==> Complete(service, keys, u)
  }

  // The fetchable links below v are among the keys.
  ghost predicate Followed(service: Service, keys: set<string>, v: Json) {
    && (forall uri :: uri in service && LinksTo(v, uri) ==> uri in keys)
    && !HasBadLink(v)
  }

  function Children(r: RedfishPayload): set<Json> {
    match r
    case ObjectPayload(fields) => fields.Values
    case ArrayPayload(items) => set x | x in items
  }

  ghost predicate AllFollowed(service: Service, keys: set<string>, vs: set<Json>) {
    forall v :: v in vs ==> Followed(service, keys, v)
  }

  lemma FollowedGrows(service: Service, keys: set<string>, more: set<string>, vs: set<Json>)
    requires keys <= more && AllFollowed(service, keys, vs)
    ensures AllFollowed(service, more, vs)
  {
    forall v | v in vs ensures Followed(service, more, v) {
      assert Followed(service, keys, v);
    }
  }

  // The links below v lead to reachable pages.
  ghost predicate LeadsOn(service: Service, v: Json) {
    forall uri :: uri in service && LinksTo(v, uri) ==> Reachable(service, uri)
  }

  ghost predicate PanicExplained(service: Service, keys: set<string>) {
    exists u :: u in keys && u in service && PageHasBadLink(service[u])
  }

  ghost predicate AllLeadOn(service: Service, vs: set<Json>) {
    forall v :: v in vs ==> LeadsOn(service, v)
  }

  // A reachable page leads to reachable pages, and following its children
  // completes it.
  lemma PageChildren(service: Service, uri: string)
    requires uri in service
    ensures Reachable(service, uri) ==> AllLeadOn(service, Children(ObjectPayload(service[uri])))
    ensures forall keys :: AllFollowed(service, keys, Children(ObjectPayload(service[uri])))
              ==> Complete(service, keys, uri)
    ensures forall x :: x in Children(ObjectPayload(service[uri])) && HasBadLink(x) ==> PageHasBadLink(service[uri])
  {
    var page := service[uri];
    forall v, to | Reachable(service, uri) && v in page.Values && to in service && LinksTo(v, to)
      ensures Reachable(service, to)
    {
      var k :| k in page && page[k] == v;
      assert PageLinksTo(page, to);
      ReachableStep(service, uri, to);
    }
    forall keys | AllFollowed(service, keys, page.Values) ensures Complete(service, keys, uri) {
      forall to | to in service && PageLinksTo(page, to) ensures to in keys {
        var k :| k in page && LinksTo(page[k], to);
        assert Followed(service, keys, page[k]);
      }
      forall k | k in page ensures !HasBadLink(page[k]) {
        assert Followed(service, keys, page[k]);
      }
    }
  }

  lemma LinkedThrough(r: RedfishPayload, uri: string) returns (x: Json)
    requires r.ObjectPayload? ==> ODATA_ID !in r.object_
    requires LinksTo(ValueOf(r), uri)
    ensures x in Children(r) && LinksTo(x, uri)
  {
    match r
    case ObjectPayload(fields) =>
      var k :| k in fields && LinksTo(fields[k], uri);
      x := fields[k];
    case ArrayPayload(items) =>
      x :| x in items && LinksTo(x, uri);
  }

  lemma BadThrough(r: RedfishPayload)
    requires r.ObjectPayload? ==> ODATA_ID !in r.object_
    ensures HasBadLink(ValueOf(r)) ==> exists x :: x in Children(r) && HasBadLink(x)
  {
    if HasBadLink(ValueOf(r)) {
      match r
      case ObjectPayload(fields) =>
        var k :| k in fields && HasBadLink(fields[k]);
        assert fields[k] in Children(r);
      case ArrayPayload(items) =>
        var x :| x in items && HasBadLink(x);
        assert x in Children(r);
    }
  }

  // The same for a value that is not itself a link.
  lemma ValueChildren(service: Service, r: RedfishPayload)
    requires r.ObjectPayload? ==> ODATA_ID !in r.object_
    ensures LeadsOn(service, ValueOf(r)) ==> AllLeadOn(service, Children(r))
    ensures forall keys :: AllFollowed(service, keys, Children(r)) ==> Followed(service, keys, ValueOf(r))
    ensures forall x :: x in Children(r) && HasBadLink(x) ==> HasBadLink(ValueOf(r))
  {
    var value := ValueOf(r);
    forall x | x in Children(r)
      ensures forall uri :: LinksTo(x, uri) ==> LinksTo(value, uri)
      ensures HasBadLink(x) ==> HasBadLink(value)
    {
      if r.ObjectPayload? {
        var k :| k in r.object_ && r.object_[k] == x;
      }
    }
    forall keys | AllFollowed(service, keys, Children(r)) ensures Followed(service, keys, value) {
      forall uri | uri in service && LinksTo(value, uri) ensures uri in keys {
        var x := LinkedThrough(r, uri);
        assert Followed(service, keys, x);
      }
      BadThrough(r);
    }
  }

  lemma CompleteGrows(service: Service, keys: set<string>, more: set<string>, some: set<string>)
    requires some <= service.Keys && keys <= more && AllComplete(service, keys, some)
    ensures AllComplete(service, more, some)
  {
    forall u | u in some ensures Complete(service, more, u) {
      assert Complete(service, keys, u);
    }
  }

  // A service of one page on which the walk panics: its link is an object's
  // "@odata.id" that is a number.
  const BAD_SERVICE: Service := map[ROOT := map["Chassis" := Obj(map[ODATA_ID := Scalar(0)])]]

  lemma BadServicePanics()
    ensures Reachable(BAD_SERVICE, ROOT) && PageHasBadLink(BAD_SERVICE[ROOT])
  {
    ReachableRoot(BAD_SERVICE);
    assert HasBadLink(BAD_SERVICE[ROOT]["Chassis"]);
  }

  class RedfishClient {
    const service: Service
    var res: Service               // the result map the whole walk shares
    ghost var fetched: seq<string> // every URI asked for, in order

    constructor (service: Service)
      ensures this.service == service && res == map[] && fetched == []
    {
      this.service, res, fetched := service, map[], [];
    }

    method GetUri(uri: string) returns (payload: Option<Fields>)
      modifies this`fetched
      ensures payload == if uri in service then Some(service[uri]) else None
      ensures fetched == old(fetched) + [uri]
    {
      fetched := fetched + [uri];
      payload := if uri in service then Some(service[uri]) else None;
    }

    // The map holds pages of the service under their own URIs, each reachable,
    // and a URI that can be fetched was fetched exactly once if it is in the map
    // and never if it is not.
    ghost predicate Valid()
      reads this
    {
      && (forall u :: u in res ==> u in service && res[u] == service[u] && Reachable(service, u))
      && (forall u :: u in service ==> multiset(fetched)[u] == if u in res then 1 else 0)
    }

    // Pages added since then are complete.
    ghost predicate GrownSince(before: set<string>)
      reads this
    {
      && before <= res.Keys <= service.Keys
      && AllComplete(service, res.Keys, res.Keys - before)
    }

    // Growing twice is growing.
    lemma GrownTwice(before: set<string>, middle: set<string>)
      requires middle <= service.Keys && before <= middle
      requires AllComplete(service, middle, middle - before)
      requires GrownSince(middle)
      ensures GrownSince(before)
    {
      CompleteGrows(service, middle, res.Keys, middle - before);
      forall u | u in res.Keys - before ensures Complete(service, res.Keys, u) {
        if u in middle {
          assert u in middle - before;
        } else {
          assert u in res.Keys - middle;
        }
      }
    }

    // What one more child adds.
    lemma WalkedMore(before: set<string>, middle: set<string>, done: set<Json>, v: Json)
      requires middle <= service.Keys && before <= middle
      requires AllComplete(service, middle, middle - before) && AllFollowed(service, middle, done)
      requires GrownSince(middle) && Followed(service, res.Keys, v)
      ensures GrownSince(before) && AllFollowed(service, res.Keys, done + {v})
    {
      GrownTwice(before, middle);
      FollowedGrows(service, middle, res.Keys, done);
    }

    method WalkUri(uri: string) returns (panicked: bool)
      requires Valid() && uri !in res
      requires uri in service ==> Reachable(service, uri)
      modifies this`res, this`fetched
      ensures Valid() && old(res.Keys) <= res.Keys
      ensures !panicked ==> GrownSince(old(res.Keys)) && (uri in service ==> uri in res)
      ensures panicked ==> PanicExplained(service, res.Keys)
      decreases service.Keys - res.Keys, 0
    {
      ghost var before := res.Keys;
      var payload := GetUri(uri);
      if payload == None {
        return false;
      }
      res := res[uri := payload.value];
      ghost var middle := res.Keys;
      assert uri in service.Keys - before && uri !in service.Keys - middle;
      PageChildren(service, uri);
      panicked := WalkPayload(ObjectPayload(payload.value));
      if !panicked {
        assert Complete(service, res.Keys, uri);
        forall u | u in res.Keys - before ensures Complete(service, res.Keys, u) {
          if u != uri {
            assert u in res.Keys - middle;
          }
        }
      } else {
        assert uri in res.Keys;
      }
    }

    // walk
    method WalkPayload(r: RedfishPayload) returns (panicked: bool)
      requires Valid() && AllLeadOn(service, Children(r))
      modifies this`res, this`fetched
      ensures Valid() && old(res.Keys) <= res.Keys
      ensures !panicked ==> GrownSince(old(res.Keys)) && AllFollowed(service, res.Keys, Children(r))
      ensures panicked ==> PanicExplained(service, res.Keys) || exists v :: v in Children(r) && HasBadLink(v)
      decreases service.Keys - res.Keys, 1, ValueOf(r), 0
    {
      ghost var before, done := res.Keys, {};
      match r
      case ObjectPayload(fields) =>
        var todo := fields.Keys;
        while todo != {}
          invariant todo <= fields.Keys
          invariant forall k :: k in fields && k !in todo ==> fields[k] in done
          invariant Valid() && GrownSince(before) && AllFollowed(service, res.Keys, done)
          decreases todo
        {
          var k :| k in todo;
          ghost var middle := res.Keys;
          panicked := WalkChild(fields[k]);
          if panicked { return; }
          WalkedMore(before, middle, done, fields[k]);
          todo, done := todo - {k}, done + {fields[k]};
        }
        panicked := false;
      case ArrayPayload(items) =>
        for i := 0 to |items|
          invariant forall j :: 0 <= j < i ==> items[j] in done
          invariant Valid() && GrownSince(before) && AllFollowed(service, res.Keys, done)
        {
          ghost var middle := res.Keys;
          panicked := WalkChild(items[i]);
          if panicked { return; }
          WalkedMore(before, middle, done, items[i]);
          done := done + {items[i]};
        }
        panicked := false;
    }

    method WalkChild(value: Json) returns (panicked: bool)
      requires Valid() && LeadsOn(service, value)
      modifies this`res, this`fetched
      ensures Valid() && old(res.Keys) <= res.Keys
      ensures !panicked ==> GrownSince(old(res.Keys)) && Followed(service, res.Keys, value)
      ensures panicked ==> PanicExplained(service, res.Keys) || HasBadLink(value)
      decreases service.Keys - res.Keys, 1, value, 1
    {
      match value
      case Obj(fields) =>
        if ODATA_ID in fields {
          if !fields[ODATA_ID].Str? {
            return true;
          }
          var id := fields[ODATA_ID].text;
          assert LinksTo(value, id);
          if id !in res {
            panicked := WalkUri(id);
          } else {
            panicked := false;
          }
        } else {
          ValueChildren(service, ObjectPayload(fields));
          panicked := WalkPayload(ObjectPayload(fields));
        }
      case Arr(items) =>
        ValueChildren(service, ArrayPayload(items));
        panicked := WalkPayload(ArrayPayload(items));
      case _ =>
        panicked := false;
    }

    // Walk: without a panic the map holds exactly the pages reachable from the
    // root, each under its own URI and fetched once, in whatever order the
    // fields were visited. It panics exactly when a reachable page has a link
    // that is not a string.
    method Walk() returns (panicked: bool)
      modifies this`res, this`fetched
      ensures panicked <==> exists u :: u in service && Reachable(service, u) && PageHasBadLink(service[u])
      ensures !panicked ==> forall u :: u in res <==> u in service && Reachable(service, u)
      ensures forall u :: u in res ==> u in service && res[u] == service[u]
      ensures forall u :: u in service ==> multiset(fetched)[u] == if u in res then 1 else 0
    {
      res, fetched := map[], [];
      ReachableRoot(service);
      panicked := WalkUri(ROOT);
      if !panicked {
        forall u | u in service && Reachable(service, u) ensures u in res && !PageHasBadLink(service[u]) {
          assert ROOT in service by {
            var path :| IsPath(service, path) && path[|path| - 1] == u;
          }
          var path :| IsPath(service, path) && path[|path| - 1] == u;
          forall a, b | a in res.Keys && a in service && b in service && PageLinksTo(service[a], b)
            ensures b in res.Keys
          {
            assert Complete(service, res.Keys, a);
          }
          PathInside(service, res.Keys, path, |path| - 1);
          assert Complete(service, res.Keys, u);
        }
      }
    }
  }
}
