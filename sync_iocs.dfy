/** The IOC synchronisation of edr-plugins/misp/sync_iocs.py: which MISP
    attributes become indicators to add to the EDR manager, which become
    indicators to delete, and in what order the two updates are sent. MISP and
    the manager are parameters: the index search result and the event fetch
    are inputs, and the two manager updates are returned as a call log. */
module SyncIocs {
  import opened Wrappers
  import opened Seqs

  /** `ALLOWED_TYPES`: the MISP attribute types the manager accepts as IOCs. */
  const AllowedTypes: set<string> := {"md5", "sha1", "sha256", "domain", "hostname", "ip-dst"}

  /** An indicator as the manager stores it (`pywhids.ioc.IOC`). */
  datatype Ioc = Ioc(uuid: string, guuid: string, source: string, value: string, kind: string)

  /** One result of `search_index`: a plain dict, or an object with a `uuid`. */
  datatype SearchHit = DictHit(fields: map<string, string>) | ObjectHit(uuid: string)

  /** `res["uuid"]` raises `KeyError` on a dict without that key. */
  datatype SearchError = MissingUuid

  /** The uuid a search result carries, if it has one. */
  function UuidOf(h: SearchHit): (u: Option<string>)
    ensures h.ObjectHit? ==> u == Some(h.uuid)
    ensures h.DictHit? ==> (u.Some? <==> "uuid" in h.fields)
    ensures h.DictHit? && u.Some? ==> "uuid" in h.fields && u.value == h.fields["uuid"]
  {
    match h
    case ObjectHit(uuid) => Some(uuid)
    case DictHit(fields) => if "uuid" in fields then Some(fields["uuid"]) else None
  }

  /** `uuids_from_search`: one uuid per result, in order; a dict without a
      `uuid` key makes the whole call fail. */
  method UuidsFromSearch(search: seq<SearchHit>) returns (r: Result<seq<string>, SearchError>)
    ensures r.Ok? <==> forall i :: 0 <= i < |search| ==> UuidOf(search[i]).Some?
    ensures r.Ok? ==> |r.value| == |search| && forall i :: 0 <= i < |search| ==> UuidOf(search[i]) == Some(r.value[i])
  {
    var uuids: seq<string> := [];
    var i := 0;
    while i < |search|
      invariant 0 <= i <= |search| && |uuids| == i
      invariant forall j :: 0 <= j < i ==> UuidOf(search[j]) == Some(uuids[j])
    {
      var res := search[i];
      if res.DictHit? {
        if "uuid" !in res.fields {
          return Err(MissingUuid);
        }
        uuids := uuids + [res.fields["uuid"]];
      } else {
        uuids := uuids + [res.uuid];
      }
      i := i + 1;
    }
    return Ok(uuids);
  }

  /** A MISP attribute. `day` is the date of its timestamp, as a day number;
      `eventUuid` is the tag `emit_attributes` sets. */
  datatype Attribute = Attribute(uuid: string, kind: string, value: string, toIds: bool, day: int, eventUuid: string)

  datatype MispObject = MispObject(attributes: seq<Attribute>)

  /** A MISP event as `get_event` returns it. */
  datatype MispEvent = MispEvent(attributes: seq<Attribute>, objects: seq<MispObject>)

  predicate Allowed(a: Attribute)
  {
    a.kind in AllowedTypes
  }

  /** `ioc_from_attribute`: the event uuid becomes the IOC's group uuid. */
  function IocFromAttribute(a: Attribute, source: string): (ioc: Ioc)
    ensures ioc.uuid == a.uuid && ioc.guuid == a.eventUuid && ioc.source == source
    ensures ioc.value == a.value && ioc.kind == a.kind
  {
    Ioc(a.uuid, a.eventUuid, source, a.value, a.kind)
  }

  /** The IOCs for a list of attributes, in order. */
  function IocsOf(attrs: seq<Attribute>, source: string): (r: seq<Ioc>)
    ensures |r| == |attrs| && forall i :: 0 <= i < |attrs| ==> r[i] == IocFromAttribute(attrs[i], source)
  {
    seq(|attrs|, i requires 0 <= i < |attrs| => IocFromAttribute(attrs[i], source))
  }

  /** `iocs_from_attributes`: keep the attributes of an allowed type, in order,
      each as an IOC of the group `uuid`. */
  method IocsFromAttributes(source: string, uuid: string, attributes: seq<Attribute>) returns (iocs: seq<Ioc>)
    ensures iocs == IocsOf(Tagged(uuid, Filter(Allowed, attributes)), source)
  {
    iocs := [];
    var i := 0;
    while i < |attributes|
      invariant 0 <= i <= |attributes|
      invariant iocs == IocsOf(Tagged(uuid, Filter(Allowed, attributes[..i])), source)
    {
      var a := attributes[i];
      assert attributes[..i + 1][..i] == attributes[..i];
      if a.kind in AllowedTypes {
        iocs := iocs + [Ioc(a.uuid, uuid, source, a.value, a.kind)];
      }
      i := i + 1;
    }
    assert attributes[..i] == attributes;
  }

  /** Every IOC of `iocs_from_attributes` has an allowed type and the given
      group uuid, and there is one per allowed attribute. */
  lemma IocsFromAttributesFacts(source: string, uuid: string, attributes: seq<Attribute>)
    ensures var r := IocsOf(Tagged(uuid, Filter(Allowed, attributes)), source);
      && (forall i :: 0 <= i < |r| ==> r[i].kind in AllowedTypes && r[i].guuid == uuid && r[i].source == source)
      && |r| == |Filter(Allowed, attributes)|
  {
    var kept := Filter(Allowed, attributes);
    forall i | 0 <= i < |kept|
      ensures kept[i].kind in AllowedTypes
    {
      assert Allowed(kept[i]);
    }
  }

  /** The attributes tagged with the event uuid, as `emit_attributes` leaves them. */
  function Tagged(uuid: string, attrs: seq<Attribute>): (r: seq<Attribute>)
    ensures |r| == |attrs|
    ensures forall i :: 0 <= i < |attrs| ==> r[i] == attrs[i].(eventUuid := uuid)
  {
    seq(|attrs|, i requires 0 <= i < |attrs| => attrs[i].(eventUuid := uuid))
  }

  /** The attributes of the objects of an event, object by object. */
  function ObjectAttributes(objects: seq<MispObject>): seq<Attribute>
  {
    if objects == [] then [] else ObjectAttributes(objects[..|objects| - 1]) + objects[|objects| - 1].attributes
  }

  /** What `emit_attributes` yields for one event: its own attributes, then
      those of its objects, all tagged with its uuid. */
  function EventAttributes(uuid: string, ev: MispEvent): seq<Attribute>
  {
    Tagged(uuid, ev.attributes + ObjectAttributes(ev.objects))
  }

  /** Reference definition of `emit_attributes`, event after event. */
  function Emitted(fetch: string -> MispEvent, uuids: seq<string>): seq<Attribute>
  {
    if uuids == [] then []
    else Emitted(fetch, uuids[..|uuids| - 1]) + EventAttributes(uuids[|uuids| - 1], fetch(uuids[|uuids| - 1]))
  }

  lemma TaggedAppend(uuid: string, a: seq<Attribute>, b: seq<Attribute>)
    ensures Tagged(uuid, a + b) == Tagged(uuid, a) + Tagged(uuid, b)
  {
  }

  /** One inner loop of `emit_attributes`: tag and yield each attribute. */
  method YieldTagged(r: seq<Attribute>, uuid: string, attrs: seq<Attribute>) returns (r': seq<Attribute>)
    ensures r' == r + Tagged(uuid, attrs)
  {
    r' := r;
    var j := 0;
    while j < |attrs|
      invariant 0 <= j <= |attrs|
      invariant r' == r + Tagged(uuid, attrs[..j])
    {
      assert attrs[..j + 1] == attrs[..j] + [attrs[j]];
      r' := r' + [attrs[j].(eventUuid := uuid)];
      j := j + 1;
    }
    assert attrs[..j] == attrs;
  }

  /** The attributes `emit_attributes` yields for one fetched event. */
  method YieldEvent(r: seq<Attribute>, uuid: string, event: MispEvent) returns (r': seq<Attribute>)
    ensures r' == r + EventAttributes(uuid, event)
  {
    var own := YieldTagged(r, uuid, event.attributes);
    r' := own;
    var o := 0;
    assert event.objects[..0] == [];
    while o < |event.objects|
      invariant 0 <= o <= |event.objects|
      invariant r' == own + Tagged(uuid, ObjectAttributes(event.objects[..o]))
    {
      var attrs := event.objects[o].attributes;
      ghost var done := ObjectAttributes(event.objects[..o]);
      r' := YieldTagged(r', uuid, attrs);
      assert event.objects[..o + 1][..o] == event.objects[..o];
      assert ObjectAttributes(event.objects[..o + 1]) == done + attrs;
      TaggedAppend(uuid, done, attrs);
      o := o + 1;
    }
    assert event.objects[..o] == event.objects;
    TaggedAppend(uuid, event.attributes, ObjectAttributes(event.objects));
  }

  /** `emit_attributes(misp, uuids)`; `fetch` stands for `get_event`. */
  method EmitAttributes(fetch: string -> MispEvent, uuids: seq<string>) returns (r: seq<Attribute>)
    ensures r == Emitted(fetch, uuids)
  {
    r := [];
    var k := 0;
    while k < |uuids|
      invariant 0 <= k <= |uuids|
      invariant r == Emitted(fetch, uuids[..k])
    {
      var uuid := uuids[k];
      var event := fetch(uuid);
      r := YieldEvent(r, uuid, event);
      assert uuids[..k + 1][..k] == uuids[..k];
      k := k + 1;
    }
    assert uuids[..k] == uuids;
  }

  /** Every emitted attribute carries the uuid of one of the requested events. */
  lemma {:induction false} EmittedTags(fetch: string -> MispEvent, uuids: seq<string>)
    ensures forall i :: 0 <= i < |Emitted(fetch, uuids)| ==> Emitted(fetch, uuids)[i].eventUuid in uuids
  {
    if uuids != [] {
      var init := uuids[..|uuids| - 1];
      EmittedTags(fetch, init);
      assert forall u :: u in init ==> u in uuids;
    }
  }

  /** Emitting two lists of uuids one after the other emits the first list's
      attributes first. */
  lemma {:induction false} EmittedAppend(fetch: string -> MispEvent, us: seq<string>, vs: seq<string>)
    ensures Emitted(fetch, us + vs) == Emitted(fetch, us) + Emitted(fetch, vs)
    decreases |vs|
  {
    if vs == [] {
      assert us + vs == us;
    } else {
      assert (us + vs)[..|us + vs| - 1] == us + vs[..|vs| - 1];
      EmittedAppend(fetch, us, vs[..|vs| - 1]);
    }
  }

  /** The `search_index` query: `published` and the optional `timestamp`. */
  datatype IndexQuery = IndexQuery(published: Option<bool>, timestamp: Option<int>)

  /** The query `sync_iocs` sends. */
  function IndexQueryFor(since: Option<int>, all: bool): (q: IndexQuery)
    ensures q.published == Some(true) <==> !all
    ensures q.published.None? <==> all
    ensures q.timestamp == since
  {
    IndexQuery(if all then None else Some(true), since)
  }

  /** The two manager updates, in the order they are sent. */
  datatype Call = DeleteIocs(iocs: seq<Ioc>) | AddIocs(iocs: seq<Ioc>)

  /** An attribute is recent enough when no `since` is given or its date is not
      before `since`. */
  predicate Recent(since: Option<int>, a: Attribute)
  {
    since.None? || a.day >= since.value
  }

  function Adds(since: Option<int>): Attribute -> bool
  {
    a => Recent(since, a) && a.toIds && a.kind in AllowedTypes
  }

  function Deletes(since: Option<int>): Attribute -> bool
  {
    a => Recent(since, a) && !a.toIds && a.kind in AllowedTypes
  }

  /** The call log of `sync_iocs` for the emitted attributes `attrs`. */
  function SyncCalls(attrs: seq<Attribute>, source: string, since: Option<int>): seq<Call>
  {
    [DeleteIocs(IocsOf(Filter(Deletes(since), attrs), source)), AddIocs(IocsOf(Filter(Adds(since), attrs), source))]
  }

  /** `sync_iocs`: `index` is what the index search returned and `fetch`
      stands for `get_event`. Returns the index query and, unless reading the
      index fails, the manager calls in order. */
  method Sync(index: seq<SearchHit>, fetch: string -> MispEvent, source: string, since: Option<int>, all: bool)
    returns (query: IndexQuery, r: Result<seq<Call>, SearchError>)
    ensures query == IndexQueryFor(since, all)
    ensures r.Err? <==> exists i :: 0 <= i < |index| && UuidOf(index[i]).None?
    ensures r.Ok? ==> exists uuids: seq<string> ::
      && |uuids| == |index| && (forall i :: 0 <= i < |index| ==> UuidOf(index[i]) == Some(uuids[i]))
      && r.value == SyncCalls(Emitted(fetch, uuids), source, since)
  {
    var toAdd: seq<Ioc>, toDel: seq<Ioc>;
    var published: Option<bool> := if !all then Some(true) else None;
    if since.None? {
      query := IndexQuery(published, None);
    } else {
      query := IndexQuery(published, since);
    }
    var uuids := UuidsFromSearch(index);
    if uuids.Err? {
      return query, Err(uuids.error);
    }
    var attrs := EmitAttributes(fetch, uuids.value);
    toAdd, toDel := Classify(attrs, source, since);
    r := Ok([DeleteIocs(toDel), AddIocs(toAdd)]);
    assert r.value == SyncCalls(Emitted(fetch, uuids.value), source, since);
  }

  /** The loop of `sync_iocs`: sort the emitted attributes into the IOCs to
      add and the IOCs to delete. */
  method Classify(attrs: seq<Attribute>, source: string, since: Option<int>) returns (toAdd: seq<Ioc>, toDel: seq<Ioc>)
    ensures toAdd == IocsOf(Filter(Adds(since), attrs), source)
    ensures toDel == IocsOf(Filter(Deletes(since), attrs), source)
  {
    toAdd, toDel := [], [];
    var i := 0;
    while i < |attrs|
      invariant 0 <= i <= |attrs|
      invariant toAdd == IocsOf(Filter(Adds(since), attrs[..i]), source)
      invariant toDel == IocsOf(Filter(Deletes(since), attrs[..i]), source)
    {
      var attr := attrs[i];
      assert attrs[..i + 1][..i] == attrs[..i];
      i := i + 1;
      if since.Some? {
        if attr.day < since.value {
          continue;
        }
      }
      if attr.toIds && attr.kind in AllowedTypes {
        toAdd := toAdd + [IocFromAttribute(attr, source)];
      } else if attr.kind in AllowedTypes {
        toDel := toDel + [IocFromAttribute(attr, source)];
      }
    }
    assert attrs[..i] == attrs;
  }

  /** No attribute reaches both lists: counting repeats, the two lists together
      hold no attribute more often than the emission does. */
  lemma AtMostOneList(attrs: seq<Attribute>, since: Option<int>)
    ensures multiset(Filter(Adds(since), attrs)) + multiset(Filter(Deletes(since), attrs)) <= multiset(attrs)
  {
    forall a | true
      ensures (multiset(Filter(Adds(since), attrs)) + multiset(Filter(Deletes(since), attrs)))[a] <= multiset(attrs)[a]
    {
      FilterCount(Adds(since), attrs, a);
      FilterCount(Deletes(since), attrs, a);
    }
  }

  /** Which list an attribute lands in, by its own fields: `to_ids` and an
      allowed type add it, an allowed type alone deletes it, an old or
      disallowed attribute lands nowhere. */
  lemma Classification(attrs: seq<Attribute>, since: Option<int>, a: Attribute)
    requires a in attrs
    ensures a in Filter(Adds(since), attrs) <==> Recent(since, a) && a.toIds && Allowed(a)
    ensures a in Filter(Deletes(since), attrs) <==> Recent(since, a) && !a.toIds && Allowed(a)
  {
    FilterCount(Adds(since), attrs, a);
    FilterCount(Deletes(since), attrs, a);
    assert a in multiset(attrs);
  }

  /** Both lists keep the order in which the attributes were emitted. */
  lemma ListsInOrder(attrs: seq<Attribute>, since: Option<int>)
    ensures IsSubsequence(Filter(Adds(since), attrs), attrs)
    ensures IsSubsequence(Filter(Deletes(since), attrs), attrs)
  {
    FilterIsSubsequence(Adds(since), attrs);
    FilterIsSubsequence(Deletes(since), attrs);
  }

  /** Deletions are sent before additions, and every IOC sent has an allowed type. */
  lemma CallOrder(attrs: seq<Attribute>, source: string, since: Option<int>)
    ensures var calls := SyncCalls(attrs, source, since);
      && |calls| == 2 && calls[0].DeleteIocs? && calls[1].AddIocs?
      && forall k, i :: 0 <= k < 2 && 0 <= i < |calls[k].iocs| ==>
           calls[k].iocs[i].kind in AllowedTypes && calls[k].iocs[i].source == source
  {
    var adds, dels := Filter(Adds(since), attrs), Filter(Deletes(since), attrs);
    forall i | 0 <= i < |adds| ensures adds[i].kind in AllowedTypes { assert Adds(since)(adds[i]); }
    forall i | 0 <= i < |dels| ensures dels[i].kind in AllowedTypes { assert Deletes(since)(dels[i]); }
  }
}
