/**
 readRouteOpsStopSequence, the server side of reordering stops, and its agreement with
 the browser side: whatever the moves of `StopOrder` produce is accepted as it stands,
 and whatever is accepted names every current stop exactly once.
 */
module StopDecoder {
  import opened Json
  import opened StopOrder
  import opened Text
  import opened Wrappers

  datatype PlanStop = PlanStop(
    deliveryStopId: string,
    shopifyOrderGid: string,
    orderId: string,
    sequence: int,
    details: string)

  datatype Placement = Placement(deliveryStopId: string, sequence: int, shopifyOrderGid: string)

  datatype Error = NotAnArray | WrongLength | NotAnObject | NotAString | UnknownOrDuplicateStop

  /** readNullableJsonString of a property that may be absent */
  function ReadNullableString(fields: map<string, Json>, name: string): Result<Option<string>, Error> {
    if name !in fields || fields[name].Null? then Ok(None)
    else if !fields[name].Str? then Err(NotAString)
    else Ok(if Trim(fields[name].text) == "" then None else Some(Trim(fields[name].text)))
  }

  /** A Map built from the stops keeps the last of several with the same key. */
  function ByStopId(stops: seq<PlanStop>, id: string): (r: Option<PlanStop>)
    ensures r.Some? ==> r.value in stops && r.value.deliveryStopId == id
  {
    if stops == [] then None else
    var last := stops[|stops| - 1];
    if last.deliveryStopId == id then Some(last) else ByStopId(stops[..|stops| - 1], id)
  }

  function BySource(stops: seq<PlanStop>, id: string): (r: Option<PlanStop>)
    ensures r.Some? ==> r.value in stops
  {
    if stops == [] then None else
    var last := stops[|stops| - 1];
    if last.shopifyOrderGid == id || last.orderId == id then Some(last) else BySource(stops[..|stops| - 1], id)
  }

  /** The stop that an entry of the request names. */
  function Resolve(entry: Json, stops: seq<PlanStop>): (r: Result<PlanStop, Error>)
    ensures r.Ok? ==> r.value in stops
  {
    if !entry.Obj? then Err(NotAnObject) else
    var stopId := ReadNullableString(entry.fields, "deliveryStopId");
    if stopId.Err? then Err(stopId.error) else
    var sourceId := ReadNullableString(entry.fields, "sourceOrderId");
    if sourceId.Err? then Err(sourceId.error) else
    var direct := if stopId.value.None? then None else ByStopId(stops, stopId.value.value);
    var found := if direct.Some? || sourceId.value.None? then direct else BySource(stops, sourceId.value.value);
    if found.None? then Err(UnknownOrDuplicateStop) else Ok(found.value)
  }

  function Names(placements: seq<Placement>): (ids: seq<string>)
    ensures |ids| == |placements|
    ensures forall i :: 0 <= i < |ids| ==> ids[i] == placements[i].deliveryStopId
  {
    seq(|placements|, i requires 0 <= i < |placements| => placements[i].deliveryStopId)
  }

  function DecodeEntries(entries: seq<Json>, stops: seq<PlanStop>): Result<seq<Placement>, Error> {
    if entries == [] then Ok([]) else
    var n := |entries| - 1;
    var init := DecodeEntries(entries[..n], stops);
    if init.Err? then init else
    var stop := Resolve(entries[n], stops);
    if stop.Err? then Err(stop.error)
    else if stop.value.deliveryStopId in Names(init.value) then Err(UnknownOrDuplicateStop)
    else Ok(init.value + [Placement(stop.value.deliveryStopId, n + 1, stop.value.shopifyOrderGid)])
  }

  function Decode(value: Json, stops: seq<PlanStop>): Result<seq<Placement>, Error> {
    if !value.Arr? then Err(NotAnArray)
    else if |value.items| != |stops| then Err(WrongLength)
    else DecodeEntries(value.items, stops)
  }

  lemma {:induction false} FirstErrorDecides(entries: seq<Json>, stops: seq<PlanStop>, i: nat)
    requires i <= |entries| && DecodeEntries(entries[..i], stops).Err?
    ensures DecodeEntries(entries, stops) == DecodeEntries(entries[..i], stops)
    decreases |entries|
  {
    if i == |entries| {
      assert entries[..i] == entries;
    } else {
      var n := |entries| - 1;
      assert entries[..n][..i] == entries[..i];
      FirstErrorDecides(entries[..n], stops, i);
    }
  }

  lemma DecodeOneMore(entries: seq<Json>, entry: Json, stops: seq<PlanStop>, placements: seq<Placement>, stop: PlanStop)
    requires DecodeEntries(entries, stops) == Ok(placements) && Resolve(entry, stops) == Ok(stop)
    requires stop.deliveryStopId !in Names(placements)
    ensures DecodeEntries(entries + [entry], stops)
            == Ok(placements + [Placement(stop.deliveryStopId, |entries| + 1, stop.shopifyOrderGid)])
  {
    var all := entries + [entry];
    assert all[..|all| - 1] == entries && all[|all| - 1] == entry;
  }

  lemma DecodeFails(entries: seq<Json>, stops: seq<PlanStop>, i: nat, placements: seq<Placement>,
                    stop: Result<PlanStop, Error>)
    requires i < |entries| && DecodeEntries(entries[..i], stops) == Ok(placements) && stop == Resolve(entries[i], stops)
    requires stop.Ok? ==> stop.value.deliveryStopId in Names(placements)
    ensures DecodeEntries(entries, stops) == Err(if stop.Err? then stop.error else UnknownOrDuplicateStop)
  {
    assert entries[..i + 1][..i] == entries[..i];
    FirstErrorDecides(entries, stops, i + 1);
  }

  /** The code: one pass over the entries that fills a set of the ids seen so far. */
  method ReadRouteOpsStopSequence(value: Json, stops: seq<PlanStop>) returns (r: Result<seq<Placement>, Error>)
    ensures r == Decode(value, stops)
  {
    if !value.Arr? { return Err(NotAnArray); }
    var entries := value.items;
    if |entries| != |stops| { return Err(WrongLength); }
    var seen: set<string> := {};
    var placements: seq<Placement> := [];
    for index := 0 to |entries|
      invariant DecodeEntries(entries[..index], stops) == Ok(placements)
      invariant forall id :: id in seen <==> id in Names(placements)
    {
      var stop := Resolve(entries[index], stops);
      if stop.Err? {
        DecodeFails(entries, stops, index, placements, stop);
        return Err(stop.error);
      }
      if stop.value.deliveryStopId in seen {
        DecodeFails(entries, stops, index, placements, stop);
        return Err(UnknownOrDuplicateStop);
      }
      DecodeOneMore(entries[..index], entries[index], stops, placements, stop.value);
      assert entries[..index + 1] == entries[..index] + [entries[index]];
      seen := seen + {stop.value.deliveryStopId};
      var placement := Placement(stop.value.deliveryStopId, index + 1, stop.value.shopifyOrderGid);
      assert Names(placements + [placement]) == Names(placements) + [placement.deliveryStopId];
      placements := placements + [placement];
    }
    assert entries[..|entries|] == entries;
    r := Ok(placements);
  }

  // ----- whatever is accepted is a permutation -----

  function StopIds(stops: seq<PlanStop>): (ids: seq<string>)
    ensures |ids| == |stops|
    ensures forall i :: 0 <= i < |ids| ==> ids[i] == stops[i].deliveryStopId
  {
    seq(|stops|, i requires 0 <= i < |stops| => stops[i].deliveryStopId)
  }

  ghost predicate Distinct<T>(s: seq<T>) {
    forall i, j :: 0 <= i < j < |s| ==> s[i] != s[j]
  }

  lemma StillIn<T>(b: seq<T>, k: nat, y: T)
    requires k < |b| && y in b && y != b[k]
    ensures y in RemoveAt(b, k)
  {
    var m :| 0 <= m < |b| && b[m] == y;
    assert RemoveAt(b, k)[if m < k then m else m - 1] == y;
  }

  lemma RemoveAtMultiset<T>(b: seq<T>, k: nat)
    requires k < |b|
    ensures multiset(b) == multiset(RemoveAt(b, k)) + multiset{b[k]}
  {
    assert b == b[..k] + [b[k]] + b[k + 1..];
  }

  lemma PutBackDistinct<T>(b: seq<T>, k: nat)
    requires k < |b| && Distinct(RemoveAt(b, k)) && b[k] !in multiset(RemoveAt(b, k))
    ensures Distinct(b)
  {
    var rest := RemoveAt(b, k);
    forall i, j | 0 <= i < j < |b| ensures b[i] != b[j] {
      assert i != k ==> b[i] == rest[if i < k then i else i - 1];
      assert j != k ==> b[j] == rest[if j < k then j else j - 1];
      assert forall m :: 0 <= m < |rest| ==> rest[m] in multiset(rest);
    }
  }

  /** n distinct elements drawn from n places fill them all. */
  lemma {:induction false} Pigeonhole<T>(a: seq<T>, b: seq<T>)
    requires |a| == |b| && Distinct(a) && forall i :: 0 <= i < |a| ==> a[i] in b
    ensures multiset(a) == multiset(b)
    ensures Distinct(b)
  {
    if a == [] {
    } else {
      var n := |a| - 1;
      var x := a[n];
      var k :| 0 <= k < |b| && b[k] == x;
      var rest := RemoveAt(b, k);
      forall i | 0 <= i < n ensures a[i] in rest {
        StillIn(b, k, a[i]);
      }
      Pigeonhole(a[..n], rest);
      assert a == a[..n] + [x];
      RemoveAtMultiset(b, k);
      assert x !in multiset(a[..n]);
      PutBackDistinct(b, k);
    }
  }

  lemma {:induction false} DecodedEntries(entries: seq<Json>, stops: seq<PlanStop>)
    requires DecodeEntries(entries, stops).Ok?
    ensures var r := DecodeEntries(entries, stops).value;
            && |r| == |entries|
            && Distinct(Names(r))
            && forall i :: 0 <= i < |r| ==>
                 r[i].sequence == i + 1
                 && exists s :: s in stops && s.deliveryStopId == r[i].deliveryStopId
                                && s.shopifyOrderGid == r[i].shopifyOrderGid
  {
    if entries == [] {
    } else {
      var n := |entries| - 1;
      DecodedEntries(entries[..n], stops);
      var init, stop := DecodeEntries(entries[..n], stops).value, Resolve(entries[n], stops).value;
      var r := DecodeEntries(entries, stops).value;
      assert Names(r) == Names(init) + [stop.deliveryStopId];
      assert stop in stops && r[n].shopifyOrderGid == stop.shopifyOrderGid;
    }
  }

  /**
   An accepted list names every current stop exactly once, numbered in the order given;
   and a route that lists a stop twice has no acceptable order at all.
   */
  lemma AcceptedIsPermutation(value: Json, stops: seq<PlanStop>)
    requires Decode(value, stops).Ok?
    ensures var r := Decode(value, stops).value;
            && Distinct(StopIds(stops))
            && multiset(Names(r)) == multiset(StopIds(stops))
            && forall i :: 0 <= i < |r| ==> r[i].sequence == i + 1
  {
    DecodedEntries(value.items, stops);
    var r := Decode(value, stops).value;
    forall x | x in Names(r) ensures x in StopIds(stops) {
      var i :| 0 <= i < |r| && Names(r)[i] == x;
      var s :| s in stops && s.deliveryStopId == r[i].deliveryStopId;
      var k :| 0 <= k < |stops| && stops[k] == s;
      assert StopIds(stops)[k] == x;
    }
    Pigeonhole(Names(r), StopIds(stops));
  }

  // ----- what is accepted, and why not -----

  ghost predicate AllResolve(entries: seq<Json>, stops: seq<PlanStop>) {
    forall i :: 0 <= i < |entries| ==> Resolve(entries[i], stops).Ok?
  }

  ghost predicate AllDiffer(entries: seq<Json>, stops: seq<PlanStop>)
    requires AllResolve(entries, stops)
  {
    forall i, j :: 0 <= i < j < |entries| ==>
      Resolve(entries[i], stops).value.deliveryStopId != Resolve(entries[j], stops).value.deliveryStopId
  }

  /** The entry names a stop and is placed as the i-th. */
  predicate PlacedAs(entry: Json, stops: seq<PlanStop>, i: nat, placement: Placement) {
    var stop := Resolve(entry, stops);
    stop.Ok? && placement == Placement(stop.value.deliveryStopId, i + 1, stop.value.shopifyOrderGid)
  }

  ghost predicate PlacedAsGiven(entries: seq<Json>, stops: seq<PlanStop>, r: seq<Placement>) {
    |r| == |entries| && forall i :: 0 <= i < |r| ==> PlacedAs(entries[i], stops, i, r[i])
  }

  lemma LastPlaced(entries: seq<Json>, stops: seq<PlanStop>)
    requires entries != [] && DecodeEntries(entries, stops).Ok?
    ensures var n, r := |entries| - 1, DecodeEntries(entries, stops).value;
            var init := DecodeEntries(entries[..n], stops);
            && init.Ok? && |r| == |init.value| + 1 && r[..|init.value|] == init.value
            && (|init.value| == n ==> PlacedAs(entries[n], stops, n, r[n]))
  {
  }

  lemma PlacedMore(entries: seq<Json>, stops: seq<PlanStop>, r: seq<Placement>)
    requires entries != [] && |r| == |entries| && PlacedAs(entries[|entries| - 1], stops, |entries| - 1, r[|r| - 1])
    requires PlacedAsGiven(entries[..|entries| - 1], stops, r[..|r| - 1])
    ensures PlacedAsGiven(entries, stops, r)
  {
    var n := |entries| - 1;
    forall i | 0 <= i < |r| ensures PlacedAs(entries[i], stops, i, r[i]) {
      if i < n { assert PlacedAs(entries[..n][i], stops, i, r[..n][i]); }
    }
  }

  lemma {:induction false} DecodedAsGiven(entries: seq<Json>, stops: seq<PlanStop>)
    requires DecodeEntries(entries, stops).Ok?
    ensures PlacedAsGiven(entries, stops, DecodeEntries(entries, stops).value)
  {
    if entries == [] {
    } else {
      LastPlaced(entries, stops);
      DecodedAsGiven(entries[..|entries| - 1], stops);
      PlacedMore(entries, stops, DecodeEntries(entries, stops).value);
    }
  }

  lemma NotNamedYet(entries: seq<Json>, stops: seq<PlanStop>, r: seq<Placement>, id: string)
    requires AllResolve(entries, stops) && PlacedAsGiven(entries, stops, r)
    requires forall i :: 0 <= i < |entries| ==> Resolve(entries[i], stops).value.deliveryStopId != id
    ensures id !in Names(r)
  {
  }

  lemma {:induction false} DifferentEntriesDecode(entries: seq<Json>, stops: seq<PlanStop>)
    requires AllResolve(entries, stops) && AllDiffer(entries, stops)
    ensures DecodeEntries(entries, stops).Ok?
  {
    if entries == [] {
    } else {
      var n := |entries| - 1;
      assert forall i :: 0 <= i < n ==> entries[..n][i] == entries[i];
      DifferentEntriesDecode(entries[..n], stops);
      DecodedAsGiven(entries[..n], stops);
      NotNamedYet(entries[..n], stops, DecodeEntries(entries[..n], stops).value,
                  Resolve(entries[n], stops).value.deliveryStopId);
    }
  }

  lemma PlacedDiffer(entries: seq<Json>, stops: seq<PlanStop>, r: seq<Placement>)
    requires PlacedAsGiven(entries, stops, r) && Distinct(Names(r))
    ensures AllResolve(entries, stops) && AllDiffer(entries, stops)
  {
    forall i | 0 <= i < |entries| ensures Resolve(entries[i], stops).Ok? {
      assert PlacedAs(entries[i], stops, i, r[i]);
    }
    forall i, j | 0 <= i < j < |entries|
      ensures Resolve(entries[i], stops).value.deliveryStopId != Resolve(entries[j], stops).value.deliveryStopId
    {
      assert PlacedAs(entries[i], stops, i, r[i]) && PlacedAs(entries[j], stops, j, r[j]);
      assert Names(r)[i] != Names(r)[j];
    }
  }

  /** Entries decode exactly if every one names a stop and no stop is named twice; then each is placed as given. */
  lemma EntriesAcceptedIff(entries: seq<Json>, stops: seq<PlanStop>)
    ensures DecodeEntries(entries, stops).Ok? <==> AllResolve(entries, stops) && AllDiffer(entries, stops)
    ensures DecodeEntries(entries, stops).Ok? ==> PlacedAsGiven(entries, stops, DecodeEntries(entries, stops).value)
  {
    if DecodeEntries(entries, stops).Ok? {
      DecodedAsGiven(entries, stops);
      DecodedEntries(entries, stops);
      PlacedDiffer(entries, stops, DecodeEntries(entries, stops).value);
    }
    if AllResolve(entries, stops) && AllDiffer(entries, stops) {
      DifferentEntriesDecode(entries, stops);
    }
  }

  /** The whole request: an array with one entry for every stop, all of them known and different. */
  lemma AcceptedIff(value: Json, stops: seq<PlanStop>)
    ensures Decode(value, stops).Ok? <==>
              value.Arr? && |value.items| == |stops| && AllResolve(value.items, stops) && AllDiffer(value.items, stops)
    ensures !value.Arr? ==> Decode(value, stops) == Err(NotAnArray)
    ensures value.Arr? && |value.items| != |stops| ==> Decode(value, stops) == Err(WrongLength)
    ensures Decode(value, stops).Ok? ==> PlacedAsGiven(value.items, stops, Decode(value, stops).value)
  {
    if value.Arr? { EntriesAcceptedIff(value.items, stops); }
  }

  /** The error is that of the first entry that names no stop or one already named. */
  lemma {:induction false} FirstBadEntryDecides(entries: seq<Json>, stops: seq<PlanStop>)
    requires DecodeEntries(entries, stops).Err?
    ensures exists i :: 0 <= i < |entries| && DecodeEntries(entries[..i], stops).Ok?
                        && DecodeEntries(entries, stops)
                           == Err(if Resolve(entries[i], stops).Err? then Resolve(entries[i], stops).error
                                  else UnknownOrDuplicateStop)
  {
    var n := |entries| - 1;
    if DecodeEntries(entries[..n], stops).Ok? {
    } else {
      FirstBadEntryDecides(entries[..n], stops);
      var i :| 0 <= i < n && DecodeEntries(entries[..n][..i], stops).Ok?
               && DecodeEntries(entries[..n], stops)
                  == Err(if Resolve(entries[..n][i], stops).Err? then Resolve(entries[..n][i], stops).error
                         else UnknownOrDuplicateStop);
      assert entries[..n][..i] == entries[..i] && entries[..n][i] == entries[i];
    }
  }

  /** A property of an entry that may be absent or null holds no text, or must be a string. */
  ghost predicate NullableText(fields: map<string, Json>, name: string) {
    name !in fields || fields[name].Null? || fields[name].Str?
  }

  /** The trimmed text of such a property, or "" for none. */
  function TextOf(fields: map<string, Json>, name: string): string {
    if name in fields && fields[name].Str? then Trim(fields[name].text) else ""
  }

  /** A stop with this id, or with this source or order id, is there. */
  predicate KnownById(stops: seq<PlanStop>, id: string) {
    exists k :: 0 <= k < |stops| && stops[k].deliveryStopId == id
  }

  predicate KnownBySource(stops: seq<PlanStop>, id: string) {
    exists k :: 0 <= k < |stops| && (stops[k].shopifyOrderGid == id || stops[k].orderId == id)
  }

  lemma {:induction false} FoundIff(stops: seq<PlanStop>, id: string)
    ensures ByStopId(stops, id).Some? <==> KnownById(stops, id)
    ensures BySource(stops, id).Some? <==> KnownBySource(stops, id)
    ensures BySource(stops, id).Some? ==>
              BySource(stops, id).value.shopifyOrderGid == id || BySource(stops, id).value.orderId == id
  {
    if stops == [] {
    } else {
      var n := |stops| - 1;
      FoundIff(stops[..n], id);
      if KnownById(stops[..n], id) {
        var k :| 0 <= k < n && stops[..n][k].deliveryStopId == id;
        assert stops[k].deliveryStopId == id;
      }
      if KnownBySource(stops[..n], id) {
        var k :| 0 <= k < n && (stops[..n][k].shopifyOrderGid == id || stops[..n][k].orderId == id);
        assert stops[k] == stops[..n][k];
      }
    }
  }

  lemma ReadText(fields: map<string, Json>, name: string)
    ensures ReadNullableString(fields, name) ==
              if !NullableText(fields, name) then Err(NotAString)
              else Ok(if TextOf(fields, name) == "" then None else Some(TextOf(fields, name)))
  {
  }

  /** An entry names a stop by its stop id if that is known, and otherwise by its source order id. */
  lemma ResolvedIff(entry: Json, stops: seq<PlanStop>)
    requires entry.Obj? && NullableText(entry.fields, "deliveryStopId") && NullableText(entry.fields, "sourceOrderId")
    ensures var id, source := TextOf(entry.fields, "deliveryStopId"), TextOf(entry.fields, "sourceOrderId");
            var r := Resolve(entry, stops);
            if id != "" && KnownById(stops, id) then r.Ok? && r.value.deliveryStopId == id
            else if source != "" && KnownBySource(stops, source)
            then r.Ok? && (r.value.shopifyOrderGid == source || r.value.orderId == source)
            else r == Err(UnknownOrDuplicateStop)
  {
    ReadText(entry.fields, "deliveryStopId");
    ReadText(entry.fields, "sourceOrderId");
    FoundIff(stops, TextOf(entry.fields, "deliveryStopId"));
    FoundIff(stops, TextOf(entry.fields, "sourceOrderId"));
  }

  /** An entry that is no object, or has a property that is no text, is malformed. */
  lemma MalformedEntries(entry: Json, stops: seq<PlanStop>)
    ensures !entry.Obj? ==> Resolve(entry, stops) == Err(NotAnObject)
    ensures entry.Obj?
            && (!NullableText(entry.fields, "deliveryStopId") || !NullableText(entry.fields, "sourceOrderId"))
            ==> Resolve(entry, stops) == Err(NotAString)
  {
    if entry.Obj? {
      ReadText(entry.fields, "deliveryStopId");
      ReadText(entry.fields, "sourceOrderId");
    }
  }

  // ----- the browser's lists are accepted -----

  /** The part of toRouteOpsRoutePlanDetailDto that reordering depends on. */
  function ToDto(stop: PlanStop): RouteStop {
    RouteStop(stop.deliveryStopId, stop.shopifyOrderGid, stop.orderId, stop.sequence, stop.details)
  }

  function ToDtos(stops: seq<PlanStop>): (r: seq<RouteStop>)
    ensures |r| == |stops|
  {
    seq(|stops|, i requires 0 <= i < |stops| => ToDto(stops[i]))
  }

  /** One entry of the save request. */
  function ToEntry(stop: RouteStop): Json {
    Obj(map["deliveryStopId" := Str(stop.deliveryStopId), "sourceOrderId" := Str(stop.sourceOrderId)])
  }

  function ToEntries(stops: seq<RouteStop>): (r: seq<Json>)
    ensures |r| == |stops|
  {
    seq(|stops|, i requires 0 <= i < |stops| => ToEntry(stops[i]))
  }

  /** The order that a numbered list stands for. */
  function ToPlacements(stops: seq<RouteStop>): (r: seq<Placement>)
    ensures |r| == |stops|
  {
    seq(|stops|, i requires 0 <= i < |stops| => Placement(stops[i].deliveryStopId, i + 1, stops[i].sourceOrderId))
  }

  ghost predicate WellFormed(stops: seq<PlanStop>) {
    && Distinct(StopIds(stops))
    && forall s :: s in stops ==> s.deliveryStopId != "" && Trimmed(s.deliveryStopId)
  }

  lemma {:induction false} ByStopIdFinds(stops: seq<PlanStop>, k: nat)
    requires k < |stops| && Distinct(StopIds(stops))
    ensures ByStopId(stops, stops[k].deliveryStopId) == Some(stops[k])
  {
    var n := |stops| - 1;
    if k == n {
    } else {
      assert StopIds(stops)[k] != StopIds(stops)[n];
      assert forall i :: 0 <= i < n ==> StopIds(stops[..n])[i] == StopIds(stops)[i];
      ByStopIdFinds(stops[..n], k);
    }
  }

  /** No other stop goes by this source or order id. */
  ghost predicate NamesOnly(stops: seq<PlanStop>, id: string, k: nat) {
    && k < |stops|
    && forall i :: 0 <= i < |stops| ==> (stops[i].shopifyOrderGid == id || stops[i].orderId == id <==> i == k)
  }

  lemma {:induction false} BySourceFinds(stops: seq<PlanStop>, id: string, k: nat)
    requires NamesOnly(stops, id, k)
    ensures BySource(stops, id) == Some(stops[k])
  {
    var n := |stops| - 1;
    if k == n {
    } else {
      BySourceFinds(stops[..n], id, k);
    }
  }

  /** An entry whose stop id is missing or unknown is found by its source order id or order id. */
  lemma EntryResolvesBySource(stopId: Json, id: string, stops: seq<PlanStop>, k: nat)
    requires NamesOnly(stops, id, k) && id != "" && Trimmed(id)
    requires stopId.Null? || (stopId.Str? && ByStopId(stops, Trim(stopId.text)).None?)
    ensures Resolve(Obj(map["deliveryStopId" := stopId, "sourceOrderId" := Str(id)]), stops) == Ok(stops[k])
  {
    TrimIsTrimmed(id);
    BySourceFinds(stops, id, k);
  }

  /** u shows one of the stops, whatever its number. */
  ghost predicate Shows(u: RouteStop, stops: seq<PlanStop>) {
    exists k :: 0 <= k < |stops| && u.(sequence := 0) == ToDto(stops[k]).(sequence := 0)
  }

  lemma EntryResolves(stop: RouteStop, stops: seq<PlanStop>, k: nat)
    requires WellFormed(stops) && k < |stops| && stop.(sequence := 0) == ToDto(stops[k]).(sequence := 0)
    ensures Resolve(ToEntry(stop), stops) == Ok(stops[k])
  {
    assert stops[k] in stops;
    TrimIsTrimmed(stop.deliveryStopId);
    ByStopIdFinds(stops, k);
  }

  lemma ShownResolves(u: RouteStop, stops: seq<PlanStop>) returns (stop: PlanStop)
    requires WellFormed(stops) && Shows(u, stops)
    ensures Resolve(ToEntry(u), stops) == Ok(stop)
    ensures stop.deliveryStopId == u.deliveryStopId && stop.shopifyOrderGid == u.sourceOrderId
  {
    var k :| 0 <= k < |stops| && u.(sequence := 0) == ToDto(stops[k]).(sequence := 0);
    EntryResolves(u, stops, k);
    stop := stops[k];
  }

  lemma OneMoreStop(init: seq<RouteStop>, u: RouteStop)
    ensures ToEntries(init + [u]) == ToEntries(init) + [ToEntry(u)]
    ensures ToPlacements(init + [u])
            == ToPlacements(init) + [Placement(u.deliveryStopId, |init| + 1, u.sourceOrderId)]
    ensures forall i :: 0 <= i < |init| ==> Names(ToPlacements(init))[i] == init[i].deliveryStopId
  {
  }

  lemma EntriesDecodeStep(init: seq<RouteStop>, u: RouteStop, stops: seq<PlanStop>)
    requires WellFormed(stops) && Shows(u, stops)
    requires forall i :: 0 <= i < |init| ==> init[i].deliveryStopId != u.deliveryStopId
    requires DecodeEntries(ToEntries(init), stops) == Ok(ToPlacements(init))
    ensures DecodeEntries(ToEntries(init + [u]), stops) == Ok(ToPlacements(init + [u]))
  {
    var stop := ShownResolves(u, stops);
    OneMoreStop(init, u);
    DecodeOneMore(ToEntries(init), ToEntry(u), stops, ToPlacements(init), stop);
  }

  lemma {:induction false} EntriesDecode(ui: seq<RouteStop>, stops: seq<PlanStop>)
    requires WellFormed(stops) && DistinctIds(ui)
    requires forall i :: 0 <= i < |ui| ==> Shows(ui[i], stops)
    ensures DecodeEntries(ToEntries(ui), stops) == Ok(ToPlacements(ui))
  {
    if ui == [] {
    } else {
      var n := |ui| - 1;
      EntriesDecode(ui[..n], stops);
      EntriesDecodeStep(ui[..n], ui[n], stops);
      assert ui[..n] + [ui[n]] == ui;
    }
  }

  lemma PermutedStops(stops: seq<RouteStop>, ui: seq<RouteStop>)
    requires DistinctIds(stops) && multiset(Unnumbered(ui)) == multiset(Unnumbered(stops))
    ensures |ui| == |stops| && DistinctIds(ui)
    ensures forall i :: 0 <= i < |ui| ==>
              exists k :: 0 <= k < |stops| && ui[i].(sequence := 0) == stops[k].(sequence := 0)
  {
    var a, b := Unnumbered(ui), Unnumbered(stops);
    assert |a| == |multiset(a)| == |multiset(b)| == |b|;
    forall x | x in b ensures x in a {
      assert x in multiset(b);
      assert x in multiset(a);
    }
    forall i, j | 0 <= i < j < |b| ensures b[i] != b[j] {
      assert stops[i].deliveryStopId != stops[j].deliveryStopId;
    }
    Pigeonhole(b, a);
    forall i | 0 <= i < |ui| ensures exists k :: 0 <= k < |stops| && ui[i].(sequence := 0) == stops[k].(sequence := 0) {
      assert a[i] in multiset(a);
      assert a[i] in multiset(b);
      var k :| 0 <= k < |b| && b[k] == a[i];
    }
    forall i, j | 0 <= i < j < |ui| ensures ui[i].deliveryStopId != ui[j].deliveryStopId {
      var k :| 0 <= k < |stops| && ui[i].(sequence := 0) == stops[k].(sequence := 0);
      var m :| 0 <= m < |stops| && ui[j].(sequence := 0) == stops[m].(sequence := 0);
      assert a[i] != a[j];
      assert k != m;
    }
  }

  /**
   Whatever run of moves the user makes on a route the server sent, the server accepts
   the resulting list and reads exactly the order on screen.
   */
  lemma MovesAreAccepted(stops: seq<PlanStop>, moves: seq<Move>)
    requires WellFormed(stops)
    ensures var ui := After(ToDtos(stops), moves);
            Decode(Arr(ToEntries(ui)), stops) == Ok(ToPlacements(ui))
  {
    var dtos := ToDtos(stops);
    var ui := After(dtos, moves);
    RunIsPermutation(dtos, moves, MovedIds(moves));
    assert DistinctIds(dtos) by {
      forall i, j | 0 <= i < j < |dtos| ensures dtos[i].deliveryStopId != dtos[j].deliveryStopId {
        assert StopIds(stops)[i] != StopIds(stops)[j];
      }
    }
    PermutedStops(dtos, ui);
    forall i | 0 <= i < |ui| ensures Shows(ui[i], stops) {
      var k :| 0 <= k < |dtos| && ui[i].(sequence := 0) == dtos[k].(sequence := 0);
      assert dtos[k] == ToDto(stops[k]);
    }
    EntriesDecode(ui, stops);
  }
}
