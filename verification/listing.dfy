/** The store is walked once, in key order, and a listing names exactly the objects it should. */
module Listing {
  import opened Bytes
  import opened Errors
  import opened Capabilities
  import opened Objects
  import opened Requests
  import opened Authorization
  import opened Store
  import opened Commands

  ghost predicate Keyed(objects: ObjectMap) {
    forall k | k in objects :: objects[k].info.Key() == k
  }

  function Position(r: ObjectRecord): nat {
    PositionOf(r.info.Key())
  }

  ghost predicate Ascending(records: seq<ObjectRecord>) {
    forall i, j | 0 <= i < j < |records| :: Position(records[i]) < Position(records[j])
  }

  // ----- the walk

  /** The walk below a position: every object there, once, in order. */
  ghost predicate Walks(objects: ObjectMap, n: nat)
    requires n <= KEY_SPACE
  {
    var records := RecordsBelow(objects, n);
    && Ascending(records)
    && (forall r | r in records :: r.info.Key() in objects && objects[r.info.Key()] == r && Position(r) < n)
    && (forall k | k in objects && PositionOf(k) < n :: objects[k] in records)
  }

  lemma WalksNext(objects: ObjectMap, n: nat)
    requires Keyed(objects) && n < KEY_SPACE && Walks(objects, n)
    ensures Walks(objects, n + 1)
  {
    RecordsNext(objects, n);
    var k := KeyAt(n);
    if k.Some? {
      KeyAtPosition(n, k.value);
    }
    forall other | other in objects && PositionOf(other) == n
      ensures k == Some(other)
    {
    }
  }

  lemma WalksNone(objects: ObjectMap)
    ensures Walks(objects, 0)
  {
  }

  ghost function Walked(objects: ObjectMap): nat -> bool {
    (n: nat) => n <= KEY_SPACE && Walks(objects, n)
  }

  lemma WalkedNext(objects: ObjectMap, n: nat)
    requires Keyed(objects) && n < KEY_SPACE && Walked(objects)(n)
    ensures Walked(objects)(n + 1)
  {
    WalksNext(objects, n);
  }

  lemma WalkedAll(objects: ObjectMap)
    requires Keyed(objects)
    ensures Walked(objects)(KEY_SPACE)
  {
    var holds := Walked(objects);
    WalksNone(objects);
    forall n: nat | n < KEY_SPACE && holds(n)
      ensures holds(n + 1)
    {
      WalkedNext(objects, n);
    }
    Climb(holds, KEY_SPACE);
  }

  /** Walking the store visits every object exactly once, in ascending key order. */
  lemma WalkExactly(objects: ObjectMap)
    requires Keyed(objects)
    ensures Ascending(InOrder(objects))
    ensures forall r :: r in InOrder(objects) <==> r.info.Key() in objects && objects[r.info.Key()] == r
  {
    WalkedAll(objects);
  }

  // ----- the listing

  /** The records that a listing mentions. */
  function Selected(auth: SessionAuthorization, filters: Filters, records: seq<ObjectRecord>): seq<ObjectRecord> {
    if records == [] then []
    else
      var last := records[|records| - 1];
      Selected(auth, filters, records[..|records| - 1]) + if Listed(auth, filters, last) then [last] else []
  }

  lemma {:induction false} SelectedMembers(auth: SessionAuthorization, filters: Filters, records: seq<ObjectRecord>, r: ObjectRecord)
    ensures r in Selected(auth, filters, records) <==> r in records && Listed(auth, filters, r)
  {
    if records != [] {
      var n := |records| - 1;
      SelectedMembers(auth, filters, records[..n], r);
      assert records == records[..n] + [records[n]];
    }
  }

  lemma {:induction false} SelectedAscending(auth: SessionAuthorization, filters: Filters, records: seq<ObjectRecord>)
    requires Ascending(records)
    ensures Ascending(Selected(auth, filters, records))
  {
    if records != [] {
      var n := |records| - 1;
      var init := Selected(auth, filters, records[..n]);
      SelectedAscending(auth, filters, records[..n]);
      forall i | 0 <= i < |init|
        ensures Position(init[i]) < Position(records[n])
      {
        SelectedMembers(auth, filters, records[..n], init[i]);
      }
    }
  }

  /** Four bytes name an object: identifier, type and sequence. */
  predicate NamedAt(output: bytes, i: nat, r: ObjectRecord)
    requires 4 * i + 4 <= |output|
  {
    && DecodeU16(output[4 * i..4 * i + 2]) == r.info.id
    && TypeFromByte(output[4 * i + 2]) == Some(r.info.objectType)
    && output[4 * i + 3] == r.info.sequence
  }

  ghost predicate NamesAll(output: bytes, records: seq<ObjectRecord>) {
    && |output| == 4 * |records|
    && forall i | 0 <= i < |records| :: NamedAt(output, i, records[i])
  }

  lemma NamesAppend(output: bytes, records: seq<ObjectRecord>, r: ObjectRecord)
    requires NamesAll(output, records)
    ensures NamesAll(output + ListEntry(r.info), records + [r])
  {
    var all := output + ListEntry(r.info);
    forall i | 0 <= i < |records| + 1
      ensures NamedAt(all, i, (records + [r])[i])
    {
      if i < |records| {
        assert NamedAt(output, i, records[i]);
        assert all[4 * i..4 * i + 2] == output[4 * i..4 * i + 2];
      } else {
        assert all[4 * i..4 * i + 2] == EncodeU16(r.info.id);
      }
    }
  }

  lemma {:induction false} ListNames(auth: SessionAuthorization, filters: Filters, records: seq<ObjectRecord>)
    ensures NamesAll(ListBytes(auth, filters, records), Selected(auth, filters, records))
  {
    if records != [] {
      var n := |records| - 1;
      ListNames(auth, filters, records[..n]);
      if Listed(auth, filters, records[n]) {
        NamesAppend(ListBytes(auth, filters, records[..n]), Selected(auth, filters, records[..n]), records[n]);
      } else {
        assert ListBytes(auth, filters, records[..n]) + [] == ListBytes(auth, filters, records[..n]);
        assert Selected(auth, filters, records[..n]) + [] == Selected(auth, filters, records[..n]);
      }
    }
  }

  /** An object matches when every filter given agrees with it. */
  ghost predicate Agrees(filters: Filters, info: ObjectInfo) {
    && (filters.id.Some? ==> filters.id.value == info.id)
    && (filters.objectType.Some? ==> filters.objectType.value == info.objectType)
    && (filters.domains.Some? ==> Meets(info.domains, filters.domains.value))
    && (filters.capabilities.Some? ==> Members(filters.capabilities.value) <= Members(info.capabilities))
    && (filters.algorithm.Some? ==> filters.algorithm.value == info.algorithm)
    && (filters.labelBytes.Some? ==> filters.labelBytes.value == info.labelBytes)
  }

  lemma MatchesExactly(filters: Filters, info: ObjectInfo)
    ensures Matches(filters, info) <==> Agrees(filters, info)
  {
    if filters.capabilities.Some? {
      SubsetMeaning(filters.capabilities.value, info.capabilities);
    }
  }

  /** A listing names exactly the visible objects that match the filters, each once, in
      ascending key order. */
  lemma ListExactly(s: Durable, auth: SessionAuthorization, d: bytes) returns (listed: seq<ObjectRecord>)
    requires Keyed(s.objects) && HandleList(s, auth, d).Ok?
    ensures NamesAll(HandleList(s, auth, d).value, listed) && Ascending(listed)
    ensures forall r :: r in listed <==>
              && r.info.Key() in s.objects && s.objects[r.info.Key()] == r
              && Meets(auth.domains, r.info.domains) && Agrees(DecodeFilters(NO_FILTERS, d).value, r.info)
  {
    var filters := DecodeFilters(NO_FILTERS, d).value;
    listed := Selected(auth, filters, InOrder(s.objects));
    WalkExactly(s.objects);
    ListNames(auth, filters, InOrder(s.objects));
    SelectedAscending(auth, filters, InOrder(s.objects));
    forall r
      ensures r in listed <==> r in InOrder(s.objects) && Listed(auth, filters, r)
    {
      SelectedMembers(auth, filters, InOrder(s.objects), r);
    }
    forall r: ObjectRecord
      ensures Listed(auth, filters, r) <==> Meets(auth.domains, r.info.domains) && Agrees(filters, r.info)
    {
      MatchesExactly(filters, r.info);
    }
  }
}
