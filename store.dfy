/**
 * The Content Store the engine sits on (a Weaviate collection named
 * "Bubble"), reduced to what the engine observes: a sequence of stored
 * objects, a filtered, ordered and paginated fetch, lookup by id, bulk
 * insert, delete by id, and dropping the whole collection.
 */
module Store {
  import opened Wrappers
  import opened Text
  import opened Sorting

  /** The three properties of the collection's schema. */
  datatype Properties = Properties(content: string, user: string, category: string)

  /** A stored object: its properties, its creation time and the id the store gave it. */
  datatype StoredObject = StoredObject(props: Properties, creationTime: nat, uuid: nat)

  /** The dict a bubble travels as: `created_at` and `uuid` are present only when it came from the store. */
  datatype Bubble = Bubble(content: string, user: string, category: string, createdAt: Option<nat>, uuid: Option<nat>)

  /** The property conditions the engine combines with `&` into a filter. */
  datatype Clause =
    | ContentLikeAny                 // content like "*": every object
    | UserEqual(user: string)
    | ContentEqual(content: string)
    | UserNotEqual(user: string)
    | CategoryEqual(category: string)
    | UserLike(prefix: string)       // user like "prefix*"
    | CategoryLike(prefix: string)   // category like "prefix*"

  predicate Holds(p: Properties, c: Clause)
  {
    match c
    case ContentLikeAny => true
    case UserEqual(u) => p.user == u
    case ContentEqual(text) => p.content == text
    case UserNotEqual(u) => p.user != u
    case CategoryEqual(cat) => p.category == cat
    case UserLike(prefix) => StartsWith(p.user, prefix)
    case CategoryLike(prefix) => StartsWith(p.category, prefix)
  }

  /** A conjunction of clauses. */
  type Filter = seq<Clause>

  predicate Satisfies(p: Properties, f: Filter)
  {
    forall c :: c in f ==> Holds(p, c)
  }

  /** The objects `keep` accepts, in their stored order. */
  function Select(objs: seq<StoredObject>, keep: StoredObject -> bool): (r: seq<StoredObject>)
    ensures |r| <= |objs|
    ensures forall o :: o in r ==> o in objs && keep(o)
  {
    if objs == [] then [] else (if keep(objs[0]) then [objs[0]] else []) + Select(objs[1..], keep)
  }

  lemma {:induction false} SelectComplete(objs: seq<StoredObject>, keep: StoredObject -> bool, o: StoredObject)
    requires o in objs && keep(o)
    ensures o in Select(objs, keep)
  {
    if objs[0] != o {
      SelectComplete(objs[1..], keep, o);
    }
  }

  /** Two conditions that agree on every object select the same objects. */
  lemma {:induction false} SelectCongruent(objs: seq<StoredObject>, k1: StoredObject -> bool, k2: StoredObject -> bool)
    requires forall o :: o in objs ==> k1(o) == k2(o)
    ensures Select(objs, k1) == Select(objs, k2)
  {
    if objs != [] {
      SelectCongruent(objs[1..], k1, k2);
    }
  }

  /** The orders a fetch can return. */
  datatype Order =
    | NewestFirst            // sorted by creation time, descending
    | ByRelevance(query: string)  // near_text: closest to the query first
    | StoreOrder             // no sort requested: the store's own order

  function CreationTime(o: StoredObject): real
  {
    o.creationTime as real
  }

  /** The relevance of an object to a query text, as the store's vector index ranks it. */
  function RelevanceTo(relevance: (string, string) -> real, query: string): StoredObject -> real
  {
    (o: StoredObject) => relevance(query, o.props.content)
  }

  function Arrange(objs: seq<StoredObject>, order: Order, relevance: (string, string) -> real): (r: seq<StoredObject>)
    ensures multiset(r) == multiset(objs)
  {
    match order
    case NewestFirst => SortDesc(objs, CreationTime)
    case ByRelevance(q) => SortDesc(objs, RelevanceTo(relevance, q))
    case StoreOrder => objs
  }

  function Min(a: int, b: int): int
  {
    if a <= b then a else b
  }

  /** `limit` items starting at position `offset`, fewer only at the end. */
  function Page<T>(xs: seq<T>, limit: nat, offset: nat): (r: seq<T>)
    ensures |r| == if offset >= |xs| then 0 else Min(limit, |xs| - offset)
    ensures forall i :: 0 <= i < |r| ==> r[i] == xs[offset + i]
  {
    if offset >= |xs| then [] else xs[offset..offset + Min(limit, |xs| - offset)]
  }

  /** Two consecutive pages of one size make the first page of twice that size. */
  lemma PagePrefixConsistent<T>(xs: seq<T>, limit: nat)
    ensures Page(xs, limit, 0) + Page(xs, limit, limit) == Page(xs, 2 * limit, 0)
  {
    var a, b, c := Page(xs, limit, 0), Page(xs, limit, limit), Page(xs, 2 * limit, 0);
    assert |a + b| == |c|;
    forall i | 0 <= i < |c|
      ensures (a + b)[i] == c[i]
    {
      if i >= |a| {
        assert (a + b)[i] == b[i - |a|];
      }
    }
  }

  /** A page is non-empty exactly when it asks for something and starts before the end. */
  lemma PageNonEmptyIff<T>(xs: seq<T>, limit: nat, offset: nat)
    ensures Page(xs, limit, offset) != [] <==> limit > 0 && offset < |xs|
  {
  }

  /** A page of a sorted sequence is sorted. */
  lemma PageSorted<T>(xs: seq<T>, key: T -> real, limit: nat, offset: nat)
    requires SortedDesc(xs, key)
    ensures SortedDesc(Page(xs, limit, offset), key)
  {
    if offset < |xs| {
      SortedSlice(xs, key, offset, offset + Min(limit, |xs| - offset));
    }
  }

  /** The fetch of the store: select by the filter, order, then skip `offset` and take `limit`. */
  function FetchFrom(objs: seq<StoredObject>, f: Filter, order: Order, relevance: (string, string) -> real,
                     limit: nat, offset: nat): (r: seq<StoredObject>)
    ensures |r| <= limit
  {
    Page(Arrange(Select(objs, (o: StoredObject) => Satisfies(o.props, f)), order, relevance), limit, offset)
  }

  /** `fetch_object_by_id`: the object with that id, if any. */
  function Lookup(objs: seq<StoredObject>, uuid: nat): (r: Option<StoredObject>)
    ensures r.Some? ==> r.value in objs && r.value.uuid == uuid
    ensures r.None? ==> forall o :: o in objs ==> o.uuid != uuid
  {
    if objs == [] then None else if objs[0].uuid == uuid then Some(objs[0]) else Lookup(objs[1..], uuid)
  }

  /** The objects a bulk insert stores: consecutive fresh ids from `start`, created in that order. */
  function Stamp(batch: seq<Properties>, start: nat): (r: seq<StoredObject>)
    ensures |r| == |batch|
    ensures forall i :: 0 <= i < |r| ==> r[i] == StoredObject(batch[i], start + i, start + i)
  {
    seq(|batch|, i requires 0 <= i < |batch| => StoredObject(batch[i], start + i, start + i))
  }

  function Ids(objs: seq<StoredObject>): (r: seq<nat>)
    ensures |r| == |objs| && forall i :: 0 <= i < |r| ==> r[i] == objs[i].uuid
  {
    seq(|objs|, i requires 0 <= i < |objs| => objs[i].uuid)
  }

  /** The stored objects without the one carrying `uuid`. */
  function Remove(objs: seq<StoredObject>, uuid: nat): seq<StoredObject>
  {
    Select(objs, (o: StoredObject) => o.uuid != uuid)
  }

  predicate IdsIncreasing(objs: seq<StoredObject>)
  {
    forall i, j :: 0 <= i < j < |objs| ==> objs[i].uuid < objs[j].uuid
  }

  lemma {:induction false} SelectKeepsIdsIncreasing(objs: seq<StoredObject>, keep: StoredObject -> bool)
    requires IdsIncreasing(objs)
    ensures IdsIncreasing(Select(objs, keep))
  {
    if objs != [] {
      var tail := objs[1..];
      var rest := Select(tail, keep);
      SelectKeepsIdsIncreasing(tail, keep);
      if keep(objs[0]) {
        var r := [objs[0]] + rest;
        assert Select(objs, keep) == r;
        forall i, j | 0 <= i < j < |r|
          ensures r[i].uuid < r[j].uuid
        {
          assert r[j] == rest[j - 1];
          if i == 0 {
            assert rest[j - 1] in tail;
            var k :| 0 <= k < |tail| && tail[k] == rest[j - 1];
            assert objs[k + 1] == r[j];
          } else {
            assert r[i] == rest[i - 1];
          }
        }
      } else {
        assert Select(objs, keep) == rest;
      }
    }
  }


  /** Where dropping and re-creating the collection can raise. */
  datatype WipeFault = NoWipeFault | DeleteFails | RecreateFails

  class ContentStore {
    var records: seq<StoredObject>
    var nextId: nat

    /** Ids are issued in increasing order and never reused. */
    ghost predicate Valid()
      reads this
    {
      IdsIncreasing(records) && forall i :: 0 <= i < |records| ==> records[i].uuid < nextId
    }

    constructor ()
      ensures Valid() && records == [] && nextId == 0
    {
      records, nextId := [], 0;
    }

    /** `insert_many`: all objects or, when the store fails, none. */
    method InsertMany(batch: seq<Properties>, fault: bool) returns (ids: Option<seq<nat>>)
      requires Valid()
      modifies this
      ensures Valid()
      ensures fault ==> ids == None && records == old(records) && nextId == old(nextId)
      ensures !fault ==> ids == Some(Ids(Stamp(batch, old(nextId))))
      ensures !fault ==> records == old(records) + Stamp(batch, old(nextId)) && nextId == old(nextId) + |batch|
    {
      if fault {
        return None;
      }
      var added := Stamp(batch, nextId);
      records := records + added;
      nextId := nextId + |batch|;
      ids := Some(Ids(added));
    }

    /** `delete_by_id`: the object with that id is gone, the rest keep their order. */
    method DeleteById(uuid: nat, fault: bool) returns (ok: bool)
      requires Valid()
      modifies this
      ensures Valid() && nextId == old(nextId)
      ensures ok == !fault
      ensures records == if fault then old(records) else Remove(old(records), uuid)
    {
      if fault {
        return false;
      }
      SelectKeepsIdsIncreasing(records, (o: StoredObject) => o.uuid != uuid);
      var kept := Remove(records, uuid);
      assert forall i :: 0 <= i < |kept| ==> kept[i] in records;
      records := kept;
      ok := true;
    }

    /**
     * Deleting and re-creating the collection. A failing delete leaves
     * every object; a failing re-creation comes after the delete, so the
     * objects are gone although the call reports failure.
     */
    method DeleteAll(fault: WipeFault) returns (ok: bool)
      requires Valid()
      modifies this
      ensures Valid() && nextId == old(nextId)
      ensures ok <==> fault == NoWipeFault
      ensures records == if fault == DeleteFails then old(records) else []
    {
      if fault == DeleteFails {
        return false;
      }
      records := [];
      ok := fault == NoWipeFault;
    }
  }
}
