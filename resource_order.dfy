/**
 * `PUT /api/resources/order`: sets `order_index` of resources by id from a
 * list of `{ id, order_index }` entries. The store reports a failed update
 * as a value, not an exception, so failed updates are skipped silently and
 * the reply is success whenever the list itself is well-formed.
 */
module ResourceOrder {
  import opened Common
  import opened Store

  /** One entry of `orders`: a missing `id` matches no row; a missing index stores `null`. */
  datatype OrderEntry = OrderEntry(id: Option<int>, orderIndex: Option<int>)

  /**
   * The `orders` member of the JSON body: absent (or falsy), present but not
   * an array, or an array whose elements may be `null`.
   */
  datatype OrdersField = Missing | NotAnArray | Entries(entries: seq<Option<OrderEntry>>)

  datatype OrderReply = Success | BadRequest(error: string) | ServerError(error: string)
  {
    function Status(): int
    {
      match this
      case Success => 200
      case BadRequest(_) => 400
      case ServerError(_) => 500
    }
  }

  const InvalidOrders := "Invalid orders data"
  const InternalError := "Internal server error"

  /** `update({ order_index }).eq('id', id)` on the table: every row with that id gets the index. */
  function SetOrder(resources: seq<Resource>, id: int, orderIndex: Option<int>): (r: seq<Resource>)
    ensures |r| == |resources|
    ensures forall i :: 0 <= i < |r| ==>
      r[i] == if resources[i].id == id then resources[i].(orderIndex := orderIndex) else resources[i]
  {
    seq(|resources|, i requires 0 <= i < |resources| =>
      if resources[i].id == id then resources[i].(orderIndex := orderIndex) else resources[i])
  }

  /** Whether update number `k` reaches the table: its entry names an id and the store accepts it. */
  predicate Applied(entries: seq<OrderEntry>, k: int, failed: set<int>)
    requires 0 <= k < |entries|
  {
    entries[k].id.Some? && k !in failed
  }

  /** The table after the updates of `entries`, issued in order, minus the failed ones. */
  function Reordered(resources: seq<Resource>, entries: seq<OrderEntry>, failed: set<int>): seq<Resource>
    decreases |entries|
  {
    if entries == [] then resources
    else
      var k := |entries| - 1;
      var before := Reordered(resources, entries[..k], failed);
      if Applied(entries, k, failed) then SetOrder(before, entries[k].id.value, entries[k].orderIndex) else before
  }

  /**
   * Reference definition: the index the last applied entry for `id` among the
   * first `n` entries sets, or `None` when no applied entry names `id`.
   */
  function LastIndexFor(entries: seq<OrderEntry>, id: int, failed: set<int>): Option<Option<int>>
    decreases |entries|
  {
    if entries == [] then None
    else
      var k := |entries| - 1;
      if Applied(entries, k, failed) && entries[k].id.value == id then Some(entries[k].orderIndex)
      else LastIndexFor(entries[..k], id, failed)
  }

  /**
   * Each row ends with the index of the last applied entry naming its id, or
   * keeps its index when none does; every other column and the row order are
   * untouched.
   */
  lemma {:induction false} ReorderedRows(resources: seq<Resource>, entries: seq<OrderEntry>, failed: set<int>)
    ensures |Reordered(resources, entries, failed)| == |resources|
    ensures forall i :: 0 <= i < |resources| ==>
      Reordered(resources, entries, failed)[i] ==
        match LastIndexFor(entries, resources[i].id, failed)
        case None => resources[i]
        case Some(x) => resources[i].(orderIndex := x)
    decreases |entries|
  {
    if entries != [] {
      var k := |entries| - 1;
      ReorderedRows(resources, entries[..k], failed);
    }
  }

  /** An entry whose update fails leaves the table as if it had not been sent. */
  lemma FailedEntryIgnored(resources: seq<Resource>, entries: seq<OrderEntry>, e: OrderEntry, failed: set<int>)
    requires |entries| in failed
    ensures Reordered(resources, entries + [e], failed) == Reordered(resources, entries, failed)
  {
    assert (entries + [e])[..|entries|] == entries;
  }

  /** The updates of `orders.map(...)` awaited together; each runs against the table as the previous left it. */
  method ApplyOrders(db: Database, entries: seq<OrderEntry>, failed: set<int>)
    modifies db`resources
    ensures db.resources == Reordered(old(db.resources), entries, failed)
  {
    for k := 0 to |entries|
      invariant db.resources == Reordered(old(db.resources), entries[..k], failed)
    {
      assert entries[..k + 1][..k] == entries[..k];
      if entries[k].id.Some? && k !in failed {
        db.resources := SetOrder(db.resources, entries[k].id.value, entries[k].orderIndex);
      }
    }
    assert entries[..|entries|] == entries;
  }

  /** Whether every element of the list is an object (a `null` element makes `o.order_index` throw). */
  predicate AllObjects(entries: seq<Option<OrderEntry>>)
  {
    forall k :: 0 <= k < |entries| ==> entries[k].Some?
  }

  function Unwrapped(entries: seq<Option<OrderEntry>>): (r: seq<OrderEntry>)
    requires AllObjects(entries)
    ensures |r| == |entries| && forall k :: 0 <= k < |r| ==> Some(r[k]) == entries[k]
  {
    seq(|entries|, k requires 0 <= k < |entries| && AllObjects(entries) => entries[k].value)
  }

  /**
   * The PUT handler. `body` is `None` when the request body is not JSON;
   * `failed` holds the positions of updates the store rejects.
   */
  method PutOrder(db: Database, body: Option<OrdersField>, failed: set<int>) returns (reply: OrderReply)
    modifies db`resources
    ensures body.None? ==> reply == ServerError(InternalError)
    ensures body == Some(Missing) || body == Some(NotAnArray) ==> reply == BadRequest(InvalidOrders)
    ensures reply.BadRequest? <==> body == Some(Missing) || body == Some(NotAnArray)
    ensures reply == Success <==> body.Some? && body.value.Entries? && AllObjects(body.value.entries)
    ensures reply == Success ==> db.resources == Reordered(old(db.resources), Unwrapped(body.value.entries), failed)
    ensures reply != Success ==> db.resources == old(db.resources)
    ensures reply.ServerError? ==> reply.error == InternalError
  {
    if body.None? {
      return ServerError(InternalError);
    }
    match body.value
    case Missing => reply := BadRequest(InvalidOrders);
    case NotAnArray => reply := BadRequest(InvalidOrders);
    case Entries(entries) =>
      if !AllObjects(entries) {
        return ServerError(InternalError);
      }
      ApplyOrders(db, Unwrapped(entries), failed);
      reply := Success;
  }
}
