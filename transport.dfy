// The RPC correlation layer shared by the transports (pytboss/transport.py):
// a wrapping command-id counter and the map from id to pending call.
module Transport {
  import opened Json

  /** Ids live in 0..2047: `(last + 1) & 2047`, which for a non-negative
      value is its remainder modulo 2048. */
  const ID_SPACE: nat := 2048

  function NextId(last: nat): (id: nat) {
    (last + 1) % ID_SPACE
  }

  /** The ids that k consecutive allocations hand out, starting after `last`. */
  function Allocations(last: nat, k: nat): (ids: seq<nat>)
    ensures |ids| == k
    decreases k
  {
    if k == 0 then [] else [NextId(last)] + Allocations(NextId(last), k - 1)
  }

  /** Every id is in range; from the initial 0 the first id is 1, and 2047
      wraps to 0. */
  lemma NextIdRange(last: nat)
    ensures 0 <= NextId(last) < ID_SPACE
    ensures NextId(0) == 1 && NextId(2047) == 0
    ensures last < 2047 ==> NextId(last) == last + 1
  {
  }

  /** The j-th of k allocations after `last` is (last + j + 1) mod 2048. */
  lemma {:induction false} AllocationsAt(last: nat, k: nat, j: nat)
    requires j < k
    ensures Allocations(last, k)[j] == (last + j + 1) % ID_SPACE
    decreases j
  {
    if j > 0 {
      AllocationsAt(NextId(last), k - 1, j - 1);
      assert (NextId(last) + (j - 1) + 1) % ID_SPACE == (last + j + 1) % ID_SPACE;
    }
  }

  /** No id repeats within 2048 consecutive allocations. */
  lemma AllocationsDistinct(last: nat, k: nat)
    requires k <= ID_SPACE
    ensures forall a, b :: 0 <= a < b < k ==> Allocations(last, k)[a] != Allocations(last, k)[b]
  {
    forall a, b | 0 <= a < b < k
      ensures Allocations(last, k)[a] != Allocations(last, k)[b]
    {
      AllocationsAt(last, k, a);
      AllocationsAt(last, k, b);
      ModDistinct(last + a + 1, b - a);
    }
  }

  /** Two numbers less than 2048 apart have different remainders. */
  lemma ModDistinct(x: nat, d: nat)
    requires 0 < d < ID_SPACE
    ensures x % ID_SPACE != (x + d) % ID_SPACE
  {
    var q, r := x / ID_SPACE, x % ID_SPACE;
    assert x == q * ID_SPACE + r;
    if r + d < ID_SPACE {
      assert x + d == q * ID_SPACE + (r + d);
    } else {
      assert x + d == (q + 1) * ID_SPACE + (r + d - ID_SPACE);
    }
  }

  /** After 2048 allocations the counter is back where it started. */
  lemma {:induction false} AllocationsWrap(last: nat)
    requires last < ID_SPACE
    ensures Allocations(last, ID_SPACE)[ID_SPACE - 1] == last
  {
    var k := ID_SPACE;
    AllocationsAt(last, k, k - 1);
    assert (last + (k - 1) + 1) % k == last by {
      assert last + (k - 1) + 1 == last + k;
      assert (last + k) / k == 1;
    }
  }

  /** A frame as `_prepare_command` builds it. */
  datatype Command = Command(id: nat, name: string, params: Object)

  /** The command as the dict `{"id": ..., "method": ..., "params": ...}`. */
  function Frame(c: Command): Object {
    map["id" := JInt(c.id), "method" := JStr(c.name), "params" := JObj(c.params)]
  }

  /** The state of a future in the pending map: still awaited, or cancelled
      by its caller (for instance by a timeout around the await). */
  datatype Slot = Waiting | Cancelled

  /** What a response does to the call it names. */
  datatype Delivery =
    | Unmatched                   // no pending call with that id: returns False
    | Dropped                     // the call was cancelled: removed, not resolved
    | Resolved(value: Json)       // future.set_result(payload["result"])
    | Rejected(error: PyError)    // future.set_exception(RPCError(...))
    | Raised(error: PyError)      // the handler itself raised after the pop

  /** Whether the handler reports a match (it returns True). */
  predicate Matched(d: Delivery) {
    d.Resolved? || d.Rejected? || d.Dropped?
  }

  /** The key `dict.pop(payload["id"])` finds: Python compares True with 1
      and 1.0 with 1, so those also select an int key; a string or null id
      selects nothing. */
  function IdKey(j: Json): Option<int> {
    match j
    case JInt(i) => Some(i)
    case JBool(b) => Some(if b then 1 else 0)
    case JFloat(r) => if r == r.Floor as real then Some(r.Floor) else None
    case _ => None
  }

  /** `payload["error"].get("message", "Unknown error")`: the message is
      nested inside the error object. */
  function NestedError(payload: Object): Delivery
    requires "error" in payload
  {
    match payload["error"]
    case JObj(e) => Rejected(RPCError(Get(e, "message", JStr("Unknown error"))))
    case _ => Raised(AttributeError)
  }

  /** What `_on_command_response` does with the slot it popped. */
  function Settle(slot: Option<Slot>, payload: Object): (d: Delivery)
    ensures slot == None <==> d == Unmatched
    ensures slot == Some(Cancelled) <==> d == Dropped
    ensures slot == Some(Waiting) && "error" !in payload && "result" in payload ==> d == Resolved(payload["result"])
    ensures slot == Some(Waiting) && "error" in payload && payload["error"].JObj? ==>
      d == Rejected(RPCError(Get(payload["error"].fields, "message", JStr("Unknown error"))))
  {
    match slot
    case None => Unmatched
    case Some(Cancelled) => Dropped
    case Some(Waiting) =>
      if "error" in payload then NestedError(payload)
      else if "result" in payload then Resolved(payload["result"])
      else Raised(KeyError)
  }

  /** The pending map after `pop(key, None)`. */
  function Pop(pending: map<int, Slot>, key: Option<int>): map<int, Slot> {
    if key.Some? then pending - {key.value} else pending
  }

  function Lookup(pending: map<int, Slot>, key: Option<int>): Option<Slot> {
    if key.Some? && key.value in pending then Some(pending[key.value]) else None
  }

  /** The whole of `_on_command_response`: the pending map afterwards and
      what became of the call. */
  function Respond(pending: map<int, Slot>, payload: Object): (map<int, Slot>, Delivery) {
    if "id" !in payload then (pending, Raised(KeyError))
    else if Unhashable(payload["id"]) then (pending, Raised(TypeError))
    else
      var key := IdKey(payload["id"]);
      (Pop(pending, key), Settle(Lookup(pending, key), payload))
  }

  /** A response for an id nobody waits on changes nothing and reports no
      match; one that names a pending call removes exactly that entry and
      reports a match (or raises from the settling). */
  lemma RespondEffect(pending: map<int, Slot>, payload: Object)
    requires "id" in payload && !Unhashable(payload["id"])
    ensures var key := IdKey(payload["id"]);
      var (after, d) := Respond(pending, payload);
      (Lookup(pending, key) == None <==> d == Unmatched) &&
      (Lookup(pending, key) == None ==> after == pending) &&
      (Lookup(pending, key) != None ==> key.Some? && after == pending - {key.value} && (Matched(d) || d.Raised?))
  {
  }

  /** A matched response removes its entry, so a repeat of the same
      response finds nothing and changes nothing. */
  lemma SecondResponseUnmatched(pending: map<int, Slot>, payload: Object)
    requires "id" in payload && !Unhashable(payload["id"])
    ensures var after := Respond(pending, payload).0;
      Respond(after, payload) == (after, Unmatched)
  {
    var key := IdKey(payload["id"]);
    var after := Pop(pending, key);
    assert Lookup(after, key) == None;
    assert Pop(after, key) == after;
  }

  /** A cancelled call is removed but not resolved, and still counts as a
      match. */
  lemma CancelledDropped(pending: map<int, Slot>, payload: Object, id: int)
    requires "id" in payload && payload["id"] == JInt(id)
    requires id in pending && pending[id] == Cancelled
    ensures Respond(pending, payload) == (pending - {id}, Dropped)
    ensures Matched(Respond(pending, payload).1)
  {
  }

  /** Ids the transport hands out stay in range. */
  ghost predicate IdsInRange(pending: map<int, Slot>) {
    forall id :: id in pending ==> 0 <= id < ID_SPACE
  }

  /** The counter and pending map of `Transport`; each lock-guarded block of
      the source is one method. */
  class Transport {
    var lastCommandId: nat
    var pending: map<int, Slot>

    ghost predicate Valid()
      reads this
    {
      lastCommandId < ID_SPACE && IdsInRange(pending)
    }

    constructor ()
      ensures Valid()
      ensures lastCommandId == 0 && pending == map[]
    {
      lastCommandId := 0;
      pending := map[];
    }

    /** `_next_command_id`: advance the counter under the lock. */
    method NextCommandId() returns (id: nat)
      requires Valid()
      modifies this`lastCommandId
      ensures Valid()
      ensures id == NextId(old(lastCommandId)) && lastCommandId == id
    {
      lastCommandId := (lastCommandId + 1) % ID_SPACE;
      id := lastCommandId;
    }

    /** `_prepare_command`: a fresh id with the method and params unchanged. */
    method PrepareCommand(name: string, params: Object) returns (cmd: Command)
      requires Valid()
      modifies this`lastCommandId
      ensures Valid()
      ensures cmd == Command(NextId(old(lastCommandId)), name, params)
      ensures lastCommandId == cmd.id
    {
      var id := NextCommandId();
      cmd := Command(id, name, params);
    }

    /** The first half of `send_command`: prepare the frame and register a
        waiting slot under its id; the concrete transport transmits `cmd`
        only after this returns. An earlier call still waiting under the
        same id (2048 calls ago) loses its slot. */
    method SendCommand(name: string, params: Object) returns (cmd: Command)
      requires Valid()
      modifies this
      ensures Valid()
      ensures cmd == Command(NextId(old(lastCommandId)), name, params)
      ensures lastCommandId == cmd.id
      ensures pending == old(pending)[cmd.id := Waiting]
    {
      cmd := PrepareCommand(name, params);
      pending := pending[cmd.id := Waiting];
    }

    /** The caller of a pending command gives up on it (asyncio cancels the
        awaited future); the slot stays in the map until its response. */
    method CancelCall(id: int)
      requires Valid()
      modifies this`pending
      ensures Valid()
      ensures pending == if id in old(pending) then old(pending)[id := Cancelled] else old(pending)
    {
      if id in pending {
        pending := pending[id := Cancelled];
      }
    }

    /** `_on_command_response`: pop the slot under the lock, then resolve,
        fail or drop it. */
    method OnCommandResponse(payload: Object) returns (d: Delivery)
      requires Valid()
      modifies this`pending
      ensures Valid()
      ensures (pending, d) == Respond(old(pending), payload)
    {
      if "id" !in payload {
        return Raised(KeyError);
      }
      if Unhashable(payload["id"]) {
        return Raised(TypeError);
      }
      var key := IdKey(payload["id"]);
      var slot := Lookup(pending, key);
      pending := Pop(pending, key);
      d := Settle(slot, payload);
    }
  }
}
