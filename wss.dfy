// The WebSocket transport (pytboss/wss.py): frames are JSON objects on a
// socket; the read loop sorts each incoming frame into state updates,
// command answers and vdata.
module Wss {
  import opened Json
  import opened T = Transport

  /** A call the read loop makes to one of the callbacks given to `connect`. */
  datatype Event = StateCall(callback: CallbackId, state: Json) | VDataCall(callback: CallbackId, payload: Object)

  /** Why the read loop stopped. */
  datatype LoopEnd =
    | Answered            // a command answer matched a pending call: `return`
    | StreamEnd           // the socket yielded no more frames
    | Failed(error: PyError)  // an exception ended the reading task

  /** Every outgoing frame carries `app_id` "FIXME". */
  function Stamp(cmd: Object): (f: Object)
    ensures f.Keys == cmd.Keys + {"app_id"}
    ensures f["app_id"] == JStr("FIXME")
    ensures forall k :: k in cmd && k != "app_id" ==> f[k] == cmd[k]
  {
    cmd["app_id" := JStr("FIXME")]
  }

  /** The values `for state in payload["status"]` visits. A string is
      iterated character by character; a status that is not a list or a
      string is treated as raising TypeError (see README for dicts). */
  function StatusItems(status: Json): Result<seq<Json>> {
    match status
    case JArr(items) => Ok(items)
    case JStr(s) => Ok(seq(|s|, j requires 0 <= j < |s| => JStr([s[j]])))
    case _ => Raise(TypeError)
  }

  function StateCalls(cb: CallbackId, items: seq<Json>): (evs: seq<Event>)
    ensures |evs| == |items|
    ensures forall j :: 0 <= j < |items| ==> evs[j] == StateCall(cb, items[j])
  {
    seq(|items|, j requires 0 <= j < |items| => StateCall(cb, items[j]))
  }

  /** What one frame does: its events, the pending map afterwards, and
      whether the loop stops there. */
  datatype StepResult = StepResult(events: seq<Event>, pending: map<int, Slot>, stop: Option<LoopEnd>)

  /** One pass of the body of `_subscribe`: the status check, the id check
      and the result check are independent, in that order. */
  function Step(pending: map<int, Slot>, p: Object, scb: CallbackId, vcb: CallbackId): StepResult {
    var status :=
      if "status" in p then StatusItems(p["status"]) else Ok([]);
    if status.Raise? then StepResult([], pending, Some(Failed(status.error)))
    else
      var states := StateCalls(scb, status.value);
      var (after, d) :=
        if "id" in p then Respond(pending, p) else (pending, Unmatched);
      if d.Raised? then StepResult(states, after, Some(Failed(d.error)))
      else if Matched(d) then StepResult(states, after, Some(Answered))
      else if Truthy(Get(p, "result", JNull)) then StepResult(states + [VDataCall(vcb, p)], after, None)
      else StepResult(states, after, None)
  }

  /** The read loop over a finite stream of frames. */
  datatype Outcome = Outcome(events: seq<Event>, consumed: nat, end: LoopEnd, pending: map<int, Slot>)

  function Dispatch(pending: map<int, Slot>, frames: seq<Object>, scb: CallbackId, vcb: CallbackId): (o: Outcome)
    ensures o.consumed <= |frames|
    ensures o.end == StreamEnd ==> o.consumed == |frames|
    decreases |frames|
  {
    if frames == [] then Outcome([], 0, StreamEnd, pending)
    else
      var s := Step(pending, frames[0], scb, vcb);
      if s.stop.Some? then Outcome(s.events, 1, s.stop.value, s.pending)
      else
        var rest := Dispatch(s.pending, frames[1..], scb, vcb);
        Outcome(s.events + rest.events, 1 + rest.consumed, rest.end, rest.pending)
  }

  /** A status list of N entries makes N state calls, in list order. */
  lemma StatusInOrder(pending: map<int, Slot>, p: Object, scb: CallbackId, vcb: CallbackId)
    requires "status" in p && p["status"].JArr?
    ensures var items := p["status"].items;
      var evs := Step(pending, p, scb, vcb).events;
      |evs| >= |items| && forall j :: 0 <= j < |items| ==> evs[j] == StateCall(scb, items[j])
  {
  }

  /** Once the loop has stopped (an answer matched, or an exception), the
      frames that would have followed are never looked at. */
  lemma {:induction false} StopIgnoresLaterFrames(pending: map<int, Slot>, frames: seq<Object>, later: seq<Object>, scb: CallbackId, vcb: CallbackId)
    requires Dispatch(pending, frames, scb, vcb).end != StreamEnd
    ensures Dispatch(pending, frames + later, scb, vcb) == Dispatch(pending, frames, scb, vcb)
    decreases |frames|
  {
    var s := Step(pending, frames[0], scb, vcb);
    assert (frames + later)[0] == frames[0];
    if s.stop == None {
      assert (frames + later)[1..] == frames[1..] + later;
      StopIgnoresLaterFrames(s.pending, frames[1..], later, scb, vcb);
    }
  }

  /** In particular a frame whose answer matches ends the loop there. */
  lemma AnswerEndsLoop(pending: map<int, Slot>, p: Object, later: seq<Object>, scb: CallbackId, vcb: CallbackId)
    requires Step(pending, p, scb, vcb).stop == Some(Answered)
    ensures var o := Dispatch(pending, [p] + later, scb, vcb);
      o.end == Answered && o.consumed == 1 && o.events == Step(pending, p, scb, vcb).events
  {
    StopIgnoresLaterFrames(pending, [p], later, scb, vcb);
  }

  /** An answer for a call nobody waits on does not end the loop, and a
      truthy `result` in it still goes to the vdata callback. */
  lemma UnmatchedResultIsVData(pending: map<int, Slot>, p: Object, scb: CallbackId, vcb: CallbackId)
    requires "status" !in p && "id" in p && !Unhashable(p["id"])
    requires Lookup(pending, IdKey(p["id"])) == None
    requires Truthy(Get(p, "result", JNull))
    ensures Step(pending, p, scb, vcb) == StepResult([VDataCall(vcb, p)], pending, None)
  {
    assert StateCalls(scb, []) == [];
  }

  /** One frame can feed both callbacks: state calls first, then vdata. */
  lemma StatusAndVData(pending: map<int, Slot>, items: seq<Json>, p: Object, scb: CallbackId, vcb: CallbackId)
    requires "status" in p && p["status"] == JArr(items) && "id" !in p
    requires Truthy(Get(p, "result", JNull))
    ensures Step(pending, p, scb, vcb) == StepResult(StateCalls(scb, items) + [VDataCall(vcb, p)], pending, None)
  {
  }

  class WebSocketConnection {
    const grillId: string
    /** The `Transport` base-class state this connection inherits. */
    const rpc: T.Transport
    var sockOpen: bool
    var isConnected: bool
    var stateCallback: Option<CallbackId>
    var vdataCallback: Option<CallbackId>
    /** Frames handed to the socket, before serialisation. */
    var sent: seq<Object>

    ghost predicate Valid()
      reads this, rpc
    {
      rpc.Valid()
    }

    constructor (grillId: string)
      ensures Valid() && fresh(rpc)
      ensures this.grillId == grillId
      ensures rpc.lastCommandId == 0 && rpc.pending == map[]
      ensures !sockOpen && !isConnected && stateCallback == None && vdataCallback == None && sent == []
    {
      this.grillId := grillId;
      rpc := new T.Transport();
      sockOpen := false;
      isConnected := false;
      stateCallback := None;
      vdataCallback := None;
      sent := [];
    }

    /** `is_connected`. */
    function IsConnected(): bool
      reads this
    {
      isConnected
    }

    /** `connect`: open the socket, keep the callbacks, start reading and
        report connected. Nothing sets the flag back. */
    method Connect(stateCb: CallbackId, vdataCb: CallbackId)
      modifies this
      ensures sockOpen && IsConnected()
      ensures stateCallback == Some(stateCb) && vdataCallback == Some(vdataCb)
      ensures sent == old(sent)
    {
      sockOpen := true;
      stateCallback := Some(stateCb);
      vdataCallback := Some(vdataCb);
      isConnected := true;
    }

    /** `_send_prepared_command`: stamp `app_id`, then send; with no socket
        the send raises. */
    method SendPreparedCommand(cmd: Object) returns (r: Result<()>)
      modifies this`sent
      ensures sockOpen ==> r == Ok(()) && sent == old(sent) + [Stamp(cmd)]
      ensures !sockOpen ==> r == Raise(AttributeError) && sent == old(sent)
    {
      var frame := cmd["app_id" := JStr("FIXME")];
      if !sockOpen {
        return Raise(AttributeError);
      }
      sent := sent + [frame];
      r := Ok(());
    }

    /** `send_command`: register the call, then send its frame. If the send
        raises, the registration stays behind. */
    method SendCommand(name: string, params: Object) returns (cmd: Command, r: Result<()>)
      requires Valid()
      modifies this`sent, rpc
      ensures Valid()
      ensures cmd == Command(NextId(old(rpc.lastCommandId)), name, params)
      ensures rpc.lastCommandId == cmd.id && rpc.pending == old(rpc.pending)[cmd.id := Waiting]
      ensures sockOpen ==> r == Ok(()) && sent == old(sent) + [Stamp(Frame(cmd))]
      ensures !sockOpen ==> r == Raise(AttributeError) && sent == old(sent)
    {
      cmd := rpc.SendCommand(name, params);
      r := SendPreparedCommand(Frame(cmd));
    }

    /** `send_command_without_answer` as written: the un-awaited
        `_prepare_command(...)` is a coroutine object, and assigning
        `app_id` into it raises TypeError before anything is sent; the
        coroutine never runs, so no id is taken either. */
    method SendCommandWithoutAnswer(name: string, params: Object) returns (r: Result<()>)
      requires Valid()
      ensures r == Raise(TypeError)
    {
      r := Raise(TypeError);
    }

    /** `send_command_without_answer` as evidently intended: take an id and
        send the frame; no call is registered. */
    method SendCommandWithoutAnswerFixed(name: string, params: Object) returns (cmd: Command, r: Result<()>)
      requires Valid()
      modifies this`sent, rpc`lastCommandId
      ensures Valid()
      ensures cmd == Command(NextId(old(rpc.lastCommandId)), name, params)
      ensures rpc.lastCommandId == cmd.id && rpc.pending == old(rpc.pending)
      ensures sockOpen ==> r == Ok(()) && sent == old(sent) + [Stamp(Frame(cmd))]
      ensures !sockOpen ==> r == Raise(AttributeError) && sent == old(sent)
    {
      cmd := rpc.PrepareCommand(name, params);
      r := SendPreparedCommand(Frame(cmd));
    }

    /** The state calls for one status list, in order. */
    static method StateCallsFor(scb: CallbackId, items: seq<Json>) returns (states: seq<Event>)
      ensures states == StateCalls(scb, items)
    {
      states := [];
      for j := 0 to |items|
        invariant states == StateCalls(scb, items[..j])
      {
        assert items[..j + 1] == items[..j] + [items[j]];
        states := states + [StateCall(scb, items[j])];
      }
      assert items[..|items|] == items;
    }

    /** One pass of the loop body of `_subscribe`. */
    method HandleFrame(p: Object, scb: CallbackId, vcb: CallbackId) returns (s: StepResult)
      requires Valid()
      modifies rpc`pending
      ensures Valid()
      ensures s == Step(old(rpc.pending), p, scb, vcb) && rpc.pending == s.pending
    {
      // the status check
      var states: seq<Event> := [];
      if "status" in p {
        var items := StatusItems(p["status"]);
        if items.Raise? {
          return StepResult([], rpc.pending, Some(Failed(items.error)));
        }
        states := StateCallsFor(scb, items.value);
      }
      // the id check
      if "id" in p {
        var d := rpc.OnCommandResponse(p);
        if d.Raised? {
          return StepResult(states, rpc.pending, Some(Failed(d.error)));
        }
        if Matched(d) {
          return StepResult(states, rpc.pending, Some(Answered));
        }
      }
      // the result check
      if Truthy(Get(p, "result", JNull)) {
        states := states + [VDataCall(vcb, p)];
      }
      s := StepResult(states, rpc.pending, None);
    }

    /** `_subscribe`, run by `connect` over the frames the socket yields. */
    method Subscribe(frames: seq<Object>) returns (events: seq<Event>, consumed: nat, end: LoopEnd)
      requires Valid() && stateCallback.Some? && vdataCallback.Some?
      modifies rpc`pending
      ensures Valid()
      ensures Outcome(events, consumed, end, rpc.pending) ==
        Dispatch(old(rpc.pending), frames, stateCallback.value, vdataCallback.value)
    {
      var scb, vcb := stateCallback.value, vdataCallback.value;
      ghost var whole := Dispatch(rpc.pending, frames, scb, vcb);
      events := [];
      var i := 0;
      while i < |frames|
        invariant i <= |frames| && rpc.Valid()
        invariant var o := Dispatch(rpc.pending, frames[i..], scb, vcb);
          Outcome(events + o.events, i + o.consumed, o.end, o.pending) == whole
        decreases |frames| - i
      {
        assert frames[i..][0] == frames[i] && frames[i..][1..] == frames[i + 1..];
        var s := HandleFrame(frames[i], scb, vcb);
        events := events + s.events;
        if s.stop.Some? {
          return events, i + 1, s.stop.value;
        }
        i := i + 1;
      }
      consumed := i;
      end := StreamEnd;
    }
  }
}
