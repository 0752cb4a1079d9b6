// The Bluetooth LE transport (pytboss/ble.py): Mongoose OS RPC over GATT.
// A frame goes out as a 4-byte big-endian length on the tx_ctl
// characteristic followed by the frame in pieces of at most 20 characters
// on the data characteristic; an answer is announced on rx_ctl by its
// length and read back from the data characteristic.
module Ble {
  import opened Json
  import opened Codec
  import opened T = Transport

  /** The GATT characteristics the connection uses. */
  datatype Characteristic = RpcData | RpcTxCtl | RpcRxCtl | DebugLog

  /** One `write_gatt_char`: the length prefix, or a piece of the frame
      (sent as its UTF-8 encoding, which for `json.dumps` output is the
      characters themselves). */
  datatype GattWrite = LengthWrite(prefix: seq<Byte>) | DataWrite(chunk: string)

  const CHUNK: nat := 20

  // ---- the length prefix ----

  /** `n` shifted right by 8 bits `k` times. */
  function Shift(n: nat, k: nat): nat {
    if k == 0 then n else Shift(n, k - 1) / 256
  }

  /** The k-th byte of `n`, counting from the least significant. */
  function Digit(n: nat, k: nat): Byte {
    Shift(n, k) % 256
  }

  /** The prefix `_send_prepared_command` builds: payload[3 - i] is byte i. */
  function LengthPrefix(n: nat): seq<Byte> {
    [Digit(n, 3), Digit(n, 2), Digit(n, 1), Digit(n, 0)]
  }

  /** `data[0] << 24 | data[1] << 16 | data[2] << 8 | data[3]`; the four
      shifted bytes share no bits, so the OR is their sum. */
  function DecodeLength(d: seq<Byte>): nat
    requires |d| >= 4
  {
    (d[0] as nat) * 0x100_0000 + (d[1] as nat) * 0x1_0000 + (d[2] as nat) * 0x100 + (d[3] as nat)
  }

  /** Decoding the prefix gives back the length modulo 2^32, so exactly the
      length for every frame shorter than 4 GiB. */
  lemma LengthRoundTrip(n: nat)
    ensures DecodeLength(LengthPrefix(n)) == n % 0x1_0000_0000
    ensures n < 0x1_0000_0000 ==> DecodeLength(LengthPrefix(n)) == n
  {
    ShiftStep(n, 0);
    ShiftStep(n, 1);
    ShiftStep(n, 2);
    ShiftStep(n, 3);
    var low := DecodeLength(LengthPrefix(n));
    assert n == low + 0x1_0000_0000 * Shift(n, 4);
    ModOfSum(n, low, Shift(n, 4));
  }

  /** Shifting by one more byte splits off byte k. */
  lemma ShiftStep(n: nat, k: nat)
    ensures Shift(n, k) == 256 * Shift(n, k + 1) + Digit(n, k)
  {
  }

  lemma ModOfSum(n: nat, low: nat, q: nat)
    requires low < 0x1_0000_0000 && n == low + 0x1_0000_0000 * q
    ensures n % 0x1_0000_0000 == low
  {
  }

  /** The `payload[3 - i] = 255 & n; n >>= 8` loop of
      `_send_prepared_command`, over a 4-byte buffer. */
  method EncodeLength(len: nat) returns (prefix: seq<Byte>)
    ensures prefix == LengthPrefix(len)
  {
    var payload := new Byte[4](_ => 0);
    var n := len;
    for i := 0 to 4
      invariant n == Shift(len, i)
      invariant forall j :: 0 <= j < i ==> payload[3 - j] == Digit(len, j)
    {
      payload[3 - i] := n % 256;   // 255 & n
      n := n / 256;                // n >>= 8
    }
    prefix := payload[..];
  }

  // ---- the data pieces ----

  /** The pieces `cmd[i:i + 20]` for i = 0, 20, 40, ... */
  function Chunks(cmd: string): seq<string>
    decreases |cmd|
  {
    if |cmd| == 0 then [] else
      var k := if |cmd| < CHUNK then |cmd| else CHUNK;
      [cmd[..k]] + Chunks(cmd[k..])
  }

  function Concat(pieces: seq<string>): string {
    if |pieces| == 0 then [] else pieces[0] + Concat(pieces[1..])
  }

  /** The pieces put back together are the frame. */
  lemma {:induction false} ChunksConcat(cmd: string)
    ensures Concat(Chunks(cmd)) == cmd
    decreases |cmd|
  {
    if |cmd| > 0 {
      var k := if |cmd| < CHUNK then |cmd| else CHUNK;
      ChunksConcat(cmd[k..]);
      assert cmd[..k] + cmd[k..] == cmd;
    }
  }

  /** There are ceil(len / 20) pieces; each holds 1 to 20 characters and
      all but the last exactly 20. */
  lemma {:induction false} ChunksShape(cmd: string)
    ensures |Chunks(cmd)| == (|cmd| + CHUNK - 1) / CHUNK
    ensures forall j :: 0 <= j < |Chunks(cmd)| ==> 0 < |Chunks(cmd)[j]| <= CHUNK
    ensures forall j :: 0 <= j < |Chunks(cmd)| - 1 ==> |Chunks(cmd)[j]| == CHUNK
    ensures |cmd| > 0 ==> |Chunks(cmd)[|Chunks(cmd)| - 1]| == |cmd| - CHUNK * (|Chunks(cmd)| - 1)
    decreases |cmd|
  {
    if |cmd| > 0 {
      var k := if |cmd| < CHUNK then |cmd| else CHUNK;
      ChunksShape(cmd[k..]);
      assert Chunks(cmd) == [cmd[..k]] + Chunks(cmd[k..]);
    }
  }

  /** A 61-character frame goes out as pieces of 20, 20, 20 and 1. */
  lemma SixtyOneCharacters(cmd: string)
    requires |cmd| == 61
    ensures |Chunks(cmd)| == 4
    ensures |Chunks(cmd)[0]| == 20 && |Chunks(cmd)[3]| == 1
  {
    ChunksShape(cmd);
  }

  function DataWrites(pieces: seq<string>): (w: seq<GattWrite>)
    ensures |w| == |pieces|
  {
    seq(|pieces|, j requires 0 <= j < |pieces| => DataWrite(pieces[j]))
  }

  /** Everything `_send_prepared_command` writes for `cmd`, in order. */
  function Transmission(cmd: string): seq<GattWrite> {
    [LengthWrite(LengthPrefix(|cmd|))] + DataWrites(Chunks(cmd))
  }

  /** The rest of the frame from position i on (empty once i is past the end). */
  function From(cmd: string, i: nat): string {
    if i < |cmd| then cmd[i..] else []
  }

  lemma ChunkStep(cmd: string, i: nat)
    requires i < |cmd|
    ensures var end := if i + CHUNK < |cmd| then i + CHUNK else |cmd|;
      DataWrites(Chunks(From(cmd, i))) == [DataWrite(cmd[i..end])] + DataWrites(Chunks(From(cmd, i + CHUNK)))
  {
    var end := if i + CHUNK < |cmd| then i + CHUNK else |cmd|;
    var rest := cmd[i..];
    var k := if |rest| < CHUNK then |rest| else CHUNK;
    assert rest[..k] == cmd[i..end];
    assert rest[k..] == From(cmd, i + CHUNK);
    assert Chunks(rest) == [cmd[i..end]] + Chunks(From(cmd, i + CHUNK));
  }

  /** One pass of the sending loop keeps `sent` a prefix of all pieces. */
  lemma SentStep(cmd: string, i: nat, sent: seq<GattWrite>)
    requires i < |cmd|
    requires sent + DataWrites(Chunks(From(cmd, i))) == DataWrites(Chunks(cmd))
    ensures var end := if i + CHUNK < |cmd| then i + CHUNK else |cmd|;
      (sent + [DataWrite(cmd[i..end])]) + DataWrites(Chunks(From(cmd, i + CHUNK))) == DataWrites(Chunks(cmd))
  {
    ChunkStep(cmd, i);
  }

  // ---- the receive side ----

  /** `len(resp) < resp_len` loop: concatenate the supplied reads until at least
      `respLen` bytes have arrived. `complete` is false when the supplied
      reads run out first (the connection would keep waiting). */
  method ReadResponse(respLen: nat, supply: seq<seq<Byte>>) returns (resp: seq<Byte>, used: nat, complete: bool)
    ensures used <= |supply| && resp == Joined(supply[..used])
    ensures complete ==> |resp| >= respLen
    ensures !complete ==> used == |supply| && |resp| < respLen
    ensures forall j :: 0 <= j < used ==> |Joined(supply[..j])| < respLen
    ensures respLen == 0 ==> used == 0 && complete
  {
    resp := [];
    used := 0;
    while |resp| < respLen
      invariant used <= |supply| && resp == Joined(supply[..used])
      invariant forall j :: 0 <= j < used ==> |Joined(supply[..j])| < respLen
      decreases |supply| - used
    {
      if used == |supply| {
        return resp, used, false;
      }
      JoinedSnoc(supply, used);
      resp := resp + supply[used];
      used := used + 1;
    }
    complete := true;
  }

  function Joined(parts: seq<seq<Byte>>): seq<Byte> {
    if |parts| == 0 then [] else Joined(parts[..|parts| - 1]) + parts[|parts| - 1]
  }

  lemma JoinedSnoc(parts: seq<seq<Byte>>, k: nat)
    requires k < |parts|
    ensures Joined(parts[..k + 1]) == Joined(parts[..k]) + parts[k]
  {
    assert parts[..k + 1][..k] == parts[..k];
  }

  /** Later reads only add bytes. */
  lemma {:induction false} JoinedPrefixShorter(parts: seq<seq<Byte>>, k: nat)
    requires k <= |parts|
    ensures |Joined(parts[..k])| <= |Joined(parts)|
    decreases |parts| - k
  {
    if k < |parts| {
      JoinedSnoc(parts, k);
      JoinedPrefixShorter(parts, k + 1);
    } else {
      assert parts[..k] == parts;
    }
  }

  /** What a response does to the call it names: the error message is
      looked up at the top level of the payload (unlike the WebSocket
      transport, which looks inside `payload["error"]`), and a cancelled
      call is ignored. */
  function Settle(slot: Option<Slot>, payload: Object): (d: Delivery)
    ensures slot == None <==> d == Unmatched
    ensures slot == Some(Cancelled) <==> d == Dropped
    ensures slot == Some(Waiting) && "error" in payload ==>
      d == Rejected(RPCError(Get(payload, "message", JStr("Unknown error"))))
    ensures slot == Some(Waiting) && "error" !in payload ==>
      d == if "result" in payload then Resolved(payload["result"]) else Raised(KeyError)
  {
    match slot
    case None => Unmatched
    case Some(Cancelled) => Dropped
    case Some(Waiting) =>
      if "error" in payload then Rejected(RPCError(Get(payload, "message", JStr("Unknown error"))))
      else if "result" in payload then Resolved(payload["result"])
      else Raised(KeyError)
  }

  /** `_on_rpc_data_received` after the bytes are in: parse, pop and settle.
      `loads` stands for `json.loads(resp.decode("utf-8"))`, None when
      either step raises (both raise ValueError subclasses). */
  function Deliver(pending: map<int, Slot>, resp: seq<Byte>, loads: seq<Byte> -> Option<Json>): (map<int, Slot>, Delivery) {
    match loads(resp)
    case None => (pending, Raised(ValueError))
    case Some(JObj(payload)) =>
      if "id" !in payload then (pending, Raised(KeyError))
      else if Unhashable(payload["id"]) then (pending, Raised(TypeError))
      else
        var key := IdKey(payload["id"]);
        (Pop(pending, key), Settle(Lookup(pending, key), payload))
    case Some(_) => (pending, Raised(TypeError))
  }

  /** The two transports disagree on where an error message lives. */
  lemma ErrorMessagePlacement(id: int, inner: Json, outer: Json)
    requires inner != outer
    ensures var payload := map["id" := JInt(id), "error" := JObj(map["message" := inner]), "message" := outer];
      Settle(Some(Waiting), payload) == Rejected(RPCError(outer)) &&
      T.Settle(Some(Waiting), payload) == Rejected(RPCError(inner))
  {
  }

  /** What became of one rx_ctl notification. */
  datatype Receipt =
    | Truncated                          // fewer than 4 bytes: data[3] raises IndexError
    | Starved(got: seq<Byte>)            // the supplied reads ran out before the answer was complete
    | Received(used: nat, d: Delivery)   // the answer was read with `used` reads and handled

  class BleConnection {
    var lastCommandId: nat
    var pending: map<int, Slot>
    var debugLogCallback: Option<CallbackId>
    var notifying: set<Characteristic>
    var writes: seq<GattWrite>

    ghost predicate Valid()
      reads this
    {
      lastCommandId < ID_SPACE && IdsInRange(pending)
    }

    constructor ()
      ensures Valid()
      ensures lastCommandId == 0 && pending == map[] && debugLogCallback == None
      ensures notifying == {} && writes == []
    {
      lastCommandId := 0;
      pending := map[];
      debugLogCallback := None;
      notifying := {};
      writes := [];
    }

    /** `start`: listen for answers on rx_ctl. */
    method Start()
      modifies this`notifying
      ensures notifying == old(notifying) + {RpcRxCtl}
    {
      notifying := notifying + {RpcRxCtl};
    }

    /** `stop`: stop listening for answers, and for debug logs when
        subscribed. */
    method Stop()
      modifies this`notifying
      ensures notifying == old(notifying) - {RpcRxCtl} - (if debugLogCallback.Some? then {DebugLog} else {})
    {
      notifying := notifying - {RpcRxCtl};
      if debugLogCallback.Some? {
        notifying := notifying - {DebugLog};
      }
    }

    /** `subscribe_debug_logs`: only one subscription at a time. The
        `start_notify` coroutine for the debug-log characteristic is created
        but never awaited, so the notifications are not switched on. */
    method SubscribeDebugLogs(callback: CallbackId) returns (r: Result<()>)
      modifies this`debugLogCallback
      ensures old(debugLogCallback) == None ==> r == Ok(()) && debugLogCallback == Some(callback)
      ensures old(debugLogCallback) != None ==> r == Raise(AssertionError) && debugLogCallback == old(debugLogCallback)
    {
      if debugLogCallback != None {
        return Raise(AssertionError);
      }
      debugLogCallback := Some(callback);
      r := Ok(());
    }

    /** The `cancel` closure `subscribe_debug_logs` returns: a no-op once
        the callback is cleared. */
    method CancelDebugLogs()
      modifies this`debugLogCallback, this`notifying
      ensures debugLogCallback == None
      ensures notifying == if old(debugLogCallback) == None then old(notifying) else old(notifying) - {DebugLog}
    {
      if debugLogCallback == None {
        return;
      }
      notifying := notifying - {DebugLog};
      debugLogCallback := None;
    }

    /** `_on_debug_log_received`: hand the bytes to the callback, or drop
        them when there is none. */
    method OnDebugLogReceived(data: seq<Byte>) returns (call: Option<(CallbackId, seq<Byte>)>)
      ensures call == None <==> debugLogCallback == None
      ensures call != None ==> call.value == (debugLogCallback.value, data)
    {
      if debugLogCallback == None {
        return None;
      }
      call := Some((debugLogCallback.value, data));
    }

    /** `_next_command_id`. */
    method NextCommandId() returns (id: nat)
      requires Valid()
      modifies this`lastCommandId
      ensures Valid()
      ensures id == NextId(old(lastCommandId)) && lastCommandId == id
    {
      lastCommandId := (lastCommandId + 1) % ID_SPACE;
      id := lastCommandId;
    }

    /** `_send_prepared_command`: the length prefix, then the pieces. */
    method SendPreparedCommand(cmd: string)
      modifies this`writes
      ensures writes == old(writes) + Transmission(cmd)
    {
      var prefix := EncodeLength(|cmd|);
      writes := writes + [LengthWrite(prefix)];
      var sent: seq<GattWrite> := [];
      var i: nat := 0;
      assert From(cmd, 0) == cmd;
      while i < |cmd|
        invariant sent + DataWrites(Chunks(From(cmd, i))) == DataWrites(Chunks(cmd))
        invariant writes == old(writes) + [LengthWrite(prefix)]
        decreases |cmd| - i
      {
        var end := if i + CHUNK < |cmd| then i + CHUNK else |cmd|;
        SentStep(cmd, i, sent);
        sent := sent + [DataWrite(cmd[i..end])];
        i := i + CHUNK;
      }
      assert DataWrites(Chunks(From(cmd, i))) == [];
      assert sent == DataWrites(Chunks(cmd));
      writes := writes + sent;
      assert writes == old(writes) + ([LengthWrite(prefix)] + sent);
    }

    /** `send_command`: take an id, register the call, then transmit the
        serialised frame. `dumps` stands for `json.dumps`. */
    method SendCommand(name: string, params: Object, dumps: Json -> string) returns (id: nat)
      requires Valid()
      modifies this
      ensures Valid()
      ensures id == NextId(old(lastCommandId)) && lastCommandId == id
      ensures pending == old(pending)[id := Waiting]
      ensures writes == old(writes) + Transmission(dumps(JObj(Frame(Command(id, name, params)))))
      ensures debugLogCallback == old(debugLogCallback) && notifying == old(notifying)
    {
      id := NextCommandId();
      var cmd := dumps(JObj(Frame(Command(id, name, params))));
      pending := pending[id := Waiting];
      SendPreparedCommand(cmd);
    }

    /** `send_command` when `wait_for`'s timeout fires during the transmit,
        after `done` writes went out: TimeoutError reaches the caller, and
        the call stays registered and waiting, since nothing cancels it. */
    method SendCommandTimedOut(name: string, params: Object, dumps: Json -> string, done: nat)
      returns (id: nat, r: Result<Json>)
      requires Valid()
      modifies this
      ensures Valid()
      ensures r == Raise(TimeoutError)
      ensures id == NextId(old(lastCommandId)) && lastCommandId == id
      ensures pending == old(pending)[id := Waiting]
      ensures var sent := Transmission(dumps(JObj(Frame(Command(id, name, params)))));
        writes == old(writes) + sent[..if done < |sent| then done else |sent|]
      ensures debugLogCallback == old(debugLogCallback) && notifying == old(notifying)
    {
      id := NextCommandId();
      var cmd := dumps(JObj(Frame(Command(id, name, params))));
      pending := pending[id := Waiting];
      var sent := Transmission(cmd);
      writes := writes + sent[..if done < |sent| then done else |sent|];
      r := Raise(TimeoutError);
    }

    /** `send_command_without_answer`: take an id and transmit; nothing
        is registered. */
    method SendCommandWithoutAnswer(name: string, params: Object, dumps: Json -> string) returns (id: nat)
      requires Valid()
      modifies this
      ensures Valid()
      ensures id == NextId(old(lastCommandId)) && lastCommandId == id
      ensures pending == old(pending)
      ensures writes == old(writes) + Transmission(dumps(JObj(Frame(Command(id, name, params)))))
      ensures debugLogCallback == old(debugLogCallback) && notifying == old(notifying)
    {
      id := NextCommandId();
      var cmd := dumps(JObj(Frame(Command(id, name, params))));
      SendPreparedCommand(cmd);
    }

    /** `_on_rpc_data_received`: decode the announced length, read until
        that many bytes have arrived, then settle the call they answer. */
    method OnRpcDataReceived(data: seq<Byte>, supply: seq<seq<Byte>>, loads: seq<Byte> -> Option<Json>)
      returns (r: Receipt)
      requires Valid()
      modifies this`pending
      ensures Valid()
      ensures |data| < 4 ==> r == Truncated && pending == old(pending)
      ensures r.Truncated? <==> |data| < 4
      ensures r.Starved? ==> |data| >= 4 && pending == old(pending) && r.got == Joined(supply)
      ensures |data| >= 4 ==> (r.Starved? <==> |Joined(supply)| < DecodeLength(data))
      ensures r.Received? ==> (|data| >= 4 && r.used <= |supply| &&
        var resp := Joined(supply[..r.used]);
        |resp| >= DecodeLength(data) && (pending, r.d) == Deliver(old(pending), resp, loads))
      ensures r.Received? ==> forall j :: 0 <= j < r.used ==> |Joined(supply[..j])| < DecodeLength(data)
    {
      if |data| < 4 {
        return Truncated;
      }
      var resp, used, complete := ReadResponse(DecodeLength(data), supply);
      if !complete {
        assert supply[..used] == supply;
        return Starved(resp);
      }
      JoinedPrefixShorter(supply, used);
      var after, d := Deliver(pending, resp, loads).0, Deliver(pending, resp, loads).1;
      pending := after;
      r := Received(used, d);
    }
  }
}
