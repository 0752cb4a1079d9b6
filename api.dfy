// The PitBoss façade (pytboss/api.py): grill commands authenticated with
// the timed password codec, the uptime cache that feeds the codec, and the
// fan-out of grill state to subscribers.
module Api {
  import opened Json
  import opened Rpc
  import opened Codec
  import Grills
  import GrillTemplates

  // ---- temperature limits ----

  /** A limit from the grill definition is applied only when truthy:
      present and not zero. */
  predicate IsSet(limit: Option<int>) {
    limit.Some? && limit.value != 0
  }

  /** The clamping of `set_grill_temperature`: the maximum first, then the
      minimum, so the minimum wins when the two cross. */
  function Clamp(temp: int, minTemp: Option<int>, maxTemp: Option<int>): (t: int)
    ensures IsSet(minTemp) ==> t >= minTemp.value
    ensures IsSet(maxTemp) && (!IsSet(minTemp) || minTemp.value <= maxTemp.value) ==> t <= maxTemp.value
    ensures (!IsSet(minTemp) || minTemp.value <= temp) && (!IsSet(maxTemp) || temp <= maxTemp.value) ==> t == temp
    ensures t == temp || (IsSet(minTemp) && t == minTemp.value) || (IsSet(maxTemp) && t == maxTemp.value)
    ensures IsSet(maxTemp) && temp > maxTemp.value && (!IsSet(minTemp) || minTemp.value <= maxTemp.value) ==> t == maxTemp.value
    ensures IsSet(minTemp) && temp < minTemp.value ==> t == minTemp.value
  {
    var t := if IsSet(maxTemp) && maxTemp.value < temp then maxTemp.value else temp;
    if IsSet(minTemp) && t < minTemp.value then minTemp.value else t
  }

  /** Clamping twice changes nothing more; crossed limits give the
      minimum. */
  lemma ClampSettles(temp: int, minTemp: Option<int>, maxTemp: Option<int>)
    ensures Clamp(Clamp(temp, minTemp, maxTemp), minTemp, maxTemp) == Clamp(temp, minTemp, maxTemp)
    ensures IsSet(minTemp) && IsSet(maxTemp) && minTemp.value > maxTemp.value ==> Clamp(temp, minTemp, maxTemp) == minTemp.value
  {
  }

  // ---- bytes.hex() and the psw parameter ----

  /** `bytes.hex()`: two lower-case hex digits per byte. */
  function Hex(b: seq<Byte>): (s: string)
    ensures |s| == 2 * |b|
  {
    if b == [] then []
    else
      var last := b[|b| - 1];
      Hex(b[..|b| - 1]) + [GrillTemplates.DigitChar(last / 16), GrillTemplates.DigitChar(last % 16)]
  }

  /** The hex text is the one the grill templates' formatHex writes, so
      parseHexMessage reads the bytes back. */
  lemma {:induction false} HexIsFormatHex(b: seq<Byte>)
    ensures Hex(b) == GrillTemplates.HexOf(b)
    decreases |b|
  {
    if b != [] {
      var last := b[|b| - 1];
      HexIsFormatHex(b[..|b| - 1]);
      GrillTemplates.FormatHexDigits(last);
      GrillTemplates.SmallMod(last / 16, 16);
    }
  }

  /** `encode(password, key=timed_key(uptime)).hex()`. */
  function Psw(password: seq<Byte>, pad: seq<Byte>, uptime: real): string
    requires ValidPadding(pad)
  {
    Hex(EncodeSpec(password, pad, TimedKeyFrom(Bucket(uptime), KEY)))
  }

  function Numbers(b: seq<Byte>): seq<GrillTemplates.JsNum> {
    seq(|b|, k requires 0 <= k < |b| => GrillTemplates.Num(b[k]))
  }

  /** The psw parameter carries the password: its hex digits parse back to
      the encoded bytes, which decode to the password under the key of any
      uptime in the same 10-second bucket. */
  lemma PswCarriesPassword(password: seq<Byte>, pad: seq<Byte>, u1: real, u2: real)
    requires ValidPadding(pad) && Bucket(u1) == Bucket(u2)
    ensures var encoded := EncodeSpec(password, pad, TimedKeyFrom(Bucket(u1), KEY));
      GrillTemplates.ParsedHex(Psw(password, pad, u1)) == Numbers(encoded) &&
      DecodeSpec(encoded, TimedKeyFrom(Bucket(u2), KEY)) == password
  {
    var encoded := EncodeSpec(password, pad, TimedKeyFrom(Bucket(u1), KEY));
    HexIsFormatHex(encoded);
    GrillTemplates.HexRoundTrip(encoded);
    PasswordCheck(password, pad, u1, u2);
  }

  // ---- the world a PitBoss talks to ----

  /** The uptime cache: the last uptime (null before the first) and the
      clock reading when it was fetched. */
  datatype Clock = Clock(lastUptime: Json, lastCheck: Option<int>)

  /** The cache together with the transport's log and script. */
  datatype Io = Io(clock: Clock, calls: seq<Call>, script: seq<Result<Json>>)

  /** A value (or exception) and the world after producing it. */
  datatype Step<T> = Step(value: Result<T>, io: Io)

  /** An awaited request. */
  function Send(io: Io, name: string, params: Object): Step<Json> {
    Step(Next(io.script), Io(io.clock, io.calls + [Call(name, params, true)], Rest(io.script)))
  }

  /** The cache is refreshed when it was never filled (or filled at time
      0) or is more than 5 seconds old. */
  predicate Stale(lastCheck: Option<int>, now: int) {
    lastCheck.None? || lastCheck.value == 0 || now - lastCheck.value > 5
  }

  /** `result.get("time", 0.0)` on the PB.GetTime reply. */
  function TimeOf(reply: Json): Result<Json> {
    match reply
    case JObj(m) => Ok(Get(m, "time", JFloat(0.0)))
    case _ => Raise(AttributeError)
  }

  /** `assert self._last_uptime is not None`, then the value. */
  function Cached(uptime: Json): Result<Json> {
    if uptime == JNull then Raise(AssertionError) else Ok(uptime)
  }

  /** `get_uptime()` at clock reading `now`. */
  function UptimeFrom(io: Io, now: int): Step<Json> {
    if !Stale(io.clock.lastCheck, now) then Step(Cached(io.clock.lastUptime), io)
    else
      var s := Send(io, "PB.GetTime", map[]);
      match s.value
      case Raise(e) => Step(Raise(e), s.io)
      case Ok(reply) =>
        match TimeOf(reply)
        case Raise(e) => Step(Raise(e), s.io)
        case Ok(t) => Step(Cached(t), Io(Clock(t, Some(now)), s.io.calls, s.io.script))
  }

  /** A fresh cache answers without a request. */
  lemma UptimeCached(io: Io, now: int)
    requires io.clock.lastCheck.Some? && io.clock.lastCheck.value != 0 && now - io.clock.lastCheck.value <= 5
    ensures UptimeFrom(io, now) == Step(Cached(io.clock.lastUptime), io)
  {
  }

  /** After a successful fetch, asking again up to 5 seconds later makes
      no request and gives the same uptime. */
  lemma UptimeReused(io: Io, now: int, later: int)
    requires Stale(io.clock.lastCheck, now) && now != 0 && later <= now + 5
    requires UptimeFrom(io, now).value.Ok?
    ensures var first := UptimeFrom(io, now);
      UptimeFrom(first.io, later) == Step(first.value, first.io)
  {
  }

  /** `timed_key(uptime)` accepts numbers only (a bool counts as 0 or 1). */
  function Seconds(uptime: Json): Result<real> {
    match uptime
    case JInt(i) => Ok(i as real)
    case JFloat(r) => Ok(r)
    case JBool(b) => Ok(if b then 1.0 else 0.0)
    case _ => Raise(TypeError)
  }

  /** `_authenticate(params)`: with a password set, the uptime is fetched
      and `psw` added; without one, nothing happens. */
  function AuthFrom(password: seq<Byte>, io: Io, now: int, pad: seq<Byte>, params: Object): Step<Object>
    requires ValidPadding(pad)
  {
    if password == [] then Step(Ok(params), io)
    else
      var u := UptimeFrom(io, now);
      match u.value
      case Raise(e) => Step(Raise(e), u.io)
      case Ok(t) =>
        match Seconds(t)
        case Raise(e) => Step(Raise(e), u.io)
        case Ok(secs) => Step(Ok(params["psw" := JStr(Psw(password, pad, secs))]), u.io)
  }

  /** A psw parameter is added exactly when a password is set, and the
      other parameters are passed on untouched; without a password no
      request is made. */
  lemma AuthAddsPsw(password: seq<Byte>, io: Io, now: int, pad: seq<Byte>, params: Object)
    requires ValidPadding(pad) && "psw" !in params
    ensures var a := AuthFrom(password, io, now, pad, params);
      (password == [] ==> a == Step(Ok(params), io)) &&
      (a.value.Ok? ==> ("psw" in a.value.value <==> password != []) && a.value.value - {"psw"} == params)
  {
    var u := UptimeFrom(io, now);
    if password != [] && u.value.Ok? && Seconds(u.value.value).Ok? {
      var v := JStr(Psw(password, pad, Seconds(u.value.value).value));
      assert AuthFrom(password, io, now, pad, params).value == Ok(params["psw" := v]);
      AddedKey(params, "psw", v);
    }
  }

  /** Adding a new key and taking it away again gives back the dict. */
  lemma AddedKey(params: Object, key: string, v: Json)
    requires key !in params
    ensures key in params[key := v] && params[key := v] - {key} == params
  {
    assert (params[key := v] - {key}).Keys == params.Keys;
  }

  /** `_send_hex_command(cmd)`. */
  function SendHex(password: seq<Byte>, io: Io, now: int, pad: seq<Byte>, hex: Json): Step<Json>
    requires ValidPadding(pad)
  {
    var a := AuthFrom(password, io, now, pad, map["command" := hex]);
    match a.value
    case Raise(e) => Step(Raise(e), a.io)
    case Ok(params) => Send(a.io, "PB.SendMCUCommand", params)
  }

  /** `_send_command(slug, *args)`: the board's command by slug, then its
      hex string sent. */
  function SendSlug(spec: Grills.Grill, eval: Grills.JsEval, password: seq<Byte>, io: Io, now: int, pad: seq<Byte>,
                    slug: string, args: seq<Json>): Step<Json>
    requires ValidPadding(pad)
  {
    if JStr(slug) !in spec.controlBoard.commands then Step(Raise(KeyError), io)
    else
      match Grills.Call(spec.controlBoard.commands[JStr(slug)], args, eval)
      case Raise(e) => Step(Raise(e), io)
      case Ok(hex) => SendHex(password, io, now, pad, hex)
  }

  /** The last request of a successful command is PB.SendMCUCommand with
      the command's hex string. */
  lemma SlugSendsItsHex(spec: Grills.Grill, eval: Grills.JsEval, password: seq<Byte>, io: Io, now: int,
                        pad: seq<Byte>, slug: string, args: seq<Json>)
    requires ValidPadding(pad)
    requires SendSlug(spec, eval, password, io, now, pad, slug, args).value.Ok?
    ensures var s := SendSlug(spec, eval, password, io, now, pad, slug, args);
      JStr(slug) in spec.controlBoard.commands &&
      var hex := Grills.Call(spec.controlBoard.commands[JStr(slug)], args, eval);
      hex.Ok? && |s.io.calls| > |io.calls| &&
      s.io.calls[|s.io.calls| - 1].name == "PB.SendMCUCommand" &&
      "command" in s.io.calls[|s.io.calls| - 1].params &&
      s.io.calls[|s.io.calls| - 1].params["command"] == hex.value
  {
    var cmd := spec.controlBoard.commands[JStr(slug)];
    var hex := Grills.Call(cmd, args, eval).value;
    var a := AuthFrom(password, io, now, pad, map["command" := hex]);
    AuthAddsPsw(password, io, now, pad, map["command" := hex]);
    assert a.value.value - {"psw"} == map["command" := hex];
    assert "command" in a.value.value - {"psw"};
  }

  /** `set_grill_temperature(temp)`. */
  function SetTemperatureFrom(spec: Grills.Grill, eval: Grills.JsEval, password: seq<Byte>, io: Io, now: int,
                              pad: seq<Byte>, temp: int): Step<Json>
    requires ValidPadding(pad)
  {
    SendSlug(spec, eval, password, io, now, pad, "set-temperature", [JInt(Clamp(temp, spec.minTemp, spec.maxTemp))])
  }

  /** `turn_light_on()` and `turn_light_off()`: a grill without lights gets
      an empty dict and no request. */
  function LightFrom(spec: Grills.Grill, eval: Grills.JsEval, password: seq<Byte>, io: Io, now: int,
                     pad: seq<Byte>, on: bool): (s: Step<Json>)
    requires ValidPadding(pad)
    ensures !spec.hasLights ==> s == Step(Ok(JObj(map[])), io)
    ensures spec.hasLights ==> s == SendSlug(spec, eval, password, io, now, pad, if on then "turn-light-on" else "turn-light-off", [])
  {
    if !spec.hasLights then Step(Ok(JObj(map[])), io)
    else SendSlug(spec, eval, password, io, now, pad, if on then "turn-light-on" else "turn-light-off", [])
  }

  // ---- state ----

  /** `d.update(new)` for a parser's result: falsy adds nothing, a dict is
      merged over d, a list is read as a sequence of key/value pairs, a
      string fails on its first one-character element, and a number or
      `True` is not iterable. */
  function Merge(d: Object, update: Json): (r: Result<Object>)
    ensures update.JObj? && update.fields != map[] ==> r == Ok(d + update.fields)
    ensures !Truthy(update) ==> r == Ok(d)
    ensures update.JArr? ==> r == MergePairs(d, update.items)
    ensures Truthy(update) && update.JStr? ==> r == Raise(ValueError)
    ensures Truthy(update) && (update.JBool? || update.JInt? || update.JFloat?) ==> r == Raise(TypeError)
  {
    if !Truthy(update) then Ok(d)
    else match update
      case JObj(fields) => Ok(d + fields)
      case JArr(items) => MergePairs(d, items)
      case JStr(_) => Raise(ValueError)
      case _ => Raise(TypeError)
  }

  /** One element of the sequence `dict.update` reads: it must be an
      iterable of exactly two items (ValueError otherwise), the first a
      key. A two-character string is the key of its first character with
      its second as value. Not iterable gives TypeError. */
  function AsPair(e: Json): (r: Result<(string, Json)>)
    ensures r.Ok? <==> (e.JArr? && |e.items| == 2 && e.items[0].JStr?) || (e.JStr? && |e.s| == 2)
    ensures r.Ok? && e.JArr? ==> r.value == (e.items[0].s, e.items[1])
    ensures r.Ok? && e.JStr? ==> r.value == ([e.s[0]], JStr([e.s[1]]))
    ensures (e.JArr? && |e.items| != 2) || (e.JStr? && |e.s| != 2) || (e.JObj? && |e.fields| != 2) ==>
      r == Raise(ValueError)
    ensures e.JNull? || e.JBool? || e.JInt? || e.JFloat? ==> r == Raise(TypeError)
  {
    match e
    case JArr(items) =>
      if |items| != 2 then Raise(ValueError)
      else if items[0].JStr? then Ok((items[0].s, items[1]))
      else Raise(TypeError)
    case JStr(s) => if |s| != 2 then Raise(ValueError) else Ok(([s[0]], JStr([s[1]])))
    case JObj(fields) => if |fields| != 2 then Raise(ValueError) else Raise(TypeError)
    case _ => Raise(TypeError)
  }

  /** `dict.update` over a sequence of pairs: each pair in turn, a later
      one overriding an earlier; the first bad element raises. */
  function MergePairs(d: Object, items: seq<Json>): (r: Result<Object>)
    ensures r.Ok? <==> forall j :: 0 <= j < |items| ==> AsPair(items[j]).Ok?
    ensures r.Ok? ==> d.Keys <= r.value.Keys
    decreases |items|
  {
    if items == [] then Ok(d)
    else
      var p :- AsPair(items[0]);
      var r := MergePairs(d[p.0 := p.1], items[1..]);
      assert forall j :: 1 <= j < |items| ==> items[j] == items[1..][j - 1];
      r
  }

  /** The first bad element decides the error. */
  lemma {:induction false} MergePairsFirstError(d: Object, items: seq<Json>, i: nat)
    requires i < |items| && AsPair(items[i]).Raise?
    requires forall j :: 0 <= j < i ==> AsPair(items[j]).Ok?
    ensures MergePairs(d, items) == Raise(AsPair(items[i]).error)
    decreases i
  {
    if i > 0 {
      var p := AsPair(items[0]).value;
      assert forall j :: 0 <= j < i - 1 ==> items[1..][j] == items[j + 1];
      MergePairsFirstError(d[p.0 := p.1], items[1..], i - 1);
    }
  }

  /** A key takes the value of the last pair that names it. */
  lemma {:induction false} MergePairsLastWins(d: Object, items: seq<Json>, i: nat)
    requires forall j :: 0 <= j < |items| ==> AsPair(items[j]).Ok?
    requires i < |items|
    requires forall j :: i < j < |items| ==> AsPair(items[j]).value.0 != AsPair(items[i]).value.0
    ensures MergePairs(d, items).Ok? && AsPair(items[i]).value.0 in MergePairs(d, items).value
    ensures MergePairs(d, items).value[AsPair(items[i]).value.0] == AsPair(items[i]).value.1
    decreases i
  {
    var p := AsPair(items[0]).value;
    assert forall j :: 0 <= j < |items| - 1 ==> items[1..][j] == items[j + 1];
    if i == 0 {
      MergePairsUntouched(d[p.0 := p.1], items[1..], p.0);
    } else {
      MergePairsLastWins(d[p.0 := p.1], items[1..], i - 1);
    }
  }

  /** A key no pair names keeps what d had, or stays absent. */
  lemma {:induction false} MergePairsUntouched(d: Object, items: seq<Json>, k: string)
    requires forall j :: 0 <= j < |items| ==> AsPair(items[j]).Ok?
    requires forall j :: 0 <= j < |items| ==> AsPair(items[j]).value.0 != k
    ensures MergePairs(d, items).Ok?
    ensures k in MergePairs(d, items).value <==> k in d
    ensures k in d ==> MergePairs(d, items).value[k] == d[k]
    decreases |items|
  {
    if items != [] {
      var p := AsPair(items[0]).value;
      assert forall j :: 0 <= j < |items| - 1 ==> items[1..][j] == items[j + 1];
      MergePairsUntouched(d[p.0 := p.1], items[1..], k);
    }
  }

  /** The state `_on_state_received` builds from the two payloads: the
      parsed status, then the parsed temperatures over it; an empty
      payload is not parsed. */
  function Incoming(cb: Grills.ControlBoard, status: Json, temps: Json, eval: Grills.JsEval): Result<Object> {
    var fromStatus :- if Truthy(status) then Grills.ParseStatus(cb, status, eval) else Ok(JNull);
    var s :- Merge(map[], fromStatus);
    var fromTemps :- if Truthy(temps) then Grills.ParseTemperatures(cb, temps, eval) else Ok(JNull);
    Merge(s, fromTemps)
  }

  /** With two dicts parsed, a field takes its temperature value if the
      temperature parser gives it, its status value otherwise, and no
      field comes from anywhere else. */
  lemma IncomingMerges(cb: Grills.ControlBoard, status: Json, temps: Json, eval: Grills.JsEval,
                       st: Object, tt: Object, key: string)
    requires Truthy(status) && Truthy(temps)
    requires Grills.ParseStatus(cb, status, eval) == Ok(JObj(st))
    requires Grills.ParseTemperatures(cb, temps, eval) == Ok(JObj(tt))
    ensures Incoming(cb, status, temps, eval).Ok? &&
      var r := Incoming(cb, status, temps, eval).value;
      (key in r <==> key in st || key in tt) &&
      (key in tt ==> r[key] == tt[key]) &&
      (key in st && key !in tt ==> r[key] == st[key])
  {
  }

  /** Empty payloads give an empty state, which is ignored. */
  lemma IncomingEmpty(cb: Grills.ControlBoard, eval: Grills.JsEval)
    ensures Incoming(cb, JNull, JStr(""), eval) == Ok(map[])
  {
  }

  /** The state of `get_state()`: `parse_status(resp["sc_11"]) or {}`,
      updated with `parse_temperatures(resp["sc_12"]) or {}`. */
  function StateOf(cb: Grills.ControlBoard, resp: Json, eval: Grills.JsEval): Result<Object> {
    var sc11 :- Item(resp, "sc_11");
    var fromStatus :- Grills.ParseStatus(cb, sc11, eval);
    var s: Object :- if !Truthy(fromStatus) then Ok(map[])
      else if fromStatus.JObj? then Ok(fromStatus.fields) else Raise(AttributeError);
    var sc12 :- Item(resp, "sc_12");
    var fromTemps :- Grills.ParseTemperatures(cb, sc12, eval);
    Merge(s, fromTemps)
  }

  /** A board without a status parser cannot report state. */
  lemma StateNeedsStatusParser(cb: Grills.ControlBoard, resp: Object, eval: Grills.JsEval)
    requires !Truthy(cb.statusJs) && "sc_11" in resp
    ensures StateOf(cb, JObj(resp), eval) == Raise(NotImplemented)
  {
  }

  /** `get_state()`. */
  function GetStateFrom(spec: Grills.Grill, eval: Grills.JsEval, password: seq<Byte>, io: Io, now: int,
                        pad: seq<Byte>): Step<Object>
    requires ValidPadding(pad)
  {
    var a := AuthFrom(password, io, now, pad, map[]);
    match a.value
    case Raise(e) => Step(Raise(e), a.io)
    case Ok(params) =>
      var s := Send(a.io, "PB.GetState", params);
      match s.value
      case Raise(e) => Step(Raise(e), s.io)
      case Ok(resp) => Step(StateOf(spec.controlBoard, resp, eval), s.io)
  }

  /** `set_grill_password(new)`: the new password encoded with the fixed
      KEY, authenticated with the current one. */
  function SetPasswordFrom(password: seq<Byte>, io: Io, now: int, pad: seq<Byte>, authPad: seq<Byte>,
                           newPassword: seq<Byte>): Step<Json>
    requires ValidPadding(pad) && ValidPadding(authPad)
  {
    var params := map["newPassword" := JStr(Hex(EncodeSpec(newPassword, pad, KEY)))];
    var a := AuthFrom(password, io, now, authPad, params);
    match a.value
    case Raise(e) => Step(Raise(e), a.io)
    case Ok(p) => Send(a.io, "PB.SetDevicePassword", p)
  }

  /** Who hears of an update. */
  datatype Notice = StateNotice(callback: CallbackId, state: Object) | VDataNotice(callback: CallbackId, data: Json)

  function StateNotices(callbacks: seq<CallbackId>, state: Object): (r: seq<Notice>)
    ensures |r| == |callbacks|
    ensures forall k :: 0 <= k < |callbacks| ==> r[k] == StateNotice(callbacks[k], state)
  {
    if callbacks == [] then [] else [StateNotice(callbacks[0], state)] + StateNotices(callbacks[1..], state)
  }

  function VDataNotices(callbacks: seq<CallbackId>, data: Json): (r: seq<Notice>)
    ensures |r| == |callbacks|
    ensures forall k :: 0 <= k < |callbacks| ==> r[k] == VDataNotice(callbacks[k], data)
  {
    if callbacks == [] then [] else [VDataNotice(callbacks[0], data)] + VDataNotices(callbacks[1..], data)
  }

  class PitBoss {
    const conn: Conn
    const spec: Grills.Grill
    const eval: Grills.JsEval
    var password: seq<Byte>
    var stateCallbacks: seq<CallbackId>
    var vdataCallbacks: seq<CallbackId>
    var state: Object
    var lastUptime: Json
    var lastUptimeCheck: Option<int>
    /** The callback invocations so far, in order. */
    var notices: seq<Notice>

    function World(): Io
      reads this, conn
    {
      Io(Clock(lastUptime, lastUptimeCheck), conn.calls, conn.script)
    }

    /** Everything but the uptime cache and the transport. */
    function Subscribers(): (seq<Byte>, seq<CallbackId>, seq<CallbackId>, Object, seq<Notice>)
      reads this
    {
      (password, stateCallbacks, vdataCallbacks, state, notices)
    }

    constructor (conn: Conn, spec: Grills.Grill, eval: Grills.JsEval, password: seq<Byte>)
      ensures this.conn == conn && this.spec == spec && this.eval == eval && this.password == password
      ensures stateCallbacks == [] && vdataCallbacks == [] && state == map[] && notices == []
      ensures lastUptime == JNull && lastUptimeCheck == None
    {
      this.conn := conn;
      this.spec := spec;
      this.eval := eval;
      this.password := password;
      stateCallbacks := [];
      vdataCallbacks := [];
      state := map[];
      lastUptime := JNull;
      lastUptimeCheck := None;
      notices := [];
    }

    method SubscribeState(callback: CallbackId)
      modifies this
      ensures stateCallbacks == old(stateCallbacks) + [callback]
      ensures vdataCallbacks == old(vdataCallbacks) && state == old(state) && notices == old(notices)
      ensures password == old(password) && lastUptime == old(lastUptime) && lastUptimeCheck == old(lastUptimeCheck)
    {
      stateCallbacks := stateCallbacks + [callback];
    }

    method SubscribeVData(callback: CallbackId)
      modifies this
      ensures vdataCallbacks == old(vdataCallbacks) + [callback]
      ensures stateCallbacks == old(stateCallbacks) && state == old(state) && notices == old(notices)
      ensures password == old(password) && lastUptime == old(lastUptime) && lastUptimeCheck == old(lastUptimeCheck)
    {
      vdataCallbacks := vdataCallbacks + [callback];
    }

    /** `_on_state_received(status, temperatures)`: a non-empty update is
        merged into the state and every state subscriber, in order, is
        handed the merged state; an empty one changes nothing. */
    method OnStateReceived(status: Json, temps: Json) returns (r: Result<()>)
      modifies this
      ensures var inc := Incoming(spec.controlBoard, status, temps, eval);
        (inc.Raise? ==> r == Raise(inc.error)) && (inc.Ok? ==> r == Ok(())) &&
        if inc.Ok? && inc.value != map[] then
          state == old(state) + inc.value && notices == old(notices) + StateNotices(stateCallbacks, state)
        else
          state == old(state) && notices == old(notices)
      ensures stateCallbacks == old(stateCallbacks) && vdataCallbacks == old(vdataCallbacks) && password == old(password)
      ensures lastUptime == old(lastUptime) && lastUptimeCheck == old(lastUptimeCheck)
    {
      var inc := Incoming(spec.controlBoard, status, temps, eval);
      if inc.Raise? {
        return Raise(inc.error);
      }
      r := Ok(());
      if inc.value == map[] {
        return;
      }
      state := state + inc.value;
      var log := notices;
      var i := 0;
      while i < |stateCallbacks|
        invariant i <= |stateCallbacks|
        invariant log == old(notices) + StateNotices(stateCallbacks[..i], state)
        modifies {}
      {
        NoticesSnoc(stateCallbacks, i, state);
        log := log + [StateNotice(stateCallbacks[i], state)];
        i := i + 1;
      }
      assert stateCallbacks[..i] == stateCallbacks;
      notices := log;
    }

    /** `_on_vdata_received(payload)`: the decoded payload to every vdata
        subscriber, in order. */
    method OnVDataReceived(payload: string, loads: string -> Result<Json>) returns (r: Result<()>)
      modifies this
      ensures loads(payload).Raise? ==> r == Raise(loads(payload).error) && notices == old(notices)
      ensures loads(payload).Ok? ==> r == Ok(()) && notices == old(notices) + VDataNotices(vdataCallbacks, loads(payload).value)
      ensures stateCallbacks == old(stateCallbacks) && vdataCallbacks == old(vdataCallbacks) && password == old(password)
      ensures state == old(state) && lastUptime == old(lastUptime) && lastUptimeCheck == old(lastUptimeCheck)
    {
      var vdata := loads(payload);
      if vdata.Raise? {
        return Raise(vdata.error);
      }
      var log := notices;
      var i := 0;
      while i < |vdataCallbacks|
        invariant i <= |vdataCallbacks|
        invariant log == old(notices) + VDataNotices(vdataCallbacks[..i], vdata.value)
        modifies {}
      {
        VDataNoticesSnoc(vdataCallbacks, i, vdata.value);
        log := log + [VDataNotice(vdataCallbacks[i], vdata.value)];
        i := i + 1;
      }
      assert vdataCallbacks[..i] == vdataCallbacks;
      notices := log;
      r := Ok(());
    }

    /** `get_uptime()` at clock reading `now`. */
    method GetUptime(now: int) returns (r: Result<Json>)
      modifies this, conn
      ensures Step(r, World()) == UptimeFrom(old(World()), now)
      ensures Subscribers() == old(Subscribers())
    {
      if Stale(lastUptimeCheck, now) {
        var result := conn.SendCommand("PB.GetTime", map[]);
        if result.Raise? {
          return Raise(result.error);
        }
        var t := TimeOf(result.value);
        if t.Raise? {
          return Raise(t.error);
        }
        lastUptime := t.value;
        lastUptimeCheck := Some(now);
      }
      r := Cached(lastUptime);
    }

    /** `_authenticate(params)`. */
    method Authenticate(params: Object, now: int, pad: seq<Byte>) returns (r: Result<Object>)
      requires ValidPadding(pad)
      modifies this, conn
      ensures Step(r, World()) == AuthFrom(password, old(World()), now, pad, params)
      ensures Subscribers() == old(Subscribers())
    {
      if password == [] {
        return Ok(params);
      }
      var uptime := GetUptime(now);
      if uptime.Raise? {
        return Raise(uptime.error);
      }
      var secs := Seconds(uptime.value);
      if secs.Raise? {
        return Raise(secs.error);
      }
      var key := TimedKey(secs.value);
      var encoded := Encode(password, pad, key);
      r := Ok(params["psw" := JStr(Hex(encoded))]);
    }

    /** `_send_hex_command(cmd)`. */
    method SendHexCommand(hex: Json, now: int, pad: seq<Byte>) returns (r: Result<Json>)
      requires ValidPadding(pad)
      modifies this, conn
      ensures Step(r, World()) == SendHex(password, old(World()), now, pad, hex)
      ensures Subscribers() == old(Subscribers())
    {
      var params := Authenticate(map["command" := hex], now, pad);
      if params.Raise? {
        return Raise(params.error);
      }
      r := conn.SendCommand("PB.SendMCUCommand", params.value);
    }

    /** `_send_command(slug, *args)`. */
    method SendCommand(slug: string, args: seq<Json>, now: int, pad: seq<Byte>) returns (r: Result<Json>)
      requires ValidPadding(pad)
      modifies this, conn
      ensures Step(r, World()) == SendSlug(spec, eval, password, old(World()), now, pad, slug, args)
      ensures Subscribers() == old(Subscribers())
    {
      if JStr(slug) !in spec.controlBoard.commands {
        return Raise(KeyError);
      }
      var hex := Grills.Call(spec.controlBoard.commands[JStr(slug)], args, eval);
      if hex.Raise? {
        return Raise(hex.error);
      }
      r := SendHexCommand(hex.value, now, pad);
    }

    /** `set_grill_temperature(temp)`. */
    method SetGrillTemperature(temp: int, now: int, pad: seq<Byte>) returns (r: Result<Json>)
      requires ValidPadding(pad)
      modifies this, conn
      ensures Step(r, World()) == SetTemperatureFrom(spec, eval, password, old(World()), now, pad, temp)
      ensures Subscribers() == old(Subscribers())
    {
      var t := temp;
      if IsSet(spec.maxTemp) {
        t := if t < spec.maxTemp.value then t else spec.maxTemp.value;
      }
      if IsSet(spec.minTemp) {
        t := if t > spec.minTemp.value then t else spec.minTemp.value;
      }
      r := SendCommand("set-temperature", [JInt(t)], now, pad);
    }

    /** `set_probe_2_temperature(temp)`: only on boards that have the
        command. */
    method SetProbe2Temperature(temp: int, now: int, pad: seq<Byte>) returns (r: Result<Json>)
      requires ValidPadding(pad)
      modifies this, conn
      ensures JStr("set-probe-2-temperature") !in spec.controlBoard.commands ==>
        r == Raise(UnsupportedOperation) && World() == old(World())
      ensures JStr("set-probe-2-temperature") in spec.controlBoard.commands ==>
        Step(r, World()) == SendSlug(spec, eval, password, old(World()), now, pad, "set-probe-2-temperature", [JInt(temp)])
      ensures Subscribers() == old(Subscribers())
    {
      if JStr("set-probe-2-temperature") !in spec.controlBoard.commands {
        return Raise(UnsupportedOperation);
      }
      r := SendCommand("set-probe-2-temperature", [JInt(temp)], now, pad);
    }

    /** `turn_light_on()` (`on`) and `turn_light_off()`. */
    method TurnLight(on: bool, now: int, pad: seq<Byte>) returns (r: Result<Json>)
      requires ValidPadding(pad)
      modifies this, conn
      ensures Step(r, World()) == LightFrom(spec, eval, password, old(World()), now, pad, on)
      ensures Subscribers() == old(Subscribers())
    {
      if !spec.hasLights {
        return Ok(JObj(map[]));
      }
      r := SendCommand(if on then "turn-light-on" else "turn-light-off", [], now, pad);
    }

    /** `get_state()`. */
    method GetState(now: int, pad: seq<Byte>) returns (r: Result<Object>)
      requires ValidPadding(pad)
      modifies this, conn
      ensures Step(r, World()) == GetStateFrom(spec, eval, password, old(World()), now, pad)
      ensures Subscribers() == old(Subscribers())
    {
      var params := Authenticate(map[], now, pad);
      if params.Raise? {
        return Raise(params.error);
      }
      var resp := conn.SendCommand("PB.GetState", params.value);
      if resp.Raise? {
        return Raise(resp.error);
      }
      r := StateOf(spec.controlBoard, resp.value, eval);
    }

    /** `set_grill_password(new)`: the stored password is replaced only
        once the grill has answered. */
    method SetGrillPassword(newPassword: seq<Byte>, now: int, pad: seq<Byte>, authPad: seq<Byte>) returns (r: Result<()>)
      requires ValidPadding(pad) && ValidPadding(authPad)
      modifies this, conn
      ensures var s := SetPasswordFrom(old(password), old(World()), now, pad, authPad, newPassword);
        World() == s.io &&
        (s.value.Ok? ==> r == Ok(()) && password == newPassword) &&
        (s.value.Raise? ==> r == Raise(s.value.error) && password == old(password))
      ensures stateCallbacks == old(stateCallbacks) && vdataCallbacks == old(vdataCallbacks)
      ensures state == old(state) && notices == old(notices)
    {
      var encoded := Encode(newPassword, pad, KEY);
      var params := Authenticate(map["newPassword" := JStr(Hex(encoded))], now, authPad);
      if params.Raise? {
        return Raise(params.error);
      }
      var answer := conn.SendCommand("PB.SetDevicePassword", params.value);
      if answer.Raise? {
        return Raise(answer.error);
      }
      password := newPassword;
      r := Ok(());
    }
  }

  lemma NoticesSnoc(callbacks: seq<CallbackId>, i: nat, state: Object)
    requires i < |callbacks|
    ensures StateNotices(callbacks[..i + 1], state) == StateNotices(callbacks[..i], state) + [StateNotice(callbacks[i], state)]
  {
  }

  lemma VDataNoticesSnoc(callbacks: seq<CallbackId>, i: nat, data: Json)
    requires i < |callbacks|
    ensures VDataNotices(callbacks[..i + 1], data) == VDataNotices(callbacks[..i], data) + [VDataNotice(callbacks[i], data)]
  {
  }
}
