// The two calls the façade modules make on a transport (Transport.Transport
// and its BLE and WebSocket variants), seen from outside: every request is
// logged, and the replies are a script given up front.
module Rpc {
  import opened Json

  /** One request: the RPC method name, its params, and whether a reply was
      awaited (`send_command`) or not (`send_command_without_answer`). */
  datatype Call = Call(name: string, params: Object, awaited: bool)

  /** The answer the next awaited call gets from a script of replies: the
      first one, or NoReply when none is left. */
  function Next(script: seq<Result<Json>>): Result<Json> {
    if script == [] then Raise(NoReply) else script[0]
  }

  /** The script after that call. */
  function Rest(script: seq<Result<Json>>): (r: seq<Result<Json>>)
    ensures script != [] ==> script == [script[0]] + r
    ensures script == [] ==> r == []
  {
    if script == [] then [] else script[1..]
  }

  class Conn {
    /** Every request made so far, oldest first. */
    var calls: seq<Call>
    /** The replies still to come, in order; a reply is a result or the
        exception (such as RPCError) the awaited call raises. */
    var script: seq<Result<Json>>

    constructor (script: seq<Result<Json>>)
      ensures calls == [] && this.script == script
    {
      calls := [];
      this.script := script;
    }

    /** `send_command(method, params)`: the next scripted reply; when the
        script is used up the call never returns, which is NoReply. */
    method SendCommand(name: string, params: Object) returns (r: Result<Json>)
      modifies this
      ensures calls == old(calls) + [Call(name, params, true)]
      ensures r == Next(old(script)) && script == Rest(old(script))
    {
      calls := calls + [Call(name, params, true)];
      r := Next(script);
      script := Rest(script);
    }

    /** `send_command_without_answer(method, params)`: sent, nothing
        awaited. */
    method SendCommandWithoutAnswer(name: string, params: Object)
      modifies this
      ensures calls == old(calls) + [Call(name, params, false)]
      ensures script == old(script)
    {
      calls := calls + [Call(name, params, false)];
    }
  }
}
