// Mongoose OS configuration RPCs (pytboss/config.py).
module Config {
  import opened Json
  import opened Rpc

  /** A Python string argument that may be None; truthy when non-empty. */
  predicate Given(s: Option<string>) {
    s.Some? && s.value != ""
  }

  /** `_wifi_params(ssid, password)`: one station section, always enabled,
      with exactly the SSID and the password that are given. */
  function WifiParams(ssid: Option<string>, password: Option<string>): (p: Object)
    ensures p.Keys == {"config"} && Station(p).Some?
    ensures p["config"] == JObj(map["wifi" := JObj(map["sta" := JObj(Station(p).value)])])
    ensures Station(p).value.Keys ==
      {"enable"} + (if Given(ssid) then {"ssid"} else {}) + (if Given(password) then {"pass"} else {})
    ensures Station(p).value["enable"] == JBool(true)
    ensures Given(ssid) ==> Station(p).value["ssid"] == JStr(ssid.value)
    ensures Given(password) ==> Station(p).value["pass"] == JStr(password.value)
  {
    var sta := map["enable" := JBool(true)];
    var sta := if Given(ssid) then sta["ssid" := JStr(ssid.value)] else sta;
    var sta := if Given(password) then sta["pass" := JStr(password.value)] else sta;
    map["config" := JObj(map["wifi" := JObj(map["sta" := JObj(sta)])])]
  }

  /** The `config.wifi.sta` section of a Config.Set params object. */
  function Station(params: Object): Option<Object> {
    if "config" in params && params["config"].JObj? && "wifi" in params["config"].fields then
      var wifi := params["config"].fields["wifi"];
      if wifi.JObj? && "sta" in wifi.fields && wifi.fields["sta"].JObj? then Some(wifi.fields["sta"].fields)
      else None
    else None
  }

  /** Setting only the SSID sends no password, and setting only the
      password sends no SSID, so the device keeps the other. */
  lemma SingleFieldUpdates(ssid: string, password: string)
    ensures "pass" !in Station(WifiParams(Some(ssid), None)).value
    ensures "ssid" !in Station(WifiParams(None, Some(password))).value
  {
  }

  /** The params of `get_config(key)`: the key only when it is truthy. */
  function GetParams(key: Option<string>): (p: Object)
    ensures "key" in p <==> Given(key)
    ensures Given(key) ==> p == map["key" := JStr(key.value)]
    ensures !Given(key) ==> p == map[]
  {
    if Given(key) then map["key" := JStr(key.value)] else map[]
  }

  /** The request `save_config(reboot)` makes: with a reboot the device
      does not answer, so none is awaited. */
  function SaveCall(reboot: bool): (c: Call)
    ensures c.name == "Config.Save" && c.params == map["reboot" := JBool(reboot)]
    ensures c.awaited <==> !reboot
  {
    Call("Config.Save", map["reboot" := JBool(reboot)], !reboot)
  }

  class Config {
    const conn: Conn

    constructor (conn: Conn)
      ensures this.conn == conn
    {
      this.conn := conn;
    }

    method GetInfo() returns (r: Result<Json>)
      modifies conn
      ensures conn.calls == old(conn.calls) + [Call("Sys.GetInfo", map[], true)]
      ensures r == Next(old(conn.script)) && conn.script == Rest(old(conn.script))
    {
      r := conn.SendCommand("Sys.GetInfo", map[]);
    }

    method GetConfig(key: Option<string>) returns (r: Result<Json>)
      modifies conn
      ensures conn.calls == old(conn.calls) + [Call("Config.Get", GetParams(key), true)]
      ensures r == Next(old(conn.script)) && conn.script == Rest(old(conn.script))
    {
      var params := map[];
      if key.Some? && key.value != "" {
        params := params["key" := JStr(key.value)];
      }
      r := conn.SendCommand("Config.Get", params);
    }

    /** `save_config(reboot)`: nothing comes back when rebooting. */
    method SaveConfig(reboot: bool) returns (r: Option<Result<Json>>)
      modifies conn
      ensures conn.calls == old(conn.calls) + [SaveCall(reboot)]
      ensures reboot <==> r.None?
      ensures !reboot ==> r == Some(Next(old(conn.script))) && conn.script == Rest(old(conn.script))
      ensures reboot ==> conn.script == old(conn.script)
    {
      if reboot {
        conn.SendCommandWithoutAnswer("Config.Save", map["reboot" := JBool(reboot)]);
        r := None;
      } else {
        var answer := conn.SendCommand("Config.Save", map["reboot" := JBool(reboot)]);
        r := Some(answer);
      }
    }

    /** `set(**kwargs)`. */
    method Set(kwargs: Object) returns (r: Result<Json>)
      modifies conn
      ensures conn.calls == old(conn.calls) + [Call("Config.Set", map["config" := JObj(kwargs)], true)]
      ensures r == Next(old(conn.script)) && conn.script == Rest(old(conn.script))
    {
      r := conn.SendCommand("Config.Set", map["config" := JObj(kwargs)]);
    }

    method SetWifiCredentials(ssid: string, password: string) returns (r: Result<Json>)
      modifies conn
      ensures conn.calls == old(conn.calls) + [Call("Config.Set", WifiParams(Some(ssid), Some(password)), true)]
      ensures r == Next(old(conn.script)) && conn.script == Rest(old(conn.script))
    {
      r := conn.SendCommand("Config.Set", WifiParams(Some(ssid), Some(password)));
    }

    method SetWifiSsid(ssid: string) returns (r: Result<Json>)
      modifies conn
      ensures conn.calls == old(conn.calls) + [Call("Config.Set", WifiParams(Some(ssid), None), true)]
      ensures r == Next(old(conn.script)) && conn.script == Rest(old(conn.script))
    {
      r := conn.SendCommand("Config.Set", WifiParams(Some(ssid), None));
    }

    method SetWifiPassword(password: string) returns (r: Result<Json>)
      modifies conn
      ensures conn.calls == old(conn.calls) + [Call("Config.Set", WifiParams(None, Some(password)), true)]
      ensures r == Next(old(conn.script)) && conn.script == Rest(old(conn.script))
    {
      r := conn.SendCommand("Config.Set", WifiParams(None, Some(password)));
    }
  }
}
