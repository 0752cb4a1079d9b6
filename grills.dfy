// Grill metadata (pytboss/grills.py): the dataclasses built from the
// bundled definitions table, the command dispatch between a fixed hex
// string and a JavaScript snippet, and the lookups over the table.
module Grills {
  import opened Json
  import opened GrillTemplates

  // ---- Python's int() on a string ----

  /** The white space `str.strip` (and so `int`) removes, in the Latin-1
      range. */
  predicate IsPySpace(c: char) {
    c as int in {0x09, 0x0A, 0x0B, 0x0C, 0x0D, 0x1C, 0x1D, 0x1E, 0x1F, 0x20, 0x85, 0xA0}
  }

  function StripStart(s: string): (t: string)
    ensures |t| <= |s|
  {
    if s != [] && IsPySpace(s[0]) then StripStart(s[1..]) else s
  }

  function StripEnd(s: string): (t: string)
    ensures |t| <= |s|
  {
    if s != [] && IsPySpace(s[|s| - 1]) then StripEnd(s[..|s| - 1]) else s
  }

  predicate IsDecimal(c: char) {
    '0' <= c <= '9'
  }

  /** Digits with single underscores between them, as `int` accepts. */
  predicate WellGrouped(s: string) {
    s != [] && IsDecimal(s[0]) && IsDecimal(s[|s| - 1]) &&
    (forall k :: 0 <= k < |s| ==> IsDecimal(s[k]) || s[k] == '_') &&
    (forall k :: 0 <= k < |s| - 1 ==> !(s[k] == '_' && s[k + 1] == '_'))
  }

  function DropUnderscores(s: string): (t: string)
    ensures |t| <= |s|
    ensures (forall k :: 0 <= k < |s| ==> IsDecimal(s[k]) || s[k] == '_') ==> AllDigits(t, 10)
  {
    if s == [] then []
    else if s[0] == '_' then DropUnderscores(s[1..])
    else [s[0]] + DropUnderscores(s[1..])
  }

  /** `s.strip()`. */
  function Stripped(s: string): string {
    StripEnd(StripStart(s))
  }

  /** A decimal numeral with no sign: its value, if it is well grouped. */
  function Unsigned(body: string): Option<nat> {
    if !WellGrouped(body) then None else Some(DigitsValue(DropUnderscores(body), 10))
  }

  /** An optional sign and a decimal numeral, nothing around them. */
  function SignedNumeral(t: string): Option<int> {
    var neg := t != [] && t[0] == '-';
    var body := if t != [] && (t[0] == '-' || t[0] == '+') then t[1..] else t;
    match Unsigned(body)
    case None => None
    case Some(v) => Some(if neg then -(v as int) else v)
  }

  /** `int(s)` for a string: surrounding white space, an optional sign and
      a decimal numeral; None where Python raises ValueError. */
  function PyIntOfString(s: string): Option<int> {
    SignedNumeral(Stripped(s))
  }

  /** `int(x)` for a decoded JSON value: a string is parsed, a float is
      truncated toward zero, a bool is 0 or 1; null, lists and dicts raise
      TypeError. */
  function PyInt(j: Json): Result<int> {
    match j
    case JInt(i) => Ok(i)
    case JBool(b) => Ok(if b then 1 else 0)
    case JFloat(r) => Ok(if r >= 0.0 then r.Floor else -((-r).Floor))
    case JStr(s) => if PyIntOfString(s).Some? then Ok(PyIntOfString(s).value) else Raise(ValueError)
    case _ => Raise(TypeError)
  }

  /** The decimal numeral of a natural number reads back as that number. */
  lemma {:induction false} DecimalValue(n: nat)
    ensures AllDigits(ToBase(n, 10), 10)
    ensures DigitsValue(ToBase(n, 10), 10) == n
    decreases n
  {
    var s := ToBase(n, 10);
    if n < 10 {
      DigitCharValue(n, 10);
      assert s[..0] == [];
    } else {
      DecimalValue(n / 10);
      DigitCharValue(n % 10, 10);
      assert s[..|s| - 1] == ToBase(n / 10, 10);
    }
  }

  lemma {:induction false} DecimalHasNoUnderscore(n: nat)
    ensures forall k :: 0 <= k < |ToBase(n, 10)| ==> IsDecimal(ToBase(n, 10)[k])
    ensures DropUnderscores(ToBase(n, 10)) == ToBase(n, 10)
    decreases n
  {
    var s := ToBase(n, 10);
    if n >= 10 {
      DecimalHasNoUnderscore(n / 10);
    }
    NoUnderscore(s);
  }

  lemma {:induction false} NoUnderscore(s: string)
    requires forall k :: 0 <= k < |s| ==> IsDecimal(s[k])
    ensures DropUnderscores(s) == s
    decreases |s|
  {
    if s != [] {
      NoUnderscore(s[1..]);
      assert s == [s[0]] + s[1..];
    }
  }

  /** A string that starts and ends with a digit has nothing to strip. */
  lemma NothingToStrip(s: string)
    requires s != [] && !IsPySpace(s[0]) && !IsPySpace(s[|s| - 1])
    ensures Stripped(s) == s
  {
    assert StripStart(s) == s;
  }

  /** A numeral is its own unsigned, well-grouped body. */
  lemma DecimalIsBare(n: nat)
    ensures var s := ToBase(n, 10);
      s[0] != '-' && s[0] != '+' && WellGrouped(s) && Stripped(s) == s
  {
    var s := ToBase(n, 10);
    DecimalHasNoUnderscore(n);
    assert IsDecimal(s[0]) && IsDecimal(s[|s| - 1]);
    NothingToStrip(s);
  }

  /** `int(str(n)) == n` for every natural number. */
  lemma PyIntOfDecimal(n: nat)
    ensures PyIntOfString(ToBase(n, 10)) == Some(n)
  {
    var s := ToBase(n, 10);
    DecimalFacts(n);
    DecimalIsBare(n);
    assert SignedNumeral(s) == Some(n);
  }

  /** A numeral is well grouped and its digits are worth n. */
  lemma DecimalFacts(n: nat)
    ensures WellGrouped(ToBase(n, 10))
    ensures DigitsValue(DropUnderscores(ToBase(n, 10)), 10) == n
  {
    DecimalValue(n);
    DecimalHasNoUnderscore(n);
    DecimalIsBare(n);
  }

  /** A minus sign before a well-grouped numeral negates its value. */
  lemma PyIntOfMinus(s: string, v: nat)
    requires WellGrouped(s) && DigitsValue(DropUnderscores(s), 10) == v
    ensures PyIntOfString("-" + s) == Some(-(v as int))
  {
    MinusNothingToStrip(s);
    SignedMinus(s, v);
  }

  lemma SignedMinus(s: string, v: nat)
    requires Unsigned(s) == Some(v)
    ensures SignedNumeral("-" + s) == Some(-(v as int))
  {
    var t := "-" + s;
    assert t[0] == '-' && t[1..] == s;
  }

  lemma MinusNothingToStrip(s: string)
    requires s != [] && IsDecimal(s[|s| - 1])
    ensures Stripped("-" + s) == "-" + s
  {
    var t := "-" + s;
    assert t[|t| - 1] == s[|s| - 1];
    NothingToStrip(t);
  }

  /** `int("-" + str(n)) == -n`. */
  lemma PyIntOfNegative(n: nat)
    ensures PyIntOfString("-" + ToBase(n, 10)) == Some(-(n as int))
  {
    DecimalFacts(n);
    PyIntOfMinus(ToBase(n, 10), n);
  }

  lemma PyIntRejectsWord()
    ensures PyIntOfString("Smoke") == None
  {
    NothingToStrip("Smoke");
  }

  lemma PyIntRejectsEmpty()
    ensures PyIntOfString("") == None
  {
  }

  lemma PyIntRejectsFraction()
    ensures PyIntOfString("12.5") == None
  {
    NothingToStrip("12.5");
    assert !WellGrouped("12.5") by { assert "12.5"[2] == '.'; }
  }

  // ---- str.split("/") ----

  /** `s.split(sep)` for a one-character separator. */
  function Split(s: string, sep: char): (parts: seq<string>)
    ensures |parts| >= 1
    decreases |s|
  {
    if s == [] then [[]]
    else
      var rest := Split(s[1..], sep);
      if s[0] == sep then [[]] + rest else [[s[0]] + rest[0]] + rest[1..]
  }

  /** `sep.join(parts)`. */
  function Join(parts: seq<string>, sep: char): string
    requires |parts| >= 1
    decreases |parts|
  {
    if |parts| == 1 then parts[0] else parts[0] + [sep] + Join(parts[1..], sep)
  }

  /** Joining the pieces again restores the string. */
  lemma {:induction false} JoinSplit(s: string, sep: char)
    ensures Join(Split(s, sep), sep) == s
    decreases |s|
  {
    if s != [] {
      var rest := Split(s[1..], sep);
      JoinSplit(s[1..], sep);
      if s[0] != sep {
        assert Split(s, sep) == [[s[0]] + rest[0]] + rest[1..];
        JoinCons(s[0], rest, sep);
      } else {
        assert Split(s, sep) == [[]] + rest;
        assert Join([[]] + rest, sep) == [] + [sep] + Join(rest, sep);
      }
      assert s == [s[0]] + s[1..];
    }
  }

  /** A character put in front of the first part comes first in the join. */
  lemma JoinCons(c: char, parts: seq<string>, sep: char)
    requires |parts| >= 1
    ensures Join([[c] + parts[0]] + parts[1..], sep) == [c] + Join(parts, sep)
  {
    var longer := [[c] + parts[0]] + parts[1..];
    assert longer[0] == [c] + parts[0] && longer[1..] == parts[1..];
  }

  /** Splitting pieces that hold no separator gives them back. */
  lemma {:induction false} SplitJoin(parts: seq<string>, sep: char)
    requires |parts| >= 1
    requires forall k, j :: 0 <= k < |parts| && 0 <= j < |parts[k]| ==> parts[k][j] != sep
    ensures Split(Join(parts, sep), sep) == parts
    decreases |parts|, |parts[0]|
  {
    if |parts| == 1 {
      SplitNoSep(parts[0], sep);
    } else {
      var p := parts[0];
      var tail := Join(parts[1..], sep);
      SplitJoin(parts[1..], sep);
      SplitPrefix(p, tail, sep);
      assert Join(parts, sep) == p + ([sep] + tail);
      assert Split([sep] + tail, sep) == [[]] + parts[1..] by {
        assert ([sep] + tail)[1..] == tail;
      }
      assert p + [] == p;
      assert [p] + parts[1..] == parts;
    }
  }

  lemma {:induction false} SplitNoSep(p: string, sep: char)
    requires forall j :: 0 <= j < |p| ==> p[j] != sep
    ensures Split(p, sep) == [p]
    decreases |p|
  {
    if p != [] {
      SplitNoSep(p[1..], sep);
      assert p == [p[0]] + p[1..];
    }
  }

  /** A piece free of the separator in front of a separator-led rest
      becomes the first part. */
  lemma {:induction false} SplitPrefix(p: string, tail: string, sep: char)
    requires forall j :: 0 <= j < |p| ==> p[j] != sep
    ensures var r := Split([sep] + tail, sep);
      Split(p + ([sep] + tail), sep) == [p + r[0]] + r[1..]
    decreases |p|
  {
    var r := Split([sep] + tail, sep);
    if p == [] {
      assert p + ([sep] + tail) == [sep] + tail;
      assert [p + r[0]] + r[1..] == [r[0]] + r[1..];
    } else {
      SplitPrefix(p[1..], tail, sep);
      assert (p + ([sep] + tail))[1..] == p[1..] + ([sep] + tail);
      assert p + r[0] == [p[0]] + (p[1..] + r[0]);
    }
  }

  /** `[int(t) for t in s.split("/")]`: the first piece that is not a
      numeral raises ValueError. */
  function ParseIncrements(parts: seq<string>): (r: Result<seq<int>>)
    ensures r.Ok? ==> |r.value| == |parts|
    decreases |parts|
  {
    if parts == [] then Ok([])
    else if PyIntOfString(parts[0]).None? then Raise(ValueError)
    else
      var rest :- ParseIncrements(parts[1..]);
      Ok([PyIntOfString(parts[0]).value] + rest)
  }

  /** `grill_dict["temp_increment"].split("/")` then `int` of each piece;
      anything but a string has no `split`. */
  function TempIncrements(j: Json): Result<seq<int>> {
    match j
    case JStr(s) => ParseIncrements(Split(s, '/'))
    case _ => Raise(AttributeError)
  }

  function Numerals(ns: seq<nat>): (r: seq<string>)
    ensures |r| == |ns|
    ensures forall k :: 0 <= k < |ns| ==> r[k] == ToBase(ns[k], 10)
  {
    seq(|ns|, k requires 0 <= k < |ns| => ToBase(ns[k], 10))
  }

  /** Increments written as "a/b/c" read back as [a, b, c]. */
  lemma TempIncrementsRoundTrip(ns: seq<nat>)
    requires |ns| >= 1
    ensures TempIncrements(JStr(Join(Numerals(ns), '/'))) == Ok(ns)
  {
    var parts := Numerals(ns);
    forall k, j | 0 <= k < |parts| && 0 <= j < |parts[k]|
      ensures parts[k][j] != '/'
    {
      DecimalHasNoUnderscore(ns[k]);
    }
    SplitJoin(parts, '/');
    ParseNumerals(ns);
  }

  lemma {:induction false} ParseNumerals(ns: seq<nat>)
    ensures ParseIncrements(Numerals(ns)) == Ok(ns)
    decreases |ns|
  {
    if ns != [] {
      var parts := Numerals(ns);
      assert parts == [parts[0]] + Numerals(ns[1..]);
      PyIntOfDecimal(ns[0]);
      ParseNumerals(ns[1..]);
      ParseFirst(parts[0], Numerals(ns[1..]), ns[0]);
      assert ns == [ns[0]] + ns[1..];
    }
  }

  lemma ParseFirst(p: string, rest: seq<string>, v: int)
    requires PyIntOfString(p) == Some(v)
    ensures ParseIncrements([p] + rest) ==
      if ParseIncrements(rest).Ok? then Ok([v] + ParseIncrements(rest).value) else ParseIncrements(rest)
  {
    assert ([p] + rest)[0] == p && ([p] + rest)[1..] == rest;
  }

  // ---- the dataclasses ----

  /** `Command`: a hex string or a JavaScript body that builds one. */
  datatype Command = Command(name: Json, slug: Json, hex: Json, jsFunc: Json)

  /** `ControlBoard`: commands by slug and the two parser bodies. */
  datatype ControlBoard = ControlBoard(name: Json, commands: map<Json, Command>, statusJs: Json, temperaturesJs: Json)

  /** `Grill`. */
  datatype Grill = Grill(
    name: Json,
    controlBoard: ControlBoard,
    hasLights: bool,
    minTemp: Option<int>,
    maxTemp: Option<int>,
    meatProbes: Json,
    tempIncrements: seq<int>,
    json: Object)

  /** A template with a per-model body put in: the command template
      (defining formatHex and formatDecimal) or the controller template
      (defining startsWith, convertTemperature and parseHexMessage). */
  datatype JsProgram = CommandProgram(body: Json) | ControllerProgram(body: Json)

  /** The JavaScript evaluator, which this model does not look inside. */
  type JsEval = (JsProgram, seq<Json>) -> Json

  /** `Command.from_dict`. */
  function CommandFromDict(c: Json): Result<Command> {
    var name :- Item(c, "name");
    var slug :- Item(c, "slug");
    var hex :- Item(c, "hexadecimal");
    var js :- Item(c, "function");
    Ok(Command(name, slug, hex, js))
  }

  /** The dict comprehension over `control_board_commands`: a later
      command with the same slug replaces an earlier one. */
  function CommandsFrom(items: seq<Json>): Result<map<Json, Command>>
    decreases |items|
  {
    if items == [] then Ok(map[])
    else
      var earlier :- CommandsFrom(items[..|items| - 1]);
      var c := items[|items| - 1];
      var slug :- Item(c, "slug");
      var cmd :- CommandFromDict(c);
      if Unhashable(slug) then Raise(TypeError) else Ok(earlier[slug := cmd])
  }

  /** Iterating the commands value: a list is walked; an empty string or
      dict yields nothing; a non-empty one yields strings, which cannot be
      indexed by "slug"; anything else is not iterable. */
  function CommandsOf(j: Json): Result<map<Json, Command>> {
    match j
    case JArr(items) => CommandsFrom(items)
    case JStr(s) => if s == [] then Ok(map[]) else Raise(TypeError)
    case JObj(m) => if m == map[] then Ok(map[]) else Raise(TypeError)
    case _ => Raise(TypeError)
  }

  /** Every command in the board is keyed by its own slug, and every listed
      command's slug is a key. */
  lemma {:induction false} CommandsKeyedBySlug(items: seq<Json>)
    requires CommandsFrom(items).Ok?
    ensures forall s :: s in CommandsFrom(items).value ==> CommandsFrom(items).value[s].slug == s
    ensures forall k :: 0 <= k < |items| ==> Item(items[k], "slug").Ok? && Item(items[k], "slug").value in CommandsFrom(items).value
    decreases |items|
  {
    if items != [] {
      var init := items[..|items| - 1];
      CommandsKeyedBySlug(init);
      forall k | 0 <= k < |items| - 1
        ensures Item(items[k], "slug").Ok? && Item(items[k], "slug").value in CommandsFrom(items).value
      {
        assert items[k] == init[k];
      }
    }
  }

  /** `ControlBoard.from_dict`. */
  function ControlBoardFromDict(d: Json): Result<ControlBoard> {
    var name :- Item(d, "name");
    var list :- Item(d, "control_board_commands");
    var commands :- CommandsOf(list);
    var status :- Item(d, "status_function");
    var temps :- Item(d, "temperature_function");
    Ok(ControlBoard(name, commands, status, temps))
  }

  /** `int(grill_dict[...])` inside `try ... except ValueError: pass`. */
  function OptionalTemp(j: Json): Result<Option<int>> {
    match PyInt(j)
    case Ok(v) => Ok(Some(v))
    case Raise(e) => if e == ValueError then Ok(None) else Raise(e)
  }

  /** `grill_dict["lights"] > 0`. */
  function HasLights(j: Json): Result<bool> {
    match j
    case JInt(i) => Ok(i > 0)
    case JFloat(r) => Ok(r > 0.0)
    case JBool(b) => Ok(b)
    case _ => Raise(TypeError)
  }

  /** `Grill.from_dict`, in the order Python evaluates it. */
  function GrillFromDict(d: Json): Result<Grill> {
    var minJ :- Item(d, "min_temp");
    var minTemp :- OptionalTemp(minJ);
    var maxJ :- Item(d, "max_temp");
    var maxTemp :- OptionalTemp(maxJ);
    var name :- Item(d, "name");
    var lightsJ :- Item(d, "lights");
    var hasLights :- HasLights(lightsJ);
    var probes :- Item(d, "meat_probes");
    var incJ :- Item(d, "temp_increment");
    var incs :- TempIncrements(incJ);
    var cbJ :- Item(d, "control_board");
    var cb :- ControlBoardFromDict(cbJ);
    Ok(Grill(name, cb, hasLights, minTemp, maxTemp, probes, incs, d.fields))
  }

  /** A limit that is not a numeral (like "Smoke") is absent; a number or
      a numeral is kept; null is an error. */
  lemma LimitParsing(i: int, n: nat)
    ensures OptionalTemp(JStr("Smoke")) == Ok(None)
    ensures OptionalTemp(JInt(i)) == Ok(Some(i))
    ensures OptionalTemp(JStr(ToBase(n, 10))) == Ok(Some(n))
    ensures OptionalTemp(JNull) == Raise(TypeError)
  {
    PyIntRejectsWord();
    PyIntOfDecimal(n);
  }

  /** What a successful `from_dict` keeps: lights iff the count is
      positive, limits parsed or absent, the increments, and the raw
      dict. */
  lemma FromDictFields(d: Object, g: Grill)
    requires GrillFromDict(JObj(d)) == Ok(g)
    ensures "lights" in d && HasLights(d["lights"]) == Ok(g.hasLights)
    ensures g.hasLights <==> (d["lights"].JInt? && d["lights"].i > 0) || (d["lights"].JFloat? && d["lights"].r > 0.0) || d["lights"] == JBool(true)
    ensures "min_temp" in d && OptionalTemp(d["min_temp"]) == Ok(g.minTemp)
    ensures "max_temp" in d && OptionalTemp(d["max_temp"]) == Ok(g.maxTemp)
    ensures "temp_increment" in d && TempIncrements(d["temp_increment"]) == Ok(g.tempIncrements)
    ensures "control_board" in d && ControlBoardFromDict(d["control_board"]) == Ok(g.controlBoard)
    ensures g.json == d && "name" in d && g.name == d["name"]
    ensures "meat_probes" in d && g.meatProbes == d["meat_probes"]
  {
  }

  /** `Command.__call__`: the fixed hex string whenever it is truthy
      (whatever the arguments), otherwise the snippet's result; no
      snippet at all raises NotImplementedError. */
  function Call(cmd: Command, args: seq<Json>, eval: JsEval): (r: Result<Json>)
    ensures Truthy(cmd.hex) ==> r == Ok(cmd.hex)
    ensures !Truthy(cmd.hex) && cmd.jsFunc == JNull ==> r == Raise(NotImplemented)
    ensures !Truthy(cmd.hex) && cmd.jsFunc != JNull ==> r == Ok(eval(CommandProgram(cmd.jsFunc), args))
  {
    if Truthy(cmd.hex) then Ok(cmd.hex)
    else if cmd.jsFunc == JNull then Raise(NotImplemented)
    else Ok(eval(CommandProgram(cmd.jsFunc), args))
  }

  /** The hex result does not depend on the arguments. */
  lemma HexIgnoresArguments(cmd: Command, a1: seq<Json>, a2: seq<Json>, e1: JsEval, e2: JsEval)
    requires Truthy(cmd.hex)
    ensures Call(cmd, a1, e1) == Call(cmd, a2, e2)
  {
  }

  /** `ControlBoard.parse_status`: a falsy body raises NotImplementedError. */
  function ParseStatus(cb: ControlBoard, message: Json, eval: JsEval): (r: Result<Json>)
    ensures !Truthy(cb.statusJs) <==> r == Raise(NotImplemented)
  {
    if !Truthy(cb.statusJs) then Raise(NotImplemented)
    else Ok(eval(ControllerProgram(cb.statusJs), [message]))
  }

  /** `ControlBoard.parse_temperatures`. */
  function ParseTemperatures(cb: ControlBoard, message: Json, eval: JsEval): (r: Result<Json>)
    ensures !Truthy(cb.temperaturesJs) <==> r == Raise(NotImplemented)
  {
    if !Truthy(cb.temperaturesJs) then Raise(NotImplemented)
    else Ok(eval(ControllerProgram(cb.temperaturesJs), [message]))
  }

  // ---- the definitions table ----

  /** The bundled definitions: (name, definition) pairs in file order,
      each name once. */
  type Table = seq<(string, Json)>

  predicate UniqueNames(table: Table) {
    forall a, b :: 0 <= a < b < |table| ==> table[a].0 != table[b].0
  }

  /** `table.get(name)`. */
  function Find(table: Table, name: string): (r: Option<Json>)
    ensures r.Some? <==> exists k :: 0 <= k < |table| && table[k].0 == name
    ensures r.Some? ==> exists k :: 0 <= k < |table| && table[k] == (name, r.value)
  {
    if table == [] then None
    else if table[0].0 == name then Some(table[0].1)
    else
      var r := Find(table[1..], name);
      assert forall k :: 1 <= k < |table| ==> table[k] == table[1..][k - 1];
      assert r.Some? ==> exists k :: 1 <= k < |table| && table[k] == (name, r.value);
      r
  }

  /** `grill.get(...)` on the control board value: only dicts have it. */
  function GetMethod(d: Json, key: string): Result<Json> {
    match d
    case JObj(m) => Ok(Get(m, key, JNull))
    case _ => Raise(AttributeError)
  }

  /** The two tests of the `get_grills` loop: skip a definition whose
      control board has no truthy `status_function`, then keep it when no
      board is asked for or the board name matches. */
  function Selects(grill: Json, board: Option<string>): Result<bool> {
    var cb :- Item(grill, "control_board");
    var status :- GetMethod(cb, "status_function");
    if !Truthy(status) then Ok(false)
    else if board.None? then Ok(true)
    else
      var name :- Item(cb, "name");
      Ok(name == JStr(board.value))
  }

  /** One step of the `get_grills` loop: skipped, yielded, or the
      exception that ends the generator. */
  function Load(grill: Json, board: Option<string>): Result<Option<Grill>> {
    var wanted :- Selects(grill, board);
    if !wanted then Ok(None)
    else
      var g :- GrillFromDict(grill);
      Ok(Some(g))
  }

  /** What the generator yields before it stops, and the exception that
      stopped it early, if any. */
  datatype Loading = Loading(grills: seq<Grill>, error: Option<PyError>)

  function After(grills: seq<Grill>, l: Loading): Loading {
    Loading(grills + l.grills, l.error)
  }

  function GrillsFrom(table: Table, board: Option<string>): Loading
    decreases |table|
  {
    if table == [] then Loading([], None)
    else
      match Load(table[0].1, board)
      case Raise(e) => Loading([], Some(e))
      case Ok(None) => GrillsFrom(table[1..], board)
      case Ok(Some(g)) => After([g], GrillsFrom(table[1..], board))
  }

  /** `get_grills(control_board)`, run to the end (or to the exception). */
  method GetGrills(table: Table, board: Option<string>) returns (grills: seq<Grill>, err: Option<PyError>)
    ensures Loading(grills, err) == GrillsFrom(table, board)
  {
    grills := [];
    var i := 0;
    assert table[0..] == table;
    while i < |table|
      invariant i <= |table|
      invariant After(grills, GrillsFrom(table[i..], board)) == GrillsFrom(table, board)
      decreases |table| - i
    {
      var step := Load(table[i].1, board);
      GrillsStep(table, board, i, grills);
      if step.Raise? {
        return grills, Some(step.error);
      }
      if step.value.Some? {
        grills := grills + [step.value.value];
      }
      i := i + 1;
    }
    assert grills + [] == grills;
    err := None;
  }

  /** One pass of the loop: an exception ends the loading, a skipped
      entry adds nothing, a loaded one is appended. */
  lemma GrillsStep(table: Table, board: Option<string>, i: nat, grills: seq<Grill>)
    requires i < |table|
    requires After(grills, GrillsFrom(table[i..], board)) == GrillsFrom(table, board)
    ensures var step := Load(table[i].1, board);
      (step.Raise? ==> GrillsFrom(table, board) == Loading(grills, Some(step.error))) &&
      (step == Ok(None) ==> After(grills, GrillsFrom(table[i + 1..], board)) == GrillsFrom(table, board)) &&
      (step.Ok? && step.value.Some? ==>
        After(grills + [step.value.value], GrillsFrom(table[i + 1..], board)) == GrillsFrom(table, board))
  {
    assert table[i..][0] == table[i] && table[i..][1..] == table[i + 1..];
    var step := Load(table[i].1, board);
    if step.Ok? && step.value.Some? {
      assert grills + ([step.value.value] + GrillsFrom(table[i + 1..], board).grills)
        == (grills + [step.value.value]) + GrillsFrom(table[i + 1..], board).grills;
    }
    assert grills + [] == grills;
  }

  /** A definition whose board fields are present. */
  predicate WellFormedEntry(grill: Json) {
    grill.JObj? && "control_board" in grill.fields &&
    grill.fields["control_board"].JObj? && "name" in grill.fields["control_board"].fields
  }

  /** The filter `get_grills` applies, stated on its own: truthy
      `status_function`, and the requested board if any. */
  predicate Wanted(grill: Json, board: Option<string>)
    requires WellFormedEntry(grill)
  {
    var cb := grill.fields["control_board"].fields;
    Truthy(Get(cb, "status_function", JNull)) && (board.None? || cb["name"] == JStr(board.value))
  }

  function Kept(table: Table, board: Option<string>): (r: seq<Json>)
    requires forall k :: 0 <= k < |table| ==> WellFormedEntry(table[k].1)
    ensures |r| <= |table|
    decreases |table|
  {
    if table == [] then []
    else (if Wanted(table[0].1, board) then [table[0].1] else []) + Kept(table[1..], board)
  }

  /** `Grill.from_dict` over a list, stopping at the first exception. */
  function LoadAll(entries: seq<Json>): Loading
    decreases |entries|
  {
    if entries == [] then Loading([], None)
    else
      match GrillFromDict(entries[0])
      case Raise(e) => Loading([], Some(e))
      case Ok(g) => After([g], LoadAll(entries[1..]))
  }

  /** On a well-formed table, `get_grills` is `from_dict` over the wanted
      definitions in table order: same grills, same exception. */
  lemma {:induction false} GetGrillsFilters(table: Table, board: Option<string>)
    requires forall k :: 0 <= k < |table| ==> WellFormedEntry(table[k].1)
    ensures GrillsFrom(table, board) == LoadAll(Kept(table, board))
    decreases |table|
  {
    if table != [] {
      var rest := table[1..];
      assert forall k :: 0 <= k < |rest| ==> rest[k] == table[k + 1];
      GetGrillsFilters(rest, board);
      var e := table[0].1;
      assert Selects(e, board) == Ok(Wanted(e, board));
      if Wanted(e, board) {
        var kept := Kept(table, board);
        assert kept == [e] + Kept(rest, board);
        assert kept[0] == e && kept[1..] == Kept(rest, board);
      } else {
        assert Kept(table, board) == Kept(rest, board);
      }
    }
  }

  /** `get_grill(name)`: an unknown name, or one stored as null, raises
      InvalidGrill. */
  function GetGrill(table: Table, name: string): (r: Result<Grill>)
    ensures Find(table, name).None? ==> r == Raise(InvalidGrill(name))
    ensures Find(table, name) == Some(JNull) ==> r == Raise(InvalidGrill(name))
    ensures Find(table, name).Some? && Find(table, name) != Some(JNull) ==> r == GrillFromDict(Find(table, name).value)
  {
    match Find(table, name)
    case None => Raise(InvalidGrill(name))
    case Some(d) => if d == JNull then Raise(InvalidGrill(name)) else GrillFromDict(d)
  }
}
