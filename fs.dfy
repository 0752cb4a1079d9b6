// Mongoose OS filesystem RPCs (pytboss/fs.py): fixed-method wrappers and
// the chunked read of a file through FS.Get.
module Fs {
  import opened Json
  import opened Rpc
  import opened Codec

  /** Bytes asked for per FS.Get request. */
  const CHUNK_LEN: nat := 512

  /** The decoder `b64decode` applies to a string, which this model does
      not look inside; None is the binascii error (a ValueError). */
  type Base64 = string -> Option<seq<Byte>>

  // ---- the fixed-method wrappers ----

  function ListCall(): Call {
    Call("FS.List", map[], true)
  }

  function PutCall(filename: Json, data: Json, append: Json): Call {
    Call("FS.Put", map["filename" := filename, "data" := data, "append" := append], true)
  }

  function RenameCall(src: Json, dst: Json): Call {
    Call("FS.Rename", map["src" := src, "dst" := dst], true)
  }

  function RemoveCall(filename: Json): Call {
    Call("FS.Remove", map["filename" := filename], true)
  }

  /** The k-th request of a read: the same file, offset k * 512, 512 bytes. */
  function GetCall(filename: Json, offset: nat): Call {
    Call("FS.Get", map["filename" := filename, "offset" := JInt(offset), "len" := JInt(CHUNK_LEN)], true)
  }

  function GetCalls(filename: Json, n: nat): (r: seq<Call>)
    ensures |r| == n
  {
    seq(n, k requires 0 <= k < n => GetCall(filename, CHUNK_LEN * k))
  }

  lemma GetCallsStep(filename: Json, n: nat)
    ensures GetCalls(filename, n + 1) == GetCalls(filename, n) + [GetCall(filename, CHUNK_LEN * n)]
  {
  }

  // ---- one reply ----

  /** `b64decode(x)`: strings are decoded; other values are not accepted. */
  function B64Decode(data: Json, b64: Base64): Result<seq<Byte>> {
    match data
    case JStr(s) => if b64(s).Some? then Ok(b64(s).value) else Raise(ValueError)
    case _ => Raise(TypeError)
  }

  /** `resp["left"] == 0`: Python compares numbers by value, False too. */
  predicate IsZero(j: Json) {
    j == JInt(0) || j == JFloat(0.0) || j == JBool(false)
  }

  /** One FS.Get reply: its decoded `data`, and whether `left` is zero. */
  function Piece(resp: Json, b64: Base64): Result<(seq<Byte>, bool)> {
    var data :- Item(resp, "data");
    var bytes :- B64Decode(data, b64);
    var left :- Item(resp, "left");
    Ok((bytes, IsZero(left)))
  }

  // ---- the read loop ----

  /** What the loop makes of a script of replies: the decoded pieces, the
      number of requests sent, and the exception that ended it (None when
      a reply said nothing is left). */
  datatype Reading = Reading(pieces: seq<seq<Byte>>, requests: nat, error: Option<PyError>)

  /** What the next FS.Get call yields: its reply's piece, or the
      exception the call or the reply raises. */
  function NextPiece(script: seq<Result<Json>>, b64: Base64): (r: Result<(seq<Byte>, bool)>)
    ensures r.Ok? ==> script != [] && script[0].Ok?
  {
    match Next(script)
    case Raise(e) => Raise(e)
    case Ok(resp) => Piece(resp, b64)
  }

  function ReadFrom(script: seq<Result<Json>>, b64: Base64): (r: Reading)
    ensures r.requests >= 1
    ensures r.error.None? ==> r.requests == |r.pieces| <= |script|
    decreases |script|
  {
    match NextPiece(script, b64)
    case Raise(e) => Reading([], 1, Some(e))
    case Ok(p) =>
      if p.1 then Reading([p.0], 1, None)
      else
        var rest := ReadFrom(script[1..], b64);
        Reading([p.0] + rest.pieces, 1 + rest.requests, rest.error)
  }

  /** A reading after some pieces already taken. */
  function After(pieces: seq<seq<Byte>>, r: Reading): Reading {
    Reading(pieces + r.pieces, |pieces| + r.requests, r.error)
  }

  /** One reply that yields a piece: the piece, then the rest of the
      reading (or the end, when it said nothing is left). */
  lemma ReadStep(script: seq<Result<Json>>, b64: Base64, p: (seq<Byte>, bool))
    requires NextPiece(script, b64) == Ok(p)
    ensures ReadFrom(script, b64) ==
      if p.1 then Reading([p.0], 1, None) else After([p.0], ReadFrom(script[1..], b64))
  {
  }

  lemma AfterAfter(a: seq<seq<Byte>>, b: seq<seq<Byte>>, r: Reading)
    ensures After(a, After(b, r)) == After(a + b, r)
  {
    assert a + (b + r.pieces) == (a + b) + r.pieces;
  }

  /** One pass of the FS.Get loop: the reading still to come after the
      pieces taken so far is the whole reading. */
  lemma FetchStep(script0: seq<Result<Json>>, n: nat, pieces: seq<seq<Byte>>, p: (seq<Byte>, bool), b64: Base64)
    requires n == |pieces| && n <= |script0|
    requires After(pieces, ReadFrom(script0[n..], b64)) == ReadFrom(script0, b64)
    requires NextPiece(script0[n..], b64) == Ok(p)
    ensures n < |script0| && Rest(script0[n..]) == script0[n + 1..]
    ensures p.1 ==> ReadFrom(script0, b64) == Reading(pieces + [p.0], n + 1, None)
    ensures p.1 ==> Answered(ReadFrom(script0, b64), script0) == n + 1
    ensures !p.1 ==> After(pieces + [p.0], ReadFrom(script0[n + 1..], b64)) == ReadFrom(script0, b64)
  {
    var before := script0[n..];
    assert before[1..] == script0[n + 1..];
    ReadStep(before, b64, p);
    AfterAfter(pieces, [p.0], ReadFrom(before[1..], b64));
  }

  /** A reply that raises, or no reply at all, ends the reading after the
      pieces taken so far, with that reply's request counted. */
  lemma FailStep(script0: seq<Result<Json>>, n: nat, pieces: seq<seq<Byte>>, e: PyError, whole: Reading)
    requires n == |pieces| && n <= |script0|
    requires whole == After(pieces, Reading([], 1, Some(e)))
    ensures whole.pieces == pieces && whole.error == Some(e) && whole.requests == n + 1
    ensures Rest(script0[n..]) == script0[Answered(whole, script0)..]
  {
    assert pieces + [] == pieces;
    if n < |script0| {
      assert script0[n..][1..] == script0[n + 1..];
    }
  }

  lemma FailReading(script: seq<Result<Json>>, e: PyError, b64: Base64)
    requires NextPiece(script, b64) == Raise(e)
    ensures ReadFrom(script, b64) == Reading([], 1, Some(e))
  {
  }

  /** The replies a reading takes from the script: one per request, except
      the request that found the script used up. */
  function Answered(r: Reading, script: seq<Result<Json>>): nat {
    if r.requests <= |script| then r.requests else |script|
  }

  function Concat(pieces: seq<seq<Byte>>): seq<Byte> {
    if pieces == [] then [] else pieces[0] + Concat(pieces[1..])
  }

  // ---- str() of a bytes object ----

  function HexDigit(d: nat): char
    requires d < 16
  {
    "0123456789abcdef"[d]
  }

  /** The quote `repr` picks: a double quote only when the bytes hold a
      single quote and no double quote. */
  function QuoteFor(b: seq<Byte>): char {
    if 0x27 in b && 0x22 !in b then '"' else '\''
  }

  /** How `repr` writes one byte inside the quotes. */
  function Escape(c: Byte, quote: char): string {
    if c == quote as int || c == 0x5C then ['\\', c as char]
    else if c == 0x09 then "\\t"
    else if c == 0x0A then "\\n"
    else if c == 0x0D then "\\r"
    else if c < 0x20 || c >= 0x7F then "\\x" + [HexDigit(c / 16), HexDigit(c % 16)]
    else [c as char]
  }

  function EscapeAll(b: seq<Byte>, quote: char): string {
    if b == [] then [] else Escape(b[0], quote) + EscapeAll(b[1..], quote)
  }

  /** `str(b)` for a bytes object: its literal, `b'...'`. */
  function BytesLiteral(b: seq<Byte>): (s: string)
    ensures |s| >= 3 && s[0] == 'b' && s[1] == s[|s| - 1] == QuoteFor(b)
  {
    "b" + [QuoteFor(b)] + EscapeAll(b, QuoteFor(b)) + [QuoteFor(b)]
  }

  /** The content `get_file_content` builds: the literals, one per piece. */
  function Literals(pieces: seq<seq<Byte>>): string {
    if pieces == [] then [] else BytesLiteral(pieces[0]) + Literals(pieces[1..])
  }

  /** The loop's value: the pieces rendered, or the exception. */
  function Content<T>(r: Reading, render: seq<seq<Byte>> -> T): Result<T> {
    if r.error.None? then Ok(render(r.pieces)) else Raise(r.error.value)
  }

  class FileSystem {
    const conn: Conn

    constructor (conn: Conn)
      ensures this.conn == conn
    {
      this.conn := conn;
    }

    /** The FS.Get loop: one request per piece at offsets 0, 512, 1024, ...,
        until a reply says nothing is left or an exception ends it. */
    method FetchPieces(filename: string, b64: Base64) returns (pieces: seq<seq<Byte>>, err: Option<PyError>)
      modifies conn
      ensures var r := ReadFrom(old(conn.script), b64);
        pieces == r.pieces && err == r.error &&
        conn.calls == old(conn.calls) + GetCalls(JStr(filename), r.requests) &&
        conn.script == old(conn.script)[Answered(r, old(conn.script))..]
    {
      var offset := 0;
      pieces := [];
      ghost var script0 := conn.script;
      ghost var calls0 := conn.calls;
      ghost var whole := ReadFrom(script0, b64);
      ghost var n := 0;
      assert script0[0..] == script0;
      while true
        invariant n <= |script0| && conn.script == script0[n..]
        invariant n == |pieces| && offset == CHUNK_LEN * n
        invariant conn.calls == calls0 + GetCalls(JStr(filename), n)
        invariant After(pieces, ReadFrom(script0[n..], b64)) == whole
        decreases |script0| - n
      {
        var piece := FetchOne(filename, offset, b64);
        GetCallsStep(JStr(filename), n);
        if piece.Raise? {
          FailReading(script0[n..], piece.error, b64);
          FailStep(script0, n, pieces, piece.error, whole);
          return pieces, Some(piece.error);
        }
        FetchStep(script0, n, pieces, piece.value, b64);
        pieces := pieces + [piece.value.0];
        offset := offset + CHUNK_LEN;
        n := n + 1;
        if piece.value.1 {
          return pieces, None;
        }
      }
    }

    /** One round of the FS.Get loop: request 512 bytes at `offset` and
        decode the reply. */
    method FetchOne(filename: string, offset: nat, b64: Base64) returns (piece: Result<(seq<Byte>, bool)>)
      modifies conn
      ensures conn.calls == old(conn.calls) + [GetCall(JStr(filename), offset)]
      ensures conn.script == Rest(old(conn.script))
      ensures piece == NextPiece(old(conn.script), b64)
    {
      var request := GetCall(JStr(filename), offset);
      var resp := conn.SendCommand(request.name, request.params);
      if resp.Raise? {
        return Raise(resp.error);
      }
      piece := Piece(resp.value, b64);
    }

    /** `get_file_content(filename)` as written: each piece is appended as
        `str()` of the bytes, that is, as a bytes literal. */
    method GetFileContent(filename: string, b64: Base64) returns (content: Result<string>)
      modifies conn
      ensures var r := ReadFrom(old(conn.script), b64);
        content == Content(r, Literals) &&
        conn.calls == old(conn.calls) + GetCalls(JStr(filename), r.requests) &&
        conn.script == old(conn.script)[Answered(r, old(conn.script))..]
    {
      var pieces, err := FetchPieces(filename, b64);
      content := if err.None? then Ok(Literals(pieces)) else Raise(err.value);
    }

    /** `get_file_content` as evidently intended: the file's bytes, the
        pieces joined. */
    method GetFileBytes(filename: string, b64: Base64) returns (content: Result<seq<Byte>>)
      modifies conn
      ensures var r := ReadFrom(old(conn.script), b64);
        content == Content(r, Concat) &&
        conn.calls == old(conn.calls) + GetCalls(JStr(filename), r.requests) &&
        conn.script == old(conn.script)[Answered(r, old(conn.script))..]
    {
      var pieces, err := FetchPieces(filename, b64);
      content := if err.None? then Ok(Concat(pieces)) else Raise(err.value);
    }

    method GetFileList() returns (r: Result<Json>)
      modifies conn
      ensures conn.calls == old(conn.calls) + [ListCall()]
      ensures r == Next(old(conn.script)) && conn.script == Rest(old(conn.script))
    {
      r := conn.SendCommand("FS.List", map[]);
    }

    method SetFileContent(filename: Json, data: Json, append: Json) returns (r: Result<Json>)
      modifies conn
      ensures conn.calls == old(conn.calls) + [PutCall(filename, data, append)]
      ensures r == Next(old(conn.script)) && conn.script == Rest(old(conn.script))
    {
      r := conn.SendCommand("FS.Put", map["filename" := filename, "data" := data, "append" := append]);
    }

    method RenameFile(src: Json, dst: Json) returns (r: Result<Json>)
      modifies conn
      ensures conn.calls == old(conn.calls) + [RenameCall(src, dst)]
      ensures r == Next(old(conn.script)) && conn.script == Rest(old(conn.script))
    {
      r := conn.SendCommand("FS.Rename", map["src" := src, "dst" := dst]);
    }

    method DeleteFile(filename: Json) returns (r: Result<Json>)
      modifies conn
      ensures conn.calls == old(conn.calls) + [RemoveCall(filename)]
      ensures r == Next(old(conn.script)) && conn.script == Rest(old(conn.script))
    {
      r := conn.SendCommand("FS.Remove", map["filename" := filename]);
    }
  }

  // ---- a device serving a file ----

  /** What FS.Get answers for `file` at `offset`: up to 512 bytes encoded,
      and how many bytes remain after them. */
  function Reply(file: seq<Byte>, offset: nat, enc: seq<Byte> -> string): Json {
    var from := if offset <= |file| then offset else |file|;
    var to := if offset + CHUNK_LEN <= |file| then offset + CHUNK_LEN else |file|;
    JObj(map["data" := JStr(enc(file[from..to])), "left" := JInt(|file| - to)])
  }

  /** The replies a device holding `file` gives to the reads from `offset`
      on, up to the one that says nothing is left. */
  function Served(file: seq<Byte>, offset: nat, enc: seq<Byte> -> string): seq<Result<Json>>
    decreases |file| - offset
  {
    if offset + CHUNK_LEN >= |file| then [Ok(Reply(file, offset, enc))]
    else [Ok(Reply(file, offset, enc))] + Served(file, offset + CHUNK_LEN, enc)
  }

  /** The first reply of a device serving the file gives its first 512
      bytes (or all of them). */
  lemma ServedFirst(file: seq<Byte>, offset: nat, enc: seq<Byte> -> string, b64: Base64)
    requires offset <= |file|
    requires forall x :: b64(enc(x)) == Some(x)
    ensures var to := if offset + CHUNK_LEN <= |file| then offset + CHUNK_LEN else |file|;
      ReadFrom(Served(file, offset, enc), b64) ==
        if offset + CHUNK_LEN >= |file| then Reading([file[offset..]], 1, None)
        else After([file[offset..to]], ReadFrom(Served(file, offset + CHUNK_LEN, enc), b64))
  {
    var script := Served(file, offset, enc);
    var to := if offset + CHUNK_LEN <= |file| then offset + CHUNK_LEN else |file|;
    assert script[0] == Ok(Reply(file, offset, enc));
    assert Piece(Reply(file, offset, enc), b64) == Ok((file[offset..to], to == |file|));
    assert NextPiece(script, b64) == Ok((file[offset..to], to == |file|));
    ReadStep(script, b64, (file[offset..to], to == |file|));
    if offset + CHUNK_LEN >= |file| {
      assert file[offset..to] == file[offset..];
    } else {
      assert script[1..] == Served(file, offset + CHUNK_LEN, enc);
    }
  }

  /** Read from a device that serves the file, the pieces join to exactly
      the file's bytes, each piece at most 512 of them, one request per
      piece. */
  lemma {:induction false} ReadsServedFile(file: seq<Byte>, offset: nat, enc: seq<Byte> -> string, b64: Base64)
    requires offset <= |file|
    requires forall x :: b64(enc(x)) == Some(x)
    ensures var r := ReadFrom(Served(file, offset, enc), b64);
      r.error == None && Concat(r.pieces) == file[offset..] && r.requests == |r.pieces| &&
      forall k :: 0 <= k < |r.pieces| ==> |r.pieces[k]| <= CHUNK_LEN
    decreases |file| - offset
  {
    ServedFirst(file, offset, enc, b64);
    if offset + CHUNK_LEN >= |file| {
      assert Concat([file[offset..]]) == file[offset..] + Concat([]);
    } else {
      ReadsServedFile(file, offset + CHUNK_LEN, enc, b64);
      var rest := ReadFrom(Served(file, offset + CHUNK_LEN, enc), b64);
      WholePieces(file, offset, rest);
    }
  }

  /** A full first piece before a reading of the rest of the file is a
      reading of the file from `offset`. */
  lemma WholePieces(file: seq<Byte>, offset: nat, rest: Reading)
    requires offset + CHUNK_LEN < |file|
    requires rest.error == None && Concat(rest.pieces) == file[offset + CHUNK_LEN..]
    requires rest.requests == |rest.pieces|
    requires forall k :: 0 <= k < |rest.pieces| ==> |rest.pieces[k]| <= CHUNK_LEN
    ensures var r := After([file[offset..offset + CHUNK_LEN]], rest);
      r.error == None && Concat(r.pieces) == file[offset..] && r.requests == |r.pieces| &&
      forall k :: 0 <= k < |r.pieces| ==> |r.pieces[k]| <= CHUNK_LEN
  {
    var chunk := file[offset..offset + CHUNK_LEN];
    assert ([chunk] + rest.pieces)[1..] == rest.pieces;
    assert file[offset..] == chunk + file[offset + CHUNK_LEN..];
  }

  /** As written, an empty file does not read as empty: its one piece comes
      back as the three characters b''. */
  lemma EmptyFileReadsAsLiteral(b64: Base64)
    requires b64("") == Some([])
    ensures var script := [Ok(JObj(map["data" := JStr(""), "left" := JInt(0)]))];
      Content(ReadFrom(script, b64), Literals) == Ok("b''") &&
      Content(ReadFrom(script, b64), Concat) == Ok([])
  {
    var script := [Ok(JObj(map["data" := JStr(""), "left" := JInt(0)]))];
    assert Piece(script[0].value, b64) == Ok(([], true));
    assert ReadFrom(script, b64) == Reading([[]], 1, None);
    assert Literals([[]]) == BytesLiteral([]) + Literals([]);
    assert EscapeAll([], '\'') == [];
    assert BytesLiteral([]) == "b''";
    assert Literals([[]]) == "b''";
    assert Content(ReadFrom(script, b64), Literals) == Ok(Literals([[]]));
    assert Concat([[]]) == [];
    assert Content(ReadFrom(script, b64), Concat) == Ok(Concat([[]]));
  }

  /** As written, a printable piece comes back wrapped in b'...'. */
  lemma TextPieceReadsAsLiteral(b64: Base64)
    requires b64("aGk=") == Some([0x68, 0x69])
    ensures var script := [Ok(JObj(map["data" := JStr("aGk="), "left" := JInt(0)]))];
      Content(ReadFrom(script, b64), Literals) == Ok("b'hi'") &&
      var hi: seq<Byte> := [0x68, 0x69];
      Content(ReadFrom(script, b64), Concat) == Ok(hi)
  {
    var script := [Ok(JObj(map["data" := JStr("aGk="), "left" := JInt(0)]))];
    var hi: seq<Byte> := [0x68, 0x69];
    assert Piece(script[0].value, b64) == Ok((hi, true));
    assert ReadFrom(script, b64) == Reading([hi], 1, None);
    assert QuoteFor(hi) == '\'';
    assert EscapeAll(hi, '\'') == "hi" by {
      assert hi[1..] == [0x69];
      assert EscapeAll([0x69], '\'') == "i" + EscapeAll([], '\'');
    }
    assert BytesLiteral(hi) == "b'hi'";
    assert Literals([hi]) == "b'hi'";
    assert Content(ReadFrom(script, b64), Literals) == Ok(Literals([hi]));
    assert Concat([hi]) == hi;
    assert Content(ReadFrom(script, b64), Concat) == Ok(Concat([hi]));
  }
}
