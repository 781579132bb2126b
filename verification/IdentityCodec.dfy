/** The bytes an identity digest is computed from, and their decoder: what two
    rows must share to count as the same record. */
module IdentityCodec {
  import opened Rows

  type Byte = x: int | 0 <= x < 256

  const WORD := 0x1_0000_0000_0000_0000

  /** A Go string or slice: its length fits the 64-bit length prefix. */
  type Bytes = s: seq<Byte> | |s| < WORD

  type Word = x: int | 0 <= x < WORD

  type Int64 = x: int | -0x8000_0000_0000_0000 <= x < 0x8000_0000_0000_0000

  /** A column value as the driver scans it; a float is its 64 bits. */
  datatype Value =
    | Nil
    | Integer(n: Int64)
    | Float(bits: Word)
    | Str(text: Bytes)
    | Blob(data: Bytes)
    | Bool(b: bool)
    | Unsupported

  /** What canonicalDigest is given. */
  datatype Named = Named(table: Bytes, columns: seq<Bytes>, values: seq<Value>)

  predicate Shaped(n: Named) {
    |n.columns| == |n.values|
  }

  predicate Supported(n: Named) {
    forall i :: 0 <= i < |n.values| ==> !n.values[i].Unsupported?
  }

  // ---------- Big-endian words ----------

  function Power(k: nat): (p: nat)
    ensures p > 0
  {
    if k == 0 then 1 else 256 * Power(k - 1)
  }

  /** The k bytes of n, most significant first. */
  function BigEndian(n: int, k: nat): (bs: seq<Byte>)
    ensures |bs| == k
    decreases k
  {
    if k == 0 then [] else BigEndian(n / 256, k - 1) + [n % 256]
  }

  function FromBigEndian(bs: seq<Byte>): (n: nat)
    ensures n < Power(|bs|)
  {
    if bs == [] then 0 else 256 * FromBigEndian(bs[..|bs| - 1]) + bs[|bs| - 1]
  }

  lemma {:induction false} BigEndianRoundTrip(n: int, k: nat)
    requires 0 <= n < Power(k)
    ensures FromBigEndian(BigEndian(n, k)) == n
  {
    if k > 0 {
      BigEndianRoundTrip(n / 256, k - 1);
      assert BigEndian(n, k)[..k - 1] == BigEndian(n / 256, k - 1);
    }
  }

  lemma EightBytesHoldAWord()
    ensures Power(8) == WORD
  {
    assert Power(4) == 256 * 256 * 256 * 256;
    assert Power(8) == 256 * 256 * 256 * 256 * Power(4);
  }

  /** uint64(int64): two's complement. */
  function Unsigned(n: Int64): Word {
    if n < 0 then n + WORD else n
  }

  function Signed(w: Word): Int64 {
    if w < WORD / 2 then w else w - WORD
  }

  // ---------- The encoding ----------

  function Framed(data: Bytes): seq<Byte> {
    BigEndian(|data|, 8) + data
  }

  function Tag(v: Value): Byte {
    match v
    case Nil => 'n' as int
    case Integer(_) => 'i' as int
    case Float(_) => 'f' as int
    case Str(_) => 's' as int
    case Blob(_) => 'b' as int
    case Bool(_) => 't' as int
    case Unsupported => 0
  }

  function Payload(v: Value): Bytes {
    match v
    case Nil => []
    case Integer(n) => BigEndian(Unsigned(n), 8)
    case Float(bits) => BigEndian(bits, 8)
    case Str(text) => text
    case Blob(data) => data
    case Bool(b) => [if b then 1 else 0]
    case Unsupported => []
  }

  function Encoded(v: Value): seq<Byte> {
    [Tag(v)] + Framed(Payload(v))
  }

  /** Column names and values in turn, from the i-th on. */
  function Columns(n: Named, i: nat): seq<Byte>
    requires Shaped(n) && i <= |n.columns|
    decreases |n.columns| - i
  {
    if i == |n.columns| then [] else Framed(n.columns[i]) + Encoded(n.values[i]) + Columns(n, i + 1)
  }

  function Preimage(n: Named): seq<Byte>
    requires Shaped(n)
  {
    Framed(n.table) + Columns(n, 0)
  }

  /** hash.Hash, as the bytes written so far. */
  class Digest {
    var input: seq<Byte>

    constructor ()
      ensures input == []
    {
      input := [];
    }

    method Write(data: seq<Byte>)
      modifies this
      ensures input == old(input) + data
    {
      input := input + data;
    }

    method WriteBytes(data: Bytes)
      modifies this
      ensures input == old(input) + Framed(data)
    {
      Write(BigEndian(|data|, 8));
      Write(data);
    }

    method WriteValue(v: Value) returns (ok: bool)
      modifies this
      ensures ok == !v.Unsupported?
      ensures input == if ok then old(input) + Encoded(v) else old(input)
    {
      hide BigEndian, Framed, Tag;
      var data: Bytes := [];
      match v {
        case Nil =>
        case Integer(n) => data := BigEndian(Unsigned(n), 8);
        case Float(bits) => data := BigEndian(bits, 8);
        case Str(text) => data := text;
        case Blob(bytes) => data := bytes;
        case Bool(b) => data := [if b then 1 else 0];
        case Unsupported => return false;
      }
      assert data == Payload(v);
      Write([Tag(v)]);
      WriteBytes(data);
      return true;
    }
  }

  /** The bytes hashed, or nothing when a value has no encoding. */
  method CanonicalInput(n: Named) returns (r: Option<seq<Byte>>)
    requires Shaped(n)
    ensures r == if Supported(n) then Some(Preimage(n)) else None
  {
    hide Framed, Encoded;
    var digest := new Digest();
    digest.WriteBytes(n.table);
    for i := 0 to |n.columns|
      invariant digest.input + Columns(n, i) == Preimage(n)
      invariant forall k :: 0 <= k < i ==> !n.values[k].Unsupported?
    {
      ghost var before := digest.input;
      assert before + Columns(n, i) == before + Framed(n.columns[i]) + Encoded(n.values[i]) + Columns(n, i + 1);
      digest.WriteBytes(n.columns[i]);
      var ok := digest.WriteValue(n.values[i]);
      if !ok {
        return None;
      }
    }
    assert digest.input + [] == digest.input;
    return Some(digest.input);
  }

  // ---------- The decoder ----------

  /** A length-prefixed string and what follows it. */
  function TakeFrame(bs: seq<Byte>): (r: Option<(Bytes, seq<Byte>)>)
    ensures r.Some? ==> |r.value.1| + 8 + |r.value.0| == |bs|
  {
    if |bs| < 8 then None
    else
      var n := FromBigEndian(bs[..8]);
      if n >= WORD || |bs| < 8 + n then None else Some((bs[8..8 + n], bs[8 + n..]))
  }

  function ValueOf(tag: Byte, data: Bytes): Option<Value> {
    if tag == 'n' as int && data == [] then Some(Nil)
    else if tag == 'i' as int && |data| == 8 && FromBigEndian(data) < WORD then Some(Integer(Signed(FromBigEndian(data))))
    else if tag == 'f' as int && |data| == 8 && FromBigEndian(data) < WORD then Some(Float(FromBigEndian(data)))
    else if tag == 's' as int then Some(Str(data))
    else if tag == 'b' as int then Some(Blob(data))
    else if tag == 't' as int && data == [1] then Some(Bool(true))
    else if tag == 't' as int && data == [0] then Some(Bool(false))
    else None
  }

  function TakeColumn(bs: seq<Byte>): (r: Option<(Bytes, Value, seq<Byte>)>)
    ensures r.Some? ==> |r.value.2| < |bs|
  {
    var name := TakeFrame(bs);
    if name.None? || name.value.1 == [] then None
    else
      var data := TakeFrame(name.value.1[1..]);
      if data.None? then None
      else
        var v := ValueOf(name.value.1[0], data.value.0);
        if v.None? then None else Some((name.value.0, v.value, data.value.1))
  }

  function TakeColumns(bs: seq<Byte>): Option<(seq<Bytes>, seq<Value>)>
    decreases |bs|
  {
    if bs == [] then Some(([], []))
    else
      var c := TakeColumn(bs);
      if c.None? then None
      else
        var rest := TakeColumns(c.value.2);
        if rest.None? then None else Some(([c.value.0] + rest.value.0, [c.value.1] + rest.value.1))
  }

  function Decode(bs: seq<Byte>): Option<Named> {
    var t := TakeFrame(bs);
    if t.None? then None
    else
      var cs := TakeColumns(t.value.1);
      if cs.None? then None else Some(Named(t.value.0, cs.value.0, cs.value.1))
  }

  lemma FrameRoundTrip(data: Bytes, rest: seq<Byte>)
    ensures TakeFrame(Framed(data) + rest) == Some((data, rest))
  {
    hide FromBigEndian, BigEndian;
    EightBytesHoldAWord();
    BigEndianRoundTrip(|data|, 8);
    var bs := Framed(data) + rest;
    assert bs[..8] == BigEndian(|data|, 8);
    assert bs[8..8 + |data|] == data && bs[8 + |data|..] == rest;
  }

  lemma ValueRoundTrip(v: Value)
    requires !v.Unsupported?
    ensures ValueOf(Tag(v), Payload(v)) == Some(v)
  {
    hide FromBigEndian, BigEndian;
    EightBytesHoldAWord();
    match v
    case Integer(n) => BigEndianRoundTrip(Unsigned(n), 8);
    case Float(bits) => BigEndianRoundTrip(bits, 8);
    case _ =>
  }

  lemma ColumnRoundTrip(name: Bytes, v: Value, rest: seq<Byte>)
    requires !v.Unsupported?
    ensures TakeColumn(Framed(name) + Encoded(v) + rest) == Some((name, v, rest))
  {
    hide TakeFrame, Framed, ValueOf, Payload, Tag;
    var tail := [Tag(v)] + (Framed(Payload(v)) + rest);
    assert Framed(name) + Encoded(v) + rest == Framed(name) + tail;
    FrameRoundTrip(name, tail);
    FrameRoundTrip(Payload(v), rest);
    assert tail[1..] == Framed(Payload(v)) + rest;
    ValueRoundTrip(v);
  }

  lemma {:induction false} ColumnsRoundTrip(n: Named, i: nat)
    requires Shaped(n) && Supported(n) && i <= |n.columns|
    ensures TakeColumns(Columns(n, i)) == Some((n.columns[i..], n.values[i..]))
    decreases |n.columns| - i
  {
    hide TakeColumn, Encoded, Framed;
    if i == |n.columns| {
      assert Columns(n, i) == [] && n.columns[i..] == [] && n.values[i..] == [];
    } else {
      var bs := Columns(n, i);
      ColumnRoundTrip(n.columns[i], n.values[i], Columns(n, i + 1));
      assert bs != [] by {
        assert TakeColumn(bs).Some?;
      }
      ColumnsRoundTrip(n, i + 1);
      assert [n.columns[i]] + n.columns[i + 1..] == n.columns[i..];
      assert [n.values[i]] + n.values[i + 1..] == n.values[i..];
    }
  }

  /** Table, columns and typed values come back from every hashed string. */
  lemma DecodeRoundTrip(n: Named)
    requires Shaped(n) && Supported(n)
    ensures Decode(Preimage(n)) == Some(n)
  {
    hide TakeColumns, Columns, Framed, TakeFrame;
    FrameRoundTrip(n.table, Columns(n, 0));
    ColumnsRoundTrip(n, 0);
  }

  /** No two identities are hashed from the same bytes. */
  lemma PreimageIsInjective(m: Named, n: Named)
    requires Shaped(m) && Supported(m) && Shaped(n) && Supported(n)
    ensures Preimage(m) == Preimage(n) <==> m == n
  {
    DecodeRoundTrip(m);
    DecodeRoundTrip(n);
  }

  // ---------- The identity of a row ----------

  datatype Kind = AllColumns | ClaudeRequest | CodexRequest | Raw | PendingTtft

  datatype Spec = Spec(table: Bytes, kind: Kind, columns: seq<Bytes>)

  type Record = map<Bytes, Value>

  function Ascii(s: string): Bytes
    requires |s| < WORD
  {
    seq(|s|, i requires 0 <= i < |s| => s[i] as int % 256)
  }

  function Cols(names: seq<string>): (bs: seq<Bytes>)
    requires forall i :: 0 <= i < |names| ==> |names[i]| < WORD
    ensures |bs| == |names|
  {
    seq(|names|, i requires 0 <= i < |names| => Ascii(names[i]))
  }

  const REQUEST_ID := Ascii("request_id")

  const CLAUDE_TUPLE := Cols(["timestamp", "session_id", "prompt_id", "event_sequence", "model", "input_tokens", "output_tokens", "duration_ms"])

  const CODEX_TUPLE := Cols(["timestamp", "session_id", "model", "input_tokens", "output_tokens", "duration_ms"])

  const PENDING_TUPLE := Cols(["session_id", "model", "span_end_unix", "ttft_ms"])

  predicate HasRequestId(r: Record) {
    REQUEST_ID in r && r[REQUEST_ID].Str? && r[REQUEST_ID].text != []
  }

  function IdentityColumns(spec: Spec, r: Record): seq<Bytes> {
    match spec.kind
    case ClaudeRequest => if HasRequestId(r) then [REQUEST_ID] else CLAUDE_TUPLE
    case CodexRequest => CODEX_TUPLE
    case PendingTtft => if HasRequestId(r) then [REQUEST_ID] else PENDING_TUPLE
    case _ => spec.columns
  }

  /** whole answers the integer a float stands for, when it stands for one. */
  function Normalized(whole: Word -> Option<Int64>, v: Value): Value {
    match v
    case Blob(data) => Str(data)
    case Float(bits) => if whole(bits).Some? then Integer(whole(bits).value) else v
    case _ => v
  }

  function ColumnValue(whole: Word -> Option<Int64>, r: Record, column: Bytes): Value {
    if column in r then Normalized(whole, r[column]) else Nil
  }

  function IdentityFor(whole: Word -> Option<Int64>, spec: Spec, r: Record): (n: Named)
    ensures Shaped(n)
  {
    var columns := IdentityColumns(spec, r);
    Named(spec.table, columns, seq(|columns|, i requires 0 <= i < |columns| => ColumnValue(whole, r, columns[i])))
  }

  ghost predicate CollisionFree(sha: seq<Byte> -> string) {
    forall a, b :: sha(a) == sha(b) ==> a == b
  }

  /** Same table, identified the same way, and equal there after normalization. */
  predicate SameRecord(whole: Word -> Option<Int64>, s: Spec, a: Record, t: Spec, b: Record) {
    && s.table == t.table && IdentityColumns(s, a) == IdentityColumns(t, b)
    && forall c :: c in IdentityColumns(s, a) ==> ColumnValue(whole, a, c) == ColumnValue(whole, b, c)
  }

  /** Ledger ids agree exactly on the rows that are the same record; in
      particular a row identified by its request id never meets one identified
      by its tuple, and rows of different tables never meet. */
  lemma LedgerIdsIdentify(sha: seq<Byte> -> string, whole: Word -> Option<Int64>, s: Spec, a: Record, t: Spec, b: Record)
    requires CollisionFree(sha)
    requires Supported(IdentityFor(whole, s, a)) && Supported(IdentityFor(whole, t, b))
    ensures sha(Preimage(IdentityFor(whole, s, a))) == sha(Preimage(IdentityFor(whole, t, b))) <==> SameRecord(whole, s, a, t, b)
  {
    hide IdentityColumns, ColumnValue, Preimage;
    var m, n := IdentityFor(whole, s, a), IdentityFor(whole, t, b);
    PreimageIsInjective(m, n);
    if SameRecord(whole, s, a, t, b) {
      assert m.values == n.values;
    }
    if m == n {
      forall c | c in IdentityColumns(s, a) ensures ColumnValue(whole, a, c) == ColumnValue(whole, b, c) {
        var i :| 0 <= i < |m.columns| && m.columns[i] == c;
        assert m.values[i] == n.values[i];
      }
    }
  }
}
