/** Constants as they stand in a printed node tree (src/catalog/constant-storage-bytes.ts and the decoders' entry
    points): fields of a CONST node, its bytes, and the value those bytes store. */
module StoredConstants {
  import opened Bytes
  import opened Decimal
  import opened ExpressionTree
  import N = Numeric
  import J = Jsonb
  import Q = Tsquery
  import T = JsonpathTable
  import P = Jsonpath
  import S = JsonpathStored

  // -- Bytes of a constant passed by reference ---------------------------------------------------------------

  predicate Digits(t: string) { t != "" && AllDigits(t) }

  predicate SignedDigits(t: string) { Digits(t) || (t != "" && t[0] == '-' && Digits(t[1..])) }

  function NumberOf(t: string): int
    requires SignedDigits(t)
  {
    if Digits(t) then Val(t) else 0 - Val(t[1..])
  }

  predicate IsByte(v: Value)
  {
    v.Text? && SignedDigits(v.token) && -128 <= NumberOf(v.token) <= 255
  }

  // Signed or not, the low eight bits.
  function ByteOf(v: Value): byte
    requires IsByte(v)
  {
    NumberOf(v.token) % 256
  }

  function BytesOf(vs: seq<Value>): seq<byte>
    requires forall i :: 0 <= i < |vs| ==> IsByte(vs[i])
  {
    seq(|vs|, i requires 0 <= i < |vs| => ByteOf(vs[i]))
  }

  predicate Readable(raw: seq<Value>, length: int)
  {
    |raw| == 2 && raw[0].Text? && Digits(raw[0].token) && raw[1].List? && Val(raw[0].token) == |raw[1].items| &&
    (length >= 0 ==> |raw[1].items| == length) && forall i :: 0 <= i < |raw[1].items| ==> IsByte(raw[1].items[i])
  }

  function ConstBytes(node: Value): Option<seq<Value>>
  {
    if node.Tree? then FieldValues(node.fields, "constvalue") else None
  }

  function StoredReferenceBytes(node: Value, length: int): Option<seq<byte>>
  {
    if Scalar(node, "constisnull") != Some("false") || Scalar(node, "constbyval") != Some("false") ||
       Scalar(node, "constlen") != Some(IntText(length))
    then None
    else match ConstBytes(node)
      case None => None
      case Some(raw) => if Readable(raw, length) then Some(BytesOf(raw[1].items)) else None
  }

  function StoredVarlenaBody(node: Value, order: ByteOrder): Option<seq<byte>>
  {
    match StoredReferenceBytes(node, -1)
    case None => None
    case Some(bytes) =>
      var header := N.HeaderLength(order, bytes);
      if header == 0 then None else Some(bytes[header..])
  }

  // -- What a server prints ------------------------------------------------------------------------------------

  // A byte as a number, from 128 on possibly as a negative one.
  function ByteText(b: byte, signed: bool): string { IntText(if signed && b >= 128 then b - 256 else b) }

  predicate Prints(node: Value, length: int, bytes: seq<byte>, signed: bool)
  {
    Scalar(node, "constisnull") == Some("false") && Scalar(node, "constbyval") == Some("false") &&
    Scalar(node, "constlen") == Some(IntText(length)) && (length >= 0 ==> |bytes| == length) &&
    ConstBytes(node).Some? &&
    var raw := ConstBytes(node).value;
    |raw| == 2 && raw[0] == Text(NatText(|bytes|)) && raw[1].List? && |raw[1].items| == |bytes| &&
    forall i :: 0 <= i < |bytes| ==> raw[1].items[i] == Text(ByteText(bytes[i], signed))
  }

  lemma NumberText(v: int)
    ensures SignedDigits(IntText(v)) && NumberOf(IntText(v)) == v
  {
    if v < 0 {
      NatTextValue(0 - v);
      assert IntText(v)[1..] == NatText(0 - v);
      assert !IsDigit(IntText(v)[0]);
    } else {
      NatTextValue(v);
    }
  }

  lemma ByteTextReads(b: byte, signed: bool)
    ensures IsByte(Text(ByteText(b, signed))) && ByteOf(Text(ByteText(b, signed))) == b
  {
    NumberText(if signed && b >= 128 then b - 256 else b);
    hide IntText, NumberOf, SignedDigits;
  }

  // However a server signs its bytes, the bytes come back.
  lemma PrintedBytes(node: Value, length: int, bytes: seq<byte>, signed: bool)
    requires Prints(node, length, bytes, signed)
    ensures StoredReferenceBytes(node, length) == Some(bytes)
  {
    var raw := ConstBytes(node).value;
    NatTextValue(|bytes|);
    hide ByteText, IntText, NatText, IsByte, ByteOf, Val, Scalar, FieldValues, ConstBytes;
    forall i | 0 <= i < |bytes| ensures IsByte(raw[1].items[i]) && ByteOf(raw[1].items[i]) == bytes[i] {
      ByteTextReads(bytes[i], signed);
    }
    assert Readable(raw, length);
    assert BytesOf(raw[1].items) == bytes;
  }

  // Behind either header the value's own bytes come out.
  lemma PrintedBody(node: Value, order: ByteOrder, short: bool, body: seq<byte>, signed: bool)
    requires |body| + 4 < 0x4000_0000 && (short ==> |body| < 127) &&
      Prints(node, -1, N.Framed(order, short, body), signed)
    ensures StoredVarlenaBody(node, order) == Some(body)
  {
    hide Prints, StoredReferenceBytes, N.Framed, N.HeaderLength;
    PrintedBytes(node, -1, N.Framed(order, short, body), signed);
    N.FramedHeader(order, short, body);
  }

  // -- Exactly what is read ----------------------------------------------------------------------------------------

  // The text is digits that denote `v`, with a minus sign or without.
  predicate Denotes(t: string, v: int)
  {
    (t != "" && AllDigits(t) && v == Val(t)) ||
    (|t| > 1 && t[0] == '-' && AllDigits(t[1..]) && v == 0 - Val(t[1..]))
  }

  // A number from -128 to 255 that is the byte or, below zero, 256 less.
  predicate StatesByte(v: Value, b: byte)
  {
    v.Text? && (Denotes(v.token, b) || (b >= 128 && Denotes(v.token, b - 256)))
  }

  // The node is that of a constant that is there, stored by reference with that type length, and lists these bytes
  // behind their number.
  predicate States(node: Value, length: int, bytes: seq<byte>)
  {
    Scalar(node, "constisnull") == Some("false") && Scalar(node, "constbyval") == Some("false") &&
    Scalar(node, "constlen") == Some(IntText(length)) && (length >= 0 ==> |bytes| == length) &&
    ConstBytes(node).Some? &&
    var raw := ConstBytes(node).value;
    |raw| == 2 && raw[0].Text? && raw[0].token != "" && AllDigits(raw[0].token) && Val(raw[0].token) == |bytes| &&
    raw[1].List? && |raw[1].items| == |bytes| && forall i :: 0 <= i < |bytes| ==> StatesByte(raw[1].items[i], bytes[i])
  }

  lemma SignIsNoDigit(t: string)
    requires t != "" && t[0] == '-'
    ensures !AllDigits(t)
  {
  }

  lemma ByteExactly(v: Value, b: byte)
    ensures IsByte(v) && ByteOf(v) == b <==> StatesByte(v, b)
  {
    hide Val;
    if v.Text? && v.token != "" && v.token[0] == '-' { SignIsNoDigit(v.token); }
  }

  // The bytes that come out are exactly the ones the node states.
  lemma ReferenceExactly(node: Value, length: int, bytes: seq<byte>)
    ensures StoredReferenceBytes(node, length) == Some(bytes) <==> States(node, length, bytes)
  {
    hide IntText, IsByte, ByteOf, StatesByte, Val, Scalar, FieldValues, ConstBytes;
    if ConstBytes(node).Some? {
      var raw := ConstBytes(node).value;
      if |raw| == 2 && raw[1].List? && |raw[1].items| == |bytes| {
        forall i | 0 <= i < |bytes|
          ensures IsByte(raw[1].items[i]) && ByteOf(raw[1].items[i]) == bytes[i] <==> StatesByte(raw[1].items[i], bytes[i])
        {
          ByteExactly(raw[1].items[i], bytes[i]);
        }
        if Readable(raw, length) { assert |BytesOf(raw[1].items)| == |bytes|; }
        if States(node, length, bytes) { assert BytesOf(raw[1].items) == bytes; }
      }
    }
  }

  // A body comes out exactly of bytes that frame it.
  lemma BodyExactly(node: Value, order: ByteOrder, body: seq<byte>)
    ensures StoredVarlenaBody(node, order) == Some(body) <==>
      exists short :: N.FitsHeader(short, body) && States(node, -1, N.Framed(order, short, body))
  {
    hide States, StoredReferenceBytes, N.Framed, N.HeaderLength, N.FitsHeader;
    forall bytes ensures StoredReferenceBytes(node, -1) == Some(bytes) <==> States(node, -1, bytes) {
      ReferenceExactly(node, -1, bytes);
    }
    if StoredVarlenaBody(node, order) == Some(body) {
      N.HeaderStored(order, StoredReferenceBytes(node, -1).value);
    }
    forall short | N.FitsHeader(short, body) && States(node, -1, N.Framed(order, short, body))
      ensures StoredVarlenaBody(node, order) == Some(body)
    {
      N.FramedHeader(order, short, body);
    }
  }

  // -- jsonb, numeric, tsquery and jsonpath constants ---------------------------------------------------------------

  function StoredJsonbConstant(node: Value, order: ByteOrder, utf8: bool): Option<seq<byte>>
  {
    match StoredVarlenaBody(node, order) case None => None case Some(body) => J.StoredJsonb(J.Source(body, order, utf8))
  }

  // The printed constant of a document gives its JSON text, whatever the server's byte order and header form.
  lemma PrintedJsonb(node: Value, order: ByteOrder, utf8: bool, short: bool, v: J.Json, signed: bool)
    requires J.Encodable(utf8, v) && |J.Encode(order, v)| + 4 < J.LENGTHS && (short ==> |J.Encode(order, v)| < 127)
    requires Prints(node, -1, N.Framed(order, short, J.Encode(order, v)), signed)
    ensures StoredJsonbConstant(node, order, utf8) == Some(J.Print(v))
  {
    hide Prints, StoredVarlenaBody, J.Encode, J.Encodable, J.Print, J.StoredJsonb, N.Framed;
    PrintedBody(node, order, short, J.Encode(order, v), signed);
    J.RoundTrip(order, utf8, v);
  }

  datatype Constant<T> = Null | Unreadable | Known(value: T)

  function StoredNumericConstant(node: Value, order: ByteOrder): Constant<string>
  {
    if Scalar(node, "constisnull") == Some("true") then Null
    else match StoredReferenceBytes(node, -1)
      case None => Unreadable
      case Some(bytes) =>
        match N.StorageText(order, bytes) case None => Unreadable case Some(t) => Known(t)
  }

  // A printed numeric reads as its text, whatever its header form and the server's byte order.
  lemma PrintedNumeric(node: Value, order: ByteOrder, n: N.Stored, b: seq<byte>, signed: bool)
    requires N.NumericBytes(order, b, n) && Prints(node, -1, b, signed)
    ensures StoredNumericConstant(node, order) ==
      match N.Numeral(n) case None => Unreadable case Some(t) => Known(t)
  {
    NotNull(node, -1, b, signed);
    hide Prints, StoredReferenceBytes, N.NumericBytes, N.Numeral, N.StorageText, Scalar;
    PrintedBytes(node, -1, b, signed);
    N.EveryForm(order, b);
  }

  lemma NotNull(node: Value, length: int, bytes: seq<byte>, signed: bool)
    requires Prints(node, length, bytes, signed)
    ensures Scalar(node, "constisnull") != Some("true")
  {
    assert |"true"| != |"false"|;
    hide Scalar, ConstBytes, IntText, NatText;
  }

  ghost function StoredTsqueryValue(node: Value, order: ByteOrder, utf8: bool): Constant<Q.Storage>
  {
    if Scalar(node, "constisnull") == Some("true") then Null
    else match StoredVarlenaBody(node, order)
      case None => Unreadable
      case Some(body) =>
        if |body| + 4 >= 0x4000_0000 then Unreadable
        else
          match Q.BothReadings(PutHeader(order, |body| + 4) + body, utf8)
          case None => Unreadable
          case Some(v) => Known(v)
  }

  // Rebuilding the four-byte header makes the header form irrelevant.
  lemma PrintedTsquery(node: Value, order: ByteOrder, utf8: bool, short: bool, q: Option<Q.Query>, signed: bool)
    requires Q.Storable(q, true) && Q.Storable(q, utf8) && |Q.Encode(order, q)| >= 4
    requires |Q.Encode(order, q)| < 0x4000_0000
    requires short ==> |Q.Encode(order, q)| - 4 < 127
    requires Prints(node, -1, N.Framed(order, short, Q.Encode(order, q)[4..]), signed)
    ensures StoredTsqueryValue(node, order, utf8) == Known(Q.StorageOf(q, |Q.Encode(order, q)|))
  {
    hide Prints, StoredVarlenaBody, N.Framed, Scalar, Q.Encode, Q.StorageOf, Q.BothReadings, Q.Storable, PutHeader,
      StoredTsqueryValue;
    var b := Q.Encode(order, q);
    var body := b[4..];
    EncodedHeader(order, q);
    Q.RoundTrip(order, q, utf8);
    PrintedReading(node, order, utf8, short, body, signed, b, Q.StorageOf(q, |b|));
  }

  lemma PrintedReading(
    node: Value, order: ByteOrder, utf8: bool, short: bool, body: seq<byte>, signed: bool, b: seq<byte>, v: Q.Storage)
    requires |body| + 4 < 0x4000_0000 && (short ==> |body| < 127) &&
      Prints(node, -1, N.Framed(order, short, body), signed)
    requires b == PutHeader(order, |body| + 4) + body && Q.BothReadings(b, utf8) == Some(v)
    ensures StoredTsqueryValue(node, order, utf8) == Known(v)
  {
    NotNull(node, -1, N.Framed(order, short, body), signed);
    hide Prints, StoredVarlenaBody, N.Framed, Scalar, Q.BothReadings, PutHeader;
    PrintedBody(node, order, short, body, signed);
  }

  lemma EncodedHeader(order: ByteOrder, q: Option<Q.Query>)
    requires Q.Storable(q, true) && |Q.Encode(order, q)| < 0x4000_0000
    ensures |Q.Encode(order, q)| >= 4
    ensures PutHeader(order, |Q.Encode(order, q)|) + Q.Encode(order, q)[4..] == Q.Encode(order, q)
  {
    hide Q.Items, Q.PoolBytes, PutU32, Q.Limits;
    var count := if q.None? then 0 else Q.Size(q.value);
    var body := if q.None? then [] else Q.Items(order, q.value, 0) + Q.PoolBytes(q.value);
    var head := PutHeader(order, 8 + |body|);
    assert Q.Encode(order, q) == head + (PutU32(order, count) + body);
  }

  ghost function StoredJsonpathValue(node: Value, order: ByteOrder, utf8: bool): Constant<T.Storage>
  {
    if Scalar(node, "constisnull") == Some("true") then Null
    else match StoredVarlenaBody(node, order)
      case None => Unreadable
      case Some(body) =>
        match S.StoredJsonpath(body, order, utf8)
        case None => Unreadable
        case Some(v) => if T.Valid(v) then Known(v) else Unreadable
  }

  // The printed constant of a path gives its table exactly when the path has a text and is portable.
  lemma PrintedJsonpath(node: Value, order: ByteOrder, utf8: bool, short: bool, body: seq<byte>, p: P.Path,
      signed: bool)
    requires |body| + 4 < 0x4000_0000 && (short ==> |body| < 127) &&
      Prints(node, -1, N.Framed(order, short, body), signed)
    requires S.Versioned(order, body)
    requires P.Holds(P.Image(body[4..], order, utf8), 0, p) && P.Unshared(P.Image(body[4..], order, utf8), 0, p)
    ensures StoredJsonpathValue(node, order, utf8) ==
      if P.Print(p, []).Some? && S.Portable(p) then Known(S.Captured(p, S.Lax(order, body))) else Unreadable
  {
    NotNull(node, -1, N.Framed(order, short, body), signed);
    hide Prints, StoredVarlenaBody, N.Framed, Scalar, P.Holds, P.Unshared, P.Print, S.Portable, S.StoredJsonpath,
      T.Valid, S.Versioned, S.Lax;
    PrintedBody(node, order, short, body, signed);
    S.StoredPath(body, order, utf8, p);
  }
}
