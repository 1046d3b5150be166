/**
 The converters between SSZ values and their JSON form: `ssz_to_json` prints a value by its kind,
 `json_to_ssz` parses JSON by a type.

 The constructors of the ssz library appear only through the checks they make of their data: the
 length of a vector, the limit of a list, the range of an unsigned integer.
 */
module SszJson {
  import opened Wrappers

  datatype SszType =
    | ContainerT(fields: seq<FieldT>)
    | ByteVectorT(length: nat)
    | ByteListT(limit: nat)
    | VectorT(elem: SszType, length: nat)
    | ListT(elem: SszType, limit: nat)
    | BitVectorT(length: nat)
    | BitListT(limit: nat)
    | UintT(bits: nat)
    | BooleanT

  datatype FieldT = FieldT(name: string, typ: SszType)

  type Byte = n: nat | n < 256

  datatype Ssz =
    | ContainerV(fields: seq<FieldV>)
    | BytesV(data: seq<Byte>)
    | SequenceV(elems: seq<Ssz>)
    | BitsV(bits: seq<bool>)
    | UintV(n: nat)
    | BooleanV(b: bool)

  datatype FieldV = FieldV(name: string, value: Ssz)

  /** What `json.load` returns. */
  datatype Json =
    | JNull
    | JBool(b: bool)
    | JInt(n: int)
    | JFloat(text: string)
    | JStr(s: string)
    | JArr(items: seq<Json>)
    | JObj(fields: map<string, Json>)

  datatype Error = TypeError | KeyError | ValueError

  /************************************* Typed values *************************************/

  function Pow2(n: nat): nat {
    if n == 0 then 1 else 2 * Pow2(n - 1)
  }

  /** The names of a class's fields are distinct. */
  predicate WellFormed(t: SszType)
    decreases t, 0
  {
    match t
    case ContainerT(fields) =>
      && (forall i, j :: 0 <= i < j < |fields| ==> fields[i].name != fields[j].name)
      && (forall f | f in fields :: WellFormed(f.typ))
    case VectorT(elem, _) => WellFormed(elem)
    case ListT(elem, _) => WellFormed(elem)
    case _ => true
  }

  predicate HasType(v: Ssz, t: SszType)
    decreases t, 0
  {
    match t
    case ContainerT(fields) => v.ContainerV? && FieldsHaveType(v.fields, fields)
    case ByteVectorT(length) => v.BytesV? && |v.data| == length
    case ByteListT(limit) => v.BytesV? && |v.data| <= limit
    case VectorT(elem, length) => v.SequenceV? && |v.elems| == length && forall e | e in v.elems :: HasType(e, elem)
    case ListT(elem, limit) => v.SequenceV? && |v.elems| <= limit && forall e | e in v.elems :: HasType(e, elem)
    case BitVectorT(length) => v.BitsV? && |v.bits| == length
    case BitListT(limit) => v.BitsV? && |v.bits| <= limit
    case UintT(bits) => v.UintV? && v.n < Pow2(bits)
    case BooleanT => v.BooleanV?
  }

  predicate FieldsHaveType(vs: seq<FieldV>, fs: seq<FieldT>)
    decreases fs, 0
  {
    if fs == [] then vs == []
    else vs != [] && vs[0].name == fs[0].name && HasType(vs[0].value, fs[0].typ) && FieldsHaveType(vs[1..], fs[1..])
  }

  /**************************************** Hex text ****************************************/

  function HexDigit(n: nat): char
    requires n < 16
  {
    if n < 10 then '0' + n as char else 'a' + (n - 10) as char
  }

  function DigitValue(c: char): Option<nat> {
    if '0' <= c <= '9' then Some(c as nat - '0' as nat)
    else if 'a' <= c <= 'f' then Some(c as nat - 'a' as nat + 10)
    else if 'A' <= c <= 'F' then Some(c as nat - 'A' as nat + 10)
    else None
  }

  /** `bytes.hex()` */
  function Hex(data: seq<Byte>): string {
    if data == [] then "" else [HexDigit(data[0] / 16), HexDigit(data[0] % 16)] + Hex(data[1..])
  }

  predicate IsAsciiSpace(c: char) {
    c as int == 0x20 || 0x09 <= c as int <= 0x0d
  }

  /** `bytes.fromhex`: two digits a byte, with blanks allowed between bytes; None for ValueError. */
  function FromHexBody(s: string): Option<seq<Byte>> {
    if s == "" then Some([])
    else if IsAsciiSpace(s[0]) then FromHexBody(s[1..])
    else if |s| < 2 then None
    else match (DigitValue(s[0]), DigitValue(s[1]), FromHexBody(s[2..]))
      case (Some(hi), Some(lo), Some(rest)) => Some([ByteOf(hi, lo)] + rest)
      case _ => None
  }

  function ByteOf(hi: nat, lo: nat): Byte {
    if hi < 16 && lo < 16 then hi * 16 + lo else 0
  }

  /** `_to_hex` */
  function ToHex(data: seq<Byte>): string {
    "0x" + Hex(data)
  }

  /** `_from_hex` */
  function FromHex(s: string): Result<seq<Byte>, Error> {
    if "0x" <= s then
      match FromHexBody(s[2..])
      case Some(data) => Ok(data)
      case None => Err(ValueError)
    else Err(ValueError)
  }

  lemma DigitRoundTrip(n: nat)
    requires n < 16
    ensures DigitValue(HexDigit(n)) == Some(n) && !IsAsciiSpace(HexDigit(n))
  {
  }

  lemma {:induction false} HexRoundTrip(data: seq<Byte>)
    ensures FromHexBody(Hex(data)) == Some(data)
  {
    if data != [] {
      DigitRoundTrip(data[0] / 16);
      DigitRoundTrip(data[0] % 16);
      assert Hex(data)[2..] == Hex(data[1..]);
      HexRoundTrip(data[1..]);
      assert ByteOf(data[0] / 16, data[0] % 16) == data[0];
      assert data == [data[0]] + data[1..];
    }
  }

  function Lower(c: char): char {
    if 'A' <= c <= 'F' then c - 'A' + 'a' else c
  }

  /** The text without blanks and with lower-case digits. */
  function CanonHex(s: string): string {
    if s == "" then ""
    else if IsAsciiSpace(s[0]) then CanonHex(s[1..])
    else [Lower(s[0])] + CanonHex(s[1..])
  }

  lemma DigitCanon(c: char)
    requires DigitValue(c).Some?
    ensures DigitValue(c).value < 16 && HexDigit(DigitValue(c).value) == Lower(c) && !IsAsciiSpace(c)
  {
  }

  lemma CanonOfPair(s: string)
    requires |s| >= 2 && !IsAsciiSpace(s[0]) && !IsAsciiSpace(s[1])
    ensures CanonHex(s) == [Lower(s[0]), Lower(s[1])] + CanonHex(s[2..])
  {
    assert s[1..][1..] == s[2..];
  }

  lemma HexCons(b: Byte, rest: seq<Byte>)
    ensures Hex([b] + rest) == [HexDigit(b / 16), HexDigit(b % 16)] + Hex(rest)
  {
    assert ([b] + rest)[1..] == rest;
  }

  lemma {:induction false} HexOfFromHex(s: string)
    requires FromHexBody(s).Some?
    ensures Hex(FromHexBody(s).value) == CanonHex(s)
    decreases |s|
  {
    if s == "" {
    } else if IsAsciiSpace(s[0]) {
      HexOfFromHex(s[1..]);
    } else {
      DigitCanon(s[0]);
      DigitCanon(s[1]);
      HexOfFromHex(s[2..]);
      CanonOfPair(s);
      HexCons(ByteOf(DigitValue(s[0]).value, DigitValue(s[1]).value), FromHexBody(s[2..]).value);
    }
  }

  /************************************** The printer **************************************/

  function Print(v: Ssz): Json
    decreases v, 0
  {
    match v
    case ContainerV(fields) => JObj(PrintFields(fields))
    case SequenceV(elems) => JArr(PrintAll(elems))
    case BytesV(data) => JStr(ToHex(data))
    case BitsV(bits) => JArr(Bools(bits))
    case UintV(n) => JInt(n)
    case BooleanV(b) => JBool(b)
  }

  function PrintFields(fs: seq<FieldV>): map<string, Json>
    decreases fs, 0
  {
    if fs == [] then map[]
    else
      var last := fs[|fs| - 1];
      PrintFields(fs[..|fs| - 1])[last.name := Print(last.value)]
  }

  function PrintAll(vs: seq<Ssz>): (js: seq<Json>)
    ensures |js| == |vs|
    ensures forall i :: 0 <= i < |vs| ==> js[i] == Print(vs[i])
    decreases vs, 0
  {
    if vs == [] then [] else [Print(vs[0])] + PrintAll(vs[1..])
  }

  /** `bitfield_to_bool_list` */
  function Bools(bits: seq<bool>): (js: seq<Json>)
    ensures |js| == |bits| && forall i :: 0 <= i < |bits| ==> js[i] == JBool(bits[i])
  {
    seq(|bits|, i requires 0 <= i < |bits| => JBool(bits[i]))
  }

  /** `ssz_to_json` */
  method SszToJson(v: Ssz) returns (j: Json)
    ensures j == Print(v)
    decreases v
  {
    match v {
      case ContainerV(fields) =>
        var out: map<string, Json> := map[];
        for i := 0 to |fields|
          invariant out == PrintFields(fields[..i])
        {
          assert fields[..i + 1][..i] == fields[..i];
          var sub := SszToJson(fields[i].value);
          out := out[fields[i].name := sub];
        }
        assert fields[..|fields|] == fields;
        j := JObj(out);
      case SequenceV(elems) =>
        var items: seq<Json> := [];
        for i := 0 to |elems|
          invariant |items| == i && forall k :: 0 <= k < i ==> items[k] == Print(elems[k])
        {
          var e := SszToJson(elems[i]);
          items := items + [e];
        }
        assert items == PrintAll(elems);
        j := JArr(items);
      case _ =>
        j := Print(v);
    }
  }

  /************************************** The parser **************************************/

  function Check(ok: bool, v: Ssz): Result<Ssz, Error> {
    if ok then Ok(v) else Err(ValueError)
  }

  function AsInt(j: Json): int
    requires j.JInt? || j.JBool?
  {
    if j.JInt? then j.n else if j.b then 1 else 0
  }

  function BitsOf(items: seq<Json>): seq<bool>
    requires forall x | x in items :: x.JBool?
  {
    seq(|items|, i requires 0 <= i < |items| => items[i].b)
  }

  function Parse(j: Json, t: SszType): Result<Ssz, Error>
    decreases t, 0
  {
    match t
    case ContainerT(fields) =>
      if !j.JObj? then Err(TypeError)
      else (match ParseFields(j.fields, fields)
        case Ok(vs) => Ok(ContainerV(vs))
        case Err(e) => Err(e))
    case ByteVectorT(length) =>
      if !j.JStr? then Err(TypeError)
      else (match FromHex(j.s)
        case Ok(data) => Check(|data| == length, BytesV(data))
        case Err(e) => Err(e))
    case ByteListT(limit) =>
      if !j.JStr? then Err(TypeError)
      else (match FromHex(j.s)
        case Ok(data) => Check(|data| <= limit, BytesV(data))
        case Err(e) => Err(e))
    case VectorT(elem, length) =>
      if !j.JArr? then Err(TypeError)
      else (match ParseAll(j.items, elem)
        case Ok(vs) => Check(|vs| == length, SequenceV(vs))
        case Err(e) => Err(e))
    case ListT(elem, limit) =>
      if !j.JArr? then Err(TypeError)
      else (match ParseAll(j.items, elem)
        case Ok(vs) => Check(|vs| <= limit, SequenceV(vs))
        case Err(e) => Err(e))
    case BitVectorT(length) =>
      if !j.JArr? || (exists x | x in j.items :: !x.JBool?) then Err(TypeError)
      else Check(|j.items| == length, BitsV(BitsOf(j.items)))
    case BitListT(limit) =>
      if !j.JArr? || (exists x | x in j.items :: !x.JBool?) then Err(TypeError)
      else Check(|j.items| <= limit, BitsV(BitsOf(j.items)))
    case UintT(bits) =>
      if !j.JInt? && !j.JBool? then Err(TypeError)
      else if 0 <= AsInt(j) < Pow2(bits) then Ok(UintV(AsInt(j))) else Err(ValueError)
    case BooleanT =>
      if j.JBool? then Ok(BooleanV(j.b))
      else if j.JInt? && (j.n == 0 || j.n == 1) then Ok(BooleanV(j.n == 1))
      else Err(TypeError)
  }

  function ParseFields(obj: map<string, Json>, fs: seq<FieldT>): Result<seq<FieldV>, Error>
    decreases fs, 0
  {
    if fs == [] then Ok([])
    else if fs[0].name !in obj then Err(KeyError)
    else match Parse(obj[fs[0].name], fs[0].typ)
      case Err(e) => Err(e)
      case Ok(v) =>
        match ParseFields(obj, fs[1..])
        case Err(e) => Err(e)
        case Ok(rest) => Ok([FieldV(fs[0].name, v)] + rest)
  }

  function ParseAll(js: seq<Json>, t: SszType): Result<seq<Ssz>, Error>
    decreases t, |js| + 1
  {
    if js == [] then Ok([])
    else match Parse(js[0], t)
      case Err(e) => Err(e)
      case Ok(v) =>
        match ParseAll(js[1..], t)
        case Err(e) => Err(e)
        case Ok(rest) => Ok([v] + rest)
  }

  /** A parsed list with `done` before it. */
  function Prepend<T>(done: seq<T>, r: Result<seq<T>, Error>): Result<seq<T>, Error> {
    match r
    case Ok(rest) => Ok(done + rest)
    case Err(e) => Err(e)
  }

  lemma PrependLaws<T>(done: seq<T>, v: T, r: Result<seq<T>, Error>)
    ensures Prepend([], r) == r
    ensures Prepend(done, Prepend([v], r)) == Prepend(done + [v], r)
  {
    if r.Ok? {
      assert [] + r.value == r.value;
      assert done + ([v] + r.value) == done + [v] + r.value;
    }
  }

  /** `json_to_ssz` */
  method JsonToSsz(j: Json, t: SszType) returns (r: Result<Ssz, Error>)
    requires WellFormed(t)
    ensures r == Parse(j, t)
    decreases t
  {
    match t {
      case ContainerT(fields) =>
        if !j.JObj? {
          return Err(TypeError);
        }
        r := ParseContainer(j.fields, t);
      case VectorT(elem, length) =>
        if !j.JArr? {
          return Err(TypeError);
        }
        var all := ParseElements(j.items, t, elem);
        if all.Err? {
          return Err(all.error);
        }
        r := Check(|all.value| == length, SequenceV(all.value));
      case ListT(elem, limit) =>
        if !j.JArr? {
          return Err(TypeError);
        }
        var all := ParseElements(j.items, t, elem);
        if all.Err? {
          return Err(all.error);
        }
        r := Check(|all.value| <= limit, SequenceV(all.value));
      case _ =>
        r := Parse(j, t);
    }
  }

  /** The comprehension `[json_to_ssz(e, typ.ELEMENT_TYPE) for e in j]` */
  method ParseElements(js: seq<Json>, ghost t: SszType, elem: SszType) returns (r: Result<seq<Ssz>, Error>)
    requires WellFormed(elem) && elem < t
    ensures r == ParseAll(js, elem)
    decreases t, 0
  {
    var vs: seq<Ssz> := [];
    assert js[0..] == js;
    assert Prepend(vs, ParseAll(js, elem)) == ParseAll(js, elem) by {
      PrependLaws([], BooleanV(true), ParseAll(js, elem));
    }
    for i := 0 to |js|
      invariant |vs| == i
      invariant ParseAll(js, elem) == Prepend(vs, ParseAll(js[i..], elem))
    {
      assert js[i..][1..] == js[i + 1..];
      var v := JsonToSsz(js[i], elem);
      if v.Err? {
        return Err(v.error);
      }
      PrependLaws(vs, v.value, ParseAll(js[i + 1..], elem));
      assert ParseAll(js[i..], elem) == Prepend([v.value], ParseAll(js[i + 1..], elem));
      vs := vs + [v.value];
    }
    assert js[|js|..] == [] && vs + [] == vs;
    return Ok(vs);
  }

  /** The container branch: the fields are collected in `kwargs`, then the value is built from them. */
  method ParseContainer(obj: map<string, Json>, t: SszType) returns (r: Result<Ssz, Error>)
    requires t.ContainerT? && WellFormed(t)
    ensures r == Parse(JObj(obj), t)
    decreases t, 0
  {
    var fields := t.fields;
    var kwargs: map<string, Ssz> := map[];
    ghost var done: seq<FieldV> := [];
    assert fields[0..] == fields;
    assert Prepend(done, ParseFields(obj, fields)) == ParseFields(obj, fields) by {
      PrependLaws([], FieldV("", BooleanV(true)), ParseFields(obj, fields));
    }
    for i := 0 to |fields|
      invariant |done| == i
      invariant forall k :: 0 <= k < i ==>
                  && done[k].name == fields[k].name && fields[k].name in kwargs
                  && done[k].value == kwargs[fields[k].name]
      invariant ParseFields(obj, fields) == Prepend(done, ParseFields(obj, fields[i..]))
    {
      var name := fields[i].name;
      assert fields[i..][1..] == fields[i + 1..];
      if name !in obj {
        return Err(KeyError);
      }
      assert fields[i] in fields;
      var v := JsonToSsz(obj[name], fields[i].typ);
      if v.Err? {
        return Err(v.error);
      }
      PrependLaws(done, FieldV(name, v.value), ParseFields(obj, fields[i + 1..]));
      kwargs := kwargs[name := v.value];
      done := done + [FieldV(name, v.value)];
    }
    assert fields[|fields|..] == [] && done + [] == done;
    var values := seq(|fields|, i requires 0 <= i < |fields| && fields[i].name in kwargs =>
                        FieldV(fields[i].name, kwargs[fields[i].name]));
    assert values == done;
    return Ok(ContainerV(values));
  }

  /************************************** Round trip **************************************/

  lemma {:induction false} FieldCount(vs: seq<FieldV>, fs: seq<FieldT>)
    requires FieldsHaveType(vs, fs)
    ensures |vs| == |fs| && forall i :: 0 <= i < |fs| ==> vs[i].name == fs[i].name && HasType(vs[i].value, fs[i].typ)
  {
    if fs != [] {
      FieldCount(vs[1..], fs[1..]);
      forall i | 0 <= i < |fs|
        ensures vs[i].name == fs[i].name && HasType(vs[i].value, fs[i].typ)
      {
        if i > 0 {
          assert vs[i] == vs[1..][i - 1] && fs[i] == fs[1..][i - 1];
        }
      }
    }
  }

  /** With distinct names, the printed object has every field. */
  lemma {:induction false} PrintedField(vs: seq<FieldV>, i: nat)
    requires i < |vs| && forall k :: i < k < |vs| ==> vs[k].name != vs[i].name
    ensures vs[i].name in PrintFields(vs) && PrintFields(vs)[vs[i].name] == Print(vs[i].value)
  {
    if i < |vs| - 1 {
      PrintedField(vs[..|vs| - 1], i);
    }
  }

  /** Printing a value and parsing the text by the value's type gives the value back. */
  lemma {:induction false} RoundTrip(v: Ssz, t: SszType)
    requires WellFormed(t) && HasType(v, t)
    ensures Parse(Print(v), t) == Ok(v)
    decreases t, 0
  {
    match t {
      case ContainerT(fields) =>
        FieldCount(v.fields, fields);
        forall i | 0 <= i < |fields|
          ensures v.fields[i].name in PrintFields(v.fields)
                  && PrintFields(v.fields)[v.fields[i].name] == Print(v.fields[i].value)
        {
          PrintedField(v.fields, i);
        }
        FieldsRoundTrip(PrintFields(v.fields), v.fields, fields);
      case ByteVectorT(_) =>
        HexRoundTrip(v.data);
        assert ToHex(v.data)[2..] == Hex(v.data);
      case ByteListT(_) =>
        HexRoundTrip(v.data);
        assert ToHex(v.data)[2..] == Hex(v.data);
      case VectorT(elem, _) =>
        AllRoundTrip(v.elems, elem);
      case ListT(elem, _) =>
        AllRoundTrip(v.elems, elem);
      case BitVectorT(_) =>
        BitsRoundTrip(v.bits);
      case BitListT(_) =>
        BitsRoundTrip(v.bits);
      case UintT(_) =>
      case BooleanT =>
    }
  }

  lemma {:induction false} FieldsRoundTrip(obj: map<string, Json>, vs: seq<FieldV>, fs: seq<FieldT>)
    requires FieldsHaveType(vs, fs) && forall f | f in fs :: WellFormed(f.typ)
    requires forall i :: 0 <= i < |vs| ==> vs[i].name in obj && obj[vs[i].name] == Print(vs[i].value)
    ensures ParseFields(obj, fs) == Ok(vs)
    decreases fs, 0
  {
    if fs != [] {
      RoundTrip(vs[0].value, fs[0].typ);
      forall i | 0 <= i < |vs[1..]|
        ensures vs[1..][i].name in obj && obj[vs[1..][i].name] == Print(vs[1..][i].value)
      {
        assert vs[1..][i] == vs[i + 1];
      }
      FieldsRoundTrip(obj, vs[1..], fs[1..]);
      assert vs == [FieldV(fs[0].name, vs[0].value)] + vs[1..];
    }
  }

  lemma {:induction false} AllRoundTrip(vs: seq<Ssz>, t: SszType)
    requires WellFormed(t) && forall e | e in vs :: HasType(e, t)
    ensures ParseAll(PrintAll(vs), t) == Ok(vs)
    decreases t, |vs| + 1
  {
    if vs != [] {
      RoundTrip(vs[0], t);
      AllRoundTrip(vs[1..], t);
      assert PrintAll(vs)[1..] == PrintAll(vs[1..]);
      assert vs == [vs[0]] + vs[1..];
    }
  }

  lemma BitsRoundTrip(bits: seq<bool>)
    ensures (forall x | x in Bools(bits) :: x.JBool?) && BitsOf(Bools(bits)) == bits
  {
  }

  /** What the parser accepts is a value of the type. */
  lemma {:induction false} ParseTyped(j: Json, t: SszType)
    ensures Parse(j, t).Ok? ==> HasType(Parse(j, t).value, t)
    decreases t, 0
  {
    match t {
      case ContainerT(fields) => if j.JObj? { FieldsTyped(j.fields, fields); }
      case VectorT(elem, _) => if j.JArr? { AllTyped(j.items, elem); }
      case ListT(elem, _) => if j.JArr? { AllTyped(j.items, elem); }
      case _ =>
    }
  }

  lemma {:induction false} FieldsTyped(obj: map<string, Json>, fs: seq<FieldT>)
    ensures ParseFields(obj, fs).Ok? ==> FieldsHaveType(ParseFields(obj, fs).value, fs)
    decreases fs, 0
  {
    if fs != [] && fs[0].name in obj {
      ParseTyped(obj[fs[0].name], fs[0].typ);
      FieldsTyped(obj, fs[1..]);
    }
  }

  lemma {:induction false} AllTyped(js: seq<Json>, t: SszType)
    ensures ParseAll(js, t).Ok? ==>
              |ParseAll(js, t).value| == |js| && forall e | e in ParseAll(js, t).value :: HasType(e, t)
    decreases t, |js| + 1
  {
    if js != [] {
      ParseTyped(js[0], t);
      AllTyped(js[1..], t);
    }
  }

  /** Printing loses nothing about a value of a known type. */
  lemma PrintInjective(v: Ssz, w: Ssz, t: SszType)
    requires WellFormed(t) && HasType(v, t) && HasType(w, t)
    ensures Print(v) == Print(w) <==> v == w
  {
    RoundTrip(v, t);
    RoundTrip(w, t);
  }

  /************************************ The normal form ************************************/

  /**
   The normal form of accepted JSON, without parsing it: undeclared fields dropped, hex text cleaned,
   0, 1 and booleans unified.
   */
  function Canon(j: Json, t: SszType): Json
    decreases t, 0
  {
    match t
    case ContainerT(fields) => if j.JObj? then JObj(CanonFields(j.fields, fields)) else j
    case ByteVectorT(_) => if j.JStr? && |j.s| >= 2 then JStr("0x" + CanonHex(j.s[2..])) else j
    case ByteListT(_) => if j.JStr? && |j.s| >= 2 then JStr("0x" + CanonHex(j.s[2..])) else j
    case VectorT(elem, _) => if j.JArr? then JArr(CanonAll(j.items, elem)) else j
    case ListT(elem, _) => if j.JArr? then JArr(CanonAll(j.items, elem)) else j
    case BitVectorT(_) => j
    case BitListT(_) => j
    case UintT(_) => if j.JBool? then JInt(if j.b then 1 else 0) else j
    case BooleanT => if j.JInt? then JBool(j.n == 1) else j
  }

  function CanonFields(obj: map<string, Json>, fs: seq<FieldT>): map<string, Json>
    decreases fs, 0
  {
    if fs == [] then map[]
    else
      var rest := CanonFields(obj, fs[1..]);
      if fs[0].name in obj then rest[fs[0].name := Canon(obj[fs[0].name], fs[0].typ)] else rest
  }

  function CanonAll(js: seq<Json>, t: SszType): (r: seq<Json>)
    ensures |r| == |js|
    decreases t, |js| + 1
  {
    if js == [] then [] else [Canon(js[0], t)] + CanonAll(js[1..], t)
  }

  ghost predicate KeysAre(obj: map<string, Json>, names: seq<string>) {
    forall k :: k in obj <==> k in names
  }

  function NamesT(fs: seq<FieldT>): (r: seq<string>)
    ensures |r| == |fs| && forall i :: 0 <= i < |fs| ==> r[i] == fs[i].name
  {
    seq(|fs|, i requires 0 <= i < |fs| => fs[i].name)
  }

  function NamesV(vs: seq<FieldV>): (r: seq<string>)
    ensures |r| == |vs| && forall i :: 0 <= i < |vs| ==> r[i] == vs[i].name
  {
    seq(|vs|, i requires 0 <= i < |vs| => vs[i].name)
  }

  lemma {:induction false} PrintedKeys(vs: seq<FieldV>)
    ensures KeysAre(PrintFields(vs), NamesV(vs))
  {
    if vs != [] {
      var front := vs[..|vs| - 1];
      PrintedKeys(front);
      assert NamesV(vs) == NamesV(front) + [vs[|vs| - 1].name];
    }
  }

  lemma {:induction false} CanonKeys(obj: map<string, Json>, fs: seq<FieldT>)
    requires forall f | f in fs :: f.name in obj
    ensures KeysAre(CanonFields(obj, fs), NamesT(fs))
  {
    if fs != [] {
      CanonKeys(obj, fs[1..]);
      assert NamesT(fs) == [fs[0].name] + NamesT(fs[1..]);
    }
  }

  lemma {:induction false} CanonField(obj: map<string, Json>, fs: seq<FieldT>, i: nat)
    requires i < |fs| && fs[i].name in obj && forall k :: 0 <= k < i ==> fs[k].name != fs[i].name
    ensures fs[i].name in CanonFields(obj, fs)
    ensures CanonFields(obj, fs)[fs[i].name] == Canon(obj[fs[i].name], fs[i].typ)
    decreases |fs|
  {
    if i > 0 {
      assert fs[1..][i - 1] == fs[i];
      forall k | 0 <= k < i - 1
        ensures fs[1..][k].name != fs[1..][i - 1].name
      {
        assert fs[1..][k] == fs[k + 1];
      }
      CanonField(obj, fs[1..], i - 1);
    }
  }

  lemma {:induction false} ParsedFields(obj: map<string, Json>, fs: seq<FieldT>)
    requires ParseFields(obj, fs).Ok?
    ensures var vs := ParseFields(obj, fs).value;
            |vs| == |fs| && forall i :: 0 <= i < |fs| ==>
              vs[i].name == fs[i].name && fs[i].name in obj && Parse(obj[fs[i].name], fs[i].typ) == Ok(vs[i].value)
    decreases |fs|
  {
    if fs != [] {
      ParsedFields(obj, fs[1..]);
      var vs, rest := ParseFields(obj, fs).value, ParseFields(obj, fs[1..]).value;
      forall i | 0 <= i < |fs|
        ensures vs[i].name == fs[i].name && fs[i].name in obj && Parse(obj[fs[i].name], fs[i].typ) == Ok(vs[i].value)
      {
        if i > 0 {
          assert vs[i] == rest[i - 1] && fs[i] == fs[1..][i - 1];
        }
      }
    }
  }

  /** Printing what was parsed gives the normal form of the text. */
  lemma {:induction false} PrintIsCanon(j: Json, t: SszType)
    requires WellFormed(t) && Parse(j, t).Ok?
    ensures Print(Parse(j, t).value) == Canon(j, t)
    decreases t, 1
  {
    match t {
      case ContainerT(fields) =>
        ContainerIsCanon(j.fields, t);
      case ByteVectorT(_) =>
        HexOfFromHex(j.s[2..]);
      case ByteListT(_) =>
        HexOfFromHex(j.s[2..]);
      case VectorT(elem, _) =>
        AllAreCanon(j.items, elem);
      case ListT(elem, _) =>
        AllAreCanon(j.items, elem);
      case BitVectorT(_) =>
        BitsAreCanon(j.items);
      case BitListT(_) =>
        BitsAreCanon(j.items);
      case UintT(_) =>
      case BooleanT =>
    }
  }

  lemma BitsAreCanon(items: seq<Json>)
    requires forall x | x in items :: x.JBool?
    ensures Bools(BitsOf(items)) == items
  {
    forall i | 0 <= i < |items|
      ensures items[i] == JBool(items[i].b)
    {
      assert items[i] in items;
    }
  }

  lemma {:induction false} AllAreCanon(js: seq<Json>, t: SszType)
    requires WellFormed(t) && ParseAll(js, t).Ok?
    ensures PrintAll(ParseAll(js, t).value) == CanonAll(js, t)
    decreases t, |js| + 1
  {
    if js != [] {
      PrintIsCanon(js[0], t);
      AllAreCanon(js[1..], t);
      assert ParseAll(js, t).value[1..] == ParseAll(js[1..], t).value;
    }
  }

  lemma {:induction false} ContainerIsCanon(obj: map<string, Json>, t: SszType)
    requires t.ContainerT? && WellFormed(t) && ParseFields(obj, t.fields).Ok?
    ensures PrintFields(ParseFields(obj, t.fields).value) == CanonFields(obj, t.fields)
    decreases t, 0
  {
    var fs := t.fields;
    var vs := ParseFields(obj, fs).value;
    ParsedFields(obj, fs);
    PrintedKeys(vs);
    CanonKeys(obj, fs);
    assert NamesV(vs) == NamesT(fs);
    forall k | k in PrintFields(vs)
      ensures PrintFields(vs)[k] == CanonFields(obj, fs)[k]
    {
      var i :| 0 <= i < |fs| && NamesT(fs)[i] == k;
      assert fs[i] in fs;
      PrintIsCanon(obj[k], fs[i].typ);
      FieldIsCanon(obj, fs, i);
    }
  }

  lemma FieldIsCanon(obj: map<string, Json>, fs: seq<FieldT>, i: nat)
    requires WellFormed(ContainerT(fs)) && ParseFields(obj, fs).Ok? && i < |fs|
    requires fs[i].name in obj && Parse(obj[fs[i].name], fs[i].typ).Ok?
    requires Print(Parse(obj[fs[i].name], fs[i].typ).value) == Canon(obj[fs[i].name], fs[i].typ)
    ensures var vs, name := ParseFields(obj, fs).value, fs[i].name;
            && name in PrintFields(vs) && name in CanonFields(obj, fs)
            && PrintFields(vs)[name] == CanonFields(obj, fs)[name]
  {
    ParsedFields(obj, fs);
    PrintedField(ParseFields(obj, fs).value, i);
    CanonField(obj, fs, i);
  }

  /** Parsing normalises: printing and reparsing gives the same value, and the printed text is its own normal form. */
  lemma ParseNormalises(j: Json, t: SszType)
    requires WellFormed(t) && Parse(j, t).Ok?
    ensures Print(Parse(j, t).value) == Canon(j, t)
    ensures Parse(Canon(j, t), t) == Parse(j, t) && Canon(Canon(j, t), t) == Canon(j, t)
  {
    ParseTyped(j, t);
    PrintIsCanon(j, t);
    RoundTrip(Parse(j, t).value, t);
    PrintIsCanon(Canon(j, t), t);
  }

  /** Two accepted texts denote the same value exactly if they have the same normal form. */
  lemma SameValueIffSameCanon(j: Json, k: Json, t: SszType)
    requires WellFormed(t) && Parse(j, t).Ok? && Parse(k, t).Ok?
    ensures Parse(j, t) == Parse(k, t) <==> Canon(j, t) == Canon(k, t)
  {
    ParseNormalises(j, t);
    ParseNormalises(k, t);
  }

  /** The printer's output is exactly the accepted JSON in normal form. */
  lemma PrintedIffCanonical(j: Json, t: SszType)
    requires WellFormed(t)
    ensures (exists v :: HasType(v, t) && Print(v) == j) <==> Parse(j, t).Ok? && Canon(j, t) == j
  {
    if v :| HasType(v, t) && Print(v) == j {
      RoundTrip(v, t);
      PrintIsCanon(j, t);
    }
    if Parse(j, t).Ok? && Canon(j, t) == j {
      ParseTyped(j, t);
      PrintIsCanon(j, t);
      assert HasType(Parse(j, t).value, t) && Print(Parse(j, t).value) == j;
    }
  }
}
