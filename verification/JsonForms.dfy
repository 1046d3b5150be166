/**
 The JSON form of SSZ values, by its text: what the printer writes for each kind of value, and exactly which
 JSON the parser accepts for a type.
 */
module JsonForms {
  import opened Wrappers
  import opened SszJson

  const DIGITS := "0123456789abcdef"

  /************************************* What is printed *************************************/

  lemma DigitIs(n: nat)
    requires n < 16
    ensures HexDigit(n) == DIGITS[n]
  {
  }

  /** Two lower-case digits a byte, the higher one first. */
  lemma {:induction false} HexAt(data: seq<Byte>, i: nat)
    requires i < |data|
    ensures |Hex(data)| == 2 * |data|
    ensures Hex(data)[2 * i] == DIGITS[data[i] / 16] && Hex(data)[2 * i + 1] == DIGITS[data[i] % 16]
    decreases |data|
  {
    DigitIs(data[0] / 16);
    DigitIs(data[0] % 16);
    if |data| > 1 {
      HexAt(data[1..], if i > 0 then i - 1 else 0);
      assert i > 0 ==> data[1..][i - 1] == data[i];
    }
  }

  ghost predicate BytesText(j: Json, data: seq<Byte>) {
    && j.JStr? && |j.s| == 2 + 2 * |data| && j.s[0] == '0' && j.s[1] == 'x'
    && forall i :: 0 <= i < |data| ==>
         j.s[2 + 2 * i] == DIGITS[data[i] / 16] && j.s[3 + 2 * i] == DIGITS[data[i] % 16]
  }

  lemma BytesPrinted(data: seq<Byte>)
    ensures BytesText(Print(BytesV(data)), data)
  {
    var text := Print(BytesV(data)).s;
    assert text[2..] == Hex(data) && text[..2] == "0x";
    assert text[0] == text[..2][0] && text[1] == text[..2][1];
    HexLength(data);
    forall i | 0 <= i < |data|
      ensures text[2 + 2 * i] == DIGITS[data[i] / 16] && text[3 + 2 * i] == DIGITS[data[i] % 16]
    {
      HexAt(data, i);
      assert text[2 + 2 * i] == text[2..][2 * i] && text[3 + 2 * i] == text[2..][2 * i + 1];
    }
  }

  lemma HexLength(data: seq<Byte>)
    ensures |Hex(data)| == 2 * |data|
  {
    if data != [] {
      HexAt(data, 0);
    }
  }

  /** The JSON shows the value: objects by field name, lists element by element, bytes as hex digits. */
  ghost predicate Shows(j: Json, v: Ssz, t: SszType)
    decreases t, 0
  {
    match t
    case ContainerT(fields) =>
      && j.JObj? && v.ContainerV? && |v.fields| == |fields|
      && (forall k :: k in j.fields <==> exists i :: 0 <= i < |fields| && fields[i].name == k)
      && forall i | 0 <= i < |fields| :: fields[i].name in j.fields && FieldShows(j, v, fields, i)
    case VectorT(elem, _) =>
      && j.JArr? && v.SequenceV? && |j.items| == |v.elems|
      && forall i | 0 <= i < |v.elems| :: Shows(j.items[i], v.elems[i], elem)
    case ListT(elem, _) =>
      && j.JArr? && v.SequenceV? && |j.items| == |v.elems|
      && forall i | 0 <= i < |v.elems| :: Shows(j.items[i], v.elems[i], elem)
    case ByteVectorT(_) => v.BytesV? && BytesText(j, v.data)
    case ByteListT(_) => v.BytesV? && BytesText(j, v.data)
    case BitVectorT(_) =>
      j.JArr? && v.BitsV? && |j.items| == |v.bits| && forall i :: 0 <= i < |v.bits| ==> j.items[i] == JBool(v.bits[i])
    case BitListT(_) =>
      j.JArr? && v.BitsV? && |j.items| == |v.bits| && forall i :: 0 <= i < |v.bits| ==> j.items[i] == JBool(v.bits[i])
    case UintT(_) => v.UintV? && j == JInt(v.n)
    case BooleanT => v.BooleanV? && j == JBool(v.b)
  }

  ghost predicate FieldShows(j: Json, v: Ssz, fields: seq<FieldT>, i: nat)
    requires j.JObj? && v.ContainerV? && |v.fields| == |fields| && i < |fields| && fields[i].name in j.fields
    decreases fields[i].typ, 1
  {
    v.fields[i].name == fields[i].name && Shows(j.fields[fields[i].name], v.fields[i].value, fields[i].typ)
  }

  /** The printer shows every value of every type. */
  lemma {:induction false} PrintShows(v: Ssz, t: SszType)
    requires WellFormed(t) && HasType(v, t)
    ensures Shows(Print(v), v, t)
    decreases t, 0
  {
    match t {
      case ContainerT(fields) =>
        FieldCount(v.fields, fields);
        PrintedKeys(v.fields);
        assert NamesV(v.fields) == NamesT(fields);
        forall i | 0 <= i < |fields|
          ensures fields[i].name in Print(v).fields && FieldShows(Print(v), v, fields, i)
        {
          assert fields[i] in fields;
          PrintedField(v.fields, i);
          PrintShows(v.fields[i].value, fields[i].typ);
        }
        forall k
          ensures k in Print(v).fields <==> exists i :: 0 <= i < |fields| && fields[i].name == k
        {
          if k in Print(v).fields {
            var i :| 0 <= i < |NamesT(fields)| && NamesT(fields)[i] == k;
            assert fields[i].name == k;
          }
        }
      case VectorT(elem, _) => AllShow(v.elems, elem);
      case ListT(elem, _) => AllShow(v.elems, elem);
      case ByteVectorT(_) => BytesPrinted(v.data);
      case ByteListT(_) => BytesPrinted(v.data);
      case _ =>
    }
  }

  lemma {:induction false} AllShow(vs: seq<Ssz>, t: SszType)
    requires WellFormed(t) && forall e | e in vs :: HasType(e, t)
    ensures forall i | 0 <= i < |vs| :: Shows(Print(vs[i]), vs[i], t)
    decreases t, 1
  {
    forall i | 0 <= i < |vs|
      ensures Shows(Print(vs[i]), vs[i], t)
    {
      PrintShows(vs[i], t);
    }
  }

  /************************************ What is accepted ************************************/

  predicate IsHexDigit(c: char) {
    '0' <= c <= '9' || 'a' <= c <= 'f' || 'A' <= c <= 'F'
  }

  predicate IsBlank(c: char) {
    c == ' ' || c == '\t' || c == '\n' || c == '\r' || c as int == 0x0b || c as int == 0x0c
  }

  /** The text is `n` bytes in hex, two digits each, with blanks at most before, between and behind the bytes. */
  predicate HexPairs(s: string, n: nat) {
    if s == "" then n == 0
    else if IsBlank(s[0]) then HexPairs(s[1..], n)
    else |s| >= 2 && IsHexDigit(s[0]) && IsHexDigit(s[1]) && n > 0 && HexPairs(s[2..], n - 1)
  }

  ghost predicate HexUpTo(s: string, limit: nat) {
    "0x" <= s && exists n: nat :: n <= limit && HexPairs(s[2..], n)
  }

  lemma {:induction false} FromHexIff(s: string, n: nat)
    ensures HexPairs(s, n) <==> FromHexBody(s).Some? && |FromHexBody(s).value| == n
    decreases |s|
  {
    if s != "" && IsBlank(s[0]) {
      FromHexIff(s[1..], n);
    } else if |s| >= 2 && n > 0 {
      FromHexIff(s[2..], n - 1);
    }
  }

  /** The JSON that denotes a value of the type. Undeclared fields do not matter. */
  ghost predicate Accepts(j: Json, t: SszType)
    decreases t
  {
    match t
    case ContainerT(fields) =>
      j.JObj? && forall i | 0 <= i < |fields| ::
        fields[i].name in j.fields && Accepts(j.fields[fields[i].name], fields[i].typ)
    case ByteVectorT(length) => j.JStr? && "0x" <= j.s && HexPairs(j.s[2..], length)
    case ByteListT(limit) => j.JStr? && HexUpTo(j.s, limit)
    case VectorT(elem, length) => j.JArr? && |j.items| == length && forall x | x in j.items :: Accepts(x, elem)
    case ListT(elem, limit) => j.JArr? && |j.items| <= limit && forall x | x in j.items :: Accepts(x, elem)
    case BitVectorT(length) => j.JArr? && |j.items| == length && forall x | x in j.items :: x.JBool?
    case BitListT(limit) => j.JArr? && |j.items| <= limit && forall x | x in j.items :: x.JBool?
    case UintT(bits) => (j.JInt? && 0 <= j.n < Pow2(bits)) || j == JBool(false) || (j == JBool(true) && bits > 0)
    case BooleanT => j.JBool? || j == JInt(0) || j == JInt(1)
  }

  lemma Pow2Above(bits: nat)
    ensures Pow2(bits) >= 1 && (bits > 0 ==> Pow2(bits) > 1)
  {
  }

  /** The parser accepts exactly this JSON. */
  lemma {:induction false} AcceptsIff(j: Json, t: SszType)
    ensures Parse(j, t).Ok? <==> Accepts(j, t)
    decreases t, 0
  {
    match t {
      case ContainerT(fields) => if j.JObj? { FieldsAcceptIff(j.fields, fields, t); }
      case VectorT(elem, _) => if j.JArr? { AllAcceptIff(j.items, elem); }
      case ListT(elem, _) => if j.JArr? { AllAcceptIff(j.items, elem); }
      case ByteVectorT(length) => if j.JStr? { HexAcceptIff(j.s, length); }
      case ByteListT(limit) => if j.JStr? { HexListAcceptIff(j.s, limit); }
      case UintT(bits) => Pow2Above(bits);
      case _ =>
    }
  }

  lemma HexAcceptIff(s: string, n: nat)
    ensures "0x" <= s && HexPairs(s[2..], n) <==> FromHex(s).Ok? && |FromHex(s).value| == n
  {
    if "0x" <= s {
      FromHexIff(s[2..], n);
    }
  }

  lemma HexListAcceptIff(s: string, limit: nat)
    ensures HexUpTo(s, limit) <==> FromHex(s).Ok? && |FromHex(s).value| <= limit
  {
    if HexUpTo(s, limit) {
      var n: nat :| n <= limit && HexPairs(s[2..], n);
      HexAcceptIff(s, n);
    }
    if FromHex(s).Ok? && |FromHex(s).value| <= limit {
      HexAcceptIff(s, |FromHex(s).value|);
    }
  }

  lemma {:induction false} FieldsAcceptIff(obj: map<string, Json>, fs: seq<FieldT>, t: SszType)
    requires forall f | f in fs :: f.typ < t
    ensures ParseFields(obj, fs).Ok? <==>
            forall i | 0 <= i < |fs| :: fs[i].name in obj && Accepts(obj[fs[i].name], fs[i].typ)
    decreases t, 0, |fs|
  {
    if fs != [] {
      assert fs[0] in fs;
      if fs[0].name in obj {
        AcceptsIff(obj[fs[0].name], fs[0].typ);
      }
      FieldsAcceptIff(obj, fs[1..], t);
      forall i | 0 < i < |fs|
        ensures fs[i] == fs[1..][i - 1]
      {
      }
    }
  }

  lemma {:induction false} AllAcceptIff(js: seq<Json>, t: SszType)
    ensures ParseAll(js, t).Ok? <==> forall x | x in js :: Accepts(x, t)
    ensures ParseAll(js, t).Ok? ==> |ParseAll(js, t).value| == |js|
    decreases t, 1, |js|
  {
    if js != [] {
      AcceptsIff(js[0], t);
      AllAcceptIff(js[1..], t);
    }
  }

  /** The JSON is of the kind that the type is written as: an object, a list, a text, a number or a boolean. */
  predicate RightKind(j: Json, t: SszType) {
    match t
    case ContainerT(_) => j.JObj?
    case ByteVectorT(_) => j.JStr?
    case ByteListT(_) => j.JStr?
    case VectorT(_, _) => j.JArr?
    case ListT(_, _) => j.JArr?
    case BitVectorT(_) => j.JArr? && forall x | x in j.items :: x.JBool?
    case BitListT(_) => j.JArr? && forall x | x in j.items :: x.JBool?
    case UintT(_) => j.JInt? || j.JBool?
    case BooleanT => j.JBool? || j == JInt(0) || j == JInt(1)
  }

  /** The wrong kind is a TypeError; the right kind with a bad text, length or number a ValueError. */
  lemma KindErrors(j: Json, t: SszType)
    ensures !RightKind(j, t) ==> Parse(j, t) == Err(TypeError)
    ensures RightKind(j, t) && !Accepts(j, t) && !t.ContainerT? && !t.VectorT? && !t.ListT? ==>
              Parse(j, t) == Err(ValueError)
  {
    AcceptsIff(j, t);
  }

  /** The first `n` fields are there and accepted. */
  ghost predicate FieldsAccepted(obj: map<string, Json>, fs: seq<FieldT>, n: nat)
    requires n <= |fs|
  {
    forall k | 0 <= k < n :: fs[k].name in obj && Accepts(obj[fs[k].name], fs[k].typ)
  }

  lemma {:induction false} FirstBadField(obj: map<string, Json>, fs: seq<FieldT>, i: nat)
    requires i < |fs| && FieldsAccepted(obj, fs, i)
    ensures fs[i].name !in obj ==> ParseFields(obj, fs) == Err(KeyError)
    ensures fs[i].name in obj && Parse(obj[fs[i].name], fs[i].typ).Err? ==>
              ParseFields(obj, fs) == Err(Parse(obj[fs[i].name], fs[i].typ).error)
    decreases |fs|
  {
    if i > 0 {
      AcceptsIff(obj[fs[0].name], fs[0].typ);
      assert fs[1..][i - 1] == fs[i];
      forall k | 0 <= k < i - 1
        ensures fs[1..][k].name in obj && Accepts(obj[fs[1..][k].name], fs[1..][k].typ)
      {
        assert fs[1..][k] == fs[k + 1];
      }
      FirstBadField(obj, fs[1..], i - 1);
    }
  }

  /** The first field that is missing or does not parse decides; a missing one is a KeyError. */
  lemma FieldError(obj: map<string, Json>, fs: seq<FieldT>, i: nat)
    requires i < |fs| && FieldsAccepted(obj, fs, i)
    ensures fs[i].name !in obj ==> Parse(JObj(obj), ContainerT(fs)) == Err(KeyError)
    ensures fs[i].name in obj && Parse(obj[fs[i].name], fs[i].typ).Err? ==>
              Parse(JObj(obj), ContainerT(fs)) == Err(Parse(obj[fs[i].name], fs[i].typ).error)
  {
    FirstBadField(obj, fs, i);
  }

  lemma {:induction false} FirstBadElement(js: seq<Json>, t: SszType, i: nat)
    requires i < |js| && (forall k | 0 <= k < i :: Accepts(js[k], t)) && Parse(js[i], t).Err?
    ensures ParseAll(js, t) == Err(Parse(js[i], t).error)
    decreases |js|
  {
    if i > 0 {
      AcceptsIff(js[0], t);
      assert js[1..][i - 1] == js[i];
      FirstBadElement(js[1..], t, i - 1);
    }
  }

  /** The error of the first element that does not parse is that of the list. */
  lemma ElementError(j: Json, t: SszType, i: nat)
    requires (t.VectorT? || t.ListT?) && j.JArr? && i < |j.items|
    requires (forall k | 0 <= k < i :: Accepts(j.items[k], t.elem)) && Parse(j.items[i], t.elem).Err?
    ensures Parse(j, t) == Err(Parse(j.items[i], t.elem).error)
  {
    FirstBadElement(j.items, t.elem, i);
  }

  /** A list of good elements that is too long or too short is a ValueError. */
  lemma LengthError(j: Json, t: SszType)
    requires (t.VectorT? || t.ListT?) && j.JArr? && (forall x | x in j.items :: Accepts(x, t.elem)) && !Accepts(j, t)
    ensures Parse(j, t) == Err(ValueError)
  {
    AllAcceptIff(j.items, t.elem);
  }

  /** Numbers for booleans and booleans for numbers, in Python's sense. */
  lemma MixedNumbers(bits: nat)
    requires bits > 0
    ensures Parse(JInt(0), BooleanT) == Ok(BooleanV(false)) && Parse(JInt(1), BooleanT) == Ok(BooleanV(true))
    ensures Parse(JBool(false), UintT(bits)) == Ok(UintV(0)) && Parse(JBool(true), UintT(bits)) == Ok(UintV(1))
  {
    Pow2Above(bits);
  }

  lemma {:induction false} Pow2Add(m: nat, n: nat)
    ensures Pow2(m + n) == Pow2(m) * Pow2(n)
  {
    if m > 0 {
      Pow2Add(m - 1, n);
      assert Pow2(m + n) == 2 * Pow2(m - 1 + n);
    }
  }

  /** The range of a doubled width. */
  lemma Doubled(bits: nat, twice: nat, range: nat)
    requires Pow2(bits) == range && twice == bits + bits
    ensures Pow2(twice) == range * range
  {
    Pow2Add(bits, bits);
  }

  lemma ByteRange(bits: nat)
    requires bits == 8
    ensures Pow2(bits) == 0x100
  {
    assert Pow2(bits) == 2 * Pow2(bits - 1) == 4 * Pow2(bits - 2) == 8 * Pow2(bits - 3) == 16 * Pow2(bits - 4);
    assert Pow2(bits - 4) == 2 * Pow2(bits - 5) == 4 * Pow2(bits - 6) == 8 * Pow2(bits - 7) == 16 * Pow2(bits - 8);
  }

  lemma WordRange(b8: nat, b16: nat, b32: nat, b64: nat)
    requires b8 == 8 && b16 == 16 && b32 == 32 && b64 == 64
    ensures Pow2(b64) == 0x1_0000_0000_0000_0000
  {
    ByteRange(b8);
    Doubled(b8, b16, 0x100);
    Doubled(b16, b32, 0x1_0000);
    Doubled(b32, b64, 0x1_0000_0000);
  }

  lemma WideRange(b64: nat, b128: nat, b256: nat)
    requires b64 == 64 && b128 == 128 && b256 == 256
    ensures Pow2(b256) == 0x1_0000_0000_0000_0000_0000_0000_0000_0000_0000_0000_0000_0000_0000_0000_0000_0000
  {
    WordRange(8, 16, 32, b64);
    Doubled(b64, b128, 0x1_0000_0000_0000_0000);
    Doubled(b128, b256, 0x1_0000_0000_0000_0000_0000_0000_0000_0000);
  }

  /** The ranges of the unsigned integers in use. */
  lemma UintRanges(bits: nat)
    ensures bits == 8 ==> Pow2(bits) == 0x100
    ensures bits == 64 ==> Pow2(bits) == 0x1_0000_0000_0000_0000
    ensures bits == 256 ==>
              Pow2(bits) == 0x1_0000_0000_0000_0000_0000_0000_0000_0000_0000_0000_0000_0000_0000_0000_0000_0000
  {
    if bits == 8 {
      ByteRange(bits);
    } else if bits == 64 {
      WordRange(8, 16, 32, bits);
    } else if bits == 256 {
      WideRange(64, 128, bits);
    }
  }
}
