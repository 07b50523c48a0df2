/** JSON values, the compact text that `encoding/json` emits for them (HTML-safe escaping
    included), and the parser that reads that text back. */
module Json {
  import opened Digits
  import opened Results

  datatype Json =
    | Null
    | Bool(b: bool)
    | Num(n: int)
    | Str(s: string)
    | Arr(items: seq<Json>)
    | Obj(fields: seq<Field>)

  datatype Field = Field(name: string, value: Json)

  datatype Parsed<+T> = Fail | Done(value: T, rest: string)

  // ---------------------------------------------------------------- printing

  predicate IsPlain(c: char) {
    && ' ' <= c
    && c != '"' && c != '\\' && c != '<' && c != '>' && c != '&'
    && c as int != 0x2028 && c as int != 0x2029
  }

  function Hex4(n: nat): (s: string)
    requires n < 0x10000
    ensures |s| == 4 && forall i :: 0 <= i < 4 ==> IsHex(s[i])
  {
    var a := n / 16;
    var b := a / 16;
    [HexDigit(b / 16), HexDigit(b % 16), HexDigit(a % 16), HexDigit(n % 16)]
  }

  /** The two-character escapes, by the scalar they stand for. */
  function ShortEscape(c: char): (e: char)
    ensures e != '0' ==> ShortUnescape(e) == c && e != 'u'
  {
    if c == '"' then '"'
    else if c == '\\' then '\\'
    else if c == 8 as char then 'b'
    else if c == 12 as char then 'f'
    else if c == '\n' then 'n'
    else if c == '\r' then 'r'
    else if c == '\t' then 't'
    else '0'
  }

  /** The scalar a two-character escape stands for; NUL when there is no such escape. */
  function ShortUnescape(e: char): char {
    if e == '"' || e == '\\' || e == '/' then e
    else if e == 'b' then 8 as char
    else if e == 'f' then 12 as char
    else if e == 'n' then '\n'
    else if e == 'r' then '\r'
    else if e == 't' then '\t'
    else '\0'
  }

  /** Escaping of one scalar inside a string (section 7 of RFC 8259, with the extra
      escapes that `encoding/json` applies by default). */
  function EscapeChar(c: char): (s: string)
    ensures s != "" && s[0] != '"'
  {
    if IsPlain(c) then [c]
    else if ShortEscape(c) != '0' then ['\\', ShortEscape(c)]
    else ['\\', 'u'] + Hex4(c as int)
  }

  function Escape(s: string): string {
    if s == "" then "" else EscapeChar(s[0]) + Escape(s[1..])
  }

  function Quote(s: string): string { "\"" + Escape(s) + "\"" }

  function RenderInt(n: int): string { if n < 0 then "-" + Decimal(-n) else Decimal(n) }

  function Render(j: Json): string {
    match j
    case Null => "null"
    case Bool(b) => if b then "true" else "false"
    case Num(n) => RenderInt(n)
    case Str(s) => Quote(s)
    case Arr(items) => "[" + RenderItems(items) + "]"
    case Obj(fields) => "{" + RenderFields(fields) + "}"
  }

  function RenderItems(items: seq<Json>): string {
    if items == [] then ""
    else if |items| == 1 then Render(items[0])
    else Render(items[0]) + "," + RenderItems(items[1..])
  }

  function RenderField(f: Field): string { Quote(f.name) + ":" + Render(f.value) }

  function RenderFields(fields: seq<Field>): string {
    if fields == [] then ""
    else if |fields| == 1 then RenderField(fields[0])
    else RenderField(fields[0]) + "," + RenderFields(fields[1..])
  }

  // ---------------------------------------------------------------- parsing

  function HexQuad(s: string): nat
    requires |s| >= 4 && forall i :: 0 <= i < 4 ==> IsHex(s[i])
  {
    16 * (16 * (16 * HexValue(s[0]) + HexValue(s[1])) + HexValue(s[2])) + HexValue(s[3])
  }

  /** One possibly escaped scalar of a string body. */
  function ParseChar(s: string): (r: Parsed<char>)
    ensures r.Done? ==> |r.rest| < |s|
  {
    if s == "" || s[0] < ' ' || s[0] == '"' then Fail
    else if s[0] != '\\' then Done(s[0], s[1..])
    else if |s| < 2 then Fail
    else if ShortUnescape(s[1]) != '\0' then Done(ShortUnescape(s[1]), s[2..])
    else if s[1] == 'u' && |s| >= 6 && (forall i :: 2 <= i < 6 ==> IsHex(s[i])) then
      var n := HexQuad(s[2..]);
      if 0xD800 <= n < 0xE000 then Fail else Done(n as char, s[6..])
    else Fail
  }

  /** A string body up to and including its closing quote. */
  function ParseChars(s: string): (r: Parsed<string>)
    ensures r.Done? ==> |r.rest| < |s|
    decreases |s|
  {
    if s != "" && s[0] == '"' then Done("", s[1..])
    else
      match ParseChar(s)
      case Fail => Fail
      case Done(c, rest) =>
        match ParseChars(rest)
        case Fail => Fail
        case Done(t, rest') => Done([c] + t, rest')
  }

  function ParseNat(s: string): (r: Parsed<nat>)
    ensures r.Done? ==> |r.rest| < |s|
  {
    var n := DigitRun(s);
    if n == 0 || (n > 1 && s[0] == '0') then Fail else Done(Value(s[..n]), s[n..])
  }

  function ParseNumber(s: string): (r: Parsed<Json>)
    ensures r.Done? ==> |r.rest| < |s|
  {
    if s != "" && s[0] == '-' then
      match ParseNat(s[1..]) case Fail => Fail case Done(n, rest) => Done(Num(-(n as int)), rest)
    else
      match ParseNat(s) case Fail => Fail case Done(n, rest) => Done(Num(n), rest)
  }

  function ParseLiteral(s: string, text: string, j: Json): (r: Parsed<Json>)
    requires text != ""
    ensures r.Done? ==> |r.rest| < |s|
  {
    if text <= s then Done(j, s[|text|..]) else Fail
  }

  function ParseValue(s: string): (r: Parsed<Json>)
    ensures r.Done? ==> |r.rest| < |s|
    decreases |s|, 0
  {
    if s == "" then Fail
    else if s[0] == '"' then
      match ParseChars(s[1..]) case Fail => Fail case Done(t, rest) => Done(Str(t), rest)
    else if s[0] == '[' then
      if |s| > 1 && s[1] == ']' then Done(Arr([]), s[2..])
      else match ParseItems(s[1..]) case Fail => Fail case Done(xs, rest) => Done(Arr(xs), rest)
    else if s[0] == '{' then
      if |s| > 1 && s[1] == '}' then Done(Obj([]), s[2..])
      else match ParseFields(s[1..]) case Fail => Fail case Done(fs, rest) => Done(Obj(fs), rest)
    else if s[0] == 'n' then ParseLiteral(s, "null", Null)
    else if s[0] == 't' then ParseLiteral(s, "true", Bool(true))
    else if s[0] == 'f' then ParseLiteral(s, "false", Bool(false))
    else ParseNumber(s)
  }

  /** One or more array elements up to and including the closing bracket. */
  function ParseItems(s: string): (r: Parsed<seq<Json>>)
    ensures r.Done? ==> |r.rest| < |s|
    decreases |s|, 1
  {
    match ParseValue(s)
    case Fail => Fail
    case Done(j, rest) =>
      if rest == "" then Fail
      else if rest[0] == ']' then Done([j], rest[1..])
      else if rest[0] == ',' then
        match ParseItems(rest[1..]) case Fail => Fail case Done(js, rest') => Done([j] + js, rest')
      else Fail
  }

  function ParseField(s: string): (r: Parsed<Field>)
    ensures r.Done? ==> |r.rest| < |s|
    decreases |s|, 1
  {
    if s == "" || s[0] != '"' then Fail
    else
      match ParseChars(s[1..])
      case Fail => Fail
      case Done(name, rest) =>
        if rest == "" || rest[0] != ':' then Fail
        else
          match ParseValue(rest[1..])
          case Fail => Fail
          case Done(v, rest') => Done(Field(name, v), rest')
  }

  function ParseFields(s: string): (r: Parsed<seq<Field>>)
    ensures r.Done? ==> |r.rest| < |s|
    decreases |s|, 2
  {
    match ParseField(s)
    case Fail => Fail
    case Done(f, rest) =>
      if rest == "" then Fail
      else if rest[0] == '}' then Done([f], rest[1..])
      else if rest[0] == ',' then
        match ParseFields(rest[1..]) case Fail => Fail case Done(fs, rest') => Done([f] + fs, rest')
      else Fail
  }

  /** `json.Unmarshal` into a generic value, on compact text. */
  function Parse(s: string): Parsed<Json> {
    match ParseValue(s)
    case Fail => Fail
    case Done(j, rest) => if rest == "" then Done(j, "") else Fail
  }

  // ---------------------------------------------------------------- round trip

  lemma Hex4Value(n: nat)
    requires n < 0x10000
    ensures HexQuad(Hex4(n)) == n
  {
  }

  lemma EscapeCharParses(c: char, rest: string)
    ensures ParseChar(EscapeChar(c) + rest) == Done(c, rest)
  {
    var s := EscapeChar(c) + rest;
    if IsPlain(c) {
      assert s[1..] == rest;
    } else if ShortEscape(c) != '0' {
      assert s[2..] == rest;
    } else {
      HexEscapeParses(c, rest);
    }
  }

  lemma HexEscapeParses(c: char, rest: string)
    requires c as int < 0x10000
    ensures ParseChar(['\\', 'u'] + Hex4(c as int) + rest) == Done(c, rest)
  {
    var h := Hex4(c as int);
    var s := ['\\', 'u'] + h + rest;
    assert s[6..] == rest && s[2..][..4] == h;
    assert forall i :: 2 <= i < 6 ==> s[i] == h[i - 2];
    Hex4Value(c as int);
  }

  lemma {:induction false} EscapeParses(t: string, rest: string)
    ensures ParseChars(Escape(t) + "\"" + rest) == Done(t, rest)
  {
    hide EscapeChar, ParseChar;
    var s := Escape(t) + "\"" + rest;
    if t == "" {
      assert s[1..] == rest;
    } else {
      var tail := Escape(t[1..]) + "\"" + rest;
      assert s == EscapeChar(t[0]) + tail;
      EscapeCharParses(t[0], tail);
      EscapeParses(t[1..], rest);
      assert t == [t[0]] + t[1..];
    }
  }

  lemma RenderHead(j: Json)
    ensures Render(j) != "" && Render(j)[0] != ']' && Render(j)[0] != '}'
  {
  }

  predicate NoDigit(rest: string) { rest == "" || !IsDigit(rest[0]) }

  lemma NatParses(n: nat, rest: string)
    requires NoDigit(rest)
    ensures ParseNat(Decimal(n) + rest) == Done(n, rest)
  {
    DigitRunOf(Decimal(n), rest);
    DecimalValue(n);
  }

  lemma NegativeParses(n: nat, rest: string)
    requires NoDigit(rest)
    ensures ParseNumber("-" + Decimal(n) + rest) == Done(Num(-(n as int)), rest)
  {
    hide ParseNat, Decimal;
    var s := "-" + Decimal(n) + rest;
    assert s[1..] == Decimal(n) + rest;
    NatParses(n, rest);
  }

  lemma NumberParses(n: int, rest: string)
    requires NoDigit(rest)
    ensures ParseNumber(RenderInt(n) + rest) == Done(Num(n), rest)
  {
    hide ParseNat, Decimal;
    if n < 0 {
      NegativeParses(-n, rest);
    } else {
      assert (Decimal(n) + rest)[0] == Decimal(n)[0];
      NatParses(n, rest);
    }
  }

  // One unfolding of the parser per kind of value.

  lemma ParseNumberValue(s: string)
    requires s != "" && (IsDigit(s[0]) || s[0] == '-')
    ensures ParseValue(s) == ParseNumber(s)
  {
  }

  lemma ParseLiteralValue(j: Json, rest: string)
    requires j.Null? || j.Bool?
    ensures ParseValue(Render(j) + rest) == Done(j, rest)
  {
    var text := Render(j);
    assert (text + rest)[0] == text[0] && (text + rest)[|text|..] == rest;
  }

  lemma ParseStrValue(s: string, t: string, rest: string)
    requires s != "" && s[0] == '"' && ParseChars(s[1..]) == Done(t, rest)
    ensures ParseValue(s) == Done(Str(t), rest)
  {
  }

  lemma ParseArrValue(s: string, items: seq<Json>, rest: string)
    requires |s| > 1 && s[0] == '[' && s[1] != ']' && ParseItems(s[1..]) == Done(items, rest)
    ensures ParseValue(s) == Done(Arr(items), rest)
  {
  }

  lemma ParseObjValue(s: string, fields: seq<Field>, rest: string)
    requires |s| > 1 && s[0] == '{' && s[1] != '}' && ParseFields(s[1..]) == Done(fields, rest)
    ensures ParseValue(s) == Done(Obj(fields), rest)
  {
  }

  lemma ParseItemsStep(s: string, j: Json, tail: string)
    requires ParseValue(s) == Done(j, tail) && tail != ""
    ensures tail[0] == ']' ==> ParseItems(s) == Done([j], tail[1..])
    ensures tail[0] == ',' && ParseItems(tail[1..]).Done? ==>
              ParseItems(s) == Done([j] + ParseItems(tail[1..]).value, ParseItems(tail[1..]).rest)
  {
  }

  lemma ParseFieldsStep(s: string, f: Field, tail: string)
    requires ParseField(s) == Done(f, tail) && tail != ""
    ensures tail[0] == '}' ==> ParseFields(s) == Done([f], tail[1..])
    ensures tail[0] == ',' && ParseFields(tail[1..]).Done? ==>
              ParseFields(s) == Done([f] + ParseFields(tail[1..]).value, ParseFields(tail[1..]).rest)
  {
  }

  lemma EmptyParses(rest: string)
    ensures ParseValue("[]" + rest) == Done(Arr([]), rest)
    ensures ParseValue("{}" + rest) == Done(Obj([]), rest)
  {
    assert ("[]" + rest)[2..] == rest && ("{}" + rest)[2..] == rest;
  }

  lemma StrParses(t: string, rest: string)
    ensures ParseValue(Quote(t) + rest) == Done(Str(t), rest)
  {
    hide ParseValue, ParseChars, Escape;
    var s := Quote(t) + rest;
    assert s[1..] == Escape(t) + "\"" + rest;
    EscapeParses(t, rest);
    ParseStrValue(s, t, rest);
  }

  /** Parsing the printed form of any value gives the value back and leaves whatever
      follows it untouched. */
  lemma {:induction false} RenderParses(j: Json, rest: string)
    requires NoDigit(rest)
    ensures ParseValue(Render(j) + rest) == Done(j, rest)
    decreases j, 3
  {
    hide ParseValue;
    match j
    case Null => ParseLiteralValue(j, rest);
    case Bool(b) => ParseLiteralValue(j, rest);
    case Num(n) => NumberParses(n, rest); ParseNumberValue(RenderInt(n) + rest);
    case Str(t) => StrParses(t, rest);
    case Arr(items) => ArrParses(items, rest);
    case Obj(fields) => ObjParses(fields, rest);
  }

  lemma {:induction false} ArrParses(items: seq<Json>, rest: string)
    ensures ParseValue("[" + RenderItems(items) + "]" + rest) == Done(Arr(items), rest)
    decreases items, 2
  {
    hide ParseValue, ParseItems;
    var s := "[" + RenderItems(items) + "]" + rest;
    if items == [] {
      assert s == "[]" + rest;
      EmptyParses(rest);
    } else {
      assert s[1..] == RenderItems(items) + "]" + rest;
      RenderHead(items[0]);
      ItemsParse(items, rest);
      ParseArrValue(s, items, rest);
    }
  }

  lemma {:induction false} ObjParses(fields: seq<Field>, rest: string)
    ensures ParseValue("{" + RenderFields(fields) + "}" + rest) == Done(Obj(fields), rest)
    decreases fields, 2
  {
    hide ParseValue, ParseFields;
    var s := "{" + RenderFields(fields) + "}" + rest;
    if fields == [] {
      assert s == "{}" + rest;
      EmptyParses(rest);
    } else {
      assert s[1..] == RenderFields(fields) + "}" + rest;
      FieldsParse(fields, rest);
      ParseObjValue(s, fields, rest);
    }
  }

  lemma {:induction false} ItemsParse(items: seq<Json>, rest: string)
    requires items != []
    ensures ParseItems(RenderItems(items) + "]" + rest) == Done(items, rest)
    decreases items, 0
  {
    hide ParseItems, ParseValue, Render;
    var s := RenderItems(items) + "]" + rest;
    if |items| == 1 {
      var tail := "]" + rest;
      assert s == Render(items[0]) + tail && tail[1..] == rest;
      RenderParses(items[0], tail);
      ParseItemsStep(s, items[0], tail);
      assert items == [items[0]];
    } else {
      var next := RenderItems(items[1..]) + "]" + rest;
      var tail := "," + next;
      assert s == Render(items[0]) + tail && tail[1..] == next;
      RenderParses(items[0], tail);
      ItemsParse(items[1..], rest);
      ParseItemsStep(s, items[0], tail);
      assert items == [items[0]] + items[1..];
    }
  }

  lemma {:induction false} FieldParses(f: Field, rest: string)
    requires NoDigit(rest)
    ensures ParseField(RenderField(f) + rest) == Done(f, rest)
    ensures RenderField(f)[0] == '"'
    decreases f, 2
  {
    hide ParseValue, ParseChars, Escape, Render;
    var s := RenderField(f) + rest;
    var value := Render(f.value) + rest;
    var tail := ":" + value;
    assert s[1..] == Escape(f.name) + "\"" + tail && tail[1..] == value;
    EscapeParses(f.name, tail);
    RenderParses(f.value, rest);
  }

  lemma {:induction false} FieldsParse(fields: seq<Field>, rest: string)
    requires fields != []
    ensures ParseFields(RenderFields(fields) + "}" + rest) == Done(fields, rest)
    ensures RenderFields(fields)[0] == '"'
    decreases fields, 0
  {
    hide ParseFields, ParseField, RenderField;
    var s := RenderFields(fields) + "}" + rest;
    if |fields| == 1 {
      var tail := "}" + rest;
      assert s == RenderField(fields[0]) + tail && tail[1..] == rest;
      FieldParses(fields[0], tail);
      ParseFieldsStep(s, fields[0], tail);
      assert fields == [fields[0]];
    } else {
      var next := RenderFields(fields[1..]) + "}" + rest;
      var tail := "," + next;
      assert s == RenderField(fields[0]) + tail && tail[1..] == next;
      FieldParses(fields[0], tail);
      FieldsParse(fields[1..], rest);
      ParseFieldsStep(s, fields[0], tail);
      assert fields == [fields[0]] + fields[1..];
    }
  }

  /** Text round trip for whole documents. */
  lemma RoundTrip(j: Json)
    ensures Parse(Render(j)) == Done(j, "")
  {
    RenderParses(j, "");
    assert Render(j) + "" == Render(j);
  }

  /** The printed form determines the value. */
  lemma RenderInjective(a: Json, b: Json)
    requires Render(a) == Render(b)
    ensures a == b
  {
    RoundTrip(a);
    RoundTrip(b);
  }

  // ---------------------------------------------------------------- reading fields

  /** The value stored under a name: the last one when a name repeats, null when absent. */
  function Get(fields: seq<Field>, name: string): Json {
    if fields == [] then Null
    else if fields[|fields| - 1].name == name then fields[|fields| - 1].value
    else Get(fields[..|fields| - 1], name)
  }

  predicate DistinctNames(fields: seq<Field>) {
    forall i, j :: 0 <= i < j < |fields| ==> fields[i].name != fields[j].name
  }

  lemma {:induction false} GetField(fields: seq<Field>, i: nat)
    requires DistinctNames(fields) && i < |fields|
    ensures Get(fields, fields[i].name) == fields[i].value
  {
    if i < |fields| - 1 { GetField(fields[..|fields| - 1], i); }
  }

  lemma GetOfTwo(f: Field, g: Field, name: string)
    ensures Get([f, g], name) == if name == g.name then g.value else if name == f.name then f.value else Null
  {
    assert [f, g][..1] == [f] && [f][..0] == [];
    assert Get([f], name) == if name == f.name then f.value else Null;
  }

  // Decoding into a Go field: null leaves the zero value, any other kind is an error.

  function AsString(j: Json): Result<string> {
    match j case Null => Ok("") case Str(s) => Ok(s) case _ => Err(Malformed)
  }

  function AsBool(j: Json): Result<bool> {
    match j case Null => Ok(false) case Bool(b) => Ok(b) case _ => Err(Malformed)
  }

  function AsArray(j: Json): Result<seq<Json>> {
    match j case Null => Ok([]) case Arr(items) => Ok(items) case _ => Err(Malformed)
  }

  function AsObject(j: Json): Result<seq<Field>> {
    match j case Null => Ok([]) case Obj(fields) => Ok(fields) case _ => Err(Malformed)
  }

  /** An array whose elements are encoded one by one. */
  function ArrayOf<T>(encode: T -> Json, xs: seq<T>): (j: Json)
    ensures j.Arr? && |j.items| == |xs| && forall i :: 0 <= i < |xs| ==> j.items[i] == encode(xs[i])
  {
    Arr(seq(|xs|, i requires 0 <= i < |xs| => encode(xs[i])))
  }

  function DecodeArray<T>(decode: Json -> Result<T>, j: Json): Result<seq<T>> {
    var items :- AsArray(j);
    Traverse(decode, items)
  }

  lemma ArrayRoundTrip<T>(encode: T -> Json, decode: Json -> Result<T>, xs: seq<T>)
    requires forall i :: 0 <= i < |xs| ==> decode(encode(xs[i])) == Ok(xs[i])
    ensures DecodeArray(decode, ArrayOf(encode, xs)) == Ok(xs)
  {
    hide Traverse;
    TraverseInverse(decode, ArrayOf(encode, xs).items, xs);
  }

  function StringValue(s: string): Json { Str(s) }

  function Strings(xs: seq<string>): (j: Json)
    ensures j.Arr? && |j.items| == |xs| && forall i :: 0 <= i < |xs| ==> j.items[i] == Str(xs[i])
  {
    ArrayOf(StringValue, xs)
  }

  lemma StringsRoundTrip(xs: seq<string>)
    ensures DecodeArray(AsString, Strings(xs)) == Ok(xs)
  {
    ArrayRoundTrip(StringValue, AsString, xs);
  }
}
