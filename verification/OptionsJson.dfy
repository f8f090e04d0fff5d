/** The options text of the libretro shim (cores/libretro_shim/LibretroShim.cpp:560-590), and a reader
    that follows sections 2, 4, 5 and 7 of RFC 8259 over bytes. */
module OptionsJson {
  import opened Abi

  datatype ShimOption = ShimOption(key: Blob, desc: Blob, info: Blob, def: Blob, values: seq<(Blob, Blob)>)

  /** The JSON values in question: numbers, true, false and null do not occur. */
  datatype Json = Str(s: Blob) | Arr(items: seq<Json>) | Obj(members: seq<Member>)
  datatype Member = Member(name: Blob, value: Json)

  const QUOTE: byte := 0x22
  const COMMA: byte := 0x2C
  const SLASH: byte := 0x2F
  const COLON: byte := 0x3A
  const OPEN_ARRAY: byte := 0x5B
  const BACKSLASH: byte := 0x5C
  const CLOSE_ARRAY: byte := 0x5D
  const OPEN_OBJECT: byte := 0x7B
  const CLOSE_OBJECT: byte := 0x7D

  // the member names "key", "desc", "info", "default", "values", "value", "label"
  const KEY: Blob := [107, 101, 121]
  const DESC: Blob := [100, 101, 115, 99]
  const INFO: Blob := [105, 110, 102, 111]
  const DEFAULT: Blob := [100, 101, 102, 97, 117, 108, 116]
  const VALUES: Blob := [118, 97, 108, 117, 101, 115]
  const VALUE: Blob := [118, 97, 108, 117, 101]
  const LABEL: Blob := [108, 97, 98, 101, 108]

  // ----- writing -----

  function HexDigit(d: nat): byte
    requires d < 16
  {
    if d < 10 then 0x30 + d else 0x57 + d
  }

  /** The escape of one byte. */
  function EscapeByte(c: byte): Blob {
    if c == QUOTE then [BACKSLASH, QUOTE]
    else if c == BACKSLASH then [BACKSLASH, BACKSLASH]
    else if c == 0x0A then [BACKSLASH, 0x6E]
    else if c == 0x0D then [BACKSLASH, 0x72]
    else if c == 0x09 then [BACKSLASH, 0x74]
    else if c < 0x20 then [BACKSLASH, 0x75, 0x30, 0x30, HexDigit(c / 16), HexDigit(c % 16)]
    else [c]
  }

  function Escape(s: Blob): Blob {
    if s == [] then [] else EscapeByte(s[0]) + Escape(s[1..])
  }

  function Quoted(s: Blob): Blob {
    [QUOTE] + Escape(s) + [QUOTE]
  }

  /** The text of a value, without insignificant whitespace. */
  function Compact(j: Json): Blob
    decreases j, 1
  {
    match j
    case Str(s) => Quoted(s)
    case Arr(items) => [OPEN_ARRAY] + CompactItems(items) + [CLOSE_ARRAY]
    case Obj(members) => [OPEN_OBJECT] + CompactMembers(members) + [CLOSE_OBJECT]
  }

  function CompactItems(items: seq<Json>): Blob
    decreases items, 0
  {
    if items == [] then []
    else if |items| == 1 then Compact(items[0])
    else Compact(items[0]) + [COMMA] + CompactItems(items[1..])
  }

  function CompactMembers(members: seq<Member>): Blob
    decreases members, 0
  {
    if members == [] then []
    else if |members| == 1 then CompactMember(members[0])
    else CompactMember(members[0]) + [COMMA] + CompactMembers(members[1..])
  }

  function CompactMember(m: Member): Blob
    decreases m, 1
  {
    Quoted(m.name) + [COLON] + Compact(m.value)
  }

  // ----- reading -----

  /** Section 2: insignificant whitespace before a structural character or a value. */
  function Skip(b: Blob): (r: Blob)
    ensures |r| <= |b|
  {
    if b != [] && (b[0] == 0x20 || b[0] == 0x09 || b[0] == 0x0A || b[0] == 0x0D) then Skip(b[1..]) else b
  }

  function HexValue(c: byte): Option<nat> {
    if 0x30 <= c <= 0x39 then Some(c - 0x30)
    else if 0x61 <= c <= 0x66 then Some(c - 0x57)
    else if 0x41 <= c <= 0x46 then Some(c - 0x37)
    else None
  }

  function Hex4(b: Blob): (v: Option<nat>)
    requires |b| == 4
    ensures v.Some? ==> v.value < 0x1_0000
  {
    if HexValue(b[0]).Some? && HexValue(b[1]).Some? && HexValue(b[2]).Some? && HexValue(b[3]).Some?
       && HexValue(b[0]).value < 16 && HexValue(b[1]).value < 16 && HexValue(b[2]).value < 16
           && HexValue(b[3]).value < 16
    then Some(0x1000 * HexValue(b[0]).value + 0x100 * HexValue(b[1]).value + 0x10 * HexValue(b[2]).value
              + HexValue(b[3]).value)
    else None
  }

  /** A code point of the basic plane in UTF-8. */
  function Utf8(v: nat): Blob
    requires v < 0x1_0000
  {
    if v < 0x80 then [v]
    else if v < 0x800 then [0xC0 + v / 0x40, 0x80 + v % 0x40]
    else [0xE0 + v / 0x1000, 0x80 + v / 0x40 % 0x40, 0x80 + v % 0x40]
  }

  /** The character after a backslash, for the two-character escapes of section 7. */
  function Simple(c: byte): Option<byte> {
    if c == QUOTE || c == BACKSLASH || c == SLASH then Some(c)
    else if c == 0x62 then Some(0x08)
    else if c == 0x66 then Some(0x0C)
    else if c == 0x6E then Some(0x0A)
    else if c == 0x72 then Some(0x0D)
    else if c == 0x74 then Some(0x09)
    else None
  }

  /** Section 7, after the opening quotation mark: the bytes of the string and what follows it. Control
      characters must be escaped. A surrogate escape is not joined with its partner but refused. */
  function ReadString(b: Blob): (r: Option<(Blob, Blob)>)
    ensures r.Some? ==> |r.value.1| < |b|
    decreases |b|
  {
    if b == [] then None
    else if b[0] == QUOTE then Some(([], b[1..]))
    else if b[0] == BACKSLASH then
      if |b| < 2 then None
      else if Simple(b[1]).Some? then Prepend([Simple(b[1]).value], ReadString(b[2..]))
      else if b[1] == 0x75 && |b| >= 6 && Hex4(b[2..6]).Some? && !(0xD800 <= Hex4(b[2..6]).value < 0xE000)
      then Prepend(Utf8(Hex4(b[2..6]).value), ReadString(b[6..]))
      else None
    else if b[0] < 0x20 then None
    else Prepend([b[0]], ReadString(b[1..]))
  }

  function Prepend(p: Blob, r: Option<(Blob, Blob)>): Option<(Blob, Blob)> {
    match r case None => None case Some(x) => Some((p + x.0, x.1))
  }

  /** A value and what follows it. */
  function ReadValue(b: Blob): (r: Option<(Json, Blob)>)
    ensures r.Some? ==> |r.value.1| < |b|
    decreases |b|, 0
  {
    var c := Skip(b);
    if c == [] then None
    else if c[0] == QUOTE then
      match ReadString(c[1..])
      case None => None
      case Some((s, rest)) => Some((Str(s), rest))
    else if c[0] == OPEN_ARRAY then
      var d := Skip(c[1..]);
      if d != [] && d[0] == CLOSE_ARRAY then Some((Arr([]), d[1..]))
      else match ReadItems(c[1..])
        case None => None
        case Some((items, rest)) => Some((Arr(items), rest))
    else if c[0] == OPEN_OBJECT then
      var d := Skip(c[1..]);
      if d != [] && d[0] == CLOSE_OBJECT then Some((Obj([]), d[1..]))
      else match ReadMembers(c[1..])
        case None => None
        case Some((members, rest)) => Some((Obj(members), rest))
    else None
  }

  /** Section 5: one or more values separated by commas, then the closing bracket. */
  function ReadItems(b: Blob): (r: Option<(seq<Json>, Blob)>)
    ensures r.Some? ==> |r.value.1| < |b|
    decreases |b|, 1
  {
    match ReadValue(b)
    case None => None
    case Some((v, rest)) =>
      var c := Skip(rest);
      if c != [] && c[0] == CLOSE_ARRAY then Some(([v], c[1..]))
      else if c != [] && c[0] == COMMA then
        match ReadItems(c[1..])
        case None => None
        case Some((more, left)) => Some(([v] + more, left))
      else None
  }

  /** A member: a string, a colon, a value. */
  function ReadMember(b: Blob): (r: Option<(Member, Blob)>)
    ensures r.Some? ==> |r.value.1| < |b|
    decreases |b|, 1
  {
    var c := Skip(b);
    if c == [] || c[0] != QUOTE then None
    else match ReadString(c[1..])
      case None => None
      case Some((name, rest)) =>
        var d := Skip(rest);
        if d == [] || d[0] != COLON then None
        else match ReadValue(d[1..])
          case None => None
          case Some((v, left)) => Some((Member(name, v), left))
  }

  /** Section 4: one or more members separated by commas, then the closing brace. */
  function ReadMembers(b: Blob): (r: Option<(seq<Member>, Blob)>)
    ensures r.Some? ==> |r.value.1| < |b|
    decreases |b|, 2
  {
    match ReadMember(b)
    case None => None
    case Some((m, rest)) =>
      var c := Skip(rest);
      if c != [] && c[0] == CLOSE_OBJECT then Some(([m], c[1..]))
      else if c != [] && c[0] == COMMA then
        match ReadMembers(c[1..])
        case None => None
        case Some((more, left)) => Some(([m] + more, left))
      else None
  }

  /** A whole text: one value with nothing but whitespace around it. */
  function ReadText(b: Blob): Option<Json> {
    match ReadValue(b)
    case Some((j, rest)) => if Skip(rest) == [] then Some(j) else None
    case None => None
  }

  // ----- reading back what was written -----

  lemma HexBack(c: byte)
    requires c < 0x20
    ensures Hex4([0x30, 0x30, HexDigit(c / 16), HexDigit(c % 16)]) == Some(c)
  {
    assert HexValue(HexDigit(c / 16)) == Some(c / 16);
    assert HexValue(HexDigit(c % 16)) == Some(c % 16);
  }

  lemma ReadSimple(c: byte, tail: Blob)
    requires Simple(c).Some?
    ensures ReadString([BACKSLASH, c] + tail) == Prepend([Simple(c).value], ReadString(tail))
  {
    assert ([BACKSLASH, c] + tail)[2..] == tail;
  }

  lemma ReadHex(digits: Blob, c: byte, tail: Blob)
    requires |digits| == 4 && Hex4(digits) == Some(c) && c < 0x20
    ensures ReadString([BACKSLASH, 0x75] + digits + tail) == Prepend([c], ReadString(tail))
  {
    hide Hex4, Prepend;
    var b := [BACKSLASH, 0x75] + digits + tail;
    assert b[2..6] == digits && b[6..] == tail;
  }

  lemma ReadPlain(c: byte, tail: Blob)
    requires c >= 0x20 && c != QUOTE && c != BACKSLASH
    ensures ReadString([c] + tail) == Prepend([c], ReadString(tail))
  {
    assert ([c] + tail)[1..] == tail;
  }

  lemma ReadEscape(c: byte, tail: Blob)
    ensures ReadString(EscapeByte(c) + tail) == Prepend([c], ReadString(tail))
  {
    hide ReadString, Prepend, Hex4, HexDigit;
    if c < 0x20 && c != 0x0A && c != 0x0D && c != 0x09 {
      var digits := [0x30, 0x30, HexDigit(c / 16), HexDigit(c % 16)];
      HexBack(c);
      ReadHex(digits, c, tail);
      assert EscapeByte(c) == [BACKSLASH, 0x75] + digits;
    } else if |EscapeByte(c)| == 2 {
      ReadSimple(EscapeByte(c)[1], tail);
    } else {
      ReadPlain(c, tail);
    }
  }

  lemma {:induction false} StringBack(s: Blob, rest: Blob)
    ensures ReadString(Escape(s) + [QUOTE] + rest) == Some((s, rest))
  {
    hide EscapeByte;
    if s == [] {
      assert Escape(s) + [QUOTE] + rest == [QUOTE] + rest && ([QUOTE] + rest)[1..] == rest;
    } else {
      var tail := Escape(s[1..]) + [QUOTE] + rest;
      assert Escape(s) + [QUOTE] + rest == EscapeByte(s[0]) + tail;
      hide ReadString;
      ReadEscape(s[0], tail);
      StringBack(s[1..], rest);
      assert [s[0]] + s[1..] == s;
    }
  }

  lemma NoSkip(b: Blob)
    requires b != [] && b[0] > 0x20
    ensures Skip(b) == b
  {
  }

  /** Every text starts with a visible character that is not a closing bracket. */
  lemma Starts(j: Json, rest: Blob)
    ensures var b := Compact(j) + rest;
      b != [] && b[0] > 0x20 && b[0] != CLOSE_ARRAY && b[0] != CLOSE_OBJECT
  {
  }

  lemma QuotedBack(s: Blob, rest: Blob)
    ensures (Quoted(s) + rest)[1..] == Escape(s) + [QUOTE] + rest
    ensures ReadString((Quoted(s) + rest)[1..]) == Some((s, rest))
  {
    hide ReadString, Escape;
    assert Quoted(s) + rest == [QUOTE] + (Escape(s) + [QUOTE] + rest);
    StringBack(s, rest);
  }

  /** Reading what was written gives it back and stops where it ends, for every value. */
  lemma {:induction false} ValueBack(j: Json, rest: Blob)
    ensures ReadValue(Compact(j) + rest) == Some((j, rest))
    decreases j, 1
  {
    hide Escape, ReadString, ReadItems, ReadMembers, CompactItems, CompactMembers, Skip;
    var b := Compact(j) + rest;
    Starts(j, rest);
    NoSkip(b);
    match j {
      case Str(s) =>
        QuotedBack(s, rest);
      case Arr(items) =>
        assert b[1..] == CompactItems(items) + ([CLOSE_ARRAY] + rest);
        if items == [] {
          EmptyItems();
          NoSkip([CLOSE_ARRAY] + rest);
        } else {
          ItemsStart(items, [CLOSE_ARRAY] + rest);
          ItemsBack(items, rest);
        }
      case Obj(members) =>
        assert b[1..] == CompactMembers(members) + ([CLOSE_OBJECT] + rest);
        if members == [] {
          EmptyMembers();
          NoSkip([CLOSE_OBJECT] + rest);
        } else {
          MembersStart(members, [CLOSE_OBJECT] + rest);
          MembersBack(members, rest);
        }
    }
  }

  lemma EmptyItems()
    ensures forall tail: Blob :: CompactItems([]) + tail == tail
  {
  }

  lemma EmptyMembers()
    ensures forall tail: Blob :: CompactMembers([]) + tail == tail
  {
  }

  lemma ItemsStart(items: seq<Json>, tail: Blob)
    requires items != []
    ensures var b := CompactItems(items) + tail;
      b != [] && Skip(b) == b && b[0] != CLOSE_ARRAY
  {
    hide Compact;
    Starts(items[0], []);
    assert Compact(items[0]) + [] == Compact(items[0]);
  }

  lemma MembersStart(members: seq<Member>, tail: Blob)
    requires members != []
    ensures var b := CompactMembers(members) + tail;
      b != [] && Skip(b) == b && b[0] == QUOTE
  {
    hide Compact, Escape;
  }

  lemma {:induction false} ItemsBack(items: seq<Json>, rest: Blob)
    requires items != []
    ensures ReadItems(CompactItems(items) + ([CLOSE_ARRAY] + rest)) == Some((items, rest))
    decreases items, 0
  {
    hide Compact, ReadValue, Skip;
    var v, tail := items[0], [CLOSE_ARRAY] + rest;
    if |items| == 1 {
      ValueBack(v, tail);
      NoSkip(tail);
      assert items == [v];
    } else {
      var more := CompactItems(items[1..]) + tail;
      assert CompactItems(items) + tail == Compact(v) + ([COMMA] + more);
      ValueBack(v, [COMMA] + more);
      NoSkip([COMMA] + more);
      assert ([COMMA] + more)[1..] == more;
      ItemsBack(items[1..], rest);
      assert items == [v] + items[1..];
    }
  }

  lemma {:induction false} MemberBack(m: Member, tail: Blob)
    ensures ReadMember(CompactMember(m) + tail) == Some((m, tail))
    decreases m, 2
  {
    hide Compact, ReadValue, Skip, ReadString, Escape;
    var after := [COLON] + (Compact(m.value) + tail);
    var b := CompactMember(m) + tail;
    assert b == Quoted(m.name) + after;
    NoSkip(b);
    QuotedBack(m.name, after);
    NoSkip(after);
    assert after[1..] == Compact(m.value) + tail;
    ValueBack(m.value, tail);
  }

  lemma {:induction false} MembersBack(members: seq<Member>, rest: Blob)
    requires members != []
    ensures ReadMembers(CompactMembers(members) + ([CLOSE_OBJECT] + rest)) == Some((members, rest))
    decreases members, 0
  {
    hide Compact, ReadMember, Skip, CompactMember;
    var m, tail := members[0], [CLOSE_OBJECT] + rest;
    if |members| == 1 {
      MemberBack(m, tail);
      NoSkip(tail);
      assert members == [m];
    } else {
      var more := CompactMembers(members[1..]) + tail;
      assert CompactMembers(members) + tail == CompactMember(m) + ([COMMA] + more);
      MemberBack(m, [COMMA] + more);
      NoSkip([COMMA] + more);
      assert ([COMMA] + more)[1..] == more;
      MembersBack(members[1..], rest);
      assert members == [m] + members[1..];
    }
  }

  /** Round trip: the text of any value reads back as that value. */
  lemma TextBack(j: Json)
    ensures ReadText(Compact(j)) == Some(j)
  {
    hide Compact, ReadValue;
    ValueBack(j, []);
    assert Compact(j) + [] == Compact(j);
  }

  // ----- the options -----

  function ValueJson(v: (Blob, Blob)): Json {
    Obj([Member(VALUE, Str(v.0)), Member(LABEL, Str(v.1))])
  }

  function ValuesJson(vs: seq<(Blob, Blob)>): (r: seq<Json>)
    ensures |r| == |vs|
  {
    if vs == [] then [] else [ValueJson(vs[0])] + ValuesJson(vs[1..])
  }

  function OptionJson(o: ShimOption): Json {
    Obj([Member(KEY, Str(o.key)), Member(DESC, Str(o.desc)), Member(INFO, Str(o.info)), Member(DEFAULT, Str(o.def)),
         Member(VALUES, Arr(ValuesJson(o.values)))])
  }

  function OptionsJson(os: seq<ShimOption>): (r: seq<Json>)
    ensures |r| == |os|
  {
    if os == [] then [] else [OptionJson(os[0])] + OptionsJson(os[1..])
  }

  /** The value of the first member of that name. */
  function Field(j: Json, name: Blob): Option<Json> {
    if j.Obj? then FieldOf(j.members, name) else None
  }

  function FieldOf(members: seq<Member>, name: Blob): Option<Json> {
    if members == [] then None
    else if members[0].name == name then Some(members[0].value)
    else FieldOf(members[1..], name)
  }

  function Text(j: Json, name: Blob): Option<Blob> {
    match Field(j, name) case Some(Str(s)) => Some(s) case _ => None
  }

  function ValuesOf(items: seq<Json>): Option<seq<(Blob, Blob)>> {
    if items == [] then Some([])
    else match (Text(items[0], VALUE), Text(items[0], LABEL), ValuesOf(items[1..]))
      case (Some(v), Some(l), Some(more)) => Some([(v, l)] + more)
      case _ => None
  }

  function OptionOf(j: Json): Option<ShimOption> {
    match (Text(j, KEY), Text(j, DESC), Text(j, INFO), Text(j, DEFAULT), Field(j, VALUES))
    case (Some(k), Some(d), Some(i), Some(def), Some(Arr(items))) =>
      (match ValuesOf(items) case Some(vs) => Some(ShimOption(k, d, i, def, vs)) case None => None)
    case _ => None
  }

  function OptionsOf(items: seq<Json>): Option<seq<ShimOption>> {
    if items == [] then Some([])
    else match (OptionOf(items[0]), OptionsOf(items[1..]))
      case (Some(o), Some(more)) => Some([o] + more)
      case _ => None
  }

  /** What a consumer reads from a text: the options by their member names. */
  function ReadOptions(text: Blob): Option<seq<ShimOption>> {
    match ReadText(text)
    case Some(Arr(items)) => OptionsOf(items)
    case _ => None
  }

  lemma {:induction false} ValuesBack(vs: seq<(Blob, Blob)>)
    ensures ValuesOf(ValuesJson(vs)) == Some(vs)
  {
    if vs != [] {
      ValuesBack(vs[1..]);
      var j := ValueJson(vs[0]);
      FieldAt(j.members, 0);
      FieldAt(j.members, 1);
      assert Text(j, VALUE) == Some(vs[0].0) && Text(j, LABEL) == Some(vs[0].1);
      assert ValuesJson(vs)[1..] == ValuesJson(vs[1..]);
      assert [vs[0]] + vs[1..] == vs;
    }
  }

  lemma {:induction false} FieldAt(members: seq<Member>, i: nat)
    requires i < |members| && forall k | 0 <= k < i :: members[k].name != members[i].name
    ensures FieldOf(members, members[i].name) == Some(members[i].value)
  {
    if i > 0 { FieldAt(members[1..], i - 1); }
  }

  lemma OptionBack(o: ShimOption)
    ensures OptionOf(OptionJson(o)) == Some(o)
  {
    hide FieldOf, ValuesOf, ValuesJson;
    var ms := OptionJson(o).members;
    FieldAt(ms, 0);
    FieldAt(ms, 1);
    FieldAt(ms, 2);
    FieldAt(ms, 3);
    FieldAt(ms, 4);
    ValuesBack(o.values);
  }

  lemma {:induction false} OptionsBack(os: seq<ShimOption>)
    ensures OptionsOf(OptionsJson(os)) == Some(os)
  {
    hide OptionOf, OptionJson;
    if os != [] {
      OptionBack(os[0]);
      OptionsBack(os[1..]);
      assert OptionsJson(os)[1..] == OptionsJson(os[1..]);
      assert [os[0]] + os[1..] == os;
    }
  }

  /** The text of an option list. */
  function Printed(os: seq<ShimOption>): Blob {
    Compact(Arr(OptionsJson(os)))
  }

  /** Main result: for every option list with arbitrary byte strings, reading the text gives back
      exactly the same options, in order. */
  lemma OptionsReadBack(os: seq<ShimOption>)
    ensures ReadOptions(Printed(os)) == Some(os)
  {
    hide ReadText, Compact, OptionsOf;
    TextBack(Arr(OptionsJson(os)));
    OptionsBack(os);
  }

  /** So different option lists never have the same text. */
  lemma PrintedIsInjective(a: seq<ShimOption>, b: seq<ShimOption>)
    requires Printed(a) == Printed(b)
    ensures a == b
  {
    hide ReadOptions, Printed;
    OptionsReadBack(a);
    OptionsReadBack(b);
  }

  predicate Visible(b: Blob) {
    forall i | 0 <= i < |b| :: b[i] >= 0x20
  }

  lemma {:induction false} EscapeVisible(s: Blob)
    ensures Visible(Escape(s))
  {
    if s != [] { EscapeVisible(s[1..]); }
  }

  lemma {:induction false} CompactVisible(j: Json)
    ensures Visible(Compact(j))
    decreases j, 1
  {
    hide Escape;
    match j {
      case Str(s) => EscapeVisible(s);
      case Arr(items) => ItemsVisible(items);
      case Obj(members) => MembersVisible(members);
    }
  }

  lemma {:induction false} ItemsVisible(items: seq<Json>)
    ensures Visible(CompactItems(items))
    decreases items, 0
  {
    hide Compact;
    if items != [] {
      CompactVisible(items[0]);
      ItemsVisible(items[1..]);
    }
  }

  lemma {:induction false} MembersVisible(members: seq<Member>)
    ensures Visible(CompactMembers(members))
    decreases members, 0
  {
    hide Compact, Escape;
    if members != [] {
      var m := members[0];
      EscapeVisible(m.name);
      CompactVisible(m.value);
      MembersVisible(members[1..]);
    }
  }

  /** The text holds no control character and no zero byte, so as a C string it is not cut short. */
  lemma PrintedIsVisible(os: seq<ShimOption>)
    ensures Visible(Printed(os))
  {
    CompactVisible(Arr(OptionsJson(os)));
  }

  // ----- the printer -----

  /** `json_escape`: appends to `out` byte by byte. */
  method JsonEscape(s: Blob, out: Blob) returns (r: Blob)
    ensures r == out + Escape(s)
  {
    hide EscapeByte;
    r := out;
    var i := 0;
    assert s[..0] == [];
    while i < |s|
      invariant 0 <= i <= |s|
      invariant r + Escape(s[i..]) == out + Escape(s)
    {
      assert s[i..][1..] == s[i + 1..];
      assert r + (EscapeByte(s[i]) + Escape(s[i + 1..])) == r + EscapeByte(s[i]) + Escape(s[i + 1..]);
      r := r + EscapeByte(s[i]);
      i := i + 1;
    }
  }

  method QuotedText(s: Blob) returns (r: Blob)
    ensures r == Quoted(s)
  {
    var e := JsonEscape(s, []);
    r := [QUOTE] + e + [QUOTE];
  }

  lemma {:induction false} ItemsSnoc(items: seq<Json>, j: Json)
    ensures CompactItems(items + [j]) == if items == [] then Compact(j) else CompactItems(items) + [COMMA] + Compact(j)
  {
    hide Compact;
    if items == [] {
      assert items + [j] == [j];
    } else if |items| == 1 {
      assert (items + [j])[1..] == [j];
    } else {
      assert (items + [j])[1..] == items[1..] + [j];
      ItemsSnoc(items[1..], j);
      assert Compact(items[0]) + [COMMA] + (CompactItems(items[1..]) + [COMMA] + Compact(j))
          == Compact(items[0]) + [COMMA] + CompactItems(items[1..]) + [COMMA] + Compact(j);
    }
  }

  lemma {:induction false} ValuesSnoc(vs: seq<(Blob, Blob)>, v: (Blob, Blob))
    ensures ValuesJson(vs + [v]) == ValuesJson(vs) + [ValueJson(v)]
  {
    if vs == [] { assert vs + [v] == [v]; } else { assert (vs + [v])[1..] == vs[1..] + [v]; ValuesSnoc(vs[1..], v); }
  }

  lemma {:induction false} OptionsSnoc(os: seq<ShimOption>, o: ShimOption)
    ensures OptionsJson(os + [o]) == OptionsJson(os) + [OptionJson(o)]
  {
    hide OptionJson;
    if os == [] { assert os + [o] == [o]; } else { assert (os + [o])[1..] == os[1..] + [o]; OptionsSnoc(os[1..], o); }
  }

  /** One object member. */
  function Line(name: Blob, text: Blob): Blob {
    Quoted(name) + [COLON] + text
  }

  lemma StrMember(name: Blob, s: Blob)
    ensures CompactMember(Member(name, Str(s))) == Line(name, Quoted(s))
  {
    assert Compact(Str(s)) == Quoted(s);
  }

  lemma ArrMember(name: Blob, items: seq<Json>)
    ensures CompactMember(Member(name, Arr(items))) == Line(name, [OPEN_ARRAY] + CompactItems(items) + [CLOSE_ARRAY])
  {
    ArrayText(items);
  }

  lemma ObjectText(members: seq<Member>)
    ensures Compact(Obj(members)) == [OPEN_OBJECT] + CompactMembers(members) + [CLOSE_OBJECT]
  {
  }

  lemma MembersCons(m: Member, more: seq<Member>)
    ensures CompactMembers([m] + more)
         == if more == [] then CompactMember(m) else CompactMember(m) + [COMMA] + CompactMembers(more)
  {
    assert ([m] + more)[1..] == more;
  }

  lemma ValueText(v: (Blob, Blob))
    ensures Compact(ValueJson(v))
         == [OPEN_OBJECT] + Line(VALUE, Quoted(v.0)) + [COMMA] + Line(LABEL, Quoted(v.1)) + [CLOSE_OBJECT]
  {
    hide Quoted, Compact, CompactMembers, CompactMember;
    var ms := ValueJson(v).members;
    MembersCons(ms[0], [ms[1]]);
    MembersCons(ms[1], []);
    StrMember(VALUE, v.0);
    StrMember(LABEL, v.1);
    ObjectText(ms);
    assert [ms[0]] + [ms[1]] == ms && [ms[1]] + [] == [ms[1]];
    var a, b := Line(VALUE, Quoted(v.0)), Line(LABEL, Quoted(v.1));
    assert CompactMembers(ms) == a + [COMMA] + b;
    assert [OPEN_OBJECT] + (a + [COMMA] + b) + [CLOSE_OBJECT] == [OPEN_OBJECT] + a + [COMMA] + b + [CLOSE_OBJECT];
  }

  lemma Flatten(a: Blob, b: Blob, c: Blob, d: Blob, e: Blob)
    ensures [OPEN_OBJECT] + (a + [COMMA] + (b + [COMMA] + (c + [COMMA] + (d + [COMMA] + e)))) + [CLOSE_OBJECT]
         == [OPEN_OBJECT] + a + [COMMA] + b + [COMMA] + c + [COMMA] + d + [COMMA] + e + [CLOSE_OBJECT]
  {
    var t := c + [COMMA] + (d + [COMMA] + e);
    assert t == c + [COMMA] + d + [COMMA] + e;
    var u := b + [COMMA] + t;
    assert u == b + [COMMA] + c + [COMMA] + d + [COMMA] + e;
    var v := a + [COMMA] + u;
    assert v == a + [COMMA] + b + [COMMA] + c + [COMMA] + d + [COMMA] + e;
  }

  lemma OptionText(o: ShimOption)
    ensures Compact(OptionJson(o))
         == [OPEN_OBJECT] + Line(KEY, Quoted(o.key)) + [COMMA] + Line(DESC, Quoted(o.desc)) + [COMMA]
            + Line(INFO, Quoted(o.info)) + [COMMA] + Line(DEFAULT, Quoted(o.def)) + [COMMA]
            + Line(VALUES, [OPEN_ARRAY] + CompactItems(ValuesJson(o.values)) + [CLOSE_ARRAY]) + [CLOSE_OBJECT]
  {
    hide Quoted, CompactItems, Compact, CompactMembers, CompactMember;
    var ms := OptionJson(o).members;
    MembersCons(ms[4], []);
    MembersCons(ms[3], ms[4..]);
    MembersCons(ms[2], ms[3..]);
    MembersCons(ms[1], ms[2..]);
    MembersCons(ms[0], ms[1..]);
    assert [ms[4]] + [] == ms[4..] && [ms[3]] + ms[4..] == ms[3..] && [ms[2]] + ms[3..] == ms[2..];
    assert [ms[1]] + ms[2..] == ms[1..] && [ms[0]] + ms[1..] == ms;
    StrMember(KEY, o.key);
    StrMember(DESC, o.desc);
    StrMember(INFO, o.info);
    StrMember(DEFAULT, o.def);
    ArrMember(VALUES, ValuesJson(o.values));
    ObjectText(ms);
    Flatten(Line(KEY, Quoted(o.key)), Line(DESC, Quoted(o.desc)), Line(INFO, Quoted(o.info)),
            Line(DEFAULT, Quoted(o.def)),
            Line(VALUES, [OPEN_ARRAY] + CompactItems(ValuesJson(o.values)) + [CLOSE_ARRAY]));
  }

  method ValuesText(vs: seq<(Blob, Blob)>) returns (r: Blob)
    ensures r == CompactItems(ValuesJson(vs))
  {
    hide Compact, CompactItems, Quoted;
    r := [];
    assert CompactItems(ValuesJson([])) == [] by { NoValues(); }
    for i := 0 to |vs|
      invariant r == CompactItems(ValuesJson(vs[..i]))
    {
      assert vs[..i + 1] == vs[..i] + [vs[i]];
      ValuesSnoc(vs[..i], vs[i]);
      ItemsSnoc(ValuesJson(vs[..i]), ValueJson(vs[i]));
      ValueText(vs[i]);
      if i > 0 { r := r + [COMMA]; }
      var value := QuotedText(vs[i].0);
      var shown := QuotedText(vs[i].1);
      r := r + ([OPEN_OBJECT] + Line(VALUE, value) + [COMMA] + Line(LABEL, shown) + [CLOSE_OBJECT]);
    }
    assert vs[..|vs|] == vs;
  }

  lemma NoValues()
    ensures CompactItems(ValuesJson([])) == [] && CompactItems(OptionsJson([])) == []
  {
  }

  /** `sh_core_options_json`. */
  method CoreOptionsJson(os: seq<ShimOption>) returns (j: Blob)
    ensures j == Printed(os)
  {
    hide Compact, CompactItems, Quoted;
    j := [];
    assert CompactItems(OptionsJson([])) == [] by { NoValues(); }
    for i := 0 to |os|
      invariant j == CompactItems(OptionsJson(os[..i]))
    {
      var o := os[i];
      assert os[..i + 1] == os[..i] + [o];
      OptionsSnoc(os[..i], o);
      ItemsSnoc(OptionsJson(os[..i]), OptionJson(o));
      OptionText(o);
      if i > 0 { j := j + [COMMA]; }
      var key := QuotedText(o.key);
      var desc := QuotedText(o.desc);
      var info := QuotedText(o.info);
      var def := QuotedText(o.def);
      var values := ValuesText(o.values);
      j := j + ([OPEN_OBJECT] + Line(KEY, key) + [COMMA] + Line(DESC, desc) + [COMMA] + Line(INFO, info) + [COMMA]
                + Line(DEFAULT, def) + [COMMA] + Line(VALUES, [OPEN_ARRAY] + values + [CLOSE_ARRAY]) + [CLOSE_OBJECT]);
    }
    assert os[..|os|] == os;
    j := [OPEN_ARRAY] + j + [CLOSE_ARRAY];
    ArrayText(OptionsJson(os));
  }

  lemma ArrayText(items: seq<Json>)
    ensures Compact(Arr(items)) == [OPEN_ARRAY] + CompactItems(items) + [CLOSE_ARRAY]
  {
  }

  // ----- the text, character by character -----

  /** The bytes of a text in ASCII. */
  function Ascii(s: string): (b: Blob)
    ensures |b| == |s|
  {
    seq(|s|, i requires 0 <= i < |s| => (s[i] as int) % 0x80)
  }

  /** The two escapes with a backslash, the three with a letter, the four hexadecimal digits of any other
      control character, in lower case, and every other byte as it is. */
  lemma EscapeIs(c: byte)
    ensures var digits := Ascii("0123456789abcdef");
      EscapeByte(c)
         == if c == '\"' as int then Ascii("\\\"")
            else if c == '\\' as int then Ascii("\\\\")
            else if c == '\n' as int then Ascii("\\n")
            else if c == '\r' as int then Ascii("\\r")
            else if c == '\t' as int then Ascii("\\t")
            else if c < 0x20 then Ascii("\\u00") + [digits[c / 16], digits[c % 16]]
            else [c]
  {
    if c < 0x20 { Digits(c / 16); Digits(c % 16); }
  }

  lemma Digits(d: nat)
    requires d < 16
    ensures HexDigit(d) == Ascii("0123456789abcdef")[d]
  {
  }

  /** No byte of the text needs an escape. */
  predicate Plainly(b: Blob) {
    forall k | 0 <= k < |b| :: b[k] >= 0x20 && b[k] != 0x22 && b[k] != 0x5C
  }

  lemma {:induction false} EscapePlain(b: Blob)
    requires Plainly(b)
    ensures Escape(b) == b
  {
    if b != [] { EscapePlain(b[1..]); assert b == [b[0]] + b[1..]; }
  }

  /** The text between two string values. */
  function Between(name: string): Blob {
    Ascii("\",\"") + Ascii(name) + Ascii("\":\"")
  }

  lemma NextString(a: Blob, name: string, s: Blob)
    requires Plainly(Ascii(name))
    ensures a + [QUOTE] + [COMMA] + Line(Ascii(name), Quoted(s)) == a + Between(name) + Escape(s) + [QUOTE]
  {
    hide Escape, Plainly, Between;
    EscapePlain(Ascii(name));
    BetweenIs(name);
    var between := [QUOTE] + [COMMA] + ([QUOTE] + Ascii(name) + [QUOTE] + [COLON]) + [QUOTE];
    assert a + [QUOTE] + [COMMA] + Line(Ascii(name), Quoted(s)) == a + between + Escape(s) + [QUOTE];
  }

  lemma BetweenIs(name: string)
    ensures [QUOTE] + [COMMA] + ([QUOTE] + Ascii(name) + [QUOTE] + [COLON]) + [QUOTE] == Between(name)
  {
  }

  lemma FirstString(name: string, s: Blob)
    requires Plainly(Ascii(name))
    ensures [OPEN_OBJECT] + Line(Ascii(name), Quoted(s))
         == Ascii("{\"") + Ascii(name) + Ascii("\":\"") + Escape(s) + [QUOTE]
  {
    hide Escape, Plainly;
    EscapePlain(Ascii(name));
    assert [OPEN_OBJECT] + ([QUOTE] + Ascii(name) + [QUOTE] + [COLON]) + [QUOTE]
        == Ascii("{\"") + Ascii(name) + Ascii("\":\"");
  }

  lemma Names()
    ensures KEY == Ascii("key") && DESC == Ascii("desc") && INFO == Ascii("info") && DEFAULT == Ascii("default")
    ensures VALUES == Ascii("values") && VALUE == Ascii("value") && LABEL == Ascii("label")
    ensures Plainly(KEY) && Plainly(DESC) && Plainly(INFO) && Plainly(DEFAULT) && Plainly(VALUES) && Plainly(VALUE)
           && Plainly(LABEL)
  {
    NamesInAscii();
  }

  lemma NamesInAscii()
    ensures KEY == Ascii("key") && DESC == Ascii("desc") && INFO == Ascii("info") && DEFAULT == Ascii("default")
    ensures VALUES == Ascii("values") && VALUE == Ascii("value") && LABEL == Ascii("label")
  {
  }

  /** A value, as the source puts it together. */
  lemma ValueIs(v: (Blob, Blob))
    ensures Compact(ValueJson(v))
         == Ascii("{\"") + Ascii("value") + Ascii("\":\"") + Escape(v.0) + Between("label") + Escape(v.1) + Ascii("\"}")
  {
    hide Escape, Compact, Plainly, Line, Between;
    Names();
    ValueText(v);
    FirstString("value", v.0);
    var a := Ascii("{\"") + Ascii("value") + Ascii("\":\"") + Escape(v.0);
    NextString(a, "label", v.1);
    var b := a + Between("label") + Escape(v.1);
    assert b + [QUOTE] + [CLOSE_OBJECT] == b + Ascii("\"}");
  }

  /** An option, as the source puts it together: the four texts in this order, then the values. */
  lemma OptionIs(o: ShimOption)
    ensures Compact(OptionJson(o))
         == Ascii("{\"") + Ascii("key") + Ascii("\":\"") + Escape(o.key) + Between("desc") + Escape(o.desc)
            + Between("info") + Escape(o.info) + Between("default") + Escape(o.def) + Ascii("\",\"values\":[")
            + CompactItems(ValuesJson(o.values)) + Ascii("]}")
  {
    hide Escape, Compact, CompactItems, Plainly, Line, Between;
    Names();
    OptionText(o);
    FirstString("key", o.key);
    var a := Ascii("{\"") + Ascii("key") + Ascii("\":\"") + Escape(o.key);
    NextString(a, "desc", o.desc);
    var b := a + Between("desc") + Escape(o.desc);
    NextString(b, "info", o.info);
    var d := b + Between("info") + Escape(o.info);
    NextString(d, "default", o.def);
    LastList(d + Between("default") + Escape(o.def), CompactItems(ValuesJson(o.values)));
  }

  lemma LastList(a: Blob, items: Blob)
    ensures a + [QUOTE] + [COMMA] + Line(VALUES, [OPEN_ARRAY] + items + [CLOSE_ARRAY]) + [CLOSE_OBJECT]
         == a + Ascii("\",\"values\":[") + items + Ascii("]}")
  {
    hide Escape, Plainly;
    Names();
    EscapePlain(VALUES);
    assert [QUOTE] + [COMMA] + ([QUOTE] + VALUES + [QUOTE] + [COLON]) + [OPEN_ARRAY] == Ascii("\",\"values\":[");
    assert [CLOSE_ARRAY] + [CLOSE_OBJECT] == Ascii("]}");
  }

  /** The list: the options between square brackets, separated by commas. */
  lemma {:induction false} ListIs(items: seq<Json>)
    ensures items == [] ==> CompactItems(items) == []
    ensures |items| == 1 ==> CompactItems(items) == Compact(items[0])
    ensures |items| > 1 ==> CompactItems(items) == Compact(items[0]) + Ascii(",") + CompactItems(items[1..])
    ensures Compact(Arr(items)) == Ascii("[") + CompactItems(items) + Ascii("]")
  {
    assert [COMMA] == Ascii(",") && [OPEN_ARRAY] == Ascii("[") && [CLOSE_ARRAY] == Ascii("]");
  }
}
