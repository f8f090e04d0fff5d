/** Harvested core options, user overrides and the update latch of the libretro shim
    (cores/libretro_shim/LibretroShim.cpp). */
module CoreOptions {
  import opened Abi
  import opened OptionsJson

  const SEMICOLON: byte := 0x3B
  const SPACE: byte := 0x20
  const BAR: byte := 0x7C
  const VALUES_MAX: nat := 128

  // ----- harvesting a declaration -----

  /** The index of the first `c` at or after `from`, or the length. */
  function IndexOf(b: Blob, c: byte, from: nat): (k: nat)
    requires from <= |b|
    ensures from <= k <= |b|
    ensures k < |b| ==> b[k] == c
    ensures forall j | from <= j < k :: b[j] != c
    decreases |b| - from
  {
    if from == |b| || b[from] == c then from else IndexOf(b, c, from + 1)
  }

  function SkipSpaces(b: Blob, from: nat): (k: nat)
    requires from <= |b|
    ensures from <= k <= |b|
    decreases |b| - from
  {
    if from < |b| && b[from] == SPACE then SkipSpaces(b, from + 1) else from
  }

  /** The non-empty tokens between bars. */
  function Tokens(b: Blob): seq<Blob>
    decreases |b|
  {
    var bar := IndexOf(b, BAR, 0);
    var first := if bar == 0 then [] else [b[..bar]];
    if bar == |b| then first else first + Tokens(b[bar + 1..])
  }

  /** Legacy options label each value with itself. */
  function Plain(tokens: seq<Blob>): (r: seq<(Blob, Blob)>)
    ensures |r| == |tokens| && forall i | 0 <= i < |r| :: r[i] == (tokens[i], tokens[i])
  {
    if tokens == [] then [] else [(tokens[0], tokens[0])] + Plain(tokens[1..])
  }

  function FirstValue(values: seq<(Blob, Blob)>): Blob {
    if values == [] then [] else values[0].0
  }

  /** A legacy declaration "desc; v1|v2|...": without a semicolon all of it is the description. */
  function Legacy(key: Blob, text: Blob): ShimOption {
    var semi := IndexOf(text, SEMICOLON, 0);
    if semi == |text| then ShimOption(key, text, [], [], [])
    else
      var values := Plain(Tokens(text[SkipSpaces(text, semi + 1)..]));
      ShimOption(key, text[..semi], [], FirstValue(values), values)
  }

  function Joined(tokens: seq<Blob>): Blob {
    if tokens == [] then []
    else if |tokens| == 1 then tokens[0]
    else tokens[0] + [BAR] + Joined(tokens[1..])
  }

  function Spaces(n: nat): (r: Blob)
    ensures |r| == n
  {
    if n == 0 then [] else [SPACE] + Spaces(n - 1)
  }

  /** A list of values as a declaration carries it: any text that does not start with a space is one, cut at
      its bars. */
  predicate Wellformed(tokens: seq<Blob>) {
    && (forall i | 0 <= i < |tokens| :: BAR !in tokens[i])
    && (Joined(tokens) != [] ==> Joined(tokens)[0] != SPACE)
  }

  /** Without the empty ones. */
  function NonEmpty(tokens: seq<Blob>): seq<Blob> {
    if tokens == [] then [] else (if tokens[0] == [] then [] else [tokens[0]]) + NonEmpty(tokens[1..])
  }

  lemma IndexIs(b: Blob, c: byte, from: nat, k: nat)
    requires from <= k <= |b| && (k < |b| ==> b[k] == c) && (forall j | from <= j < k :: b[j] != c)
    ensures IndexOf(b, c, from) == k
  {
  }

  predicate BarFree(tokens: seq<Blob>) {
    forall i | 0 <= i < |tokens| :: tokens[i] != [] && BAR !in tokens[i]
  }

  lemma {:induction false} TokensJoined(tokens: seq<Blob>)
    requires forall i | 0 <= i < |tokens| :: BAR !in tokens[i]
    ensures Tokens(Joined(tokens)) == NonEmpty(tokens)
    decreases |tokens|
  {
    hide IndexOf;
    var b := Joined(tokens);
    if tokens == [] {
      IndexIs(b, BAR, 0, 0);
    } else if |tokens| == 1 {
      IndexIs(b, BAR, 0, |b|);
      assert b[..|b|] == tokens[0] && tokens[1..] == [];
    } else {
      IndexIs(b, BAR, 0, |tokens[0]|);
      assert b[..|tokens[0]|] == tokens[0] && b[|tokens[0]| + 1..] == Joined(tokens[1..]);
      TokensJoined(tokens[1..]);
    }
  }

  lemma {:induction false} SpacesSkipped(b: Blob, from: nat, n: nat)
    requires from + n <= |b| && (forall k | from <= k < from + n :: b[k] == SPACE)
    requires from + n < |b| ==> b[from + n] != SPACE
    ensures SkipSpaces(b, from) == from + n
    decreases n
  {
    if n > 0 { SpacesSkipped(b, from + 1, n - 1); }
  }

  lemma {:induction false} SpacesAre(n: nat)
    ensures forall k | 0 <= k < n :: Spaces(n)[k] == SPACE
  {
    if n > 0 { SpacesAre(n - 1); }
  }

  /** A declaration gives back its description, its non-empty values in order and the first of them as the
      default, however many spaces follow the semicolon. */
  lemma LegacyRecovers(key: Blob, desc: Blob, n: nat, tokens: seq<Blob>)
    requires SEMICOLON !in desc && Wellformed(tokens)
    ensures var values := NonEmpty(tokens);
      Legacy(key, desc + [SEMICOLON] + Spaces(n) + Joined(tokens))
      == ShimOption(key, desc, [], if values == [] then [] else values[0], Plain(values))
  {
    hide IndexOf, SkipSpaces, Tokens, Joined, Spaces, Plain, NonEmpty;
    var values := Joined(tokens);
    var text := desc + [SEMICOLON] + Spaces(n) + values;
    IndexIs(text, SEMICOLON, 0, |desc|);
    assert text[..|desc|] == desc;
    SpacesAre(n);
    forall k | |desc| + 1 <= k < |desc| + 1 + n ensures text[k] == SPACE {
      assert text[k] == Spaces(n)[k - |desc| - 1];
    }
    SpacesSkipped(text, |desc| + 1, n);
    assert text[|desc| + 1 + n..] == values;
    TokensJoined(tokens);
    FirstPlain(NonEmpty(tokens));
  }

  lemma FirstPlain(tokens: seq<Blob>)
    ensures FirstValue(Plain(tokens)) == if tokens == [] then [] else tokens[0]
  {
  }

  lemma {:induction false} TokensAreBarFree(b: Blob)
    ensures BarFree(Tokens(b))
    decreases |b|
  {
    hide IndexOf, BarFree;
    var bar := IndexOf(b, BAR, 0);
    var first := if bar == 0 then [] else [b[..bar]];
    FirstIsBarFree(b, bar);
    if bar < |b| {
      TokensAreBarFree(b[bar + 1..]);
      BarFreeJoin(first, Tokens(b[bar + 1..]));
    }
  }

  lemma FirstIsBarFree(b: Blob, bar: nat)
    requires bar <= |b| && forall j | 0 <= j < bar :: b[j] != BAR
    ensures BarFree(if bar == 0 then [] else [b[..bar]])
  {
  }

  lemma BarFreeJoin(a: seq<Blob>, b: seq<Blob>)
    requires BarFree(a) && BarFree(b)
    ensures BarFree(a + b)
  {
  }

  /** Whatever the text, the harvested values are non-empty and free of bars, the default is the first
      of them when there is one and empty otherwise, and the description stops at the first semicolon. */
  lemma LegacyIsSane(key: Blob, text: Blob)
    ensures var o := Legacy(key, text);
      && (forall i | 0 <= i < |o.values| :: o.values[i].0 == o.values[i].1 != [] && BAR !in o.values[i].0)
      && o.def == (if o.values == [] then [] else o.values[0].0)
      && SEMICOLON !in o.desc && o.desc <= text
      && (SEMICOLON !in text ==> o.desc == text && o.values == [])
  {
    hide Tokens, IndexOf, SkipSpaces;
    var semi := IndexOf(text, SEMICOLON, 0);
    if semi < |text| { TokensAreBarFree(text[SkipSpaces(text, semi + 1)..]); }
  }

  /** A value slot of the descriptor forms: its value, null at the end of the list, and its label. */
  datatype Choice = Choice(value: Option<Blob>, shown: Option<Blob>)

  /** A descriptor of the later options interfaces; missing strings are null pointers. */
  datatype Definition = Definition(key: Blob, desc: Option<Blob>, info: Option<Blob>, def: Option<Blob>,
                                   choices: seq<Choice>)

  function OrEmpty(s: Option<Blob>): Blob {
    if s.Some? then s.value else []
  }

  function Choices(cs: seq<Choice>, room: nat): (r: seq<(Blob, Blob)>)
    ensures |r| <= room
    decreases room
  {
    if room == 0 || cs == [] || cs[0].value.None? then []
    else
      var shown := if cs[0].shown.Some? then cs[0].shown.value else cs[0].value.value;
      [(cs[0].value.value, shown)] + Choices(cs[1..], room - 1)
  }

  function Described(d: Definition): ShimOption {
    var values := Choices(d.choices, VALUES_MAX);
    var def := OrEmpty(d.def);
    ShimOption(d.key, OrEmpty(d.desc), OrEmpty(d.info), if def == [] then FirstValue(values) else def, values)
  }

  lemma {:induction false} ChoicesAre(cs: seq<Choice>, room: nat)
    ensures var r := Choices(cs, room);
      && |r| <= |cs|
      && (|r| == room || |r| == |cs| || cs[|r|].value.None?)
      && forall i | 0 <= i < |r| :: cs[i].value.Some? && r[i].0 == cs[i].value.value
                                    && r[i].1 == if cs[i].shown.Some? then cs[i].shown.value else cs[i].value.value
    decreases room
  {
    if room > 0 && cs != [] && cs[0].value.Some? {
      ChoicesAre(cs[1..], room - 1);
      forall i | 1 <= i < |Choices(cs, room)|
        ensures cs[i] == cs[1..][i - 1] && Choices(cs, room)[i] == Choices(cs[1..], room - 1)[i - 1] {}
    }
  }

  /** What is read from a descriptor: its key, and its description and further text where given; the values up
      to the first null, at most 128, each with its label or itself; as default the declared one, unless it is
      missing or empty, else the first value. */
  lemma DescribedFields(d: Definition)
    ensures var o := Described(d);
      && o.key == d.key
      && o.desc == (if d.desc.Some? then d.desc.value else [])
      && o.info == (if d.info.Some? then d.info.value else [])
      && |o.values| <= 128 && |o.values| <= |d.choices|
      && (|o.values| == 128 || |o.values| == |d.choices| || d.choices[|o.values|].value.None?)
      && (forall i | 0 <= i < |o.values| ::
            var c := d.choices[i];
            c.value.Some? && o.values[i] == (c.value.value, if c.shown.Some? then c.shown.value else c.value.value))
      && (d.def.Some? && d.def.value != [] ==> o.def == d.def.value)
      && (d.def == None || d.def == Some([]) ==> o.def == if o.values == [] then [] else o.values[0].0)
  {
    hide Choices;
    ChoicesAre(d.choices, 128);
  }

  // ----- the table -----

  datatype Table = Table(defs: seq<ShimOption>, index: map<Blob, nat>, overrides: map<Blob, Blob>, dirty: bool)

  datatype Op = Declare(option: ShimOption) | Set(key: Blob, value: Blob) | Poll

  function Apply(t: Table, op: Op): Table {
    match op
    case Declare(o) =>
      if o.key == [] || o.key in t.index then t else t.(index := t.index[o.key := |t.defs|], defs := t.defs + [o])
    case Set(k, v) => if k in t.index then t.(overrides := t.overrides[k := v], dirty := true) else t
    case Poll => t.(dirty := false)
  }

  const EMPTY: Table := Table([], map[], map[], false)

  function After(ops: seq<Op>): Table
    decreases |ops|
  {
    if ops == [] then EMPTY else Apply(After(ops[..|ops| - 1]), ops[|ops| - 1])
  }

  /** The value in force: the override, else the default. Nothing for an unknown key. */
  function Effective(t: Table, key: Blob): Option<Blob> {
    if key in t.index && t.index[key] < |t.defs| then
      Some(if key in t.overrides then t.overrides[key] else t.defs[t.index[key]].def)
    else None
  }

  /** The index and the list are inverse to each other. */
  ghost predicate Inverse(t: Table) {
    && (forall k | k in t.index :: k != [] && t.index[k] < |t.defs| && t.defs[t.index[k]].key == k)
    && (forall i | 0 <= i < |t.defs| :: t.defs[i].key in t.index && t.index[t.defs[i].key] == i)
    && (forall k | k in t.overrides :: k in t.index)
  }

  lemma ApplyKeepsInverse(t: Table, op: Op)
    requires Inverse(t)
    ensures Inverse(Apply(t, op))
  {
  }

  lemma {:induction false} AfterIsInverse(ops: seq<Op>)
    ensures Inverse(After(ops))
    decreases |ops|
  {
    hide Inverse, Apply;
    if ops == [] {
      EmptyIsInverse();
    } else {
      AfterIsInverse(ops[..|ops| - 1]);
      ApplyKeepsInverse(After(ops[..|ops| - 1]), ops[|ops| - 1]);
    }
  }

  lemma EmptyIsInverse()
    ensures Inverse(EMPTY)
  {
  }

  // ----- what a history means -----

  /** The first declaration of a key in the history. */
  function FirstDeclared(ops: seq<Op>, key: Blob): Option<ShimOption> {
    if ops == [] then None
    else if ops[0].Declare? && ops[0].option.key == key && key != [] then Some(ops[0].option)
    else FirstDeclared(ops[1..], key)
  }

  lemma {:induction false} FirstDeclaredSnoc(ops: seq<Op>, op: Op, key: Blob)
    ensures FirstDeclared(ops + [op], key)
         == if FirstDeclared(ops, key).Some? then FirstDeclared(ops, key)
            else if op.Declare? && op.option.key == key && key != [] then Some(op.option) else None
  {
    if ops == [] {
      assert ops + [op] == [op] && [op][1..] == [];
    } else {
      assert (ops + [op])[1..] == ops[1..] + [op];
      FirstDeclaredSnoc(ops[1..], op, key);
    }
  }

  /** First declaration wins: the table knows a key exactly when it was declared, as first declared. */
  lemma {:induction false} FirstDeclarationWins(ops: seq<Op>, key: Blob)
    ensures var t := After(ops);
      && (key in t.index <==> FirstDeclared(ops, key).Some?)
      && (key in t.index ==> t.index[key] < |t.defs| && Some(t.defs[t.index[key]]) == FirstDeclared(ops, key))
    decreases |ops|
  {
    hide FirstDeclared, Inverse;
    if ops == [] {
      assert FirstDeclared([], key) == None by { NoneDeclared(key); }
    } else {
      var before, op := ops[..|ops| - 1], ops[|ops| - 1];
      FirstDeclarationWins(before, key);
      FirstDeclaredSnoc(before, op, key);
      assert before + [op] == ops;
    }
  }

  lemma NoneDeclared(key: Blob)
    ensures FirstDeclared([], key) == None
  {
  }

  /** The newest set of a key that was made after its declaration. */
  function LastSet(ops: seq<Op>, key: Blob): Option<Blob>
    decreases |ops|
  {
    if ops == [] then None
    else
      var before, op := ops[..|ops| - 1], ops[|ops| - 1];
      if op.Set? && op.key == key && FirstDeclared(before, key).Some? then Some(op.value) else LastSet(before, key)
  }

  /** The value in force for a key, read off the history. */
  function Meaning(ops: seq<Op>, key: Blob): Option<Blob> {
    match FirstDeclared(ops, key)
    case None => None
    case Some(o) => Some(if LastSet(ops, key).Some? then LastSet(ops, key).value else o.def)
  }

  lemma {:induction false} OverridesAreLastSets(ops: seq<Op>, key: Blob)
    ensures var t := After(ops);
      && (key in t.overrides <==> LastSet(ops, key).Some?)
      && (key in t.overrides ==> t.overrides[key] == LastSet(ops, key).value)
    decreases |ops|
  {
    hide FirstDeclared, Inverse;
    if ops != [] {
      OverridesAreLastSets(ops[..|ops| - 1], key);
      FirstDeclarationWins(ops[..|ops| - 1], key);
    }
  }

  /** After any sequence of declarations, sets and polls, the value in force is the newest accepted set,
      else the default of the first declaration, and there is none for an undeclared key. */
  lemma EffectiveIsMeaning(ops: seq<Op>, key: Blob)
    ensures Effective(After(ops), key) == Meaning(ops, key)
  {
    hide After, FirstDeclared, LastSet;
    FirstDeclarationWins(ops, key);
    OverridesAreLastSets(ops, key);
  }

  /** Whether a set was accepted since the last poll. */
  function Unseen(ops: seq<Op>): bool
    decreases |ops|
  {
    if ops == [] then false
    else
      var before, op := ops[..|ops| - 1], ops[|ops| - 1];
      match op
      case Poll => false
      case Set(k, _) => FirstDeclared(before, k).Some? || Unseen(before)
      case Declare(_) => Unseen(before)
  }

  /** The update latch is exactly that. */
  lemma {:induction false} LatchIsUnseen(ops: seq<Op>)
    ensures After(ops).dirty == Unseen(ops)
    decreases |ops|
  {
    hide FirstDeclared, Inverse;
    if ops != [] {
      var before, op := ops[..|ops| - 1], ops[|ops| - 1];
      LatchIsUnseen(before);
      if op.Set? { FirstDeclarationWins(before, op.key); }
    }
  }

  /** A rejected set changes nothing, and one key's set leaves every other key's value alone. */
  lemma SetIsLocal(ops: seq<Op>, key: Blob, value: Blob, other: Blob)
    ensures Effective(Apply(After(ops), Set(key, value)), key)
         == if FirstDeclared(ops, key).Some? then Some(value) else None
    ensures other != key ==> Effective(Apply(After(ops), Set(key, value)), other) == Effective(After(ops), other)
  {
    hide After, FirstDeclared;
    FirstDeclarationWins(ops, key);
  }

  class Shim {
    var optionDefs: seq<ShimOption>
    var optionIndex: map<Blob, nat>
    var optionOverrides: map<Blob, Blob>
    var optionsDirty: bool

    ghost predicate Valid()
      reads this
    {
      Inverse(View())
    }

    function View(): Table
      reads this
    {
      Table(optionDefs, optionIndex, optionOverrides, optionsDirty)
    }

    constructor ()
      ensures Valid() && View() == EMPTY
    {
      optionDefs, optionIndex, optionOverrides, optionsDirty := [], map[], map[], false;
    }

    method AddOption(o: ShimOption)
      requires Valid()
      modifies this`optionDefs, this`optionIndex
      ensures Valid() && View() == Apply(old(View()), Declare(o))
    {
      ApplyKeepsInverse(View(), Declare(o));
      if o.key == [] || o.key in optionIndex { return; }
      optionIndex := optionIndex[o.key := |optionDefs|];
      optionDefs := optionDefs + [o];
    }

    /** GET_VARIABLE; a null key is unknown. */
    method GetVariable(key: Option<Blob>) returns (value: Option<Blob>)
      requires Valid()
      ensures value == if key.Some? then Effective(View(), key.value) else None
    {
      if key.Some? && key.value in optionIndex {
        var k := key.value;
        return Some(if k in optionOverrides then optionOverrides[k] else optionDefs[optionIndex[k]].def);
      }
      return None;
    }

    /** `sh_core_option_get`; a null key is looked up as the empty one, which is never declared. */
    method CoreOptionGet(key: Option<Blob>) returns (value: Option<Blob>)
      requires Valid()
      ensures value == if key.Some? then Effective(View(), key.value) else None
    {
      var k := if key.Some? then key.value else [];
      if k !in optionIndex { return None; }
      return Some(if k in optionOverrides then optionOverrides[k] else optionDefs[optionIndex[k]].def);
    }

    /** GET_VARIABLE_UPDATE: reports and consumes the latch. */
    method GetVariableUpdate() returns (updated: bool)
      requires Valid()
      modifies this`optionsDirty
      ensures Valid() && updated == old(optionsDirty) && View() == Apply(old(View()), Poll)
    {
      updated := optionsDirty;
      optionsDirty := false;
    }

    method CoreOptionSet(key: Option<Blob>, value: Option<Blob>) returns (r: Code)
      requires Valid()
      modifies this`optionOverrides, this`optionsDirty
      ensures Valid()
      ensures r == (if key.None? || value.None? then BadArg
                    else if key.value in old(optionIndex) then Code.Ok else NotFound)
      ensures View()
           == if key.Some? && value.Some? then Apply(old(View()), Set(key.value, value.value)) else old(View())
    {
      if key.None? || value.None? { return BadArg; }
      ApplyKeepsInverse(View(), Set(key.value, value.value));
      if key.value !in optionIndex { return NotFound; }
      optionOverrides := optionOverrides[key.value := value.value];
      optionsDirty := true;
      return Code.Ok;
    }

    /** SET_VARIABLES: the legacy declarations up to the terminator, each parsed and added. */
    method SetVariables(vars: seq<(Blob, Option<Blob>)>)
      requires Valid()
      modifies this`optionDefs, this`optionIndex
      ensures Valid() && View() == DeclareAll(old(View()), LegacyAll(vars))
    {
      hide Legacy, Inverse, Apply;
      var i := 0;
      while i < |vars|
        invariant 0 <= i <= |vars| && Valid()
        invariant DeclareAll(View(), LegacyAll(vars[i..])) == DeclareAll(old(View()), LegacyAll(vars))
      {
        var o := ParseVariable(vars[i].0, OrEmpty(vars[i].1));
        LegacyStep(View(), vars, i);
        AddOption(o);
        i := i + 1;
      }
    }

    /** SET_CORE_OPTIONS and its later versions: the descriptors up to the terminator. */
    method SetCoreOptions(ds: seq<Definition>)
      requires Valid()
      modifies this`optionDefs, this`optionIndex
      ensures Valid() && View() == DeclareAll(old(View()), DescribedAll(ds))
    {
      hide Described, Inverse, Apply;
      var i := 0;
      while i < |ds|
        invariant 0 <= i <= |ds| && Valid()
        invariant DeclareAll(View(), DescribedAll(ds[i..])) == DeclareAll(old(View()), DescribedAll(ds))
      {
        var o := ReadDefinition(ds[i]);
        DescribedStep(View(), ds, i);
        AddOption(o);
        i := i + 1;
      }
    }
  }

  // ----- the parsing loops -----

  function LegacyAll(vars: seq<(Blob, Option<Blob>)>): seq<ShimOption> {
    if vars == [] then [] else [Legacy(vars[0].0, OrEmpty(vars[0].1))] + LegacyAll(vars[1..])
  }

  function DescribedAll(ds: seq<Definition>): seq<ShimOption> {
    if ds == [] then [] else [Described(ds[0])] + DescribedAll(ds[1..])
  }

  function DeclareAll(t: Table, os: seq<ShimOption>): Table
    decreases |os|
  {
    if os == [] then t else DeclareAll(Apply(t, Declare(os[0])), os[1..])
  }

  /** The declarations of a harvest, as part of the history. */
  function Declares(os: seq<ShimOption>): (ops: seq<Op>)
    ensures |ops| == |os| && forall i | 0 <= i < |os| :: ops[i] == Declare(os[i])
  {
    seq(|os|, i requires 0 <= i < |os| => Declare(os[i]))
  }

  /** A harvest is its declarations made one by one, in order. */
  lemma {:induction false} HarvestIsHistory(ops: seq<Op>, os: seq<ShimOption>)
    ensures DeclareAll(After(ops), os) == After(ops + Declares(os))
    decreases |os|
  {
    hide Apply;
    if os == [] {
      assert ops + Declares(os) == ops;
    } else {
      var op := Declare(os[0]);
      assert (ops + [op])[..|ops|] == ops;
      HarvestIsHistory(ops + [op], os[1..]);
      assert ops + [op] + Declares(os[1..]) == ops + Declares(os);
    }
  }

  /** One option for each legacy variable; a null text is an empty one. */
  lemma {:induction false} LegacyAllAt(vars: seq<(Blob, Option<Blob>)>, i: nat)
    requires i < |vars|
    ensures |LegacyAll(vars)| == |vars|
    ensures LegacyAll(vars)[i] == Legacy(vars[i].0, if vars[i].1.Some? then vars[i].1.value else [])
    decreases |vars|
  {
    hide Legacy;
    if |vars| > 1 { LegacyAllAt(vars[1..], if i > 0 then i - 1 else 0); }
  }

  /** One option for each descriptor. */
  lemma {:induction false} DescribedAllAt(ds: seq<Definition>, i: nat)
    requires i < |ds|
    ensures |DescribedAll(ds)| == |ds| && DescribedAll(ds)[i] == Described(ds[i])
    decreases |ds|
  {
    hide Described;
    if |ds| > 1 { DescribedAllAt(ds[1..], if i > 0 then i - 1 else 0); }
  }

  lemma DeclareStep(t: Table, o: ShimOption, more: seq<ShimOption>)
    ensures DeclareAll(t, [o] + more) == DeclareAll(Apply(t, Declare(o)), more)
  {
    hide Apply;
    assert ([o] + more)[1..] == more;
  }

  lemma LegacyStep(t: Table, vars: seq<(Blob, Option<Blob>)>, i: nat)
    requires i < |vars|
    ensures DeclareAll(t, LegacyAll(vars[i..]))
           == DeclareAll(Apply(t, Declare(Legacy(vars[i].0, OrEmpty(vars[i].1)))), LegacyAll(vars[i + 1..]))
  {
    hide Apply, Legacy, DeclareAll;
    assert vars[i..][1..] == vars[i + 1..];
    DeclareStep(t, Legacy(vars[i].0, OrEmpty(vars[i].1)), LegacyAll(vars[i + 1..]));
  }

  lemma DescribedStep(t: Table, ds: seq<Definition>, i: nat)
    requires i < |ds|
    ensures DeclareAll(t, DescribedAll(ds[i..]))
           == DeclareAll(Apply(t, Declare(Described(ds[i]))), DescribedAll(ds[i + 1..]))
  {
    hide Apply, Described, DeclareAll;
    assert ds[i..][1..] == ds[i + 1..];
    DeclareStep(t, Described(ds[i]), DescribedAll(ds[i + 1..]));
  }

  method Find(b: Blob, c: byte, from: nat) returns (k: nat)
    requires from <= |b|
    ensures k == IndexOf(b, c, from)
  {
    k := from;
    while k < |b| && b[k] != c
      invariant from <= k <= |b| && IndexOf(b, c, from) == IndexOf(b, c, k)
    {
      k := k + 1;
    }
  }

  lemma {:induction false} PlainSnoc(tokens: seq<Blob>, x: Blob)
    ensures Plain(tokens + [x]) == Plain(tokens) + [(x, x)]
  {
    if tokens == [] {
      assert tokens + [x] == [x];
    } else {
      assert (tokens + [x])[1..] == tokens[1..] + [x];
      PlainSnoc(tokens[1..], x);
    }
  }

  /** What one turn of the value loop does to the tokens still to come. */
  lemma TokensStep(b: Blob, start: nat)
    requires start <= |b|
    ensures var bar := IndexOf(b, BAR, start);
      var first := if bar == start then [] else [b[start..bar]];
      Tokens(b[start..]) == if bar == |b| then first else first + Tokens(b[bar + 1..])
  {
    hide IndexOf, Tokens;
    var bar := IndexOf(b, BAR, start);
    var rest := b[start..];
    IndexIs(rest, BAR, 0, bar - start);
    TokensSplit(rest, bar - start);
    assert rest[..bar - start] == b[start..bar];
    if bar < |b| { assert rest[bar - start + 1..] == b[bar + 1..]; }
  }

  lemma TokensSplit(b: Blob, bar: nat)
    requires bar == IndexOf(b, BAR, 0)
    ensures var first := if bar == 0 then [] else [b[..bar]];
      Tokens(b) == if bar == |b| then first else first + Tokens(b[bar + 1..])
  {
    hide IndexOf;
    if bar < |b| { var _ := Tokens(b[bar + 1..]); }
  }

  /** The parser of one legacy declaration. */
  method ParseVariable(key: Blob, text: Blob) returns (o: ShimOption)
    ensures o == Legacy(key, text)
  {
    hide IndexOf, Tokens, Plain;
    var semi := Find(text, SEMICOLON, 0);
    var vals: seq<(Blob, Blob)> := [];
    var desc;
    if semi < |text| {
      desc := text[..semi];
      var i := semi + 1;
      while i < |text| && text[i] == SPACE
        invariant semi + 1 <= i <= |text| && SkipSpaces(text, semi + 1) == SkipSpaces(text, i)
      {
        i := i + 1;
      }
      vals := ParseValues(text, i);
    } else {
      desc := text;
      assert text[..|text|] == text;
    }
    o := ShimOption(key, desc, [], if vals == [] then [] else vals[0].0, vals);
  }

  method ParseValues(text: Blob, from: nat) returns (vals: seq<(Blob, Blob)>)
    requires from <= |text|
    ensures vals == Plain(Tokens(text[from..]))
  {
    hide IndexOf, Tokens, Plain;
    vals := [];
    var start := from;
    ghost var done: seq<Blob> := [];
    NoTokens(text, from);
    while true
      invariant from <= start <= |text|
      invariant vals == Plain(done) && done + Tokens(text[start..]) == Tokens(text[from..])
      decreases |text| - start
    {
      var bar := Find(text, BAR, start);
      var tok := text[start..bar];
      NextToken(text, start, done, Tokens(text[from..]));
      if tok != [] {
        vals := vals + [(tok, tok)];
        done := done + [tok];
      }
      if bar == |text| { return; }
      start := bar + 1;
    }
  }

  /** One turn of the value loop: the token found is kept unless it is empty, and the rest is still to come. */
  lemma NextToken(text: Blob, start: nat, done: seq<Blob>, all: seq<Blob>)
    requires start <= |text| && done + Tokens(text[start..]) == all
    ensures var bar := IndexOf(text, BAR, start);
      var kept := if bar == start then done else done + [text[start..bar]];
      && Plain(kept) == (if bar == start then Plain(done) else Plain(done) + [(text[start..bar], text[start..bar])])
      && (bar == |text| ==> kept == all)
      && (bar < |text| ==> kept + Tokens(text[bar + 1..]) == all)
  {
    hide IndexOf, Tokens, Plain;
    var bar := IndexOf(text, BAR, start);
    TokensStep(text, start);
    if bar != start { PlainSnoc(done, text[start..bar]); }
    var rest := if bar < |text| then Tokens(text[bar + 1..]) else [];
    Regroup(done, if bar == start then [] else [text[start..bar]], rest);
    assert done + [] == done;
  }

  lemma Regroup(a: seq<Blob>, b: seq<Blob>, c: seq<Blob>)
    ensures a + (b + c) == a + b + c && b + [] == b
  {
  }

  lemma NoTokens(text: Blob, from: nat)
    requires from <= |text|
    ensures Plain([]) == [] && [] + Tokens(text[from..]) == Tokens(text[from..])
  {
  }

  method ReadDefinition(d: Definition) returns (o: ShimOption)
    ensures o == Described(d)
  {
    hide Choices;
    var vals: seq<(Blob, Blob)> := [];
    var i := 0;
    while i < VALUES_MAX && i < |d.choices| && d.choices[i].value.Some?
      invariant 0 <= i <= |d.choices| && i <= VALUES_MAX
      invariant vals + Choices(d.choices[i..], VALUES_MAX - i) == Choices(d.choices, VALUES_MAX)
    {
      var c := d.choices[i];
      ChoicesStep(vals, d.choices, i, VALUES_MAX - i);
      vals := vals + [(c.value.value, if c.shown.Some? then c.shown.value else c.value.value)];
      i := i + 1;
    }
    ChoicesEnd(d.choices, i, VALUES_MAX - i);
    var def := OrEmpty(d.def);
    if def == [] && vals != [] { def := vals[0].0; }
    o := ShimOption(d.key, OrEmpty(d.desc), OrEmpty(d.info), def, vals);
  }

  lemma ChoicesEnd(cs: seq<Choice>, i: nat, room: nat)
    requires i <= |cs| && (room == 0 || i == |cs| || cs[i].value.None?)
    ensures Choices(cs[i..], room) == []
  {
  }

  lemma ChoicesStep(vals: seq<(Blob, Blob)>, cs: seq<Choice>, i: nat, room: nat)
    requires i < |cs| && cs[i].value.Some? && room > 0
    ensures var v := (cs[i].value.value, if cs[i].shown.Some? then cs[i].shown.value else cs[i].value.value);
      vals + Choices(cs[i..], room) == vals + [v] + Choices(cs[i + 1..], room - 1)
  {
    assert cs[i..][1..] == cs[i + 1..];
    var v := (cs[i].value.value, if cs[i].shown.Some? then cs[i].shown.value else cs[i].value.value);
    assert Choices(cs[i..], room) == [v] + Choices(cs[i + 1..], room - 1);
  }

  /** The empty key, which a null key is looked up as, has no value in any history. */
  lemma NothingIsNeverDeclared(ops: seq<Op>)
    ensures Meaning(ops, []) == None
  {
    hide After, Inverse;
    AfterIsInverse(ops);
    FirstDeclarationWins(ops, []);
    EmptyKeyUnknown(After(ops));
  }

  lemma EmptyKeyUnknown(t: Table)
    requires Inverse(t)
    ensures [] !in t.index
  {
  }
}
