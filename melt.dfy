/**
  The melter: converts a binary gamestate, given as the tokenizer's tape, to
  plaintext. The text writer is a library outside this model: it is an
  append-only log of the items written, with an oracle that says which bytes
  each write appends and whether the writer expects a key.
*/
module Melt {
  import opened Wrappers
  import opened Numbers
  import opened Errors
  import opened Bytes
  import opened Tape
  import opened Flavor
  import opened Extraction

  /** What to do with a token id the resolver does not know. */
  datatype FailedResolveStrategy = Stringify | Ignore | Error

  /** The melter's options. */
  datatype Melter = Melter(onFailedResolve: FailedResolveStrategy, extraction: ExtractionMode, rewrite: bool)
  {
    /** Replaces only the extraction mode. */
    function WithExtraction(e: ExtractionMode): (r: Melter)
      ensures r.extraction == e && r.onFailedResolve == onFailedResolve && r.rewrite == rewrite
    {
      this.(extraction := e)
    }

    /** Replaces only the strategy for unknown tokens. */
    function WithOnFailedResolve(strategy: FailedResolveStrategy): (r: Melter)
      ensures r.onFailedResolve == strategy && r.extraction == extraction && r.rewrite == rewrite
    {
      this.(onFailedResolve := strategy)
    }

    /** Replaces only the rewrite switch. */
    function WithRewrite(on: bool): (r: Melter)
      ensures r.rewrite == on && r.extraction == extraction && r.onFailedResolve == onFailedResolve
    {
      this.(rewrite := on)
    }
  }

  /** The default melter: in-memory extraction, unknown tokens ignored, rewriting on. */
  function DefaultMelter(): (m: Melter)
    ensures m.extraction == InMemory && m.onFailedResolve == Ignore && m.rewrite
  {
    Melter(Ignore, InMemory, true)
  }

  /** The largest number of bytes a Rust vector can hold. */
  const ISIZE_MAX: nat := 0x7FFF_FFFF_FFFF_FFFF

  /** The length of the save-id line that carries the metadata length. */
  const SAVE_ID_LEN: nat := 24

  /** "SAV" */
  const SAVE_ID_MAGIC: seq<byte> := [0x53, 0x41, 0x56]

  /** One write made to the text writer. */
  datatype Item =
    | ObjectStart
    | HiddenObjectStart
    | ArrayStart
    | GroupEnd
    | BoolValue(flag: bool)
    | U32Value(u32: nat)
    | U64Value(u64: nat)
    | Formatted(text: string)         // text written through the writer's formatting interface
    | DateValue(date: string)
    | QuotedValue(quoted: string)
    | UnquotedValue(unquoted: string)
    | HeaderValue(header: string)
    | F32Value(f32: seq<byte>)
    | F64Value(f64: seq<byte>, reencoded: bool)

  /**
    What the melter cannot see: the token resolver, the text writer (whether
    it expects a key after the items written so far, and the bytes a write
    appends, None when the write fails), and the binary date heuristic with
    its game formatting.
  */
  datatype Env = Env(
    resolve: u16 -> Option<string>,
    expectingKey: seq<Item> -> bool,
    write: (seq<Item>, Item) -> Option<seq<byte>>,
    binaryDate: i32 -> Option<string>)

  /** One conversion: the options, the environment, the flavor and the tape. */
  datatype Walk = Walk(melter: Melter, env: Env, flavor: Ck3Flavor, tokens: WellFormedTape)

  /**
    The state of the conversion loop: the token index, the one-shot flags,
    the marker indices (0 when unset), the stack of open groups, the set of
    unresolved ids, the writer's log, the output bytes, and the error that
    stopped the loop, if one did.
  */
  datatype WalkState = WalkState(
    idx: nat,
    knownNumber: bool,
    knownUnquote: bool,
    reencodeFloat: bool,
    aliveData: nat,
    unquoteList: nat,
    aiStrategies: nat,
    metadata: nat,
    endIndices: seq<nat>,
    unknown: set<u16>,
    log: seq<Item>,
    out: seq<byte>,
    error: Option<Ck3Error>)

  /** The loop's starting state over an output that already holds `prefix`. */
  function Start(prefix: seq<byte>, unknown: set<u16>): WalkState
  {
    WalkState(0, false, false, false, 0, 0, 0, 0, [], unknown, [], prefix, None)
  }

  predicate Valid(w: Walk, s: WalkState)
  {
    s.idx <= |w.tokens| && |s.out| <= ISIZE_MAX
  }

  /**
    Bytes outside [7, 23) of `a` are kept in `b`, which is at least as long:
    what the conversion promises about output that was already there.
  */
  predicate KeepsOutside(a: seq<byte>, b: seq<byte>)
  {
    |a| <= |b| && forall i :: 0 <= i < |a| && (i < 7 || 23 <= i) ==> b[i] == a[i]
  }

  lemma KeepsOutsideTransitive(a: seq<byte>, b: seq<byte>, c: seq<byte>)
    requires KeepsOutside(a, b) && KeepsOutside(b, c)
    ensures KeepsOutside(a, c)
  {
  }

  /**
    One write. It fails when the writer refuses it or when the output would
    outgrow a Rust vector; a failed write changes nothing else.
  */
  function Emit(env: Env, s: WalkState, item: Item): (r: WalkState)
    requires |s.out| <= ISIZE_MAX
    ensures |r.out| <= ISIZE_MAX
    ensures r.(log := s.log, out := s.out, error := s.error) == s
    ensures r.error.None? ==> s.error.None? && s.out <= r.out && r.log == s.log + [item]
    ensures r.error.Some? ==> r.log == s.log && r.out == s.out && (s.error.None? ==> r.error == Some(Writer))
    ensures s.error.Some? ==> r == s
    ensures s.out <= r.out && KeepsOutside(s.out, r.out)
    ensures !(item.F64Value? && item.reencoded) && NoReencodedFloat(s.log) ==> NoReencodedFloat(r.log)
  {
    if s.error.Some? then s
    else match env.write(s.log, item)
      case None => s.(error := Some(Writer))
      case Some(bytes) =>
        if |s.out| + |bytes| > ISIZE_MAX then s.(error := Some(Writer))
        else s.(log := s.log + [item], out := s.out + bytes)
  }

  /**
    The metadata length patch: when the output is at least 24 bytes long and
    starts with "SAV", the hex digits of its length minus 24, zero-padded to
    eight, are copied to end at index 23.
  */
  function PatchLength(data: seq<byte>): (r: seq<byte>)
    requires |data| <= ISIZE_MAX
    ensures |r| == |data|
    ensures !(|data| >= SAVE_ID_LEN && data[..3] == SAVE_ID_MAGIC) ==> r == data
    ensures forall i :: 0 <= i < |data| && (i < 7 || 23 <= i) ==> r[i] == data[i]
  {
    if |data| >= SAVE_ID_LEN && data[..3] == SAVE_ID_MAGIC then
      var digits := HexLength(|data| - SAVE_ID_LEN);
      data[..23 - |digits|] + digits + data[23..]
    else data
  }

  /** n in lower-case hex, zero-padded to eight digits, as bytes; at most 16 digits for a length a vector can have. */
  function HexLength(n: nat): (digits: seq<byte>)
    requires n <= ISIZE_MAX
    ensures 8 <= |digits| <= 16
    ensures n < 0x1_0000_0000 ==> |digits| == 8
  {
    HexTextFacts(n);
    AsciiBytes(ZeroPad(LowerHex(n), 8))
  }

  lemma HexTextFacts(n: nat)
    requires n <= ISIZE_MAX
    ensures var text := ZeroPad(LowerHex(n), 8);
      && 8 <= |text| <= 16
      && (n < 0x1_0000_0000 ==> |text| == 8)
      && forall i :: 0 <= i < |text| ==> text[i] as int < 0x100
  {
    PowSixteen();
    RenderLength(n, 16, 16);
    if n < 0x1_0000_0000 {
      RenderLength(n, 16, 8);
    }
    HexCharsAreAscii(LowerHex(n));
  }

  lemma PowSixteen()
    ensures Pow(16, 8) == 0x1_0000_0000 && Pow(16, 16) == 0x1_0000_0000_0000_0000
  {
    assert Pow(16, 4) == 0x1_0000;
    assert Pow(16, 8) == 16 * 16 * 16 * 16 * Pow(16, 4);
    assert Pow(16, 12) == 16 * 16 * 16 * 16 * Pow(16, 8);
    assert Pow(16, 16) == 16 * 16 * 16 * 16 * Pow(16, 12);
  }

  lemma HexCharsAreAscii(s: string)
    requires AllDigitsIn(s, 16)
    ensures forall i :: 0 <= i < |ZeroPad(s, 8)| ==> ZeroPad(s, 8)[i] as int < 0x100
  {
    forall i | 0 <= i < |s| ensures s[i] as int < 0x100 {
      assert CharDigit(s[i]) < 16;
    }
  }

  /** Bytes read as the characters of the same code. */
  function AsChars(b: seq<byte>): (text: string)
    ensures |text| == |b| && forall i :: 0 <= i < |b| ==> text[i] as int == b[i]
  {
    seq(|b|, i requires 0 <= i < |b| => b[i] as char)
  }

  /** Below 4 GiB the length digits are exactly eight hex digits denoting the length. */
  lemma HexLengthValue(n: nat)
    requires n < 0x1_0000_0000
    ensures var digits := HexLength(n);
      |digits| == 8 && AllDigitsIn(AsChars(digits), 16) && Value(AsChars(digits), 16) == n
  {
    var hex := LowerHex(n);
    assert Pow(16, 8) == 0x1_0000_0000 by { PowSixteen(); }
    RenderLength(n, 16, 8);
    var text := ZeroPad(hex, 8);
    assert AsChars(HexLength(n)) == text;
    ZerosValue(8 - |hex|, hex, 16);
    RenderValue(n, 16);
  }

  /**
    A patched output of less than 4 GiB carries, at bytes [15, 23), eight
    lowercase hex digits whose value is the output length minus 24.
  */
  lemma {:induction false} PatchLengthValue(data: seq<byte>)
    requires SAVE_ID_LEN <= |data| < SAVE_ID_LEN + 0x1_0000_0000 && data[..3] == SAVE_ID_MAGIC
    ensures var r := PatchLength(data);
      && r[..15] == data[..15] && r[23..] == data[23..]
      && AllDigitsIn(AsChars(r[15..23]), 16) && Value(AsChars(r[15..23]), 16) == |data| - SAVE_ID_LEN
  {
    var digits := HexLength(|data| - SAVE_ID_LEN);
    HexLengthValue(|data| - SAVE_ID_LEN);
    var r := PatchLength(data);
    assert r == data[..15] + digits + data[23..];
    assert r[15..23] == digits;
  }

  // ---------------------------------------------------------------------
  // One step of the conversion loop

  /** Keys whose quoted values, anywhere inside the key's value, are written unquoted. */
  const UNQUOTE_LIST_KEYS: set<string> := {"settings", "setting", "perks", "ethnicities", "languages"}

  /** Keys whose 64-bit float value is re-encoded, when the flavor asks for it. */
  const REENCODE_KEYS: set<string> := {
    "vassal_power_value", "budget_war_chest", "budget_short_term", "budget_long_term",
    "budget_reserved", "damage_last_tick"
  }

  /**
    Where the walk resumes after dropping the key at `idx`: past the end of
    the object or array that follows it, past the scalar that follows it, or
    past the key alone when it is the last token.
  */
  function SkipTarget(tokens: WellFormedTape, idx: nat): (r: nat)
    requires idx < |tokens|
    ensures idx < r <= |tokens|
  {
    if idx + 1 >= |tokens| then idx + 1
    else match tokens[idx + 1]
      case Object(end) => end + 1
      case Array(end) => end + 1
      case _ => idx + 2
  }

  /**
    The token at the current index is a key that is dropped with its value:
    an unresolved id in key position under Ignore, or the ironman keys in key
    position when rewriting.
  */
  predicate SkipsKey(w: Walk, s: WalkState)
    requires s.idx < |w.tokens|
  {
    match w.tokens[s.idx]
    case Token(x) =>
      (match w.env.resolve(x)
       case Some(id) => w.melter.rewrite && (id == "ironman" || id == "ironman_manager")
       case None => w.melter.onFailedResolve == Ignore)
      && w.env.expectingKey(s.log)
    case _ => false
  }

  /** A resolved id: sets the markers and one-shot flags that depend on it, then writes it unquoted. */
  function VisitKey(w: Walk, s: WalkState, id: string): (r: WalkState)
    requires |s.out| <= ISIZE_MAX
    ensures |r.out| <= ISIZE_MAX && r.idx == s.idx && KeepsOutside(s.out, r.out)
    ensures r.unknown == s.unknown && (r.error.Some? ==> r.error == Some(Writer) || r.error == s.error)
    ensures !FloatReencoding(w.flavor) && NoReencodedFloat(s.log) ==> !r.reencodeFloat && NoReencodedFloat(r.log)
  {
    var next := s.idx + 1;
    var alive := if id == "alive_data" then next else s.aliveData;
    var unquoteList := if id in UNQUOTE_LIST_KEYS || (id == "perk" && alive != 0) then next else s.unquoteList;
    var s1 := s.(
      metadata := if id == "meta_data" then next else s.metadata,
      aliveData := alive,
      aiStrategies := if id == "ai_strategies" then next else s.aiStrategies,
      unquoteList := unquoteList,
      knownNumber := id == "seed" || id == "random_count",
      knownUnquote := unquoteList != 0 || UnquoteToken(w.flavor, id),
      reencodeFloat := (id in REENCODE_KEYS || (alive != 0 && id == "gold")) && FloatReencoding(w.flavor));
    Emit(w.env, s1, UnquotedValue(id))
  }

  /** The placeholder written for an unresolved id: `__unknown_0x` and its lowercase hex. */
  function UnknownText(x: u16): string
  {
    "__unknown_0x" + LowerHex(x)
  }

  /** An unresolved id outside a dropped key: recorded, then an error or a placeholder. */
  function VisitUnresolved(w: Walk, s: WalkState, x: u16): (r: WalkState)
    requires |s.out| <= ISIZE_MAX
    ensures |r.out| <= ISIZE_MAX && r.idx == s.idx && KeepsOutside(s.out, r.out)
  {
    var s1 := s.(unknown := s.unknown + {x});
    if w.melter.onFailedResolve == Error then s1.(error := Some(UnknownToken(x)))
    else Emit(w.env, s1, Formatted(UnknownText(x)))
  }

  /** The innermost open group opened at index `marker`. */
  predicate InnermostIs(s: WalkState, marker: nat)
  {
    |s.endIndices| > 0 && s.endIndices[|s.endIndices| - 1] == marker
  }

  /** A 32-bit integer: a plain number after seed or random_count or inside ai_strategies, else a date when it reads as one. */
  function VisitI32(w: Walk, s: WalkState, x: i32): (r: WalkState)
    requires |s.out| <= ISIZE_MAX
    ensures r.(knownNumber := s.knownNumber, log := s.log, out := s.out, error := s.error) == s
    ensures |r.out| <= ISIZE_MAX && r.idx == s.idx && KeepsOutside(s.out, r.out)
    ensures r.unknown == s.unknown && r.reencodeFloat == s.reencodeFloat
    ensures (r.error.Some? ==> r.error == Some(Writer) || r.error == s.error)
    ensures NoReencodedFloat(s.log) ==> NoReencodedFloat(r.log)
  {
    if s.knownNumber || InnermostIs(s, s.aiStrategies) then
      Emit(w.env, s.(knownNumber := false), Formatted(SignedDecimal(x)))
    else match w.env.binaryDate(x)
      case Some(date) => Emit(w.env, s, DateValue(date))
      case None => Emit(w.env, s, Formatted(SignedDecimal(x)))
  }

  /** Leaves the innermost group: pops it, clears the markers it set, and patches the metadata length when it closes meta_data. */
  function CloseGroup(s: WalkState, x: nat): (r: WalkState)
    requires |s.out| <= ISIZE_MAX
    ensures |r.out| <= ISIZE_MAX && r.idx == s.idx && KeepsOutside(s.out, r.out)
    ensures r.(endIndices := s.endIndices, aliveData := s.aliveData, unquoteList := s.unquoteList,
               aiStrategies := s.aiStrategies, metadata := s.metadata, out := s.out) == s
  {
    s.(
      endIndices := if |s.endIndices| > 0 then s.endIndices[..|s.endIndices| - 1] else [],
      aliveData := if x == s.aliveData then 0 else s.aliveData,
      unquoteList := if x == s.unquoteList then 0 else s.unquoteList,
      aiStrategies := if x == s.aiStrategies then 0 else s.aiStrategies,
      metadata := if x == s.metadata then 0 else s.metadata,
      out := if x == s.metadata then PatchLength(s.out) else s.out)
  }

  /** The end of the group opened at `x`; hidden objects are closed without writing. */
  function VisitEnd(w: Walk, s: WalkState, x: nat): (r: WalkState)
    requires |s.out| <= ISIZE_MAX
    ensures |r.out| <= ISIZE_MAX && r.idx == s.idx && KeepsOutside(s.out, r.out)
    ensures r.unknown == s.unknown && r.reencodeFloat == s.reencodeFloat
    ensures (r.error.Some? ==> r.error == Some(Writer) || r.error == s.error)
    ensures NoReencodedFloat(s.log) ==> NoReencodedFloat(r.log)
  {
    var s1 := if x < |w.tokens| && w.tokens[x].HiddenObject? then s else Emit(w.env, s, GroupEnd);
    if s1.error.Some? then s1
    else
      var r := CloseGroup(s1, x);
      KeepsOutsideTransitive(s.out, s1.out, r.out);
      r
  }

  /** A 64-bit float, re-encoded when the flag is set, which clears it. */
  function VisitF64(w: Walk, s: WalkState, bytes: seq<byte>): (r: WalkState)
    requires |s.out| <= ISIZE_MAX
    ensures r.(reencodeFloat := s.reencodeFloat, log := s.log, out := s.out, error := s.error) == s
    ensures |r.out| <= ISIZE_MAX && r.idx == s.idx && KeepsOutside(s.out, r.out)
    ensures r.unknown == s.unknown && (r.error.Some? ==> r.error == Some(Writer) || r.error == s.error)
    ensures !s.reencodeFloat && NoReencodedFloat(s.log) ==> !r.reencodeFloat && NoReencodedFloat(r.log)
  {
    if s.reencodeFloat then Emit(w.env, s.(reencodeFloat := false), F64Value(bytes, true))
    else Emit(w.env, s, F64Value(bytes, false))
  }

  /** A color: the header "rgb" and an array of its three components. */
  function VisitRgb(w: Walk, s: WalkState, c: Color): (r: WalkState)
    requires |s.out| <= ISIZE_MAX
    ensures r.(log := s.log, out := s.out, error := s.error) == s
    ensures |r.out| <= ISIZE_MAX && r.idx == s.idx && KeepsOutside(s.out, r.out)
    ensures r.unknown == s.unknown && r.reencodeFloat == s.reencodeFloat
    ensures r.error.Some? ==> r.error == Some(Writer) || r.error == s.error
    ensures NoReencodedFloat(s.log) ==> NoReencodedFloat(r.log)
  {
    var s1 := Emit(w.env, s, HeaderValue("rgb"));
    var s2 := Emit(w.env, s1, ArrayStart);
    var s3 := Emit(w.env, s2, U32Value(c.r));
    var s4 := Emit(w.env, s3, U32Value(c.g));
    var s5 := Emit(w.env, s4, U32Value(c.b));
    var r := Emit(w.env, s5, GroupEnd);
    PrefixKeepsOutside(s.out, r.out);
    r
  }

  lemma PrefixKeepsOutside(a: seq<byte>, b: seq<byte>)
    requires a <= b
    ensures KeepsOutside(a, b)
  {
  }

  /** The writes for one token that is not a dropped key. */
  function Visit(w: Walk, s: WalkState, t: BinaryToken): (r: WalkState)
    requires |s.out| <= ISIZE_MAX && s.error.None?
    ensures |r.out| <= ISIZE_MAX && r.idx == s.idx && KeepsOutside(s.out, r.out)
    ensures r.unknown == if t.Token? && w.env.resolve(t.id).None? then s.unknown + {t.id} else s.unknown
    ensures r.error.Some? ==>
      (r.error == Some(Writer) ||
       (t.Token? && w.env.resolve(t.id).None? && w.melter.onFailedResolve == Error && r.error == Some(UnknownToken(t.id))))
    ensures !FloatReencoding(w.flavor) && !s.reencodeFloat && NoReencodedFloat(s.log) ==>
      !r.reencodeFloat && NoReencodedFloat(r.log)
  {
    match t
    case Object(_) => Emit(w.env, s.(endIndices := s.endIndices + [s.idx]), ObjectStart)
    case HiddenObject(_) => Emit(w.env, s, HiddenObjectStart)
    case Array(_) => Emit(w.env, s.(endIndices := s.endIndices + [s.idx]), ArrayStart)
    case End(x) => VisitEnd(w, s, x)
    case Bool(b) => Emit(w.env, s, BoolValue(b))
    case U32(n) => Emit(w.env, s, U32Value(n))
    case U64(n) => Emit(w.env, s, U64Value(n))
    case I32(x) => VisitI32(w, s, x)
    case Quoted(text) => Emit(w.env, s, if s.knownUnquote then UnquotedValue(text) else QuotedValue(text))
    case Unquoted(text) => Emit(w.env, s, UnquotedValue(text))
    case F32(bytes) => Emit(w.env, s, F32Value(bytes))
    case F64(bytes) => VisitF64(w, s, bytes)
    case Token(x) =>
      (match w.env.resolve(x)
       case Some(id) => VisitKey(w, s, id)
       case None => VisitUnresolved(w, s, x))
    case Rgb(c) => VisitRgb(w, s, c)
  }

  /** One iteration of the conversion loop. */
  function Step(w: Walk, s: WalkState): (r: WalkState)
    requires Valid(w, s) && s.error.None? && s.idx < |w.tokens|
    ensures Valid(w, r) && KeepsOutside(s.out, r.out)
    ensures r.error.Some? || r.idx > s.idx
  {
    if SkipsKey(w, s) then
      var x := w.tokens[s.idx].id;
      s.(idx := SkipTarget(w.tokens, s.idx),
         unknown := if w.env.resolve(x).None? then s.unknown + {x} else s.unknown)
    else Advance(s, Visit(w, s, w.tokens[s.idx]))
  }

  /** After visiting the token at `s.idx`: a failure stops the walk, anything else moves past the token. */
  function Advance(s: WalkState, r: WalkState): WalkState
  {
    if r.error.Some? then r else r.(idx := s.idx + 1)
  }

  /** The conversion loop: steps until the tape is exhausted or a step fails. */
  function Run(w: Walk, s: WalkState): (r: WalkState)
    requires Valid(w, s)
    ensures Valid(w, r) && KeepsOutside(s.out, r.out)
    ensures r.error.None? ==> r.idx == |w.tokens|
    decreases |w.tokens| - s.idx + (if s.error.None? then 1 else 0)
  {
    if s.error.Some? || s.idx == |w.tokens| then s
    else
      var s1 := Step(w, s);
      var r := Run(w, s1);
      KeepsOutsideTransitive(s.out, s1.out, r.out);
      r
  }

  // ---------------------------------------------------------------------
  // What one step does

  /** The step that drops a key writes nothing and resumes past the key's value. */
  lemma StepSkipRule(w: Walk, s: WalkState)
    requires Valid(w, s) && s.error.None? && s.idx < |w.tokens| && SkipsKey(w, s)
    ensures var r := Step(w, s);
      && r.log == s.log && r.out == s.out && r.error.None?
      && r.idx == (if s.idx + 1 == |w.tokens| then s.idx + 1
                   else if w.tokens[s.idx + 1].Object? then w.tokens[s.idx + 1].objectEnd + 1
                   else if w.tokens[s.idx + 1].Array? then w.tokens[s.idx + 1].arrayEnd + 1
                   else s.idx + 2)
  {
  }

  /**
    End(x) writes a group end unless x opened a hidden object, clears every
    marker equal to x, and patches the metadata length when x is the
    meta_data marker.
  */
  lemma StepEndRule(w: Walk, s: WalkState, x: nat)
    requires Valid(w, s) && s.error.None? && s.idx < |w.tokens| && w.tokens[s.idx] == End(x)
    requires Step(w, s).error.None?
    ensures var r := Step(w, s);
      var hidden := x < |w.tokens| && w.tokens[x].HiddenObject?;
      var written := if hidden then s.out else s.out + w.env.write(s.log, GroupEnd).value;
      && r.log == (if hidden then s.log else s.log + [GroupEnd])
      && r.aliveData == (if s.aliveData == x then 0 else s.aliveData)
      && r.unquoteList == (if s.unquoteList == x then 0 else s.unquoteList)
      && r.aiStrategies == (if s.aiStrategies == x then 0 else s.aiStrategies)
      && r.metadata == (if s.metadata == x then 0 else s.metadata)
      && |written| <= ISIZE_MAX
      && r.out == (if s.metadata == x then PatchLength(written) else written)
      && r.idx == s.idx + 1
  {
  }

  /**
    An I32 is written as a plain number right after seed or random_count, or
    as the direct child of ai_strategies, and that clears the one-shot flag;
    otherwise it is written as a date when the heuristic reads it as one.
  */
  lemma StepI32Rule(w: Walk, s: WalkState, x: i32)
    requires Valid(w, s) && s.error.None? && s.idx < |w.tokens| && w.tokens[s.idx] == I32(x)
    requires Step(w, s).error.None?
    ensures var r := Step(w, s);
      if s.knownNumber || InnermostIs(s, s.aiStrategies) then
        r.log == s.log + [Formatted(SignedDecimal(x))] && !r.knownNumber
      else
        r.log == s.log + [if w.env.binaryDate(x).Some? then DateValue(w.env.binaryDate(x).value)
                          else Formatted(SignedDecimal(x))]
  {
  }

  /** A quoted value is written unquoted exactly when the unquote flag is set. */
  lemma StepQuotedRule(w: Walk, s: WalkState, text: string)
    requires Valid(w, s) && s.error.None? && s.idx < |w.tokens| && w.tokens[s.idx] == Quoted(text)
    requires Step(w, s).error.None?
    ensures Step(w, s).log == s.log + [if s.knownUnquote then UnquotedValue(text) else QuotedValue(text)]
  {
  }

  /**
    A resolved key sets the markers and flags its value depends on: the
    unquote flag from the unquote list or the flavor's table, the number flag
    from seed and random_count, the float flag never under the 1.5 flavor.
  */
  lemma {:induction false} StepKeyRule(w: Walk, s: WalkState, x: u16, id: string)
    requires Valid(w, s) && s.error.None? && s.idx < |w.tokens| && w.tokens[s.idx] == Token(x)
    requires w.env.resolve(x) == Some(id) && !SkipsKey(w, s)
    ensures var r := Step(w, s);
      && r.unknown == s.unknown
      && r.metadata == (if id == "meta_data" then s.idx + 1 else s.metadata)
      && r.aliveData == (if id == "alive_data" then s.idx + 1 else s.aliveData)
      && r.aiStrategies == (if id == "ai_strategies" then s.idx + 1 else s.aiStrategies)
      && r.unquoteList == (if id in UNQUOTE_LIST_KEYS || (id == "perk" && r.aliveData != 0) then s.idx + 1 else s.unquoteList)
      && (r.knownUnquote <==> r.unquoteList != 0 || UnquoteToken(Base(w.flavor), id))
      && (r.knownNumber <==> id == "seed" || id == "random_count")
      && (r.reencodeFloat ==> Base(w.flavor) == Flavor10)
      && (r.error.None? ==> r.log == s.log + [UnquotedValue(id)])
  {
    BoxDelegation(w.flavor);
  }

  /**
    An unresolved id is always recorded. Under Error the walk stops with
    UnknownToken; in key position under Ignore the key is dropped; otherwise
    the placeholder is written.
  */
  lemma StepUnresolvedRule(w: Walk, s: WalkState, x: u16)
    requires Valid(w, s) && s.error.None? && s.idx < |w.tokens| && w.tokens[s.idx] == Token(x)
    requires w.env.resolve(x).None?
    ensures var r := Step(w, s);
      && r.unknown == s.unknown + {x}
      && (w.melter.onFailedResolve == Error ==> r.error == Some(UnknownToken(x)) && r.log == s.log)
      && (w.melter.onFailedResolve == Ignore && w.env.expectingKey(s.log) ==>
            r.error.None? && r.log == s.log && r.idx == SkipTarget(w.tokens, s.idx))
      && ((w.melter.onFailedResolve != Error && !(w.melter.onFailedResolve == Ignore && w.env.expectingKey(s.log))
           && r.error.None?) ==> r.log == s.log + [Formatted(UnknownText(x))])
  {
  }

  // ---------------------------------------------------------------------
  // Each arm of the step on its own, for the imperative loop below

  /** The arms that write exactly one item. */
  lemma StepWritesOne(w: Walk, s: WalkState, item: Item)
    requires Valid(w, s) && s.error.None? && s.idx < |w.tokens|
    requires match w.tokens[s.idx]
      case HiddenObject(_) => item == HiddenObjectStart
      case Bool(b) => item == BoolValue(b)
      case U32(n) => item == U32Value(n)
      case U64(n) => item == U64Value(n)
      case Quoted(text) => item == if s.knownUnquote then UnquotedValue(text) else QuotedValue(text)
      case Unquoted(text) => item == UnquotedValue(text)
      case F32(bytes) => item == F32Value(bytes)
      case _ => false
    ensures Step(w, s) == Advance(s, Emit(w.env, s, item))
  {
  }

  /** The arms that open an object or an array: the index goes on the stack of open groups. */
  lemma StepOpens(w: Walk, s: WalkState, item: Item)
    requires Valid(w, s) && s.error.None? && s.idx < |w.tokens|
    requires match w.tokens[s.idx]
      case Object(_) => item == ObjectStart
      case Array(_) => item == ArrayStart
      case _ => false
    ensures Step(w, s) == Advance(s, Emit(w.env, s.(endIndices := s.endIndices + [s.idx]), item))
  {
  }

  lemma StepEnds(w: Walk, s: WalkState, x: nat)
    requires Valid(w, s) && s.error.None? && s.idx < |w.tokens| && w.tokens[s.idx] == End(x)
    ensures Step(w, s) == Advance(s, VisitEnd(w, s, x))
  {
  }

  lemma StepNumber(w: Walk, s: WalkState, x: i32)
    requires Valid(w, s) && s.error.None? && s.idx < |w.tokens| && w.tokens[s.idx] == I32(x)
    ensures Step(w, s) == Advance(s, VisitI32(w, s, x))
  {
  }

  lemma StepFloat(w: Walk, s: WalkState, bytes: seq<byte>)
    requires Valid(w, s) && s.error.None? && s.idx < |w.tokens| && w.tokens[s.idx] == F64(bytes)
    ensures Step(w, s) == Advance(s, VisitF64(w, s, bytes))
  {
  }

  lemma StepColor(w: Walk, s: WalkState, c: Color)
    requires Valid(w, s) && s.error.None? && s.idx < |w.tokens| && w.tokens[s.idx] == Rgb(c)
    ensures Step(w, s) == Advance(s, VisitRgb(w, s, c))
  {
  }

  lemma StepKey(w: Walk, s: WalkState, x: u16, id: string)
    requires Valid(w, s) && s.error.None? && s.idx < |w.tokens| && w.tokens[s.idx] == Token(x)
    requires w.env.resolve(x) == Some(id)
    ensures Step(w, s) == if SkipsKey(w, s) then s.(idx := SkipTarget(w.tokens, s.idx))
                          else Advance(s, VisitKey(w, s, id))
  {
  }

  lemma StepUnresolved(w: Walk, s: WalkState, x: u16)
    requires Valid(w, s) && s.error.None? && s.idx < |w.tokens| && w.tokens[s.idx] == Token(x)
    requires w.env.resolve(x).None?
    ensures Step(w, s) == if SkipsKey(w, s) then s.(idx := SkipTarget(w.tokens, s.idx), unknown := s.unknown + {x})
                          else Advance(s, VisitUnresolved(w, s, x))
  {
  }

  // ---------------------------------------------------------------------
  // What the whole loop keeps

  /** The ids on the tape the resolver does not know. */
  function UnresolvedIds(w: Walk): set<u16>
  {
    set i | 0 <= i < |w.tokens| && w.tokens[i].Token? && w.env.resolve(w.tokens[i].id).None? :: w.tokens[i].id
  }

  lemma StepUnknown(w: Walk, s: WalkState)
    requires Valid(w, s) && s.error.None? && s.idx < |w.tokens|
    ensures s.unknown <= Step(w, s).unknown <= s.unknown + UnresolvedIds(w)
  {
    var t := w.tokens[s.idx];
    if t.Token? && w.env.resolve(t.id).None? {
      assert t.id in UnresolvedIds(w);
    }
  }

  /** The walk only adds to the unknown set, and only ids of the tape the resolver does not know. */
  lemma {:induction false} RunUnknown(w: Walk, s: WalkState)
    requires Valid(w, s)
    ensures s.unknown <= Run(w, s).unknown <= s.unknown + UnresolvedIds(w)
    decreases |w.tokens| - s.idx + (if s.error.None? then 1 else 0)
  {
    if s.error.None? && s.idx < |w.tokens| {
      StepUnknown(w, s);
      RunUnknown(w, Step(w, s));
    }
  }

  /** The errors the walk can stop with: a writer failure, or an unknown id under Error. */
  predicate AllowedError(w: Walk, e: Ck3Error)
  {
    e == Writer || (w.melter.onFailedResolve == Error && e.UnknownToken? && e.tokenId in UnresolvedIds(w))
  }

  lemma StepError(w: Walk, s: WalkState)
    requires Valid(w, s) && s.error.None? && s.idx < |w.tokens|
    ensures Step(w, s).error.Some? ==> AllowedError(w, Step(w, s).error.value)
  {
    var t := w.tokens[s.idx];
    if t.Token? && w.env.resolve(t.id).None? {
      assert t.id in UnresolvedIds(w);
    }
  }

  /** A walk that starts without an error stops only with an allowed one. */
  lemma {:induction false} RunError(w: Walk, s: WalkState)
    requires Valid(w, s) && s.error.None?
    ensures Run(w, s).error.Some? ==> AllowedError(w, Run(w, s).error.value)
    decreases |w.tokens| - s.idx
  {
    if s.idx < |w.tokens| {
      StepError(w, s);
      var s1 := Step(w, s);
      if s1.error.None? {
        RunError(w, s1);
      }
    }
  }

  /** No item of the log is a re-encoded float. */
  predicate NoReencodedFloat(log: seq<Item>)
  {
    forall k :: 0 <= k < |log| ==> !(log[k].F64Value? && log[k].reencoded)
  }

  lemma StepNoReencode(w: Walk, s: WalkState)
    requires Valid(w, s) && s.error.None? && s.idx < |w.tokens|
    requires Base(w.flavor) == Flavor15 && !s.reencodeFloat && NoReencodedFloat(s.log)
    ensures !Step(w, s).reencodeFloat && NoReencodedFloat(Step(w, s).log)
  {
    BoxDelegation(w.flavor);
  }

  /** Under the 1.5 flavor the float flag is never raised and no float is re-encoded. */
  lemma {:induction false} RunNoReencode(w: Walk, s: WalkState)
    requires Valid(w, s) && Base(w.flavor) == Flavor15 && !s.reencodeFloat && NoReencodedFloat(s.log)
    ensures !Run(w, s).reencodeFloat && NoReencodedFloat(Run(w, s).log)
    decreases |w.tokens| - s.idx + (if s.error.None? then 1 else 0)
  {
    if s.error.None? && s.idx < |w.tokens| {
      StepNoReencode(w, s);
      RunNoReencode(w, Step(w, s));
    }
  }

  /**
    The value of ai_strategies is numeric: after the key and the object that
    follows it, the innermost open group is the one the marker names.
  */
  lemma {:induction false} AiStrategiesValue(w: Walk, s: WalkState, x: u16, objectEnd: nat)
    requires Valid(w, s) && s.error.None? && s.idx + 1 < |w.tokens|
    requires w.tokens[s.idx] == Token(x) && w.env.resolve(x) == Some("ai_strategies")
    requires w.tokens[s.idx + 1] == Object(objectEnd)
    requires Step(w, s).error.None? && Step(w, Step(w, s)).error.None?
    ensures var r := Step(w, Step(w, s)); InnermostIs(r, r.aiStrategies) && r.idx == s.idx + 2
  {
    assert !SkipsKey(w, s);
    var s1 := Step(w, s);
    assert s1.aiStrategies == s.idx + 1 && s1.idx == s.idx + 1;
  }

  // ---------------------------------------------------------------------
  // The conversion loop as the melter runs it

  /** The ids the caller collects, Rust's `HashSet<u16>` lent by `&mut`. */
  class TokenSet {
    var ids: set<u16>

    constructor ()
      ensures ids == {}
    {
      ids := {};
    }

    method Insert(x: u16)
      modifies this
      ensures ids == old(ids) + {x}
    {
      ids := ids + {x};
    }
  }

  /** The text writer over the caller's output buffer: the log of the writes made so far and the buffer. */
  class TextWriter {
    var log: seq<Item>
    const sink: ByteBuffer

    constructor (sink: ByteBuffer)
      ensures this.sink == sink && log == []
    {
      this.sink := sink;
      log := [];
    }

    predicate ExpectingKey(env: Env)
      reads this
    {
      env.expectingKey(log)
    }

    /** The writer's log and buffer are those of the walk state `s`. */
    ghost predicate Mirrors(s: WalkState)
      reads this, sink
    {
      s.log == log && s.out == sink.bytes && s.error.None? && |s.out| <= ISIZE_MAX
    }

    /** One write, as `Emit` describes it: appends the item's bytes, or fails and changes nothing. */
    method Write(env: Env, item: Item, ghost s: WalkState) returns (ok: bool)
      requires Mirrors(s)
      modifies this, sink
      ensures var r := Emit(env, s, item);
        (ok <==> r.error.None?) && log == r.log && sink.bytes == r.out
    {
      match env.write(log, item)
      case None =>
        return false;
      case Some(bytes) =>
        if |sink.bytes| + |bytes| > ISIZE_MAX {
          return false;
        }
        sink.Extend(bytes);
        log := log + [item];
        return true;
    }
  }

  /** The writes and marker updates for End(x), as `VisitEnd` describes them. */
  method WriteEnd(w: Walk, wtr: TextWriter, x: nat, ghost s: WalkState,
                  endIndices: seq<nat>, aliveData: nat, unquoteList: nat, aiStrategies: nat, metadata: nat)
    returns (ok: bool, endIndices': seq<nat>, aliveData': nat, unquoteList': nat, aiStrategies': nat, metadata': nat)
    requires wtr.Mirrors(s)
    requires s.endIndices == endIndices && s.aliveData == aliveData && s.unquoteList == unquoteList
    requires s.aiStrategies == aiStrategies && s.metadata == metadata
    modifies wtr, wtr.sink
    ensures var r := VisitEnd(w, s, x);
      && (ok <==> r.error.None?) && wtr.log == r.log && wtr.sink.bytes == r.out
      && endIndices' == r.endIndices && aliveData' == r.aliveData && unquoteList' == r.unquoteList
      && aiStrategies' == r.aiStrategies && metadata' == r.metadata
  {
    endIndices', aliveData', unquoteList', aiStrategies', metadata' := endIndices, aliveData, unquoteList, aiStrategies, metadata;
    ok := true;
    ghost var s1 := s;
    if !(x < |w.tokens| && w.tokens[x].HiddenObject?) {
      s1 := Emit(w.env, s, GroupEnd);
      ok := wtr.Write(w.env, GroupEnd, s);
      if !ok {
        return;
      }
    }
    assert VisitEnd(w, s, x) == CloseGroup(s1, x);
    if |endIndices'| > 0 {
      endIndices' := endIndices'[..|endIndices'| - 1];
    }
    if x == aliveData' {
      aliveData' := 0;
    }
    if x == unquoteList' {
      unquoteList' := 0;
    }
    if x == aiStrategies' {
      aiStrategies' := 0;
    }
    if x == metadata' {
      metadata' := 0;
      PatchMetadataLength(wtr.sink);
    }
  }

  /** Patches the metadata length into the save-id line of the output, in place. */
  method PatchMetadataLength(data: ByteBuffer)
    requires |data.bytes| <= ISIZE_MAX
    modifies data
    ensures data.bytes == PatchLength(old(data.bytes))
  {
    if |data.bytes| >= SAVE_ID_LEN && data.bytes[..3] == SAVE_ID_MAGIC {
      var digits := HexLength(|data.bytes| - SAVE_ID_LEN);
      data.CopyInto(23 - |digits|, digits);
    }
  }

  /** The write for a 32-bit integer, as `VisitI32` describes it. */
  method WriteI32(w: Walk, wtr: TextWriter, x: i32, ghost s: WalkState,
                  knownNumber: bool, endIndices: seq<nat>, aiStrategies: nat)
    returns (ok: bool, knownNumber': bool)
    requires wtr.Mirrors(s)
    requires s.knownNumber == knownNumber && s.endIndices == endIndices && s.aiStrategies == aiStrategies
    modifies wtr, wtr.sink
    ensures var r := VisitI32(w, s, x);
      (ok <==> r.error.None?) && wtr.log == r.log && wtr.sink.bytes == r.out && (ok ==> knownNumber' == r.knownNumber)
  {
    knownNumber' := knownNumber;
    if knownNumber || (|endIndices| > 0 && endIndices[|endIndices| - 1] == aiStrategies) {
      ok := wtr.Write(w.env, Formatted(SignedDecimal(x)), s.(knownNumber := false));
      knownNumber' := false;
    } else if w.env.binaryDate(x).Some? {
      ok := wtr.Write(w.env, DateValue(w.env.binaryDate(x).value), s);
    } else {
      ok := wtr.Write(w.env, Formatted(SignedDecimal(x)), s);
    }
  }

  /** The marker and flag updates and the write for a resolved key, as `VisitKey` describes them. */
  method WriteKey(w: Walk, wtr: TextWriter, id: string, ghost s: WalkState, idx: nat,
                  aliveData: nat, unquoteList: nat, aiStrategies: nat, metadata: nat)
    returns (ok: bool, aliveData': nat, unquoteList': nat, aiStrategies': nat, metadata': nat,
             knownNumber': bool, knownUnquote': bool, reencodeFloat': bool)
    requires wtr.Mirrors(s) && s.idx == idx
    requires s.aliveData == aliveData && s.unquoteList == unquoteList
    requires s.aiStrategies == aiStrategies && s.metadata == metadata
    modifies wtr, wtr.sink
    ensures var r := VisitKey(w, s, id);
      && (ok <==> r.error.None?) && wtr.log == r.log && wtr.sink.bytes == r.out
      && aliveData' == r.aliveData && unquoteList' == r.unquoteList
      && aiStrategies' == r.aiStrategies && metadata' == r.metadata
      && knownNumber' == r.knownNumber && knownUnquote' == r.knownUnquote && reencodeFloat' == r.reencodeFloat
  {
    aliveData', unquoteList', aiStrategies', metadata' := aliveData, unquoteList, aiStrategies, metadata;
    if id == "meta_data" {
      metadata' := idx + 1;
    }
    if id == "alive_data" {
      aliveData' := idx + 1;
    }
    if id == "ai_strategies" {
      aiStrategies' := idx + 1;
    }
    if id in UNQUOTE_LIST_KEYS || (id == "perk" && aliveData' != 0) {
      unquoteList' := idx + 1;
    }
    knownNumber' := id == "seed" || id == "random_count";
    knownUnquote' := unquoteList' != 0 || UnquoteToken(w.flavor, id);
    reencodeFloat' := id in REENCODE_KEYS;
    reencodeFloat' := reencodeFloat' || (aliveData' != 0 && id == "gold");
    reencodeFloat' := reencodeFloat' && FloatReencoding(w.flavor);
    ok := wtr.Write(w.env, UnquotedValue(id),
                    s.(metadata := metadata', aliveData := aliveData', aiStrategies := aiStrategies',
                       unquoteList := unquoteList', knownNumber := knownNumber', knownUnquote := knownUnquote',
                       reencodeFloat := reencodeFloat'));
  }

  /** The writes for a color, as `VisitRgb` describes them. */
  method WriteRgb(w: Walk, wtr: TextWriter, c: Color, ghost s: WalkState) returns (ok: bool)
    requires wtr.Mirrors(s)
    modifies wtr, wtr.sink
    ensures var r := VisitRgb(w, s, c);
      (ok <==> r.error.None?) && wtr.log == r.log && wtr.sink.bytes == r.out
  {
    ghost var s1 := Emit(w.env, s, HeaderValue("rgb"));
    ok := wtr.Write(w.env, HeaderValue("rgb"), s);
    if !ok {
      return;
    }
    ghost var s2 := Emit(w.env, s1, ArrayStart);
    ok := wtr.Write(w.env, ArrayStart, s1);
    if !ok {
      return;
    }
    ghost var s3 := Emit(w.env, s2, U32Value(c.r));
    ok := wtr.Write(w.env, U32Value(c.r), s2);
    if !ok {
      return;
    }
    ghost var s4 := Emit(w.env, s3, U32Value(c.g));
    ok := wtr.Write(w.env, U32Value(c.g), s3);
    if !ok {
      return;
    }
    ghost var s5 := Emit(w.env, s4, U32Value(c.b));
    ok := wtr.Write(w.env, U32Value(c.b), s4);
    if !ok {
      return;
    }
    ok := wtr.Write(w.env, GroupEnd, s5);
  }

  /** The arm of `ConvertToken` for a token id: resolve it, skip it, or write it. */
  method ConvertId(w: Walk, wtr: TextWriter, unknown: TokenSet, ghost s: WalkState, x: u16,
                   idx: nat, knownNumber: bool, knownUnquote: bool, reencodeFloat: bool,
                   aliveData: nat, unquoteList: nat, aiStrategies: nat, metadata: nat, endIndices: seq<nat>)
    returns (err: Option<Ck3Error>, idx': nat, knownNumber': bool, knownUnquote': bool, reencodeFloat': bool,
             aliveData': nat, unquoteList': nat, aiStrategies': nat, metadata': nat)
    requires wtr.Mirrors(s) && unknown.ids == s.unknown && Valid(w, s) && idx < |w.tokens|
    requires w.tokens[idx] == Token(x)
    requires s == WalkState(idx, knownNumber, knownUnquote, reencodeFloat, aliveData, unquoteList,
                            aiStrategies, metadata, endIndices, s.unknown, s.log, s.out, None)
    modifies wtr, wtr.sink, unknown
    ensures var r := Step(w, s);
      && wtr.log == r.log && wtr.sink.bytes == r.out && unknown.ids == r.unknown && err == r.error
      && (err.None? ==> r == WalkState(idx', knownNumber', knownUnquote', reencodeFloat', aliveData', unquoteList',
                                       aiStrategies', metadata', endIndices, r.unknown, r.log, r.out, None))
  {
    idx', knownNumber', knownUnquote', reencodeFloat' := idx, knownNumber, knownUnquote, reencodeFloat;
    aliveData', unquoteList', aiStrategies', metadata' := aliveData, unquoteList, aiStrategies, metadata;
    var ok := true;
    match w.env.resolve(x) {
      case Some(id) =>
        StepKey(w, s, x, id);
        if w.melter.rewrite && (id == "ironman" || id == "ironman_manager") && wtr.ExpectingKey(w.env) {
          idx' := SkipTarget(w.tokens, idx);
          return None, idx', knownNumber', knownUnquote', reencodeFloat',
                 aliveData', unquoteList', aiStrategies', metadata';
        }
        ok, aliveData', unquoteList', aiStrategies', metadata', knownNumber', knownUnquote', reencodeFloat' :=
          WriteKey(w, wtr, id, s, idx, aliveData, unquoteList, aiStrategies, metadata);
      case None =>
        StepUnresolved(w, s, x);
        unknown.Insert(x);
        if w.melter.onFailedResolve == Error {
          return Some(UnknownToken(x)), idx', knownNumber', knownUnquote', reencodeFloat',
                 aliveData', unquoteList', aiStrategies', metadata';
        }
        if w.melter.onFailedResolve == Ignore && wtr.ExpectingKey(w.env) {
          idx' := SkipTarget(w.tokens, idx);
          return None, idx', knownNumber', knownUnquote', reencodeFloat',
                 aliveData', unquoteList', aiStrategies', metadata';
        }
        ok := wtr.Write(w.env, Formatted(UnknownText(x)), s.(unknown := unknown.ids));
    }
    if !ok {
      return Some(Writer), idx', knownNumber', knownUnquote', reencodeFloat',
             aliveData', unquoteList', aiStrategies', metadata';
    }
    idx' := idx + 1;
    err := None;
  }

  /** One iteration of the loop: the arm of the token at `idx`, as `Step` describes it. */
  method ConvertToken(w: Walk, wtr: TextWriter, unknown: TokenSet, ghost s: WalkState,
                      idx: nat, knownNumber: bool, knownUnquote: bool, reencodeFloat: bool,
                      aliveData: nat, unquoteList: nat, aiStrategies: nat, metadata: nat, endIndices: seq<nat>)
    returns (err: Option<Ck3Error>, idx': nat, knownNumber': bool, knownUnquote': bool, reencodeFloat': bool,
             aliveData': nat, unquoteList': nat, aiStrategies': nat, metadata': nat, endIndices': seq<nat>)
    requires wtr.Mirrors(s) && unknown.ids == s.unknown && Valid(w, s) && idx < |w.tokens|
    requires s == WalkState(idx, knownNumber, knownUnquote, reencodeFloat, aliveData, unquoteList,
                            aiStrategies, metadata, endIndices, s.unknown, s.log, s.out, None)
    modifies wtr, wtr.sink, unknown
    ensures var r := Step(w, s);
      && wtr.log == r.log && wtr.sink.bytes == r.out && unknown.ids == r.unknown && err == r.error
      && (err.None? ==> r == WalkState(idx', knownNumber', knownUnquote', reencodeFloat', aliveData', unquoteList',
                                       aiStrategies', metadata', endIndices', r.unknown, r.log, r.out, None))
  {
    match w.tokens[idx] {
      case Object(_) =>
        err, idx', knownNumber', knownUnquote', reencodeFloat', aliveData', unquoteList', aiStrategies', metadata', endIndices' :=
          ConvertGroup(w, wtr, unknown, s, idx, knownNumber, knownUnquote, reencodeFloat,
                          aliveData, unquoteList, aiStrategies, metadata, endIndices);
      case HiddenObject(_) =>
        err, idx', knownNumber', knownUnquote', reencodeFloat', aliveData', unquoteList', aiStrategies', metadata', endIndices' :=
          ConvertGroup(w, wtr, unknown, s, idx, knownNumber, knownUnquote, reencodeFloat,
                          aliveData, unquoteList, aiStrategies, metadata, endIndices);
      case Array(_) =>
        err, idx', knownNumber', knownUnquote', reencodeFloat', aliveData', unquoteList', aiStrategies', metadata', endIndices' :=
          ConvertGroup(w, wtr, unknown, s, idx, knownNumber, knownUnquote, reencodeFloat,
                          aliveData, unquoteList, aiStrategies, metadata, endIndices);
      case End(_) =>
        err, idx', knownNumber', knownUnquote', reencodeFloat', aliveData', unquoteList', aiStrategies', metadata', endIndices' :=
          ConvertGroup(w, wtr, unknown, s, idx, knownNumber, knownUnquote, reencodeFloat,
                          aliveData, unquoteList, aiStrategies, metadata, endIndices);
      case Token(x) =>
        err, idx', knownNumber', knownUnquote', reencodeFloat', aliveData', unquoteList', aiStrategies', metadata' :=
          ConvertId(w, wtr, unknown, s, x, idx, knownNumber, knownUnquote, reencodeFloat,
                    aliveData, unquoteList, aiStrategies, metadata, endIndices);
        endIndices' := endIndices;
      case Bool(_) =>
        err, idx', knownNumber', knownUnquote', reencodeFloat', aliveData', unquoteList', aiStrategies', metadata', endIndices' :=
          ConvertNumber(w, wtr, unknown, s, idx, knownNumber, knownUnquote, reencodeFloat,
                          aliveData, unquoteList, aiStrategies, metadata, endIndices);
      case U32(_) =>
        err, idx', knownNumber', knownUnquote', reencodeFloat', aliveData', unquoteList', aiStrategies', metadata', endIndices' :=
          ConvertNumber(w, wtr, unknown, s, idx, knownNumber, knownUnquote, reencodeFloat,
                          aliveData, unquoteList, aiStrategies, metadata, endIndices);
      case U64(_) =>
        err, idx', knownNumber', knownUnquote', reencodeFloat', aliveData', unquoteList', aiStrategies', metadata', endIndices' :=
          ConvertNumber(w, wtr, unknown, s, idx, knownNumber, knownUnquote, reencodeFloat,
                          aliveData, unquoteList, aiStrategies, metadata, endIndices);
      case I32(_) =>
        err, idx', knownNumber', knownUnquote', reencodeFloat', aliveData', unquoteList', aiStrategies', metadata', endIndices' :=
          ConvertNumber(w, wtr, unknown, s, idx, knownNumber, knownUnquote, reencodeFloat,
                          aliveData, unquoteList, aiStrategies, metadata, endIndices);
      case _ =>
        err, idx', knownNumber', knownUnquote', reencodeFloat', aliveData', unquoteList', aiStrategies', metadata', endIndices' :=
          ConvertText(w, wtr, unknown, s, idx, knownNumber, knownUnquote, reencodeFloat,
                          aliveData, unquoteList, aiStrategies, metadata, endIndices);
    }
  }

  /** The arms that open and close objects and arrays. */
  method ConvertGroup(w: Walk, wtr: TextWriter, unknown: TokenSet, ghost s: WalkState,
                      idx: nat, knownNumber: bool, knownUnquote: bool, reencodeFloat: bool,
                      aliveData: nat, unquoteList: nat, aiStrategies: nat, metadata: nat, endIndices: seq<nat>)
    returns (err: Option<Ck3Error>, idx': nat, knownNumber': bool, knownUnquote': bool, reencodeFloat': bool,
             aliveData': nat, unquoteList': nat, aiStrategies': nat, metadata': nat, endIndices': seq<nat>)
    requires wtr.Mirrors(s) && unknown.ids == s.unknown && Valid(w, s) && idx < |w.tokens|
    requires s == WalkState(idx, knownNumber, knownUnquote, reencodeFloat, aliveData, unquoteList,
                            aiStrategies, metadata, endIndices, s.unknown, s.log, s.out, None)
    requires w.tokens[idx].Object? || w.tokens[idx].HiddenObject? || w.tokens[idx].Array? || w.tokens[idx].End?
    modifies wtr, wtr.sink, unknown
    ensures var r := Step(w, s);
      && wtr.log == r.log && wtr.sink.bytes == r.out && unknown.ids == r.unknown && err == r.error
      && (err.None? ==> r == WalkState(idx', knownNumber', knownUnquote', reencodeFloat', aliveData', unquoteList',
                                       aiStrategies', metadata', endIndices', r.unknown, r.log, r.out, None))
  {
    idx', knownNumber', knownUnquote', reencodeFloat' := idx, knownNumber, knownUnquote, reencodeFloat;
    aliveData', unquoteList', aiStrategies', metadata', endIndices' := aliveData, unquoteList, aiStrategies, metadata, endIndices;
    var ok := true;
    match w.tokens[idx] {
      case Object(_) =>
        StepOpens(w, s, ObjectStart);
        endIndices' := endIndices + [idx];
        ok := wtr.Write(w.env, ObjectStart, s.(endIndices := endIndices'));
      case HiddenObject(_) =>
        StepWritesOne(w, s, HiddenObjectStart);
        ok := wtr.Write(w.env, HiddenObjectStart, s);
      case Array(_) =>
        StepOpens(w, s, ArrayStart);
        endIndices' := endIndices + [idx];
        ok := wtr.Write(w.env, ArrayStart, s.(endIndices := endIndices'));
      case End(x) =>
        StepEnds(w, s, x);
        ok, endIndices', aliveData', unquoteList', aiStrategies', metadata' :=
          WriteEnd(w, wtr, x, s, endIndices, aliveData, unquoteList, aiStrategies, metadata);
    }
    if !ok {
      return Some(Writer), idx', knownNumber', knownUnquote', reencodeFloat',
             aliveData', unquoteList', aiStrategies', metadata', endIndices';
    }
    idx' := idx + 1;
    err := None;
  }

  /** The arms that write a boolean or an integer. */
  method ConvertNumber(w: Walk, wtr: TextWriter, unknown: TokenSet, ghost s: WalkState,
                      idx: nat, knownNumber: bool, knownUnquote: bool, reencodeFloat: bool,
                      aliveData: nat, unquoteList: nat, aiStrategies: nat, metadata: nat, endIndices: seq<nat>)
    returns (err: Option<Ck3Error>, idx': nat, knownNumber': bool, knownUnquote': bool, reencodeFloat': bool,
             aliveData': nat, unquoteList': nat, aiStrategies': nat, metadata': nat, endIndices': seq<nat>)
    requires wtr.Mirrors(s) && unknown.ids == s.unknown && Valid(w, s) && idx < |w.tokens|
    requires s == WalkState(idx, knownNumber, knownUnquote, reencodeFloat, aliveData, unquoteList,
                            aiStrategies, metadata, endIndices, s.unknown, s.log, s.out, None)
    requires w.tokens[idx].Bool? || w.tokens[idx].U32? || w.tokens[idx].U64? || w.tokens[idx].I32?
    modifies wtr, wtr.sink, unknown
    ensures var r := Step(w, s);
      && wtr.log == r.log && wtr.sink.bytes == r.out && unknown.ids == r.unknown && err == r.error
      && (err.None? ==> r == WalkState(idx', knownNumber', knownUnquote', reencodeFloat', aliveData', unquoteList',
                                       aiStrategies', metadata', endIndices', r.unknown, r.log, r.out, None))
  {
    idx', knownNumber', knownUnquote', reencodeFloat' := idx, knownNumber, knownUnquote, reencodeFloat;
    aliveData', unquoteList', aiStrategies', metadata', endIndices' := aliveData, unquoteList, aiStrategies, metadata, endIndices;
    var ok := true;
    match w.tokens[idx] {
      case Bool(b) =>
        StepWritesOne(w, s, BoolValue(b));
        ok := wtr.Write(w.env, BoolValue(b), s);
      case U32(n) =>
        StepWritesOne(w, s, U32Value(n));
        ok := wtr.Write(w.env, U32Value(n), s);
      case U64(n) =>
        StepWritesOne(w, s, U64Value(n));
        ok := wtr.Write(w.env, U64Value(n), s);
      case I32(x) =>
        StepNumber(w, s, x);
        ok, knownNumber' := WriteI32(w, wtr, x, s, knownNumber, endIndices, aiStrategies);
    }
    if !ok {
      return Some(Writer), idx', knownNumber', knownUnquote', reencodeFloat',
             aliveData', unquoteList', aiStrategies', metadata', endIndices';
    }
    idx' := idx + 1;
    err := None;
  }

  /** The arms that write a string, a float or a colour. */
  method ConvertText(w: Walk, wtr: TextWriter, unknown: TokenSet, ghost s: WalkState,
                      idx: nat, knownNumber: bool, knownUnquote: bool, reencodeFloat: bool,
                      aliveData: nat, unquoteList: nat, aiStrategies: nat, metadata: nat, endIndices: seq<nat>)
    returns (err: Option<Ck3Error>, idx': nat, knownNumber': bool, knownUnquote': bool, reencodeFloat': bool,
             aliveData': nat, unquoteList': nat, aiStrategies': nat, metadata': nat, endIndices': seq<nat>)
    requires wtr.Mirrors(s) && unknown.ids == s.unknown && Valid(w, s) && idx < |w.tokens|
    requires s == WalkState(idx, knownNumber, knownUnquote, reencodeFloat, aliveData, unquoteList,
                            aiStrategies, metadata, endIndices, s.unknown, s.log, s.out, None)
    requires w.tokens[idx].Quoted? || w.tokens[idx].Unquoted? || w.tokens[idx].F32? || w.tokens[idx].F64? ||
             w.tokens[idx].Rgb?
    modifies wtr, wtr.sink, unknown
    ensures var r := Step(w, s);
      && wtr.log == r.log && wtr.sink.bytes == r.out && unknown.ids == r.unknown && err == r.error
      && (err.None? ==> r == WalkState(idx', knownNumber', knownUnquote', reencodeFloat', aliveData', unquoteList',
                                       aiStrategies', metadata', endIndices', r.unknown, r.log, r.out, None))
  {
    idx', knownNumber', knownUnquote', reencodeFloat' := idx, knownNumber, knownUnquote, reencodeFloat;
    aliveData', unquoteList', aiStrategies', metadata', endIndices' := aliveData, unquoteList, aiStrategies, metadata, endIndices;
    var ok := true;
    match w.tokens[idx] {
      case Quoted(text) =>
        StepWritesOne(w, s, if knownUnquote then UnquotedValue(text) else QuotedValue(text));
        if knownUnquote {
          ok := wtr.Write(w.env, UnquotedValue(text), s);
        } else {
          ok := wtr.Write(w.env, QuotedValue(text), s);
        }
      case Unquoted(text) =>
        StepWritesOne(w, s, UnquotedValue(text));
        ok := wtr.Write(w.env, UnquotedValue(text), s);
      case F32(bytes) =>
        StepWritesOne(w, s, F32Value(bytes));
        ok := wtr.Write(w.env, F32Value(bytes), s);
      case F64(bytes) =>
        StepFloat(w, s, bytes);
        if !reencodeFloat {
          ok := wtr.Write(w.env, F64Value(bytes, false), s);
        } else {
          ok := wtr.Write(w.env, F64Value(bytes, true), s.(reencodeFloat := false));
          reencodeFloat' := false;
        }
      case Rgb(c) =>
        StepColor(w, s, c);
        ok := WriteRgb(w, wtr, c, s);
    }
    if !ok {
      return Some(Writer), idx', knownNumber', knownUnquote', reencodeFloat',
             aliveData', unquoteList', aiStrategies', metadata', endIndices';
    }
    idx' := idx + 1;
    err := None;
  }

  /** Running from a state is running from the state one step later. */
  lemma RunStep(w: Walk, s: WalkState)
    requires Valid(w, s) && s.error.None? && s.idx < |w.tokens|
    ensures Run(w, s) == Run(w, Step(w, s))
  {
  }

  /**
    Converts the tape, writing to `output` and collecting unresolved ids in
    `unknown`; the outcome is the one `Run` gives from the starting state.
  */
  method ConvertFlavor(w: Walk, output: ByteBuffer, unknown: TokenSet) returns (r: Result<(), Ck3Error>)
    requires |output.bytes| <= ISIZE_MAX
    modifies output, unknown
    ensures var fin := Run(w, Start(old(output.bytes), old(unknown.ids)));
      && output.bytes == fin.out && unknown.ids == fin.unknown
      && (r.Failure? <==> fin.error.Some?) && (r.Failure? ==> r.error == fin.error.value)
  {
    var wtr := new TextWriter(output);
    var idx: nat := 0;
    var knownNumber, knownUnquote, reencodeFloat := false, false, false;
    var aliveData: nat, unquoteList: nat, aiStrategies: nat, metadata: nat := 0, 0, 0, 0;
    var endIndices: seq<nat> := [];
    ghost var state := Start(output.bytes, unknown.ids);
    ghost var fin := Run(w, state);

    while idx < |w.tokens|
      invariant wtr.sink == output && wtr.Mirrors(state) && unknown.ids == state.unknown && Valid(w, state)
      invariant state == WalkState(idx, knownNumber, knownUnquote, reencodeFloat, aliveData, unquoteList,
                                   aiStrategies, metadata, endIndices, state.unknown, state.log, state.out, None)
      invariant Run(w, state) == fin
      decreases |w.tokens| - idx
    {
      var err;
      RunStep(w, state);
      err, idx, knownNumber, knownUnquote, reencodeFloat, aliveData, unquoteList, aiStrategies, metadata, endIndices :=
        ConvertToken(w, wtr, unknown, state, idx, knownNumber, knownUnquote, reencodeFloat,
                     aliveData, unquoteList, aiStrategies, metadata, endIndices);
      state := Step(w, state);
      if err.Some? {
        return Failure(err.value);
      }
    }
    return Ok(());
  }

  // ---------------------------------------------------------------------
  // Melting a whole save

  /** What the bytes after the save-id line turned out to be. */
  datatype Body = Plain | Zipped(entries: map<string, ZipEntry>)

  /**
    The collaborators of melting that are not modelled: telling a plain body
    from a zip, and the binary tokenizer (None when it rejects the input).
  */
  datatype Decoder = Decoder(detect: seq<byte> -> Result<Body, Ck3Error>, tokenize: seq<byte> -> Option<WellFormedTape>)

  const GAMESTATE: string := "gamestate"

  /** Index of the type digit in "SAV0102...": 0 marks an uncompressed plaintext save. */
  const TYPE_DIGIT: nat := 6
  const ASCII_ZERO: byte := 0x30

  predicate HasSaveId(data: seq<byte>)
  {
    |data| >= 3 && data[..3] == SAVE_ID_MAGIC
  }

  /** Where the save-id line is cut: after the first newline, or after the first byte when there is none. */
  function SaveIdCut(data: seq<byte>): (at: nat)
    requires HasSaveId(data)
    ensures 1 <= at <= |data|
    ensures NEWLINE in data ==> data[at - 1] == NEWLINE && NEWLINE !in data[..at - 1]
    ensures NEWLINE !in data ==> at == 1
  {
    match Position(data, NEWLINE)
    case Some(i) => i + 1
    case None => 1
  }

  /**
    The save-id line as the source splits and patches it: None where setting
    the type digit indexes past a line shorter than seven bytes, which panics.
  */
  function SaveIdLineAsWritten(data: seq<byte>): (r: Option<(seq<byte>, seq<byte>)>)
  {
    if HasSaveId(data) then
      var header := data[..SaveIdCut(data)];
      if TYPE_DIGIT < |header| then Some((header[TYPE_DIGIT := ASCII_ZERO], data[SaveIdCut(data)..])) else None
    else Some(([], data))
  }

  /**
    The save-id line, kept apart from the body with its type digit set to 0;
    a line too short to have a type digit is kept as it is.
  */
  function SaveIdLine(data: seq<byte>): (r: (seq<byte>, seq<byte>))
    ensures |r.0| <= |data| && r.1 == data[|r.0|..]
    ensures forall i :: 0 <= i < |r.0| && i != TYPE_DIGIT ==> r.0[i] == data[i]
    ensures TYPE_DIGIT < |r.0| ==> r.0[TYPE_DIGIT] == ASCII_ZERO
    ensures !HasSaveId(data) ==> r.0 == []
    ensures HasSaveId(data) && NEWLINE in data ==>
      |r.0| >= 1 && data[|r.0| - 1] == NEWLINE && NEWLINE !in data[..|r.0| - 1]
    ensures HasSaveId(data) && NEWLINE !in data ==> r.0 == data[..1]
  {
    if HasSaveId(data) then
      var at := SaveIdCut(data);
      var header := data[..at];
      (if TYPE_DIGIT < |header| then header[TYPE_DIGIT := ASCII_ZERO] else header, data[at..])
    else ([], data)
  }

  /** The source panics exactly on a save-id line shorter than seven bytes. */
  lemma SaveIdLinePanics(data: seq<byte>)
    ensures SaveIdLineAsWritten(data).None? <==> HasSaveId(data) && |SaveIdLine(data).0| <= TYPE_DIGIT
  {
  }

  /** "SAV" alone, with no newline, is cut after "S" and then indexed at 6. */
  lemma SaveIdLinePanicExample()
    ensures SaveIdLineAsWritten(SAVE_ID_MAGIC).None?
  {
    assert HasSaveId(SAVE_ID_MAGIC);
    assert SaveIdCut(SAVE_ID_MAGIC) == 1;
  }

  /** Wherever the source does not panic, the corrected line is what it computes. */
  lemma SaveIdLineAgrees(data: seq<byte>)
    requires SaveIdLineAsWritten(data).Some?
    ensures SaveIdLineAsWritten(data).value == SaveIdLine(data)
  {
  }

  /** Tokenizes `input`, picks the flavor from the tape and runs the walk after `out`. */
  function Convert(m: Melter, env: Env, dec: Decoder, input: seq<byte>, out: seq<byte>, unknown: set<u16>)
    : Result<(seq<byte>, set<u16>), Ck3Error>
    requires |out| <= ISIZE_MAX
  {
    match dec.tokenize(input)
    case None => Failure(Parse)
    case Some(tape) =>
      var fin := Run(Walk(m, env, FlavorFromTape(tape), tape), Start(out, unknown));
      if fin.error.Some? then Failure(fin.error.value) else Ok((fin.out, fin.unknown))
  }

  /**
    Melting: the save-id line goes first, then the body converted to text,
    read from the gamestate entry when the body is a zip.
  */
  function Melt(m: Melter, env: Env, dec: Decoder, data: seq<byte>): Result<(seq<byte>, set<u16>), Ck3Error>
    requires |data| <= ISIZE_MAX
  {
    var (header, body) := SaveIdLine(data);
    match dec.detect(body)
    case Failure(e) => Failure(e)
    case Ok(Plain) => Convert(m, env, dec, body, header, {})
    case Ok(Zipped(entries)) =>
      if GAMESTATE !in entries then Failure(ZipMissingEntry(GAMESTATE))
      else match entries[GAMESTATE].read
        case Broken(_) => Failure(ZipExtraction(GAMESTATE))
        case Complete(bytes) => Convert(m, env, dec, bytes, header, {})
  }

  /** Melts `data`, returning the text and the token ids the resolver did not know. */
  method MeltWithTokens(m: Melter, env: Env, dec: Decoder, data: seq<byte>)
    returns (r: Result<(seq<byte>, set<u16>), Ck3Error>)
    requires |data| <= ISIZE_MAX
    ensures r == Melt(m, env, dec, data)
  {
    var result := new ByteBuffer();
    var unknown := new TokenSet();
    var body := data;
    if HasSaveId(data) {
      var at := match Position(data, NEWLINE) case Some(i) => i + 1 case None => 1;
      var header := data[..at];
      if TYPE_DIGIT < |header| {
        header := header[TYPE_DIGIT := ASCII_ZERO];
      }
      result.Extend(header);
      body := data[at..];
    }
    assert result.bytes == SaveIdLine(data).0 && body == SaveIdLine(data).1;

    var input: seq<byte>;
    match dec.detect(body) {
      case Failure(e) =>
        return Failure(e);
      case Ok(Plain) =>
        input := body;
      case Ok(Zipped(entries)) =>
        if GAMESTATE !in entries {
          return Failure(ZipMissingEntry(GAMESTATE));
        }
        match entries[GAMESTATE].read {
          case Broken(_) =>
            return Failure(ZipExtraction(GAMESTATE));
          case Complete(bytes) =>
            input := bytes;
        }
    }

    var tape := dec.tokenize(input);
    if tape.None? {
      return Failure(Parse);
    }
    var w := Walk(m, env, FlavorFromTape(tape.value), tape.value);
    var converted := ConvertFlavor(w, result, unknown);
    if converted.Failure? {
      return Failure(converted.error);
    }
    return Ok((result.bytes, unknown.ids));
  }

  /**
    The melted text starts with the save-id line: every byte of the line is
    kept, except the type digit, which becomes 0, and bytes [7, 23), where the
    metadata length may be patched in.
  */
  lemma MeltKeepsSaveIdLine(m: Melter, env: Env, dec: Decoder, data: seq<byte>)
    requires |data| <= ISIZE_MAX && Melt(m, env, dec, data).Ok?
    ensures var out := Melt(m, env, dec, data).value.0;
      var header := SaveIdLine(data).0;
      && |header| <= |out|
      && (forall i :: 0 <= i < |header| && i != TYPE_DIGIT && (i < 7 || 23 <= i) ==> out[i] == data[i])
      && (TYPE_DIGIT < |header| ==> out[TYPE_DIGIT] == ASCII_ZERO)
  {
  }

  /** Every id reported as unknown is one the resolver does not know. */
  lemma MeltReportsUnresolved(m: Melter, env: Env, dec: Decoder, data: seq<byte>)
    requires |data| <= ISIZE_MAX && Melt(m, env, dec, data).Ok?
    ensures forall x :: x in Melt(m, env, dec, data).value.1 ==> env.resolve(x).None?
  {
    var (header, body) := SaveIdLine(data);
    var input := if dec.detect(body) == Ok(Plain) then body else dec.detect(body).value.entries[GAMESTATE].read.bytes;
    var tape := dec.tokenize(input).value;
    var w := Walk(m, env, FlavorFromTape(tape), tape);
    RunUnknown(w, Start(header, {}));
  }

  /**
    The errors melting can end with: the detector's, a missing or unreadable
    gamestate entry, a tokenizer rejection, a writer failure, or, only under
    the Error strategy, an id the resolver does not know.
  */
  lemma MeltErrors(m: Melter, env: Env, dec: Decoder, data: seq<byte>)
    requires |data| <= ISIZE_MAX && Melt(m, env, dec, data).Failure?
    ensures var e := Melt(m, env, dec, data).error;
      || dec.detect(SaveIdLine(data).1) == Failure(e)
      || e == ZipMissingEntry(GAMESTATE) || e == ZipExtraction(GAMESTATE) || e == Parse || e == Writer
      || (e.UnknownToken? && m.onFailedResolve == Error && env.resolve(e.tokenId).None?)
  {
    var (header, body) := SaveIdLine(data);
    var input: seq<byte>;
    match dec.detect(body) {
      case Failure(_) => return;
      case Ok(Plain) => input := body;
      case Ok(Zipped(entries)) =>
        if GAMESTATE !in entries || entries[GAMESTATE].read.Broken? {
          return;
        }
        input := entries[GAMESTATE].read.bytes;
    }
    if dec.tokenize(input).Some? {
      var tape := dec.tokenize(input).value;
      RunError(Walk(m, env, FlavorFromTape(tape), tape), Start(header, {}));
    }
  }
}
