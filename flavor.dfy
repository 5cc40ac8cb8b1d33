/**
  The binary flavors of CK3 saves: version 1.5 and later, the earlier
  format, and a boxed flavor that answers as the flavor it holds.
*/
module Flavor {
  import opened Numbers
  import opened Tape

  datatype Ck3Flavor = Flavor15 | Flavor10 | Boxed(inner: Ck3Flavor)

  /** Quoted values written unquoted by saves before 1.5. */
  const UNQUOTED_10: set<string> := {
    "save_game_version", "portraits_version", "meta_date", "color1", "color2", "color3",
    "color4", "color5", "traits_lookup", "features", "modifiers", "traditions", "name_list"
  }

  /** Quoted values written unquoted by saves from 1.5 on. */
  const UNQUOTED_15: set<string> := {
    "save_game_version", "portraits_version", "meta_date", "color1", "color2", "color3",
    "color4", "color5", "traits_lookup", "features", "modifiers", "traditions", "name_list",
    "localization_key"
  }

  /** Whether the flavor's 64-bit floats need re-encoding after a known key. */
  function FloatReencoding(f: Ck3Flavor): bool
  {
    match f
    case Flavor15 => false
    case Flavor10 => true
    case Boxed(inner) => FloatReencoding(inner)
  }

  /** Whether a quoted value after the key `token` is written unquoted. */
  function UnquoteToken(f: Ck3Flavor, token: string): bool
  {
    match f
    case Flavor15 => token in UNQUOTED_15
    case Flavor10 => token in UNQUOTED_10
    case Boxed(inner) => UnquoteToken(inner, token)
  }

  /** The flavor a chain of boxes holds. */
  function Base(f: Ck3Flavor): (r: Ck3Flavor)
    ensures !r.Boxed?
  {
    match f
    case Boxed(inner) => Base(inner)
    case _ => f
  }

  /** A box answers both questions exactly as the flavor it holds. */
  lemma {:induction false} BoxDelegation(f: Ck3Flavor)
    ensures FloatReencoding(f) == FloatReencoding(Base(f))
    ensures forall token :: UnquoteToken(f, token) == UnquoteToken(Base(f), token)
  {
    if f.Boxed? {
      BoxDelegation(f.inner);
    }
  }

  /** The 1.5 flavor unquotes exactly what the earlier one does, and also "localization_key". */
  lemma UnquoteTables(token: string)
    ensures UnquoteToken(Flavor15, token) <==> UnquoteToken(Flavor10, token) || token == "localization_key"
    ensures !UnquoteToken(Flavor10, "localization_key")
    ensures !FloatReencoding(Flavor15) && FloatReencoding(Flavor10)
  {
  }

  /** Tapes whose third token is the version key 1423 followed by 7 or 6 are 1.5 saves. */
  predicate IsVersion15Tape(tokens: seq<BinaryToken>)
  {
    |tokens| >= 4 && tokens[2] == Token(1423) && (tokens[3] == I32(7) || tokens[3] == I32(6))
  }

  /** Chooses the flavor from the start of the tape. */
  function FlavorFromTape(tokens: seq<BinaryToken>): (r: Ck3Flavor)
    ensures r.Boxed? && !r.inner.Boxed?
  {
    if |tokens| >= 4 && tokens[2] == Token(1423) && tokens[3] == I32(7) then Boxed(Flavor15)
    else if |tokens| >= 4 && tokens[2] == Token(1423) && tokens[3] == I32(6) then Boxed(Flavor15)
    else Boxed(Flavor10)
  }

  /** The chosen flavor re-encodes floats exactly when the tape is not a 1.5 tape, and unquotes accordingly. */
  lemma FlavorFromTapeChoice(tokens: seq<BinaryToken>)
    ensures Base(FlavorFromTape(tokens)) == (if IsVersion15Tape(tokens) then Flavor15 else Flavor10)
    ensures FloatReencoding(FlavorFromTape(tokens)) <==> !IsVersion15Tape(tokens)
    ensures UnquoteToken(FlavorFromTape(tokens), "localization_key") <==> IsVersion15Tape(tokens)
  {
    BoxDelegation(FlavorFromTape(tokens));
  }
}
