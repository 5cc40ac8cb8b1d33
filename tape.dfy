/**
  The tape of binary tokens that the tokenizer library produces from a binary
  save. The tokenizer itself is not part of this model: a tape is an input.
*/
module Tape {
  import opened Numbers

  datatype Color = Color(r: nat, g: nat, b: nat)

  /**
    One token. Object, HiddenObject and Array carry the index of their End
    token; End carries the index of the token that opened its group.
  */
  datatype BinaryToken =
    | Object(objectEnd: nat)
    | HiddenObject(hiddenEnd: nat)
    | Array(arrayEnd: nat)
    | End(start: nat)
    | Bool(boolValue: bool)
    | U32(u32Value: nat)
    | U64(u64Value: nat)
    | I32(i32Value: i32)
    | Quoted(quotedText: string)
    | Unquoted(unquotedText: string)
    | F32(f32Bytes: seq<byte>)
    | F64(f64Bytes: seq<byte>)
    | Token(id: u16)
    | Rgb(color: Color)

  /** Every object and array closes at a later index inside the tape, as the tokenizer guarantees. */
  predicate WellFormed(tokens: seq<BinaryToken>)
  {
    forall i :: 0 <= i < |tokens| ==>
      (tokens[i].Object? ==> i < tokens[i].objectEnd < |tokens|) &&
      (tokens[i].Array? ==> i < tokens[i].arrayEnd < |tokens|)
  }

  /** The tapes the tokenizer produces. */
  type WellFormedTape = t: seq<BinaryToken> | WellFormed(t) witness []
}
