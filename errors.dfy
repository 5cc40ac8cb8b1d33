/** The error kinds the modelled operations report. */
module Errors {
  import opened Wrappers
  import opened Numbers

  datatype Ck3Error =
    | ZipArchive                        // the zip library could not read the archive
    | ZipMissingEntry(name: string)     // a required zip entry is absent
    | ZipSize(name: string)             // a zip entry declares more than 200 MiB uncompressed
    | ZipExtraction(name: string)       // inflating a zip entry failed
    | UnknownToken(tokenId: u16)        // a binary token id the resolver does not know
    | Deserialize(part: Option<string>) // the deserializer rejected the data, naming the zip entry when there is one
    | Parse                             // the tokenizer or deserializer rejected the data
    | Writer                            // the text writer refused a write
}
