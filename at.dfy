/** AT messages as the message codec delivers them, and the external
    collaborators the engine consumes: the codec's parser, the +CIND test
    response parser, the +XAPL value scanner and the process configuration. */
module At {
  import opened Sys
  import opened Hfp

  datatype AtType = CmdGet | CmdSet | CmdTest | Resp | Raw

  /** A parsed message. A missing command or value (NULL in the C code) is
      the empty string. */
  datatype AtMessage = AtMessage(kind: AtType, command: string, value: string)

  /** What the codec's parser makes of the text at the cursor: nothing, or one
      message and the text after it. */
  datatype ParseResult = Malformed | Parsed(msg: AtMessage, rest: string)

  /** What the +CIND test response parser leaves behind: whether it
      succeeded, and the index map as it wrote it in place (a failed parse
      may have written part of it). */
  datatype CindParse = CindParse(ok: bool, written: seq<Indicator>)

  /** Accessory identification carried by AT+XAPL. */
  datatype Xapl = Xapl(vendor: nat, product: nat, version: nat, features: nat)

  /** The collaborators and configuration the engine is given. */
  datatype Env = Env(
    parse: string -> ParseResult,               // at_parse
    parseCind: (string, seq<Indicator>) -> CindParse, // at_parse_cind
    scanXapl: string -> Option<Xapl>,           // sscanf("%x-%x-%u,%u")
    agFeatures: nat,                            // config.hfp.features_rfcomm_ag
    hfFeatures: nat,                            // config.hfp.features_rfcomm_hf
    msbcEnabled: bool)                          // ENABLE_MSBC

  /** The parser consumes at least one character and returns a suffix of
      its input. */
  ghost predicate ParserValid(parse: string -> ParseResult)
  {
    forall s :: parse(s).Parsed? ==>
      |parse(s).rest| < |s| && parse(s).rest == s[|s| - |parse(s).rest|..]
  }

  /** The +CIND parser is given the whole index map and writes within it,
      whether or not it succeeds. */
  ghost predicate CindParserValid(parseCind: (string, seq<Indicator>) -> CindParse)
  {
    forall s, m :: |m| == IndMapSize ==> |parseCind(s, m).written| == IndMapSize
  }

  ghost predicate EnvValid(env: Env)
  {
    ParserValid(env.parse) && CindParserValid(env.parseCind)
  }
}
