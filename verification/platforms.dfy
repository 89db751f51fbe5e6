/** The closed set of platform (package) codes the operator can choose from. */
module Platforms {
  import opened Wrappers

  datatype Platform =
    | Apb     // Apabi ebooks
    | Asp     // Alexander Street Press
    | Duphw   // Duke University Press via HighWire
    | Ebr     // Ebrary
    | Ebs     // EBSCOhost ebook collection
    | End     // Endeca undeleted-record check
    | Nccorv  // NCCO related-volumes check
    | Scid    // ScienceDirect ebooks
    | Skno    // SAGE Knowledge
    | Spr     // SpringerLink
    | Srmo    // SAGE Research Methods Online
    | Ss      // SerialsSolutions
    | Upso    // University Press Scholarship Online
    | Wol     // Wiley Online Library

  /** The code the operator types to select a platform. */
  function Code(p: Platform): string {
    match p
    case Apb => "apb"
    case Asp => "asp"
    case Duphw => "duphw"
    case Ebr => "ebr"
    case Ebs => "ebs"
    case End => "end"
    case Nccorv => "nccorv"
    case Scid => "scid"
    case Skno => "skno"
    case Spr => "spr"
    case Srmo => "srmo"
    case Ss => "ss"
    case Upso => "upso"
    case Wol => "wol"
  }

  /** The platform a typed code selects, compared exactly (no trimming, no case
      folding); any other code selects nothing. */
  function ParsePlatform(code: string): (r: Option<Platform>)
    ensures r.Some? ==> Code(r.value) == code
    ensures r.None? ==> forall p: Platform :: Code(p) != code
  {
    if code == "apb" then Some(Apb)
    else if code == "asp" then Some(Asp)
    else if code == "duphw" then Some(Duphw)
    else if code == "ebr" then Some(Ebr)
    else if code == "ebs" then Some(Ebs)
    else if code == "end" then Some(End)
    else if code == "nccorv" then Some(Nccorv)
    else if code == "scid" then Some(Scid)
    else if code == "skno" then Some(Skno)
    else if code == "spr" then Some(Spr)
    else if code == "srmo" then Some(Srmo)
    else if code == "ss" then Some(Ss)
    else if code == "upso" then Some(Upso)
    else if code == "wol" then Some(Wol)
    else None
  }

  /** Every platform is selected by its own code, so distinct platforms have
      distinct codes. */
  lemma ParseCodeRoundTrip(p: Platform)
    ensures ParsePlatform(Code(p)) == Some(p)
  {
  }
}
