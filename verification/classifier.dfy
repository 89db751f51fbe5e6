/** The access classifier: the label one fetched page earns under the chosen
    platform, and a direct transcription of the checker's if/elsif chain that
    the table-driven classifier is proved to agree with. */
module Classifier {
  import opened Wrappers
  import opened Text
  import opened Platforms
  import opened Rules
  import opened DukeReader

  /** Apart from failed fetches, the two places where checking a row raises
      instead of producing a label: a row with no URL field, and a Duke landing
      page that names no reader title segment. */
  datatype Crash = NoUrlField | NoTitleSegment

  /** Where the landing-page check leaves a row: decided, or waiting on the
      raw content page at `url`. */
  datatype Step = Done(access: string) | FetchContent(url: string)

  /** The first stage, run on the browser-rendered landing page. */
  function LandingStep(p: Platform, page: string): Result<Step, Crash> {
    match Evaluate(page, Registry(p))
    case Label(access) => Success(Done(access))
    case FollowContent =>
      match ExtractSegment(page)
      case None => Failure(NoTitleSegment)
      case Some(segment) => Success(FetchContent(ContentUrl(segment)))
  }

  /** The label the Duke content page earns: the log-in form takes precedence
      over the reader's page-navigation arrows. */
  function ContentAccess(thepage: string): (access: string)
    ensures Contains(thepage, LoginMarker) ==> access == "no access"
    ensures !Contains(thepage, LoginMarker) && Contains(thepage, ArrowsMarker) ==>
              access == "full text access"
    ensures !Contains(thepage, LoginMarker) && !Contains(thepage, ArrowsMarker) ==>
              access == "check access manually"
  {
    Evaluate2(thepage, ContentRules.rules[0], ContentRules.rules[1], ContentRules.fallback);
    Evaluate(thepage, ContentRules).text
  }

  /** The label for a page under platform `p`; `fetchRaw` stands for the
      plain HTTP fetch of the Duke content page. */
  function Classify(p: Platform, page: string, fetchRaw: string -> string): Result<string, Crash> {
    match LandingStep(p, page)
    case Failure(e) => Failure(e)
    case Success(Done(access)) => Success(access)
    case Success(FetchContent(url)) => Success(ContentAccess(fetchRaw(url)))
  }

  /** The value of `access` after the chain for a typed platform code: `None`
      (Ruby's nil) when the code names no platform, since no branch assigns it. */
  function Access(code: string, page: string, fetchRaw: string -> string): Result<Option<string>, Crash> {
    match ParsePlatform(code)
    case None => Success(None)
    case Some(p) =>
      match Classify(p, page, fetchRaw)
      case Failure(e) => Failure(e)
      case Success(access) => Success(Some(access))
  }

  /** The checker's if/elsif chain written out branch by branch, on the raw
      platform code, independently of the rule tables. */
  ghost function Chain(code: string, page: string, fetchRaw: string -> string): Result<Option<string>, Crash> {
    if code == "apb" then
      if Contains(page, OnlineRead) then Success(Some("Access probably ok"))
      else Success(Some("check"))
    else if code == "asp" then
      if Contains(page, PageNotFound) then Success(Some("not found"))
      else if Contains(page, ErrorWord) then Success(Some("error"))
      else if Contains(page, BrowseWord) then Success(Some("access ok"))
      else Success(Some("check"))
    else if code == "duphw" then
      if Contains(page, DoiNotFound) then Success(Some("not found - DOI error"))
      else
        match ExtractSegment(page)
        case None => Failure(NoTitleSegment)
        case Some(segment) =>
          var thepage := fetchRaw("http://reader.dukeupress.edu/" + segment + "/25");
          if Contains(thepage, LoginMarker) then Success(Some("no access"))
          else if Contains(thepage, ArrowsMarker) then Success(Some("full text access"))
          else Success(Some("check access manually"))
    else if code == "ebr" then
      if Contains(page, DocumentUnavailable) then Success(Some("no access"))
      else if Contains(page, DatePublished) then Success(Some("access"))
      else Success(Some("check"))
    else if code == "ebs" then
      if Contains(page, NoResultsWarning) then Success(Some("no access"))
      else if Contains(page, EbookFullText) then Success(Some("access"))
      else Success(Some("check"))
    else if code == "end" then
      if Contains(page, InvalidRecord) then Success(Some("deleted OK"))
      else Success(Some("possible ghost record - check"))
    else if code == "nccorv" then
      if Contains(page, RelatedVolumesDiv) then Success(Some("related volumes section present"))
      else Success(Some("no related volumes section"))
    else if code == "scid" then
      if Contains(page, NonSubscribedIcon) then
        Success(Some("not full text"))
      else if Contains(page, EntitledTitle) then
        Success(Some("full text"))
      else Success(Some("check"))
    else if code == "skno" then
      if Contains(page, PageNotFound) then Success(Some("not found"))
      else if Contains(page, AddToMyLists) then Success(Some("found"))
      else Success(Some("check"))
    else if code == "spr" then
      if Contains(page, DenialView) then Success(Some("restricted"))
      else if Contains(page, FullTextDownloadView) then Success(Some("full"))
      else if Contains(page, DoiNotFound) then Success(Some("DOI error"))
      else if Contains(page, WageningenBookshop) then Success(Some("wageningenacademic.com"))
      else Success(Some("check"))
    else if code == "srmo" then
      if Contains(page, PageNotFound) then Success(Some("not found"))
      else if Contains(page, AddToMethodsList) then Success(Some("found"))
      else Success(Some("check"))
    else if code == "ss" then
      if Contains(page, NoJournalFound) then Success(Some("no access"))
      else if Contains(page, Holding) then Success(Some("access"))
      else Success(Some("check manually"))
    else if code == "upso" then
      if Contains(page, ContentItemDiv) then Success(Some("access ok"))
      else Success(Some("check"))
    else if code == "wol" then
      if Contains(page, FullTextAccessNotice) then Success(Some("full"))
      else if Contains(page, DoiNotFound) then Success(Some("DOI error"))
      else Success(Some("check"))
    else
      Success(None)
  }

  // One agreement lemma per platform keeps each proof small: the chain is
  // unfolded only as far as that platform's branch.

  lemma AgreeApb(page: string, fetchRaw: string -> string)
    ensures Access(Code(Apb), page, fetchRaw) == Chain(Code(Apb), page, fetchRaw)
  {
    ParseCodeRoundTrip(Apb);
    var rs := Registry(Apb);
    Evaluate1(page, rs.rules[0], rs.fallback);
  }

  lemma AgreeAsp(page: string, fetchRaw: string -> string)
    ensures Access(Code(Asp), page, fetchRaw) == Chain(Code(Asp), page, fetchRaw)
  {
    ParseCodeRoundTrip(Asp);
    var rs := Registry(Asp);
    Evaluate3(page, rs.rules[0], rs.rules[1], rs.rules[2], rs.fallback);
  }

  lemma AgreeDuphw(page: string, fetchRaw: string -> string)
    ensures Access(Code(Duphw), page, fetchRaw) == Chain(Code(Duphw), page, fetchRaw)
  {
    ParseCodeRoundTrip(Duphw);
    var rs := Registry(Duphw);
    Evaluate1(page, rs.rules[0], rs.fallback);
  }

  lemma AgreeEbr(page: string, fetchRaw: string -> string)
    ensures Access(Code(Ebr), page, fetchRaw) == Chain(Code(Ebr), page, fetchRaw)
  {
    ParseCodeRoundTrip(Ebr);
    var rs := Registry(Ebr);
    Evaluate2(page, rs.rules[0], rs.rules[1], rs.fallback);
  }

  lemma AgreeEbs(page: string, fetchRaw: string -> string)
    ensures Access(Code(Ebs), page, fetchRaw) == Chain(Code(Ebs), page, fetchRaw)
  {
    ParseCodeRoundTrip(Ebs);
    var rs := Registry(Ebs);
    Evaluate2(page, rs.rules[0], rs.rules[1], rs.fallback);
  }

  lemma AgreeEnd(page: string, fetchRaw: string -> string)
    ensures Access(Code(End), page, fetchRaw) == Chain(Code(End), page, fetchRaw)
  {
    ParseCodeRoundTrip(End);
    var rs := Registry(End);
    Evaluate1(page, rs.rules[0], rs.fallback);
  }

  lemma AgreeNccorv(page: string, fetchRaw: string -> string)
    ensures Access(Code(Nccorv), page, fetchRaw) == Chain(Code(Nccorv), page, fetchRaw)
  {
    ParseCodeRoundTrip(Nccorv);
    var rs := Registry(Nccorv);
    Evaluate1(page, rs.rules[0], rs.fallback);
  }

  lemma AgreeScid(page: string, fetchRaw: string -> string)
    ensures Access(Code(Scid), page, fetchRaw) == Chain(Code(Scid), page, fetchRaw)
  {
    ParseCodeRoundTrip(Scid);
    var rs := Registry(Scid);
    Evaluate2(page, rs.rules[0], rs.rules[1], rs.fallback);
  }

  lemma AgreeSkno(page: string, fetchRaw: string -> string)
    ensures Access(Code(Skno), page, fetchRaw) == Chain(Code(Skno), page, fetchRaw)
  {
    ParseCodeRoundTrip(Skno);
    var rs := Registry(Skno);
    Evaluate2(page, rs.rules[0], rs.rules[1], rs.fallback);
  }

  lemma AgreeSpr(page: string, fetchRaw: string -> string)
    ensures Access(Code(Spr), page, fetchRaw) == Chain(Code(Spr), page, fetchRaw)
  {
    ParseCodeRoundTrip(Spr);
    var rs := Registry(Spr);
    Evaluate4(page, rs.rules[0], rs.rules[1], rs.rules[2], rs.rules[3], rs.fallback);
  }

  lemma AgreeSrmo(page: string, fetchRaw: string -> string)
    ensures Access(Code(Srmo), page, fetchRaw) == Chain(Code(Srmo), page, fetchRaw)
  {
    ParseCodeRoundTrip(Srmo);
    var rs := Registry(Srmo);
    Evaluate2(page, rs.rules[0], rs.rules[1], rs.fallback);
  }

  lemma AgreeSs(page: string, fetchRaw: string -> string)
    ensures Access(Code(Ss), page, fetchRaw) == Chain(Code(Ss), page, fetchRaw)
  {
    ParseCodeRoundTrip(Ss);
    var rs := Registry(Ss);
    Evaluate2(page, rs.rules[0], rs.rules[1], rs.fallback);
  }

  lemma AgreeUpso(page: string, fetchRaw: string -> string)
    ensures Access(Code(Upso), page, fetchRaw) == Chain(Code(Upso), page, fetchRaw)
  {
    ParseCodeRoundTrip(Upso);
    var rs := Registry(Upso);
    Evaluate1(page, rs.rules[0], rs.fallback);
  }

  lemma AgreeWol(page: string, fetchRaw: string -> string)
    ensures Access(Code(Wol), page, fetchRaw) == Chain(Code(Wol), page, fetchRaw)
  {
    ParseCodeRoundTrip(Wol);
    var rs := Registry(Wol);
    Evaluate2(page, rs.rules[0], rs.rules[1], rs.fallback);
  }

  /** The table-driven classifier and the written-out chain agree on the
      code of every platform. */
  lemma PlatformAgreesWithChain(p: Platform, page: string, fetchRaw: string -> string)
    ensures Access(Code(p), page, fetchRaw) == Chain(Code(p), page, fetchRaw)
  {
    match p
    case Apb => AgreeApb(page, fetchRaw);
    case Asp => AgreeAsp(page, fetchRaw);
    case Duphw => AgreeDuphw(page, fetchRaw);
    case Ebr => AgreeEbr(page, fetchRaw);
    case Ebs => AgreeEbs(page, fetchRaw);
    case End => AgreeEnd(page, fetchRaw);
    case Nccorv => AgreeNccorv(page, fetchRaw);
    case Scid => AgreeScid(page, fetchRaw);
    case Skno => AgreeSkno(page, fetchRaw);
    case Spr => AgreeSpr(page, fetchRaw);
    case Srmo => AgreeSrmo(page, fetchRaw);
    case Ss => AgreeSs(page, fetchRaw);
    case Upso => AgreeUpso(page, fetchRaw);
    case Wol => AgreeWol(page, fetchRaw);
  }

  /** The table-driven classifier and the written-out chain agree on every
      code, page and content fetch, including codes that name no platform. */
  lemma {:induction false} AccessAgreesWithChain(code: string, page: string, fetchRaw: string -> string)
    ensures Access(code, page, fetchRaw) == Chain(code, page, fetchRaw)
  {
    match ParsePlatform(code)
    case None =>
    case Some(p) => PlatformAgreesWithChain(p, page, fetchRaw);
  }
  /** The finite set of labels each platform can assign. */
  function Vocabulary(p: Platform): set<string> {
    match p
    case Apb => {"Access probably ok", "check"}
    case Asp => {"not found", "error", "access ok", "check"}
    case Duphw => {"not found - DOI error", "no access", "full text access", "check access manually"}
    case Ebr => {"no access", "access", "check"}
    case Ebs => {"no access", "access", "check"}
    case End => {"deleted OK", "possible ghost record - check"}
    case Nccorv => {"related volumes section present", "no related volumes section"}
    case Scid => {"not full text", "full text", "check"}
    case Skno => {"not found", "found", "check"}
    case Spr => {"restricted", "full", "DOI error", "wageningenacademic.com", "check"}
    case Srmo => {"not found", "found", "check"}
    case Ss => {"no access", "access", "check manually"}
    case Upso => {"access ok", "check"}
    case Wol => {"full", "DOI error", "check"}
  }

  /** The label a single-page platform falls back to when none of its markers
      occurs (the Duke reader's fallback is on the content page, see
      `ContentAccess`). */
  function DefaultAccess(p: Platform): string
    requires p != Duphw
  {
    match p
    case End => "possible ghost record - check"
    case Nccorv => "no related volumes section"
    case Ss => "check manually"
    case _ => "check"
  }

  /** Whatever the page, a label is drawn from the platform's vocabulary. */
  lemma ClassifyInVocabulary(p: Platform, page: string, fetchRaw: string -> string)
    ensures Classify(p, page, fetchRaw).Success? ==> Classify(p, page, fetchRaw).value in Vocabulary(p)
  {
    var rs := Registry(p);
    match p
    case Apb => Evaluate1(page, rs.rules[0], rs.fallback);
    case Asp => Evaluate3(page, rs.rules[0], rs.rules[1], rs.rules[2], rs.fallback);
    case Duphw => Evaluate1(page, rs.rules[0], rs.fallback);
    case Ebr => Evaluate2(page, rs.rules[0], rs.rules[1], rs.fallback);
    case Ebs => Evaluate2(page, rs.rules[0], rs.rules[1], rs.fallback);
    case End => Evaluate1(page, rs.rules[0], rs.fallback);
    case Nccorv => Evaluate1(page, rs.rules[0], rs.fallback);
    case Scid => Evaluate2(page, rs.rules[0], rs.rules[1], rs.fallback);
    case Skno => Evaluate2(page, rs.rules[0], rs.rules[1], rs.fallback);
    case Spr => Evaluate4(page, rs.rules[0], rs.rules[1], rs.rules[2], rs.rules[3], rs.fallback);
    case Srmo => Evaluate2(page, rs.rules[0], rs.rules[1], rs.fallback);
    case Ss => Evaluate2(page, rs.rules[0], rs.rules[1], rs.fallback);
    case Upso => Evaluate1(page, rs.rules[0], rs.fallback);
    case Wol => Evaluate2(page, rs.rules[0], rs.rules[1], rs.fallback);
  }

  /** Every platform but the Duke reader decides on the landing page alone: it
      never asks for a content page, never fails, and so its label is a
      function of the page text only. */
  lemma SinglePageDecides(p: Platform, page: string, fetchRaw1: string -> string, fetchRaw2: string -> string)
    requires p != Duphw
    ensures LandingStep(p, page).Success? && LandingStep(p, page).value.Done?
    ensures Classify(p, page, fetchRaw1) == Classify(p, page, fetchRaw2)
  {
    EvaluateFallback(page, Registry(p));
  }

  /** A page in which none of the platform's markers occurs earns the
      platform's default label. */
  lemma NoMarkerGetsDefault(p: Platform, page: string, fetchRaw: string -> string)
    requires p != Duphw
    requires NoHit(page, Registry(p).rules)
    ensures Classify(p, page, fetchRaw) == Success(DefaultAccess(p))
  {
    EvaluateFallback(page, Registry(p));
  }

  /** First match wins: the first of the platform's markers that occurs
      decides the label, whatever later markers also occur. */
  lemma FirstMarkerWins(p: Platform, page: string, fetchRaw: string -> string, i: int)
    requires IsFirstHit(page, Registry(p).rules, i)
    ensures Classify(p, page, fetchRaw) == Success(Registry(p).rules[i].access)
  {
    EvaluateFirstMatchWins(page, Registry(p), i);
  }

  /** On Alexander Street Press a missing page is reported even when the page
      also mentions an error or offers browsing. */
  lemma AspPageNotFoundWins(page: string, fetchRaw: string -> string)
    requires Contains(page, "Page Not Found")
    ensures Classify(Asp, page, fetchRaw) == Success("not found")
  {
    FirstMarkerWins(Asp, page, fetchRaw, 0);
  }

  /** On SpringerLink a denial view is reported as restricted regardless of
      the markers tested after it. */
  lemma SprDenialWins(page: string, fetchRaw: string -> string)
    requires Contains(page, "viewType=\"Denial\"")
    ensures Classify(Spr, page, fetchRaw) == Success("restricted")
  {
    FirstMarkerWins(Spr, page, fetchRaw, 0);
  }

  /** The Duke landing stage: a bad DOI is decided at once, with no content
      address built; otherwise the title segment is extracted (or the row
      fails) and the content address is the reader address of its page 25. */
  lemma DukeLanding(page: string)
    ensures Contains(page, "DOI Not Found") ==>
              LandingStep(Duphw, page) == Success(Done("not found - DOI error"))
    ensures !Contains(page, "DOI Not Found") && ExtractSegment(page).None? ==>
              LandingStep(Duphw, page) == Failure(NoTitleSegment)
    ensures !Contains(page, "DOI Not Found") && ExtractSegment(page).Some? ==>
              var segment := ExtractSegment(page).value;
              && NoSlash(segment)
              && LandingStep(Duphw, page) ==
                   Success(FetchContent("http://reader.dukeupress.edu/" + segment + "/25"))
  {
    Evaluate1(page, Registry(Duphw).rules[0], Registry(Duphw).fallback);
  }

  /** A bad DOI on the Duke landing page decides the label whatever any
      content page would have said. */
  lemma DukeBadDoiNeedsNoContent(page: string, fetchRaw: string -> string)
    requires Contains(page, "DOI Not Found")
    ensures Classify(Duphw, page, fetchRaw) == Success("not found - DOI error")
  {
    DukeLanding(page);
  }

  /** Once the Duke landing page has no bad DOI and names a title segment, the
      label is decided on the page-25 content page: the log-in form before the
      page-navigation arrows, and "check access manually" when neither shows. */
  lemma DukeSecondStage(page: string, fetchRaw: string -> string, segment: string)
    requires !Contains(page, DoiNotFound) && ExtractSegment(page) == Some(segment)
    ensures var thepage := fetchRaw(ContentUrl(segment));
            Classify(Duphw, page, fetchRaw) ==
              Success(if Contains(thepage, LoginMarker) then "no access"
                      else if Contains(thepage, ArrowsMarker) then "full text access"
                      else "check access manually")
  {
    DukeLanding(page);
  }

  /** A code that names no platform assigns no label: `access` stays nil. */
  lemma UnknownCodeLeavesAccessNil(code: string, page: string, fetchRaw: string -> string)
    requires forall p: Platform :: Code(p) != code
    ensures Access(code, page, fetchRaw) == Success(None)
  {
  }

  /** On SerialsSolutions a "no journal found" message means no access. */
  lemma SsNoJournalMeansNoAccess(page: string, fetchRaw: string -> string)
    requires Contains(page, "SS_NoJournalFoundMsg")
    ensures Classify(Ss, page, fetchRaw) == Success("no access")
  {
    FirstMarkerWins(Ss, page, fetchRaw, 0);
  }

  /** On Wiley Online Library the full-text notice means full access, even
      on a page that also reports a bad DOI. */
  lemma WolFullTextNoticeMeansFull(page: string, fetchRaw: string -> string)
    requires Contains(page, "You have full text access to this content")
    ensures Classify(Wol, page, fetchRaw) == Success("full")
  {
    FirstMarkerWins(Wol, page, fetchRaw, 0);
  }
}
