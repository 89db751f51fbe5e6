/** The per-platform rule tables: an ordered chain of content tests, the first
    test that matches deciding the label, and a fallback when none does. */
module Rules {
  import opened Wrappers
  import opened Text
  import opened Platforms

  /** One content test: when `marker` occurs in the page, the label is `access`. */
  datatype Rule = Rule(marker: string, access: string)

  /** What a chain decides: a label, or (for the Duke reader only) that the
      landing page cannot tell and a content page must be inspected. */
  datatype Outcome = Label(text: string) | FollowContent

  datatype RuleSet = RuleSet(rules: seq<Rule>, fallback: Outcome)

  /** Rule `i` matches the page and no earlier rule does. */
  ghost predicate IsFirstHit(page: string, rules: seq<Rule>, i: int) {
    && 0 <= i < |rules|
    && Contains(page, rules[i].marker)
    && forall j :: 0 <= j < i ==> !Contains(page, rules[j].marker)
  }

  /** No rule of the chain matches the page. */
  ghost predicate NoHit(page: string, rules: seq<Rule>) {
    forall j :: 0 <= j < |rules| ==> !Contains(page, rules[j].marker)
  }

  /** The index of the first rule whose marker occurs in the page, testing the
      rules in declaration order and stopping at the first success. */
  function FirstHit(page: string, rules: seq<Rule>): (k: Option<nat>)
    ensures k.Some? ==> IsFirstHit(page, rules, k.value)
    ensures k.None? ==> NoHit(page, rules)
  {
    if |rules| == 0 then None
    else if Includes(page, rules[0].marker) then Some(0)
    else
      match FirstHit(page, rules[1..])
      case None => None
      case Some(k) => Some(k + 1)
  }

  /** The outcome of running a chain against a page. */
  function Evaluate(page: string, rs: RuleSet): Outcome {
    match FirstHit(page, rs.rules)
    case Some(k) => Label(rs.rules[k].access)
    case None => rs.fallback
  }

  /** First match wins: the label of the first matching rule is the outcome,
      whatever later rules would have said. */
  lemma EvaluateFirstMatchWins(page: string, rs: RuleSet, i: int)
    requires IsFirstHit(page, rs.rules, i)
    ensures Evaluate(page, rs) == Label(rs.rules[i].access)
  {
  }

  /** A page no rule matches gets the fallback, and only such a page can get
      a result other than a rule's label. */
  lemma EvaluateFallback(page: string, rs: RuleSet)
    ensures NoHit(page, rs.rules) ==> Evaluate(page, rs) == rs.fallback
    ensures !NoHit(page, rs.rules) ==>
      exists i :: IsFirstHit(page, rs.rules, i) && Evaluate(page, rs) == Label(rs.rules[i].access)
  {
    var k := FirstHit(page, rs.rules);
    if k.Some? {
      assert IsFirstHit(page, rs.rules, k.value);
    }
  }

  /** Chains of one to four rules, unfolded into nested tests. */
  lemma Evaluate1(page: string, a: Rule, fallback: Outcome)
    ensures Evaluate(page, RuleSet([a], fallback)) ==
      if Contains(page, a.marker) then Label(a.access) else fallback
  {
    var rs := RuleSet([a], fallback);
    if Contains(page, a.marker) {
      EvaluateFirstMatchWins(page, rs, 0);
    } else {
      EvaluateFallback(page, rs);
    }
  }

  lemma Evaluate2(page: string, a: Rule, b: Rule, fallback: Outcome)
    ensures Evaluate(page, RuleSet([a, b], fallback)) ==
      if Contains(page, a.marker) then Label(a.access)
      else if Contains(page, b.marker) then Label(b.access)
      else fallback
  {
    var rs := RuleSet([a, b], fallback);
    if Contains(page, a.marker) {
      EvaluateFirstMatchWins(page, rs, 0);
    } else if Contains(page, b.marker) {
      EvaluateFirstMatchWins(page, rs, 1);
    } else {
      EvaluateFallback(page, rs);
    }
  }

  lemma Evaluate3(page: string, a: Rule, b: Rule, c: Rule, fallback: Outcome)
    ensures Evaluate(page, RuleSet([a, b, c], fallback)) ==
      if Contains(page, a.marker) then Label(a.access)
      else if Contains(page, b.marker) then Label(b.access)
      else if Contains(page, c.marker) then Label(c.access)
      else fallback
  {
    var rs := RuleSet([a, b, c], fallback);
    if Contains(page, a.marker) {
      EvaluateFirstMatchWins(page, rs, 0);
    } else if Contains(page, b.marker) {
      EvaluateFirstMatchWins(page, rs, 1);
    } else if Contains(page, c.marker) {
      EvaluateFirstMatchWins(page, rs, 2);
    } else {
      EvaluateFallback(page, rs);
    }
  }

  lemma Evaluate4(page: string, a: Rule, b: Rule, c: Rule, d: Rule, fallback: Outcome)
    ensures Evaluate(page, RuleSet([a, b, c, d], fallback)) ==
      if Contains(page, a.marker) then Label(a.access)
      else if Contains(page, b.marker) then Label(b.access)
      else if Contains(page, c.marker) then Label(c.access)
      else if Contains(page, d.marker) then Label(d.access)
      else fallback
  {
    var rs := RuleSet([a, b, c, d], fallback);
    if Contains(page, a.marker) {
      EvaluateFirstMatchWins(page, rs, 0);
    } else if Contains(page, b.marker) {
      EvaluateFirstMatchWins(page, rs, 1);
    } else if Contains(page, c.marker) {
      EvaluateFirstMatchWins(page, rs, 2);
    } else if Contains(page, d.marker) {
      EvaluateFirstMatchWins(page, rs, 3);
    } else {
      EvaluateFallback(page, rs);
    }
  }

  /** Every outcome a chain can produce. */
  function Outcomes(rs: RuleSet): set<Outcome> {
    (set i | 0 <= i < |rs.rules| :: Label(rs.rules[i].access)) + {rs.fallback}
  }

  /** The outcome is always one of the chain's own outcomes. */
  lemma EvaluateInOutcomes(page: string, rs: RuleSet)
    ensures Evaluate(page, rs) in Outcomes(rs)
  {
    var k := FirstHit(page, rs.rules);
    if k.Some? {
      assert Label(rs.rules[k.value].access) in Outcomes(rs);
    }
  }

  // The markers the checker looks for, each a plain case-sensitive substring.
  const OnlineRead: string := "type=\"onlineread\""
  const PageNotFound: string := "Page Not Found"
  const ErrorWord: string := "error"
  const BrowseWord: string := "Browse"
  const DoiNotFound: string := "DOI Not Found"
  const DocumentUnavailable: string := "Document Unavailable."
  const DatePublished: string := "Date Published"
  const NoResultsWarning: string := "class=\"std-warning-text\">No results"
  const EbookFullText: string := "eBook Full Text"
  const InvalidRecord: string := "Invalid record"
  const RelatedVolumesDiv: string := "<div id=\"relatedVolumes\">"
  const NonSubscribedIcon: string := "<td class=nonSerialEntitlementIcon><span class=\"sprite_nsubIcon_sci_dir\""
  const EntitledTitle: string := "title=\"You are entitled to access the full text of this document\""
  const AddToMyLists: string := "Add to My Lists"
  const DenialView: string := "viewType=\"Denial\""
  const FullTextDownloadView: string := "viewType=\"Full text download\""
  const WageningenBookshop: string := "Bookshop, Wageningen"
  const AddToMethodsList: string := "Add to Methods List"
  const NoJournalFound: string := "SS_NoJournalFoundMsg"
  const Holding: string := "SS_Holding"
  const ContentItemDiv: string := "<div class=\"contentItem\">"
  const FullTextAccessNotice: string := "You have full text access to this content"

  /** The landing-page chain of each platform, markers and labels exactly as
      the checker tests them. The Duke reader's chain only recognises a bad
      DOI; otherwise a content page must be inspected. */
  function Registry(p: Platform): RuleSet {
    match p
    case Apb => RuleSet([Rule(OnlineRead, "Access probably ok")], Label("check"))
    case Asp => RuleSet([Rule(PageNotFound, "not found"),
                         Rule(ErrorWord, "error"),
                         Rule(BrowseWord, "access ok")], Label("check"))
    case Duphw => RuleSet([Rule(DoiNotFound, "not found - DOI error")], FollowContent)
    case Ebr => RuleSet([Rule(DocumentUnavailable, "no access"),
                         Rule(DatePublished, "access")], Label("check"))
    case Ebs => RuleSet([Rule(NoResultsWarning, "no access"),
                         Rule(EbookFullText, "access")], Label("check"))
    case End => RuleSet([Rule(InvalidRecord, "deleted OK")], Label("possible ghost record - check"))
    case Nccorv => RuleSet([Rule(RelatedVolumesDiv, "related volumes section present")],
                           Label("no related volumes section"))
    case Scid => RuleSet([Rule(NonSubscribedIcon, "not full text"),
                          Rule(EntitledTitle, "full text")],
                         Label("check"))
    case Skno => RuleSet([Rule(PageNotFound, "not found"),
                          Rule(AddToMyLists, "found")], Label("check"))
    case Spr => RuleSet([Rule(DenialView, "restricted"),
                         Rule(FullTextDownloadView, "full"),
                         Rule(DoiNotFound, "DOI error"),
                         Rule(WageningenBookshop, "wageningenacademic.com")], Label("check"))
    case Srmo => RuleSet([Rule(PageNotFound, "not found"),
                          Rule(AddToMethodsList, "found")], Label("check"))
    case Ss => RuleSet([Rule(NoJournalFound, "no access"),
                        Rule(Holding, "access")], Label("check manually"))
    case Upso => RuleSet([Rule(ContentItemDiv, "access ok")], Label("check"))
    case Wol => RuleSet([Rule(FullTextAccessNotice, "full"),
                         Rule(DoiNotFound, "DOI error")], Label("check"))
  }
}
