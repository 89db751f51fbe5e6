/** The Duke University Press (HighWire) two-stage check: the landing page
    names the e-Duke reader title segment, from which the address of one
    content page is built; that page shows either a log-in form or the
    reader's page navigation. */
module DukeReader {
  import opened Wrappers
  import opened Text
  import opened Rules

  /** The literal part of the landing-page pattern before the capture. */
  const ReaderPrefix: string := "http://reader.dukeupress.edu/"

  /** The pattern `http://reader\.dukeupress\.edu/([^/]*)/\d+` matches `page`
      starting at `i` with `seg` as its capture group: the prefix, a run of
      non-`/` characters, a `/`, and at least one decimal digit. */
  ghost predicate RegexMatchAt(page: string, i: int, seg: string) {
    var start := i + |ReaderPrefix|;
    var slash := start + |seg|;
    && 0 <= i
    && slash + 1 < |page|
    && page[i..start] == ReaderPrefix
    && page[start..slash] == seg
    && NoSlash(seg)
    && page[slash] == '/'
    && IsDigit(page[slash + 1])
  }

  /** The match the regex engine reports: the one starting leftmost. */
  ghost predicate IsLeftmostMatch(page: string, i: int, seg: string) {
    && RegexMatchAt(page, i, seg)
    && forall j, other :: 0 <= j < i ==> !RegexMatchAt(page, j, other)
  }

  /** At a fixed start the capture is determined: `[^/]*` cannot stop short of
      the `/` that must follow it, nor run past it. */
  lemma MatchCaptureUnique(page: string, i: int, seg1: string, seg2: string)
    requires RegexMatchAt(page, i, seg1) && RegexMatchAt(page, i, seg2)
    ensures seg1 == seg2
  {
  }

  /** The end of the run of non-`/` characters starting at `j`. */
  function RunEnd(page: string, j: nat): (k: nat)
    requires j <= |page|
    ensures j <= k <= |page|
    ensures forall t :: j <= t < k ==> page[t] != '/'
    ensures k < |page| ==> page[k] == '/'
    decreases |page| - j
  {
    if j == |page| || page[j] == '/' then j else RunEnd(page, j + 1)
  }

  /** The capture of a match starting at `i`, if the pattern matches there. */
  function SegmentAt(page: string, i: nat): (r: Option<string>)
    ensures r.Some? ==> RegexMatchAt(page, i, r.value)
    ensures forall seg :: RegexMatchAt(page, i, seg) ==> r == Some(seg)
  {
    var start := i + |ReaderPrefix|;
    if start <= |page| && page[i..start] == ReaderPrefix then
      var k := RunEnd(page, start);
      if k + 1 < |page| && page[k] == '/' && IsDigit(page[k + 1]) then
        var seg := page[start..k];
        assert NoSlash(seg) by {
          forall t | 0 <= t < |seg| ensures seg[t] != '/' {
            assert seg[t] == page[start + t];
          }
        }
        assert RegexMatchAt(page, i, seg);
        FirstMatchCapture(page, i, seg);
        Some(seg)
      else
        NoMatchWithoutSlashDigit(page, i, k);
        None
    else
      None
  }

  /** Once one capture is known, every capture at that start is the same. */
  lemma FirstMatchCapture(page: string, i: int, seg: string)
    requires RegexMatchAt(page, i, seg)
    ensures forall other :: RegexMatchAt(page, i, other) ==> other == seg
  {
    forall other | RegexMatchAt(page, i, other) ensures other == seg {
      MatchCaptureUnique(page, i, seg, other);
    }
  }

  /** If the maximal non-`/` run after the prefix is not followed by `/` and a
      digit, the pattern does not match at `i`. */
  lemma NoMatchWithoutSlashDigit(page: string, i: nat, k: nat)
    requires i + |ReaderPrefix| <= k <= |page|
    requires forall t :: i + |ReaderPrefix| <= t < k ==> page[t] != '/'
    requires k < |page| ==> page[k] == '/'
    requires !(k + 1 < |page| && page[k] == '/' && IsDigit(page[k + 1]))
    ensures forall seg :: !RegexMatchAt(page, i, seg)
  {
  }

  /** The leftmost start at or after `i` where the pattern matches. */
  function FindFrom(page: string, i: nat): (r: Option<nat>)
    ensures r.Some? ==> i <= r.value && SegmentAt(page, r.value).Some?
    ensures r.Some? ==> forall j, seg :: i <= j < r.value ==> !RegexMatchAt(page, j, seg)
    ensures r.None? ==> forall j, seg :: i <= j ==> !RegexMatchAt(page, j, seg)
    decreases |page| - i
  {
    if i >= |page| then None
    else if SegmentAt(page, i).Some? then Some(i)
    else FindFrom(page, i + 1)
  }

  /** The title segment the landing page names, as `page.match(...)` with
      `.captures[0]` finds it; `None` where the source would crash calling
      `captures` on a failed match. */
  function ExtractSegment(page: string): (r: Option<string>)
    ensures r.Some? ==> NoSlash(r.value)
    ensures r.Some? ==> exists i :: IsLeftmostMatch(page, i, r.value)
    ensures r.None? ==> forall i, seg :: !RegexMatchAt(page, i, seg)
  {
    match FindFrom(page, 0)
    case None => None
    case Some(i) =>
      assert IsLeftmostMatch(page, i, SegmentAt(page, i).value);
      SegmentAt(page, i)
  }

  /** The address of the 25th page of the title in the e-Duke reader. */
  function ContentUrl(segment: string): string {
    ReaderPrefix + segment + "/25"
  }

  /** The content address is itself matched by the landing-page pattern, and
      gives back the segment it was built from; in particular distinct
      segments give distinct addresses. */
  lemma {:induction false} ContentUrlRoundTrip(segment: string)
    requires NoSlash(segment)
    ensures ExtractSegment(ContentUrl(segment)) == Some(segment)
  {
    var url := ContentUrl(segment);
    var start := |ReaderPrefix|;
    assert url[0..start] == ReaderPrefix;
    assert url[start..start + |segment|] == segment;
    assert url[start + |segment|] == '/';
    assert url[start + |segment| + 1] == '2';
    assert RegexMatchAt(url, 0, segment);
    var r := ExtractSegment(url);
    var i :| IsLeftmostMatch(url, i, r.value);
    MatchCaptureUnique(url, 0, segment, r.value);
  }

  /** The content page shows the log-in form: no subscription. */
  const LoginMarker: string := "Log in to the e-Duke Books Scholarly Collection site"

  /** The content page shows the reader's page navigation: the text is open. */
  const ArrowsMarker: string := "t-page-nav-arrows"

  /** The second-stage chain, run on the fetched content page. */
  const ContentRules: RuleSet :=
    RuleSet([Rule(LoginMarker, "no access"), Rule(ArrowsMarker, "full text access")],
            Label("check access manually"))
}
