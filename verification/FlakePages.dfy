/** The texts behind the flake ledger's issues. */
module FlakePages {
  import opened JsText
  import opened FlakeMarkers
  import opened FlakeBodies
  import opened FlakeCounts
  import opened FlakeComments
  import opened FlakeLedger

  /** A flake's ID is a hash in hexadecimal. */
  predicate IsHash(id: Bytes) {
    forall b :: b in id ==> IsLowerHex(b as char)
  }

  function HashText(id: Bytes): (text: string)
    ensures |text| == |id| && forall i :: 0 <= i < |id| ==> text[i] == id[i] as char
  {
    if id == [] then "" else [id[0] as char] + HashText(id[1..])
  }

  lemma {:induction false} HashIsId(id: Bytes)
    requires IsHash(id)
    ensures IsId(HashText(id))
  {
    var text := HashText(id);
    forall c | c in text ensures IsLowerHex(c) {
      var i :| 0 <= i < |text| && text[i] == c;
      assert id[i] in id;
    }
  }

  lemma {:induction false} HashesDiffer(a: Bytes, b: Bytes)
    ensures HashText(a) == HashText(b) <==> a == b
  {
    if HashText(a) == HashText(b) {
      forall i | 0 <= i < |a| ensures a[i] == b[i] {
        assert HashText(a)[i] == a[i] as char && HashText(b)[i] == b[i] as char;
      }
    }
  }

  /** What an issue is on GitHub: its body, and the comments of the ledger. */
  datatype Page = Page(body: string, comments: seq<string>)

  /** The page names the issue's flake, holds its count, and its comments record its occurrences, in order. */
  ghost predicate Shows(page: Page, issue: Issue) {
    && IsHash(issue.id) && Marked(page.body, HashText(issue.id)) && CountIn(page.body) == issue.count
    && AllCarry(page.comments, issue.comments)
  }

  // ----- what the ledger writes -----

  /** A new issue; its heading's count is 0, unless the name holds a count line. */
  lemma {:induction false} FiledShows(id: Bytes, subject: string)
    requires IsHash(id)
    ensures var body := IssueBody(HashText(id), subject, 0);
            Shows(Page(body, []), Filed(id, CountIn(body)))
  {
    HashIsId(id);
    NewBodyIsMarked(HashText(id), subject, 0);
  }

  /** A comment that is posted. */
  lemma CommentShows(page: Page, issue: Issue, r: Report, recurrence: Recurrence)
    requires Shows(page, issue) && Clean(r.runUrl)
    ensures Shows(page.(comments := page.comments + [OccurrenceComment(r, recurrence)]),
                  issue.(comments := issue.comments + [r.marker]))
  {
    CommentCarries(r, recurrence);
  }

  /** The count line rewritten: what is read from it next is what was written. */
  lemma CountShows(page: Page, issue: Issue, posted: nat)
    requires Shows(page, issue)
    ensures Shows(page.(body := WithCount(page.body, CountIn(page.body) + posted)),
                  issue.(count := issue.count + posted))
  {
    HashIsId(issue.id);
    CountKeepsMarked(page.body, HashText(issue.id), CountIn(page.body) + posted);
    CountReadsBack(page.body, CountIn(page.body) + posted);
  }

  // ----- what the ledger searches for -----

  /** A body holds the marker of an ID exactly when the issue is that flake's. */
  lemma {:induction false} FoundByMarker(page: Page, issue: Issue, id: Bytes)
    requires Shows(page, issue) && IsHash(id)
    ensures Contains(page.body, IssueMarker(HashText(id))) <==> issue.id == id
  {
    HashIsId(issue.id);
    HashIsId(id);
    MarkedNames(page.body, HashText(issue.id), HashText(id));
    HashesDiffer(issue.id, id);
  }

  /** The occurrences whose markers are neither in the comments' text nor earlier in the list. */
  function FreshIn(group: seq<Occurrence>, existing: string): seq<Marker> {
    if group == [] then []
    else
      var kept := FreshIn(group[..|group| - 1], existing);
      var o := group[|group| - 1];
      if o.marker in kept || Contains(existing, OccurrenceMarker(o.marker)) then kept else kept + [o.marker]
  }

  /** Searching the comments as one text keeps the occurrences that have no comment. */
  lemma {:induction false} FreshByText(page: Page, issue: Issue, group: seq<Occurrence>)
    requires Shows(page, issue)
    ensures FreshIn(group, Existing(page.comments)) == Fresh(group, issue.comments)
  {
    if group != [] {
      FreshByText(page, issue, group[..|group| - 1]);
      ExistingHolds(page.comments, issue.comments, group[|group| - 1].marker);
    }
  }

  // ----- the whole tracker -----

  type Pages = map<nat, Page>

  ghost predicate AllShow(pages: Pages, issues: Issues) {
    pages.Keys == issues.Keys && forall n :: n in issues ==> Shows(pages[n], issues[n])
  }

  predicate Names(pages: Pages, n: nat, id: Bytes) {
    n in pages && Contains(pages[n].body, IssueMarker(HashText(id)))
  }

  predicate Shown(pages: Pages, n: nat, m: Marker) {
    n in pages && Contains(Existing(pages[n].comments), OccurrenceMarker(m))
  }

  /**
   * One issue per flake, in the texts: no two bodies hold the marker of one ID, exactly when no two issues are of it.
   */
  lemma OneBodyPerFlake(pages: Pages, issues: Issues)
    requires AllShow(pages, issues)
    ensures OneIssuePerFlake(issues)
            <==> forall a, b, id :: IsHash(id) && Names(pages, a, id) && Names(pages, b, id) ==> a == b
  {
    forall n, id | n in issues && IsHash(id) ensures Names(pages, n, id) <==> issues[n].id == id {
      FoundByMarker(pages[n], issues[n], id);
    }
    if forall a, b, id :: IsHash(id) && Names(pages, a, id) && Names(pages, b, id) ==> a == b {
      forall a, b | a in issues && b in issues && issues[a].id == issues[b].id ensures a == b {
        assert IsHash(issues[a].id) && Names(pages, a, issues[a].id) && Names(pages, b, issues[a].id);
      }
    }
  }

  /** And no marker stands in the comments of two issues, exactly when no occurrence is recorded on two. */
  lemma MarkersShownOnce(pages: Pages, issues: Issues)
    requires AllShow(pages, issues)
    ensures (forall a, b, m :: Holds(issues, a, m) && Holds(issues, b, m) ==> a == b)
            <==> forall a, b, m :: Shown(pages, a, m) && Shown(pages, b, m) ==> a == b
  {
    forall n, m ensures Shown(pages, n, m) <==> Holds(issues, n, m) {
      if n in issues {
        ExistingHolds(pages[n].comments, issues[n].comments, m);
      }
    }
  }
}
