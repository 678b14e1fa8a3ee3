/** Any number of reissues, one after the other, through the database. */
module ReissueChain {
  import opened Wrappers
  import opened Json
  import opened CredentialIds
  import opened Crypto
  import opened Credential
  import opened IssuedCredential
  import opened Reissue
  import V = Verifier

  // ----- how an issue is written

  /** The row that is saved for an issue, and the object that its text means. */
  datatype Encoding = Encoding(rowOf: (Option<string>, Issue) -> Row, means: Issue -> V.Object)
  {
    /** The text of the row means the object, and both read back as what was issued. */
    ghost predicate Faithful() {
      && (forall link: Option<string>, i: Issue :: RowKeeps(rowOf(link, i), link, i.p) && Parse(rowOf(link, i).credentialJSON) == Ok(Plain(means(i))))
      && (forall i: Issue :: ReadsAs(means(i), i))
      && (forall i: Issue, j: Issue :: SameButImage(i.p, j.p) ==> Skeleton(means(i)) == Skeleton(means(j)))
    }
  }

  predicate RowKeeps(row: Row, link: Option<string>, p: Params) {
    row.achievementId == link && row.recipientName == p.recipientName && row.recipientEmail == p.recipientEmail && row.recipientDID == p.recipientDID
  }

  predicate ReadsAs(m: V.Object, i: Issue) {
    && ExtractAchievementInfo(m) ==
         AchievementInfo(i.p.achievementName, i.p.achievementDesc, i.p.criteria, i.p.programCategory, i.p.programID)
    && ExtractCPSIdentity(m) == Identity(i.p.universityCode, i.p.studentID)
    && AchievementIdOf(m) == AchievementId(i.p, i.uuids)
  }

  /** What the server writes. */
  ghost function Written(s: Server): Encoding {
    Encoding((link: Option<string>, i: Issue) => RowOf(s, link, i), (i: Issue) => Meaning(s.suite, s.clock, i))
  }

  lemma WrittenFaithful(s: Server)
    ensures Written(s).Faithful()
  {
    forall link: Option<string>, i: Issue
      ensures RowKeeps(RowOf(s, link, i), link, i.p) && Parse(RowOf(s, link, i).credentialJSON) == Ok(Plain(Meaning(s.suite, s.clock, i)))
    {
      TextMeans(s, i);
    }
    forall i: Issue ensures ReadsAs(Meaning(s.suite, s.clock, i), i) {
      ExtractorsInvert(s.suite, s.clock, i);
      AchievementIdRead(s.suite, s.clock, i);
    }
    forall i: Issue, j: Issue | SameButImage(i.p, j.p)
      ensures Skeleton(Meaning(s.suite, s.clock, i)) == Skeleton(Meaning(s.suite, s.clock, j))
    {
      SkeletonSame(s.suite, s.clock, i, j);
    }
  }

  lemma TextMeans(s: Server, i: Issue)
    ensures Parse(TextOf(s, i)) == Ok(Plain(Meaning(s.suite, s.clock, i)))
  {
    IssuedMeans(s.suite, s.clock, i);
    AnyRenderingReadsBack(s.suite, s.clock, i, Plain(Issued(s.suite, s.clock, i)), GO);
  }

  // ----- one reissue

  /** The row is the one saved for this issue, but its text may spell the same JSON value in any
      way: JSONB does not keep spellings. */
  ghost predicate Stores(e: Encoding, row: Row, i: Issue) {
    && row == e.rowOf(row.achievementId, i).(credentialJSON := row.credentialJSON)
    && Parse(row.credentialJSON) == Ok(Plain(e.means(i)))
  }

  /** Such as the text form of a JSONB column: any Go value of the same meaning, in that style. */
  lemma JsonbStores(s: Server, link: Option<string>, i: Issue, v: Value)
    requires Fits(v, MAX_DEPTH) && Denote(v) == Denote(Plain(Issued(s.suite, s.clock, i)))
    ensures Stores(Written(s), RowOf(s, link, i).(credentialJSON := Print(v, POSTGRES)), i)
  {
    AnyRenderingReadsBack(s.suite, s.clock, i, v, POSTGRES);
  }

  /** The row can be reissued with this image and draw. */
  predicate Reissuable(row: Row, image: string, d: Draw) {
    Positive(d) && d.sequence.Some? && d.signer.secret.Some? && image != "" && Stored(row.credentialJSON).Some?
  }

  /** What ReissueBadge issues. */
  function Rebuilt(c: Config, row: Row, image: string, d: Draw): Issue
    requires Reissuable(row, image, d)
  {
    ReissueOf(c, row, Stored(row.credentialJSON).value, image, d.signer.secret.value, d)
  }

  /** Row `next` is what is read back after reissuing `row`. */
  ghost predicate Step(e: Encoding, c: Config, row: Row, image: string, d: Draw, next: Row) {
    && Reissuable(row, image, d)
    && var saved := e.rowOf(row.achievementId, Rebuilt(c, row, image, d));
    && next == saved.(credentialJSON := next.credentialJSON)
    && Parse(next.credentialJSON) == Parse(saved.credentialJSON)
  }

  /** One issue is rebuilt from another: only the identifiers and the image differ, and the new ones
      are what the call asked for and drew. */
  predicate Follows(link: string, i: Issue, image: string, d: Draw, last: Issue) {
    && SameButImage(i.p, last.p) && Positive(d) && d.sequence.Some?
    && last.p.imageBase64 == image && last.p.achievementID == link
    && last.p.credentialID == NewId(i.p.universityCode, i.p.programCategory, d)
    && last.t == d.now && last.uuids == d.uuids && Some(last.secret) == d.signer.secret && last.keyId == d.signer.keyId
  }

  lemma StepStores(e: Encoding, c: Config, row: Row, image: string, d: Draw, next: Row)
    requires e.Faithful() && Step(e, c, row, image, d, next)
    ensures Stores(e, next, Rebuilt(c, row, image, d)) && next.achievementId == row.achievementId
  {
    var i := Rebuilt(c, row, image, d);
    assert RowKeeps(e.rowOf(row.achievementId, i), row.achievementId, i.p);
  }

  /** Whatever a row says, what is rebuilt from it has the server's configuration and a recipient. */
  lemma RebuiltFits(c: Config, row: Row, image: string, d: Draw)
    requires Reissuable(row, image, d)
    ensures FromConfig(c, Rebuilt(c, row, image, d).p) && Rebuilt(c, row, image, d).p.recipientDID != ""
  {
  }

  /** A reissue of a stored badge rebuilds every parameter but the identifiers and the image. */
  lemma StepRebuilds(e: Encoding, c: Config, row: Row, i: Issue, image: string, d: Draw)
    requires e.Faithful() && Reissuable(row, image, d)
    requires Stores(e, row, i) && FromConfig(c, i.p) && i.p.recipientDID != ""
    ensures Follows(Linked(row), i, image, d, Rebuilt(c, row, image, d))
  {
    assert RowKeeps(e.rowOf(row.achievementId, i), row.achievementId, i.p);
    assert ReadsAs(e.means(i), i);
  }

  // ----- any number of them

  datatype Asked = Asked(image: string, draw: Draw)

  /** Row `last` is read back after the reissues that were asked for, each of the row before. */
  ghost predicate Reissues(e: Encoding, c: Config, row: Row, asked: seq<Asked>, last: Row)
    decreases |asked|
  {
    if asked == [] then row == last
    else
      var n := |asked| - 1;
      exists before :: Reissues(e, c, row, asked[..n], before) && Step(e, c, before, asked[n].image, asked[n].draw, last)
  }

  /** What is known of an issue after some reissues of i. */
  predicate Kept(c: Config, i: Issue, last: Issue) {
    SameButImage(i.p, last.p) && FromConfig(c, last.p) && last.p.recipientDID != ""
  }

  lemma OneMore(e: Encoding, c: Config, i: Issue, row: Row, before: Issue, image: string, d: Draw, next: Row) returns (last: Issue)
    requires e.Faithful() && Stores(e, row, before) && Kept(c, i, before) && Step(e, c, row, image, d, next)
    ensures Stores(e, next, last) && next.achievementId == row.achievementId
    ensures Kept(c, i, last) && Follows(Linked(row), i, image, d, last)
  {
    StepStores(e, c, row, image, d, next);
    StepRebuilds(e, c, row, before, image, d);
    RebuiltFits(c, row, image, d);
    last := Rebuilt(c, row, image, d);
  }

  lemma {:induction false} ChainRebuilds(e: Encoding, c: Config, row: Row, i: Issue, asked: seq<Asked>, end: Row) returns (last: Issue)
    requires e.Faithful() && Reissues(e, c, row, asked, end)
    requires Stores(e, row, i) && Kept(c, i, i)
    ensures Stores(e, end, last) && Kept(c, i, last) && end.achievementId == row.achievementId
    ensures if asked == [] then last == i else var a := asked[|asked| - 1]; Follows(Linked(row), i, a.image, a.draw, last)
    decreases |asked|
  {
    if asked == [] {
      last := i;
    } else {
      var n := |asked| - 1;
      var mid :| Reissues(e, c, row, asked[..n], mid) && Step(e, c, mid, asked[n].image, asked[n].draw, end);
      var before := ChainRebuilds(e, c, row, i, asked[..n], mid);
      last := OneMore(e, c, i, mid, before, asked[n].image, asked[n].draw, end);
    }
  }

  /** Main theorem.  Under one configuration, whichever keys sign on the way, any number of reissues
      keep the credential but for its identifier, image, time, proof and achievement identifier,
      and keep the recipient's row data; the last one has the image that was asked for. */
  lemma ReissuesKeep(e: Encoding, c: Config, row: Row, i: Issue, asked: seq<Asked>, end: Row) returns (last: Issue)
    requires e.Faithful() && Reissues(e, c, row, asked, end)
    requires Stores(e, row, i) && FromConfig(c, i.p) && i.p.recipientDID != ""
    ensures Stores(e, end, last) && end.achievementId == row.achievementId
    ensures Stored(row.credentialJSON).Some? && Stored(end.credentialJSON).Some?
    ensures Skeleton(Stored(end.credentialJSON).value) == Skeleton(Stored(row.credentialJSON).value)
    ensures if asked == [] then last == i else var a := asked[|asked| - 1]; Follows(Linked(row), i, a.image, a.draw, last)
  {
    last := ChainRebuilds(e, c, row, i, asked, end);
    SkeletonKept(e, row, i, end, last);
  }

  lemma SkeletonKept(e: Encoding, row: Row, i: Issue, end: Row, last: Issue)
    requires e.Faithful() && Stores(e, row, i) && Stores(e, end, last) && SameButImage(i.p, last.p)
    ensures Stored(row.credentialJSON).Some? && Stored(end.credentialJSON).Some?
    ensures Skeleton(Stored(end.credentialJSON).value) == Skeleton(Stored(row.credentialJSON).value)
  {
    assert Skeleton(e.means(i)) == Skeleton(e.means(last));
  }

  /** The server writes faithfully, so this holds of its own reissues. */
  lemma ServerReissuesKeep(s: Server, row: Row, i: Issue, asked: seq<Asked>, end: Row)
    requires Reissues(Written(s), s.config, row, asked, end)
    requires Stores(Written(s), row, i) && FromConfig(s.config, i.p) && i.p.recipientDID != ""
    ensures Stored(row.credentialJSON).Some? && Stored(end.credentialJSON).Some?
    ensures Skeleton(Stored(end.credentialJSON).value) == Skeleton(Stored(row.credentialJSON).value)
  {
    WrittenFaithful(s);
    var last := ReissuesKeep(Written(s), s.config, row, i, asked, end);
  }

  // ----- the achievement identifier

  lemma StoredAchievementId(e: Encoding, row: Row, i: Issue)
    requires e.Faithful() && Stores(e, row, i)
    ensures Stored(row.credentialJSON).Some?
    ensures AchievementIdOf(Stored(row.credentialJSON).value) == AchievementId(i.p, i.uuids)
  {
    assert ReadsAs(e.means(i), i);
  }

  lemma KeptExactly(row: Row, i: Issue, d: Draw, last: Issue)
    requires row.achievementId != Some("")
    requires row.achievementId.Some? ==> i.p.achievementID != ""
    requires last.p.achievementID == Linked(row) && last.uuids == d.uuids
    ensures AchievementId(last.p, last.uuids) == AchievementId(i.p, i.uuids) <==>
      if row.achievementId.Some? then row.achievementId.value == i.p.achievementID
      else URN_UUID + d.uuids.achievement == AchievementId(i.p, i.uuids)
  {
  }

  /** Exactly when a reissue of an issued badge keeps the achievement identifier: a linked one must
      have been given in its canonical spelling; an unlinked one is replaced by a fresh UUID. */
  lemma AchievementKeptExactly(e: Encoding, s: Server, row: Row, i: Issue, image: string, d: Draw, next: Row)
    requires e.Faithful() && Stores(e, row, i) && FromConfig(s.config, i.p) && i.p.recipientDID != ""
    requires row.achievementId == LinkOf(s, i.p.achievementID) && row.achievementId != Some("")
    requires Step(e, s.config, row, image, d, next)
    ensures Stored(row.credentialJSON).Some? && Stored(next.credentialJSON).Some?
    ensures AchievementIdOf(Stored(next.credentialJSON).value) == AchievementIdOf(Stored(row.credentialJSON).value) <==>
      if row.achievementId.Some? then row.achievementId.value == i.p.achievementID
      else URN_UUID + d.uuids.achievement == AchievementId(i.p, i.uuids)
  {
    var last := Rebuilt(s.config, row, image, d);
    StepStores(e, s.config, row, image, d, next);
    StepRebuilds(e, s.config, row, i, image, d);
    StoredAchievementId(e, row, i);
    StoredAchievementId(e, next, last);
    KeptExactly(row, i, d, last);
  }

  /** A badge that was saved and reissued, with its text read back as it was written. */
  lemma SavedAndReissued(e: Encoding, c: Config, link: Option<string>, i: Issue, image: string, d: Draw) returns (row: Row, next: Row)
    requires e.Faithful() && Positive(d) && d.sequence.Some? && d.signer.secret.Some? && image != ""
    ensures row == e.rowOf(link, i) && Stores(e, row, i) && row.achievementId == link
    ensures Step(e, c, row, image, d, next)
  {
    row := e.rowOf(link, i);
    assert RowKeeps(row, link, i.p) && Parse(row.credentialJSON) == Ok(Plain(e.means(i)));
    next := e.rowOf(link, Rebuilt(c, row, image, d));
  }

  lemma SpellingsDiffer(a: string, b: string)
    requires a == "6ba7b810-9dad-11d1-80b4-00c04fd430c8" && b == "6BA7B810-9DAD-11D1-80B4-00C04FD430C8"
    ensures a != b && a != "" && b != ""
  {
    assert a[1] == 'b' && b[1] == 'B';
  }

  /** A run in which it is lost: a badge is issued with a UUID spelt in capitals and reissued, and
      the UUID comes back in lower case. */
  lemma CapitalsAreLost(e: Encoding, s: Server, q: Request, secret: SecretKey, d: Draw, image: string, again: Draw)
    returns (row: Row, next: Row)
    requires e.Faithful() && q.achievementID == "6BA7B810-9DAD-11D1-80B4-00C04FD430C8"
    requires s.parseUuid(q.achievementID) == Some("6ba7b810-9dad-11d1-80b4-00c04fd430c8")
    requires Positive(d) && d.sequence.Some?
    requires Positive(again) && again.sequence.Some? && again.signer.secret.Some? && image != ""
    ensures row == e.rowOf(LinkOf(s, q.achievementID), IssueOf(s, q, secret, d)) && Step(e, s.config, row, image, again, next)
    ensures Stored(row.credentialJSON).Some? && Stored(next.credentialJSON).Some?
    ensures AchievementIdOf(Stored(next.credentialJSON).value) != AchievementIdOf(Stored(row.credentialJSON).value)
  {
    var i := IssueOf(s, q, secret, d);
    SpellingsDiffer(s.parseUuid(q.achievementID).value, q.achievementID);
    row, next := SavedAndReissued(e, s.config, LinkOf(s, q.achievementID), i, image, again);
    AchievementKeptExactly(e, s, row, i, image, again, next);
  }
}
