/** The keyword classifiers and the overdue test of lib/jobs.ts. */
module Jobs {
  import opened Outcomes
  import opened Strings
  import opened Db

  /** Days after which an application counts as overdue. */
  const OverdueDays: int := 21

  /**
   * Classifies a job URL by keyword occurrence, ignoring case, with the
   * priority linkedin, indeed, wellfound/angel.co; everything else
   * (greenhouse and lever included) is `other`.
   */
  function InferPlatform(url: string): (r: Platform)
    ensures r == LinkedIn <==> Has(url, "linkedin")
    ensures r == Indeed <==> !Has(url, "linkedin") && Has(url, "indeed")
    ensures r == Wellfound <==>
              (!Has(url, "linkedin") && !Has(url, "indeed")
               && (Has(url, "wellfound") || Has(url, "angel.co")))
    ensures r == OtherPlatform <==>
              (!Has(url, "linkedin") && !Has(url, "indeed")
               && !Has(url, "wellfound") && !Has(url, "angel.co"))
  {
    LowerOfLowercase("linkedin");
    LowerOfLowercase("indeed");
    LowerOfLowercase("wellfound");
    LowerOfLowercase("angel.co");
    ContainsLowerIff(url, "linkedin");
    ContainsLowerIff(url, "indeed");
    ContainsLowerIff(url, "wellfound");
    ContainsLowerIff(url, "angel.co");
    var lower := Lower(url);
    if Contains(lower, "linkedin") then LinkedIn
    else if Contains(lower, "indeed") then Indeed
    else if Contains(lower, "wellfound") || Contains(lower, "angel.co") then Wellfound
    else if Contains(lower, "greenhouse") || Contains(lower, "lever") then OtherPlatform
    else OtherPlatform
  }

  /**
   * Classifies a posting by keyword occurrence, ignoring case: hybrid beats
   * remote, remote beats on-site/onsite, and `null` means none of the four occurs.
   */
  function InferWorkMode(text: string): (r: Option<WorkMode>)
    ensures r == Some(Hybrid) <==> Has(text, "hybrid")
    ensures r == Some(Remote) <==> !Has(text, "hybrid") && Has(text, "remote")
    ensures r == Some(OnSite) <==>
              (!Has(text, "hybrid") && !Has(text, "remote")
               && (Has(text, "on-site") || Has(text, "onsite")))
    ensures r == None <==>
              (!Has(text, "hybrid") && !Has(text, "remote")
               && !Has(text, "on-site") && !Has(text, "onsite"))
  {
    LowerOfLowercase("hybrid");
    LowerOfLowercase("remote");
    LowerOfLowercase("on-site");
    LowerOfLowercase("onsite");
    ContainsLowerIff(text, "hybrid");
    ContainsLowerIff(text, "remote");
    ContainsLowerIff(text, "on-site");
    ContainsLowerIff(text, "onsite");
    var lower := Lower(text);
    if Contains(lower, "hybrid") then Some(Hybrid)
    else if Contains(lower, "remote") then Some(Remote)
    else if Contains(lower, "on-site") || Contains(lower, "onsite") then Some(OnSite)
    else None
  }

  /**
   * Whether an application date (a day number; `None` for a missing or empty
   * date) lies more than 21 calendar days before `today`.
   */
  function IsOverdue(appliedDay: Option<int>, today: int): (r: bool)
    ensures appliedDay.None? ==> !r
    ensures appliedDay.Some? ==> (r <==> today - appliedDay.value >= 22)
  {
    appliedDay.Some? && today - appliedDay.value > OverdueDays
  }

  lemma LowerOfLowercase(p: string)
    requires forall i | 0 <= i < |p| :: !('A' <= p[i] <= 'Z')
    ensures Lower(p) == p
  {
  }

  /** `Has(s, w)`: the keyword `w` occurs somewhere in `s`, letters compared without case. */
  ghost predicate Has(s: string, w: string) {
    HasIgnoringCase(s, w)
  }

  /** Once overdue, an application stays overdue on every later day. */
  lemma IsOverdueStays(applied: Option<int>, today: int, later: int)
    requires today <= later && IsOverdue(applied, today)
    ensures IsOverdue(applied, later)
  {
  }

  /** Upper-case letters make no difference to the platform. */
  lemma InferPlatformIgnoresCase(url: string)
    ensures InferPlatform(Lower(url)) == InferPlatform(url)
  {
    LowerIdempotent(url);
  }

  /** Upper-case letters make no difference to the work mode. */
  lemma InferWorkModeIgnoresCase(text: string)
    ensures InferWorkMode(Lower(text)) == InferWorkMode(text)
  {
    LowerIdempotent(text);
  }

  lemma LinkedInLinkIsLower(a: string)
    requires a == "https://www.linkedin.com/jobs/123"
    ensures Lower(a) == a
  {
    LowerOfLowercase(a);
  }

  lemma LinkedInLinkOccurs(a: string)
    requires a == "https://www.linkedin.com/jobs/123"
    ensures OccursAt(a, "linkedin", 12)
  {
    assert a == "https://www." + "linkedin" + ".com/jobs/123";
    assert a[12..20] == "linkedin";
  }

  /** A LinkedIn job link is classified as LinkedIn. */
  lemma LinkedInLinkExample(a: string)
    requires a == "https://www.linkedin.com/jobs/123"
    ensures InferPlatform(a) == LinkedIn
  {
    LinkedInLinkIsLower(a);
    LinkedInLinkOccurs(a);
    ContainsIff(a, "linkedin");
  }

  lemma UnknownBoardFacts(b: string)
    requires b == "https://randomboard.io/post"
    ensures Lower(b) == b && 'k' !in b && 'e' !in b
  {
    LowerOfLowercase(b);
  }

  /** A link to an unknown job board is classified as other. */
  lemma UnknownBoardExample(b: string)
    requires b == "https://randomboard.io/post"
    ensures InferPlatform(b) == OtherPlatform
  {
    UnknownBoardFacts(b);
    AbsentCharBlocksContains(b, "linkedin", 'k');
    AbsentCharBlocksContains(b, "indeed", 'e');
    AbsentCharBlocksContains(b, "wellfound", 'e');
    AbsentCharBlocksContains(b, "angel.co", 'e');
  }

  lemma RemotePostingLower(c: string)
    requires c == "Remote role"
    ensures Lower(c) == "remote role"
  {
    assert Lower(c)[0] == 'r';
    assert forall i | 1 <= i < |c| :: Lower(c)[i] == c[i];
  }

  lemma RemotePostingFacts(l: string)
    requires l == "remote role"
    ensures 'b' !in l
    ensures OccursAt(l, "remote", 0)
  {
    assert l[0..6] == "remote";
  }

  /** A posting mentioning only "remote" is remote. */
  lemma RemotePostingExample(c: string)
    requires c == "Remote role"
    ensures InferWorkMode(c) == Some(Remote)
  {
    RemotePostingLower(c);
    RemotePostingFacts(Lower(c));
    AbsentCharBlocksContains(Lower(c), "hybrid", 'b');
    ContainsIff(Lower(c), "remote");
  }

  /** A posting mentioning both "hybrid" and "remote" is hybrid. */
  lemma HybridPostingExample(d: string)
    requires d == "Hybrid, 3 days remote per week"
    ensures InferWorkMode(d) == Some(Hybrid)
  {
    assert OccursAt(Lower(d), "hybrid", 0);
    ContainsIff(Lower(d), "hybrid");
  }
}
