/** The reputation score over the reals. The logarithm and the exponential are parameters of which
    only monotonicity and one value each are used. */
module Scores {
  import opened Options

  datatype Curves = Curves(ln: real -> real, exp: real -> real)

  ghost predicate Regular(c: Curves) {
    && (forall x, y :: 0.0 < x < y ==> c.ln(x) < c.ln(y)) && c.ln(1.0) == 0.0
    && (forall x, y :: x < y ==> c.exp(x) < c.exp(y)) && c.exp(0.0) == 1.0
    && (forall x :: c.exp(x) > 0.0)
  }

  const PROVENANCE_WEIGHT := 0.15
  const AGE_WEIGHT := 0.15
  const ASSOCIATION_WEIGHT := 0.05
  const PROFILE_WEIGHT := 0.05
  const PROPORTION_WEIGHT := 0.15
  const RECENCY_WEIGHT := 0.05
  const PR_ACCEPT_WEIGHT := 0.05
  const FOLLOWER_WEIGHT := 0.05
  const REPO_COUNT_WEIGHT := 0.10
  const CONSISTENCY_WEIGHT := 0.06
  const REVIEW_WEIGHT := 0.04
  const DIVERSITY_WEIGHT := 0.04
  const BURST_WEIGHT := 0.03
  const FORK_WEIGHT := 0.03

  const AGE_CEIL := 730.0
  const FOLLOWER_RATIO_CEIL := 10.0
  const REPO_COUNT_CEIL := 30.0
  const BASE_HALF_LIFE := 90.0
  const MIN_HALF_LIFE_MULTIPLE := 0.25
  const MIN_PROPORTION_CEIL := 0.05
  const MIN_CONFIDENCE_COMMITS := 30
  const CONF_COMMITS_PER_CONTRIB := 10
  const PR_COUNT_CEIL := 20.0
  const BURST_CEIL := 5.0
  const FORK_ORIGINAL_CEIL := 5.0
  const REVIEW_COUNT_CEIL := 10.0
  const DIVERSITY_CEIL := 8.0

  datatype Signals = Signals(
    ageDays: int,
    association: string,
    hasBio: bool, hasCompany: bool, hasLocation: bool, hasWebsite: bool, hasPublicEmail: bool,
    commits: int, totalCommits: int, totalContributors: int, lastCommitDays: int,
    prsMerged: int, prsClosed: int,
    followers: int, following: int, publicRepos: int,
    recentPRRepoCount: int, forkedRepos: int,
    unverifiedCommits: int,
    suspended: bool, orgMember: bool, trustedOrgMember: bool)

  datatype Behavior = Behavior(consistency: real, reviewsGiven30d: int, distinctRepos90d: int)

  /** What the collectors guarantee: parts do not exceed their wholes and counts are not negative. */
  predicate WellFormed(s: Signals, beh: Option<Behavior>) {
    && (s.commits > 0 ==> 0 <= s.unverifiedCommits <= s.commits)
    && 0 <= s.prsMerged && 0 <= s.prsClosed
    && (beh.Some? ==> 0.0 <= beh.value.consistency <= 1.0)
  }

  predicate Unit(x: real) {
    0.0 <= x <= 1.0
  }

  function Max(a: real, b: real): real {
    if a >= b then a else b
  }

  function Min(a: real, b: real): real {
    if a <= b then a else b
  }

  function MaxInt(a: int, b: int): int {
    if a >= b then a else b
  }

  // ---------------------------------------------------------------- curves

  function ClampedRatio(val: real, ceil: real): (r: real)
    ensures Unit(r)
  {
    if ceil <= 0.0 || val <= 0.0 then 0.0
    else if val >= ceil then 1.0
    else
      RatioInUnit(val, ceil);
      val / ceil
  }

  ghost function LogCurve(c: Curves, val: real, ceil: real): (r: real)
    requires Regular(c)
    ensures Unit(r)
    ensures 0.0 < ceil <= val ==> r == 1.0
  {
    if ceil <= 0.0 || val <= 0.0 then 0.0
    else
      assert c.ln(1.0 + val) > 0.0 && c.ln(1.0 + ceil) > 0.0;
      QuotientSign(c.ln(1.0 + val), c.ln(1.0 + ceil));
      var r := c.ln(1.0 + val) / c.ln(1.0 + ceil);
      assert ceil <= val ==> c.ln(1.0 + ceil) <= c.ln(1.0 + val);
      if r >= 1.0 then 1.0 else r
  }

  ghost function ExpDecay(c: Curves, val: real, halfLife: real): (r: real)
    requires Regular(c)
    ensures Unit(r)
  {
    if halfLife <= 0.0 then 0.0
    else if val <= 0.0 then 1.0
    else
      assert c.ln(2.0) > 0.0;
      ProductPositive(val, c.ln(2.0));
      QuotientSign(val * c.ln(2.0), halfLife);
      assert (-val * c.ln(2.0)) / halfLife == -((val * c.ln(2.0)) / halfLife);
      c.exp((-val * c.ln(2.0)) / halfLife)
  }

  // ---------------------------------------------------------------- arithmetic

  lemma RatioInUnit(a: real, b: real)
    requires 0.0 <= a <= b && 0.0 < b
    ensures Unit(a / b)
  {
  }

  lemma QuotientSign(a: real, b: real)
    requires 0.0 < a && 0.0 < b
    ensures a / b > 0.0
    ensures a >= b <==> a / b >= 1.0
  {
  }

  lemma ProductPositive(a: real, b: real)
    requires 0.0 < a && 0.0 < b
    ensures a * b > 0.0
  {
  }

  lemma UnitProduct(a: real, b: real)
    requires Unit(a) && Unit(b)
    ensures Unit(a * b)
  {
    ProductMonotone(a, 1.0, b, 1.0);
    ProductMonotone(0.0, a, 0.0, b);
  }

  lemma ProductMonotone(a: real, a': real, b: real, b': real)
    requires 0.0 <= a <= a' && 0.0 <= b <= b'
    ensures a * b <= a' * b'
  {
    assert a * b <= a' * b <= a' * b';
  }

  lemma QuotientMonotone(a: real, a': real, b: real)
    requires a <= a' && 0.0 < b
    ensures a / b <= a' / b
  {
  }

  // ---------------------------------------------------------------- parts of the score

  function FlagCount(s: Signals): int {
    (if s.hasBio then 1 else 0) + (if s.hasCompany then 1 else 0) + (if s.hasLocation then 1 else 0)
    + (if s.hasWebsite then 1 else 0) + if s.hasPublicEmail then 1 else 0
  }

  function ProfileScore(s: Signals): (r: real)
    ensures Unit(r)
  {
    FlagCount(s) as real / 5.0
  }

  function AssociationScore(s: Signals): (r: real)
    ensures Unit(r)
  {
    var base :=
      if s.association == "OWNER" || s.association == "MEMBER" then 1.0
      else if s.association == "COLLABORATOR" then 0.8
      else if s.association == "CONTRIBUTOR" then 0.5
      else if s.association == "FIRST_TIME_CONTRIBUTOR" then 0.2
      else if s.association == "NONE" then 0.0
      else if s.orgMember then 1.0 else 0.0;
    if s.trustedOrgMember && base < 0.8 then 0.8 else base
  }

  function Damped(share: real, confidence: real): real {
    share * confidence
  }

  lemma DampedIsUnit(share: real, confidence: real)
    requires Unit(share) && Unit(confidence)
    ensures Unit(Damped(share, confidence))
  {
    UnitProduct(share, confidence);
  }

  lemma DampedMonotone(a: real, a': real, b: real, b': real)
    requires 0.0 <= a <= a' && 0.0 <= b <= b'
    ensures Damped(a, b) <= Damped(a', b')
  {
    ProductMonotone(a, a', b, b');
  }

  /** `part / (part + rest)`. */
  function Share(part: int, rest: int): real
    requires 0 < part + rest
  {
    part as real / (part + rest) as real
  }

  lemma ShareIsUnit(part: int, rest: int)
    requires 0 <= part && 0 <= rest && 0 < part + rest
    ensures Unit(Share(part, rest))
  {
    RatioInUnit(part as real, (part + rest) as real);
  }

  /** The share of verified commits, damped by account age; without commits it counts nothing. */
  ghost function Verified(c: Curves, s: Signals): real
    requires Regular(c)
  {
    if s.commits > 0 && s.totalCommits > 0 then
      Damped(Share(s.commits - s.unverifiedCommits, s.unverifiedCommits), LogCurve(c, s.ageDays as real, AGE_CEIL))
    else 0.0
  }

  ghost function Accepted(c: Curves, s: Signals): real
    requires Regular(c)
  {
    var total := s.prsMerged + s.prsClosed;
    if total > 0 then Damped(Share(s.prsMerged, s.prsClosed), LogCurve(c, total as real, PR_COUNT_CEIL)) else 0.0
  }

  ghost function Followed(c: Curves, s: Signals): (r: real)
    requires Regular(c)
    ensures Unit(r)
  {
    if s.following > 0 then LogCurve(c, s.followers as real / s.following as real, FOLLOWER_RATIO_CEIL)
    else if s.followers > 0 then 1.0 else 0.0
  }

  function Proportion(s: Signals): (r: real)
    ensures Unit(r)
  {
    if s.commits > 0 && s.totalCommits > 0 then
      var proportion := s.commits as real / s.totalCommits as real;
      var ceil := Max(1.0 / MaxInt(s.totalContributors, 1) as real, MIN_PROPORTION_CEIL);
      var threshold := MaxInt(s.totalContributors * CONF_COMMITS_PER_CONTRIB, MIN_CONFIDENCE_COMMITS) as real;
      var confidence := Min(s.totalCommits as real / threshold, 1.0);
      QuotientSign(s.totalCommits as real, threshold);
      UnitProduct(ClampedRatio(proportion, ceil), confidence);
      ClampedRatio(proportion, ceil) * confidence
    else 0.0
  }

  ghost function Recency(c: Curves, s: Signals): (r: real)
    requires Regular(c)
    ensures Unit(r)
  {
    var logOfTeam := c.ln(1.0 + MaxInt(s.totalContributors, 1) as real);
    assert logOfTeam > 0.0;
    var multiple := Min(Max(1.0 / logOfTeam, MIN_HALF_LIFE_MULTIPLE), 1.0);
    ExpDecay(c, s.lastCommitDays as real, BASE_HALF_LIFE * multiple)
  }

  function Steadiness(s: Signals): (r: real)
    ensures Unit(r)
  {
    if s.recentPRRepoCount > 0 && s.ageDays > 0 then
      1.0 - ClampedRatio(s.recentPRRepoCount as real / Max(s.ageDays as real / 30.0, 1.0), BURST_CEIL)
    else 1.0
  }

  function Originality(s: Signals): (r: real)
    ensures Unit(r)
  {
    if s.publicRepos > 0 then ClampedRatio((s.publicRepos - s.forkedRepos) as real, FORK_ORIGINAL_CEIL) else 0.0
  }

  function BehavioralScore(s: Signals, beh: Option<Behavior>): real {
    var score0 := if beh.Some? then beh.value.consistency * CONSISTENCY_WEIGHT else 0.0;
    var score1 :=
      if beh.None? then score0
      else score0 + ClampedRatio(beh.value.reviewsGiven30d as real, REVIEW_COUNT_CEIL) * REVIEW_WEIGHT;
    var score2 :=
      if beh.None? then score1
      else score1 + ClampedRatio(beh.value.distinctRepos90d as real, DIVERSITY_CEIL) * DIVERSITY_WEIGHT;
    score2 + Steadiness(s) * BURST_WEIGHT + Originality(s) * FORK_WEIGHT
  }

  ghost function RepoEngagementScore(c: Curves, s: Signals): real
    requires Regular(c)
  {
    Proportion(s) * PROPORTION_WEIGHT + Recency(c, s) * RECENCY_WEIGHT
  }

  function Scale(hasRepo: bool): real {
    if hasRepo then 1.0 else 1.0 / 0.60
  }

  // ---------------------------------------------------------------- the score

  /** The weighted sum before clamping and rounding, accumulated in the order of the original. */
  ghost function Raw(c: Curves, s: Signals, hasRepo: bool, beh: Option<Behavior>): real
    requires Regular(c)
  {
    var rep0 := if hasRepo then Verified(c, s) * PROVENANCE_WEIGHT else 0.0;
    var rep1 := rep0 + LogCurve(c, s.ageDays as real, AGE_CEIL) * AGE_WEIGHT;
    var rep2 := if hasRepo then rep1 + AssociationScore(s) * ASSOCIATION_WEIGHT else rep1;
    var rep3 := rep2 + ProfileScore(s) * PROFILE_WEIGHT;
    var rep4 := if hasRepo then rep3 + RepoEngagementScore(c, s) else rep3;
    var rep5 := rep4 + Accepted(c, s) * PR_ACCEPT_WEIGHT;
    var rep6 := rep5 + Followed(c, s) * FOLLOWER_WEIGHT;
    var rep7 := rep6 + LogCurve(c, s.publicRepos as real, REPO_COUNT_CEIL) * REPO_COUNT_WEIGHT;
    (rep7 + BehavioralScore(s, beh)) * Scale(hasRepo)
  }

  /** Rounding half away from zero. */
  function Round(y: real): int {
    if y >= 0.0 then (y + 0.5).Floor else -((0.5 - y).Floor)
  }

  /** Rounding to the given number of steps per unit. */
  function ToFixed(x: real, steps: int): real
    requires steps > 0
  {
    Round(x * steps as real) as real / steps as real
  }

  ghost function Compute(c: Curves, s: Signals, hasRepo: bool, beh: Option<Behavior>): real
    requires Regular(c)
  {
    if s.suspended then 0.0
    else
      var rep := Raw(c, s, hasRepo, beh);
      ToFixed(if rep > 1.0 then 1.0 else rep, 100)
  }

  datatype CategoryScores = CategoryScores(
    provenance: Option<real>, identity: real, engagement: real, community: real, behavioral: real)

  /** The rounded scores by category; provenance is left out without repository context. */
  ghost function Categories(c: Curves, s: Signals, hasRepo: bool, beh: Option<Behavior>): CategoryScores
    requires Regular(c)
  {
    if s.suspended then CategoryScores(if hasRepo then Some(0.0) else None, 0.0, 0.0, 0.0, 0.0)
    else
      var scale := Scale(hasRepo);
      var identity0 := LogCurve(c, s.ageDays as real, AGE_CEIL) * AGE_WEIGHT;
      var identity1 := if hasRepo then identity0 + AssociationScore(s) * ASSOCIATION_WEIGHT else identity0;
      var identity := identity1 + ProfileScore(s) * PROFILE_WEIGHT;
      var engagement := (if hasRepo then RepoEngagementScore(c, s) else 0.0) + Accepted(c, s) * PR_ACCEPT_WEIGHT;
      var community := Followed(c, s) * FOLLOWER_WEIGHT
          + LogCurve(c, s.publicRepos as real, REPO_COUNT_CEIL) * REPO_COUNT_WEIGHT;
      CategoryScores(
        if hasRepo then Some(ToFixed(Verified(c, s) * PROVENANCE_WEIGHT, 10000)) else None,
        ToFixed(identity * scale, 10000),
        ToFixed(engagement * scale, 10000),
        ToFixed(community * scale, 10000),
        ToFixed(BehavioralScore(s, beh) * scale, 10000))
  }

  function CategorySum(cats: CategoryScores): real {
    (if cats.provenance.Some? then cats.provenance.value else 0.0)
    + cats.identity + cats.engagement + cats.community + cats.behavioral
  }

  /** The letters, from worst to best. */
  datatype Letter = F | DMinus | D | DPlus | CMinus | C | CPlus | BMinus | B | BPlus | AMinus | A | APlus

  function Grade(score: real): Letter {
    if score >= 0.93 then APlus
    else if score >= 0.87 then A
    else if score >= 0.83 then AMinus
    else if score >= 0.77 then BPlus
    else if score >= 0.73 then B
    else if score >= 0.67 then BMinus
    else if score >= 0.63 then CPlus
    else if score >= 0.57 then C
    else if score >= 0.53 then CMinus
    else if score >= 0.47 then DPlus
    else if score >= 0.43 then D
    else if score >= 0.37 then DMinus
    else F
  }

  /** The place of a letter in the order from worst to best. */
  function Rank(letter: Letter): nat {
    match letter
    case F => 0
    case DMinus => 1
    case D => 2
    case DPlus => 3
    case CMinus => 4
    case C => 5
    case CPlus => 6
    case BMinus => 7
    case B => 8
    case BPlus => 9
    case AMinus => 10
    case A => 11
    case APlus => 12
  }

  // ---------------------------------------------------------------- range

  lemma PartsAreUnit(c: Curves, s: Signals, beh: Option<Behavior>)
    requires Regular(c) && WellFormed(s, beh)
    ensures Unit(Verified(c, s)) && Unit(Accepted(c, s))
    ensures 0.0 <= BehavioralScore(s, beh) <= 0.20
    ensures 0.0 <= RepoEngagementScore(c, s) <= 0.20
  {
    if s.commits > 0 && s.totalCommits > 0 {
      ShareIsUnit(s.commits - s.unverifiedCommits, s.unverifiedCommits);
      DampedIsUnit(Share(s.commits - s.unverifiedCommits, s.unverifiedCommits),
                   LogCurve(c, s.ageDays as real, AGE_CEIL));
    }
    var total := s.prsMerged + s.prsClosed;
    if total > 0 {
      ShareIsUnit(s.prsMerged, s.prsClosed);
      DampedIsUnit(Share(s.prsMerged, s.prsClosed), LogCurve(c, total as real, PR_COUNT_CEIL));
    }
    hide Verified, Accepted, Share, LogCurve, Regular, Damped;
  }

  /** The weighted sum of well-formed signals lies between zero and one, so that clamping never
      changes it. */
  lemma RawIsUnit(c: Curves, s: Signals, hasRepo: bool, beh: Option<Behavior>)
    requires Regular(c) && WellFormed(s, beh)
    ensures Unit(Raw(c, s, hasRepo, beh))
  {
    PartsAreUnit(c, s, beh);
    hide Verified, Accepted, LogCurve, AssociationScore, ProfileScore, Followed, BehavioralScore, RepoEngagementScore;
  }

  lemma RoundingError(x: real, steps: int)
    requires steps > 0
    ensures -0.5 <= (ToFixed(x, steps) - x) * steps as real <= 0.5
  {
    var n, k := Round(x * steps as real), steps as real;
    assert n as real / k * k == n as real;
    assert (n as real / k - x) * k == n as real - x * k;
  }

  lemma HundredthError(x: real)
    ensures -0.005 <= ToFixed(x, 100) - x <= 0.005
  {
    RoundingError(x, 100);
  }

  lemma TenThousandthError(x: real)
    ensures -0.00005 <= ToFixed(x, 10000) - x <= 0.00005
  {
    RoundingError(x, 10000);
  }

  lemma ComputeIsUnit(c: Curves, s: Signals, hasRepo: bool, beh: Option<Behavior>)
    requires Regular(c) && WellFormed(s, beh)
    ensures Unit(Compute(c, s, hasRepo, beh))
    ensures !s.suspended ==> -0.005 <= Compute(c, s, hasRepo, beh) - Raw(c, s, hasRepo, beh) <= 0.005
  {
    RawIsUnit(c, s, hasRepo, beh);
    var rep := Raw(c, s, hasRepo, beh);
    hide Raw, Regular, WellFormed;
    HundredthError(rep);
    assert 0 <= Round(rep * 100.0) <= 100;
  }

  /** The categories before rounding. */
  ghost function Shares(c: Curves, s: Signals, hasRepo: bool, beh: Option<Behavior>): CategoryScores
    requires Regular(c)
  {
    var scale := Scale(hasRepo);
    CategoryScores(
      if hasRepo then Some(Verified(c, s) * PROVENANCE_WEIGHT) else None,
      (LogCurve(c, s.ageDays as real, AGE_CEIL) * AGE_WEIGHT
        + (if hasRepo then AssociationScore(s) * ASSOCIATION_WEIGHT else 0.0)
        + ProfileScore(s) * PROFILE_WEIGHT) * scale,
      ((if hasRepo then RepoEngagementScore(c, s) else 0.0) + Accepted(c, s) * PR_ACCEPT_WEIGHT) * scale,
      (Followed(c, s) * FOLLOWER_WEIGHT
       + LogCurve(c, s.publicRepos as real, REPO_COUNT_CEIL) * REPO_COUNT_WEIGHT) * scale,
      BehavioralScore(s, beh) * scale)
  }

  lemma SharesAddUp(c: Curves, s: Signals, hasRepo: bool, beh: Option<Behavior>)
    requires Regular(c)
    ensures CategorySum(Shares(c, s, hasRepo, beh)) == Raw(c, s, hasRepo, beh)
  {
    hide Verified, LogCurve, AssociationScore, ProfileScore, RepoEngagementScore, Accepted, Followed, BehavioralScore;
  }

  lemma CategoriesAreRounded(c: Curves, s: Signals, hasRepo: bool, beh: Option<Behavior>)
    requires Regular(c) && !s.suspended
    ensures var cats, shares := Categories(c, s, hasRepo, beh), Shares(c, s, hasRepo, beh);
            && cats.provenance == (if hasRepo then Some(ToFixed(shares.provenance.value, 10000)) else None)
            && cats.identity == ToFixed(shares.identity, 10000)
            && cats.engagement == ToFixed(shares.engagement, 10000)
            && cats.community == ToFixed(shares.community, 10000)
            && cats.behavioral == ToFixed(shares.behavioral, 10000)
  {
    hide Verified, LogCurve, AssociationScore, ProfileScore, RepoEngagementScore, Accepted, Followed, BehavioralScore,
        ToFixed;
    var age, profile := LogCurve(c, s.ageDays as real, AGE_CEIL) * AGE_WEIGHT, ProfileScore(s) * PROFILE_WEIGHT;
    assert !hasRepo ==> age + profile == age + 0.0 + profile;
  }

  /** The score and the sum of its published categories agree up to their rounding: half a
      hundredth for the score and half a ten-thousandth for each category. */
  lemma ComputeMatchesCategories(c: Curves, s: Signals, hasRepo: bool, beh: Option<Behavior>)
    requires Regular(c) && WellFormed(s, beh)
    ensures var slack := 0.005 + (if hasRepo then 5.0 else 4.0) * 0.00005;
            -slack <= Compute(c, s, hasRepo, beh) - CategorySum(Categories(c, s, hasRepo, beh)) <= slack
  {
    if !s.suspended {
      ComputeIsUnit(c, s, hasRepo, beh);
      SharesAddUp(c, s, hasRepo, beh);
      CategoriesAreRounded(c, s, hasRepo, beh);
      var shares := Shares(c, s, hasRepo, beh);
      TenThousandthError(if hasRepo then shares.provenance.value else 0.0);
      TenThousandthError(shares.identity);
      TenThousandthError(shares.engagement);
      TenThousandthError(shares.community);
      TenThousandthError(shares.behavioral);
      hide Compute, Raw, Shares, Categories, ToFixed, Regular, WellFormed;
    }
  }

  // ---------------------------------------------------------------- monotonicity

  /** `b` is `a` with some of the signals improved that should only ever help. */
  ghost predicate Improves(a: Signals, b: Signals, behA: Option<Behavior>, behB: Option<Behavior>) {
    && b == a.(ageDays := b.ageDays, prsMerged := b.prsMerged, followers := b.followers, publicRepos := b.publicRepos,
               hasBio := b.hasBio, hasCompany := b.hasCompany, hasLocation := b.hasLocation,
               hasWebsite := b.hasWebsite, hasPublicEmail := b.hasPublicEmail)
    && a.ageDays <= b.ageDays && a.prsMerged <= b.prsMerged && a.followers <= b.followers
       && a.publicRepos <= b.publicRepos
    && (a.hasBio ==> b.hasBio) && (a.hasCompany ==> b.hasCompany) && (a.hasLocation ==> b.hasLocation)
    && (a.hasWebsite ==> b.hasWebsite) && (a.hasPublicEmail ==> b.hasPublicEmail)
    && (behA.None? <==> behB.None?)
    && (behA.Some? ==>
          && behA.value.consistency <= behB.value.consistency
          && behA.value.reviewsGiven30d <= behB.value.reviewsGiven30d
          && behA.value.distinctRepos90d <= behB.value.distinctRepos90d)
  }

  /** From day one on, or when the age plays no part in the burst term at all. */
  predicate AgeCounts(a: Signals, b: Signals) {
    a.ageDays >= 1 || a.recentPRRepoCount <= 0 || b.ageDays <= 0
  }

  lemma LogCurveMonotone(c: Curves, v: real, v': real, ceil: real)
    requires Regular(c) && v <= v'
    ensures LogCurve(c, v, ceil) <= LogCurve(c, v', ceil)
  {
    if 0.0 < ceil && 0.0 < v {
      assert c.ln(1.0 + v) <= c.ln(1.0 + v') && c.ln(1.0 + ceil) > 0.0;
      QuotientMonotone(c.ln(1.0 + v), c.ln(1.0 + v'), c.ln(1.0 + ceil));
    }
  }

  lemma ClampedRatioSign(v: real, ceil: real)
    requires 0.0 < ceil
    ensures ClampedRatio(v, ceil) > 0.0 <==> v > 0.0
  {
    if 0.0 < v < ceil {
      QuotientSign(v, ceil);
    }
  }

  lemma ClampedRatioMonotone(v: real, v': real, ceil: real)
    requires v <= v'
    ensures ClampedRatio(v, ceil) <= ClampedRatio(v', ceil)
  {
    if 0.0 < ceil {
      QuotientMonotone(v, v', ceil);
    }
  }

  lemma ShareMonotone(part: int, part': int, rest: int)
    requires 0 <= part <= part' && 0 <= rest && 0 < part + rest
    ensures Share(part, rest) <= Share(part', rest)
  {
    var x, x', k := part as real, part' as real, rest as real;
    assert x * (x' + k) <= x' * (x + k) by {
      ProductMonotone(x, x', k, k);
    }
    CrossMultiply(x, x + k, x', x' + k);
  }

  lemma CrossMultiply(a: real, b: real, a': real, b': real)
    requires 0.0 < b && 0.0 < b' && a * b' <= a' * b
    ensures a / b <= a' / b'
  {
    var q, q' := a / b, a' / b';
    ProductPositive(b, b');
    assert a * b' == q * (b * b') && a' * b == q' * (b * b');
    SameSign(q - q', b * b');
  }

  lemma SameSign(x: real, y: real)
    requires y > 0.0 && x * y <= 0.0
    ensures x <= 0.0
  {
  }

  lemma AcceptedMonotone(c: Curves, a: Signals, b: Signals)
    requires Regular(c) && 0 <= a.prsMerged <= b.prsMerged && 0 <= a.prsClosed == b.prsClosed
    ensures Accepted(c, a) <= Accepted(c, b)
  {
    hide Damped, Share, LogCurve, Regular;
    var totalA, totalB := a.prsMerged + a.prsClosed, b.prsMerged + b.prsClosed;
    LogCurveMonotone(c, totalA as real, totalB as real, PR_COUNT_CEIL);
    if totalB > 0 {
      ShareIsUnit(b.prsMerged, b.prsClosed);
      if totalA > 0 {
        ShareIsUnit(a.prsMerged, a.prsClosed);
        ShareMonotone(a.prsMerged, b.prsMerged, a.prsClosed);
        DampedMonotone(Share(a.prsMerged, a.prsClosed), Share(b.prsMerged, b.prsClosed),
                       LogCurve(c, totalA as real, PR_COUNT_CEIL), LogCurve(c, totalB as real, PR_COUNT_CEIL));
      } else {
        DampedIsUnit(Share(b.prsMerged, b.prsClosed), LogCurve(c, totalB as real, PR_COUNT_CEIL));
      }
    }
  }

  lemma VerifiedMonotone(c: Curves, a: Signals, b: Signals, beh: Option<Behavior>)
    requires Regular(c) && WellFormed(a, beh) && a.ageDays <= b.ageDays
    requires a.commits == b.commits && a.totalCommits == b.totalCommits && a.unverifiedCommits == b.unverifiedCommits
    ensures Verified(c, a) <= Verified(c, b)
  {
    hide Damped, Share, LogCurve, Regular;
    LogCurveMonotone(c, a.ageDays as real, b.ageDays as real, AGE_CEIL);
    if a.commits > 0 {
      var share := Share(a.commits - a.unverifiedCommits, a.unverifiedCommits);
      ShareIsUnit(a.commits - a.unverifiedCommits, a.unverifiedCommits);
      DampedMonotone(share, share, LogCurve(c, a.ageDays as real, AGE_CEIL), LogCurve(c, b.ageDays as real, AGE_CEIL));
    }
  }

  lemma FollowedMonotone(c: Curves, a: Signals, b: Signals)
    requires Regular(c) && a.followers <= b.followers && a.following == b.following
    ensures Followed(c, a) <= Followed(c, b)
  {
    if a.following > 0 {
      QuotientMonotone(a.followers as real, b.followers as real, a.following as real);
      LogCurveMonotone(c, a.followers as real / a.following as real, b.followers as real / a.following as real,
                       FOLLOWER_RATIO_CEIL);
    }
  }

  /** The burst term does not fall with age exactly when the first day is not in between. */
  lemma SteadinessMonotone(a: Signals, b: Signals)
    requires a.recentPRRepoCount == b.recentPRRepoCount && a.ageDays <= b.ageDays
    ensures Steadiness(a) <= Steadiness(b) <==> AgeCounts(a, b)
  {
    if a.recentPRRepoCount > 0 && b.ageDays > 0 {
      var recent := a.recentPRRepoCount as real;
      var monthsA, monthsB := Max(a.ageDays as real / 30.0, 1.0), Max(b.ageDays as real / 30.0, 1.0);
      if a.ageDays > 0 {
        assert monthsA <= monthsB;
        ProductMonotone(recent, recent, monthsA, monthsB);
        CrossMultiply(recent, monthsB, recent, monthsA);
        ClampedRatioMonotone(recent / monthsB, recent / monthsA, BURST_CEIL);
      } else {
        QuotientSign(recent, monthsB);
        ClampedRatioSign(recent / monthsB, BURST_CEIL);
      }
    }
  }

  lemma OriginalityMonotone(a: Signals, b: Signals)
    requires a.publicRepos <= b.publicRepos && a.forkedRepos == b.forkedRepos
    ensures Originality(a) <= Originality(b)
  {
    ClampedRatioMonotone((a.publicRepos - a.forkedRepos) as real, (b.publicRepos - b.forkedRepos) as real,
                         FORK_ORIGINAL_CEIL);
  }

  lemma BehavioralMonotone(a: Signals, b: Signals, behA: Option<Behavior>, behB: Option<Behavior>)
    requires Improves(a, b, behA, behB) && AgeCounts(a, b)
    ensures BehavioralScore(a, behA) <= BehavioralScore(b, behB)
  {
    SteadinessMonotone(a, b);
    OriginalityMonotone(a, b);
    if behA.Some? {
      ClampedRatioMonotone(behA.value.reviewsGiven30d as real, behB.value.reviewsGiven30d as real, REVIEW_COUNT_CEIL);
      ClampedRatioMonotone(behA.value.distinctRepos90d as real, behB.value.distinctRepos90d as real, DIVERSITY_CEIL);
    }
    hide Steadiness, Originality, ClampedRatio;
  }

  /** The weighted sum as a function of its parts. */
  function Weighted(hasRepo: bool, verified: real, age: real, association: real, profile: real, engagement: real,
                    accepted: real, followed: real, repos: real, behavioral: real): real {
    ((if hasRepo then verified * PROVENANCE_WEIGHT + association * ASSOCIATION_WEIGHT + engagement else 0.0)
      + age * AGE_WEIGHT + profile * PROFILE_WEIGHT + accepted * PR_ACCEPT_WEIGHT
      + followed * FOLLOWER_WEIGHT + repos * REPO_COUNT_WEIGHT + behavioral) * Scale(hasRepo)
  }

  lemma RawIsWeighted(c: Curves, s: Signals, hasRepo: bool, beh: Option<Behavior>)
    requires Regular(c)
    ensures Raw(c, s, hasRepo, beh) ==
            Weighted(hasRepo, Verified(c, s), LogCurve(c, s.ageDays as real, AGE_CEIL),
                     AssociationScore(s), ProfileScore(s), RepoEngagementScore(c, s), Accepted(c, s), Followed(c, s),
                     LogCurve(c, s.publicRepos as real, REPO_COUNT_CEIL), BehavioralScore(s, beh))
  {
    hide Verified, LogCurve, AssociationScore, ProfileScore, RepoEngagementScore, Accepted, Followed, BehavioralScore;
  }

  lemma RawMonotone(c: Curves, a: Signals, b: Signals, hasRepo: bool, behA: Option<Behavior>, behB: Option<Behavior>)
    requires Regular(c) && WellFormed(a, behA) && Improves(a, b, behA, behB) && AgeCounts(a, b)
    ensures Raw(c, a, hasRepo, behA) <= Raw(c, b, hasRepo, behB)
  {
    VerifiedMonotone(c, a, b, behA);
    LogCurveMonotone(c, a.ageDays as real, b.ageDays as real, AGE_CEIL);
    AcceptedMonotone(c, a, b);
    FollowedMonotone(c, a, b);
    LogCurveMonotone(c, a.publicRepos as real, b.publicRepos as real, REPO_COUNT_CEIL);
    BehavioralMonotone(a, b, behA, behB);
    SameOrBetter(c, a, b, behA, behB);
    hide Verified, LogCurve, AssociationScore, ProfileScore, RepoEngagementScore, Accepted, Followed, BehavioralScore,
         Improves, AgeCounts, WellFormed, Regular, Raw;
    RawIsWeighted(c, a, hasRepo, behA);
    RawIsWeighted(c, b, hasRepo, behB);
  }

  lemma SameOrBetter(c: Curves, a: Signals, b: Signals, behA: Option<Behavior>, behB: Option<Behavior>)
    requires Regular(c) && Improves(a, b, behA, behB)
    ensures AssociationScore(a) == AssociationScore(b) && ProfileScore(a) <= ProfileScore(b)
    ensures RepoEngagementScore(c, a) == RepoEngagementScore(c, b)
  {
    hide LogCurve, ExpDecay, ClampedRatio, Regular;
  }

  lemma RoundMonotone(u: real, v: real)
    requires u <= v
    ensures Round(u) <= Round(v)
  {
  }

  lemma ToFixedMonotone(x: real, y: real, steps: int)
    requires x <= y && steps > 0
    ensures ToFixed(x, steps) <= ToFixed(y, steps)
  {
    var u, v := x * steps as real, y * steps as real;
    RoundMonotone(u, v);
    hide Round;
    QuotientMonotone(Round(u) as real, Round(v) as real, steps as real);
  }

  /** From the first day of an account on, the letter never gets worse when its age, its merged pull
      requests, followers, public repositories, reviews, distinct repositories, consistency or
      profile flags grow and everything else stays. */
  lemma GradeNeverWorsens(c: Curves, a: Signals, b: Signals, hasRepo: bool, behA: Option<Behavior>,
                          behB: Option<Behavior>)
    requires Regular(c) && WellFormed(a, behA) && Improves(a, b, behA, behB) && AgeCounts(a, b)
    ensures Compute(c, a, hasRepo, behA) <= Compute(c, b, hasRepo, behB)
    ensures Rank(Grade(Compute(c, a, hasRepo, behA))) <= Rank(Grade(Compute(c, b, hasRepo, behB)))
  {
    RawMonotone(c, a, b, hasRepo, behA, behB);
    GradeFollowsRaw(c, a, b, hasRepo, behA, behB);
  }

  lemma GradeFollowsRaw(c: Curves, a: Signals, b: Signals, hasRepo: bool, behA: Option<Behavior>,
                        behB: Option<Behavior>)
    requires Regular(c) && a.suspended == b.suspended && Raw(c, a, hasRepo, behA) <= Raw(c, b, hasRepo, behB)
    ensures Compute(c, a, hasRepo, behA) <= Compute(c, b, hasRepo, behB)
    ensures Rank(Grade(Compute(c, a, hasRepo, behA))) <= Rank(Grade(Compute(c, b, hasRepo, behB)))
  {
    hide Raw, ToFixed, Regular;
    var rawA, rawB := Raw(c, a, hasRepo, behA), Raw(c, b, hasRepo, behB);
    ToFixedMonotone(Min(rawA, 1.0), Min(rawB, 1.0), 100);
    GradeMonotone(Compute(c, a, hasRepo, behA), Compute(c, b, hasRepo, behB));
  }

  lemma GradeMonotone(x: real, y: real)
    requires x <= y
    ensures Rank(Grade(x)) <= Rank(Grade(y))
  {
  }

  /** What leaving day zero brings: the age curve and, with repository context, the damped share of
      verified commits, both nothing before. */
  ghost function AgeGain(c: Curves, s: Signals, hasRepo: bool): real
    requires Regular(c)
  {
    (if hasRepo then Verified(c, s) * PROVENANCE_WEIGHT else 0.0)
        + LogCurve(c, s.ageDays as real, AGE_CEIL) * AGE_WEIGHT
  }

  /** What it costs: from then on a burst of pull requests is held against the account. */
  function BurstLoss(s: Signals): real {
    (1.0 - Steadiness(s)) * BURST_WEIGHT
  }

  lemma NothingBeforeDayOne(c: Curves, s: Signals)
    requires Regular(c) && s.ageDays <= 0
    ensures LogCurve(c, s.ageDays as real, AGE_CEIL) == 0.0 && Verified(c, s) == 0.0 && Steadiness(s) == 1.0
  {
  }

  lemma AgeAloneChanges(c: Curves, a: Signals, d: int, beh: Option<Behavior>)
    requires Regular(c)
    ensures var b := a.(ageDays := d);
            && AssociationScore(a) == AssociationScore(b) && ProfileScore(a) == ProfileScore(b)
            && RepoEngagementScore(c, a) == RepoEngagementScore(c, b)
            && Accepted(c, a) == Accepted(c, b) && Followed(c, a) == Followed(c, b)
            && BehavioralScore(b, beh) - BehavioralScore(a, beh) == (Steadiness(b) - Steadiness(a)) * BURST_WEIGHT
  {
    hide LogCurve, ExpDecay, ClampedRatio, Regular, Steadiness, Share, Damped;
  }

  /** Growing older, all else equal, lowers the weighted sum exactly when the account leaves day zero
      with recent pull requests and its age brings less than the burst costs; and only then can the
      letter get worse. */
  lemma AgeingHurtsExactlyWhen(c: Curves, a: Signals, d: int, hasRepo: bool, beh: Option<Behavior>)
    requires Regular(c) && WellFormed(a, beh) && a.ageDays <= d
    ensures var b := a.(ageDays := d);
            && (Raw(c, b, hasRepo, beh) < Raw(c, a, hasRepo, beh) <==>
                  a.ageDays <= 0 < d && a.recentPRRepoCount > 0 && AgeGain(c, b, hasRepo) < BurstLoss(b))
            && (Rank(Grade(Compute(c, b, hasRepo, beh))) < Rank(Grade(Compute(c, a, hasRepo, beh))) ==>
                  Raw(c, b, hasRepo, beh) < Raw(c, a, hasRepo, beh))
  {
    var b := a.(ageDays := d);
    if AgeCounts(a, b) {
      RawMonotone(c, a, b, hasRepo, beh, beh);
    } else {
      LeavingDayZero(c, a, d, hasRepo, beh);
    }
    if Raw(c, a, hasRepo, beh) <= Raw(c, b, hasRepo, beh) {
      GradeFollowsRaw(c, a, b, hasRepo, beh, beh);
    }
  }

  lemma LeavingDayZero(c: Curves, a: Signals, d: int, hasRepo: bool, beh: Option<Behavior>)
    requires Regular(c) && a.ageDays <= 0
    ensures var b := a.(ageDays := d);
            Raw(c, b, hasRepo, beh) - Raw(c, a, hasRepo, beh) ==
                (AgeGain(c, b, hasRepo) - BurstLoss(b)) * Scale(hasRepo)
  {
    var b := a.(ageDays := d);
    NothingBeforeDayOne(c, a);
    AgeAloneChanges(c, a, d, beh);
    hide Verified, LogCurve, AssociationScore, ProfileScore, RepoEngagementScore, Accepted, Followed, BehavioralScore,
         Steadiness, Regular, Raw;
    RawIsWeighted(c, a, hasRepo, beh);
    RawIsWeighted(c, b, hasRepo, beh);
  }

  /** Doubling the argument adds `ln(2)`. */
  ghost predicate Doubling(c: Curves) {
    forall x, y :: x > 0.0 && y == 2.0 * x ==> c.ln(y) == c.ln(2.0) + c.ln(x)
  }

  /** The first day is a real exception. This account, with five repositories that it recently sent
      pull requests to, grows one day older: a D+ becomes something worse. The logarithm is only
      assumed to turn a doubling into the addition of `ln(2)`. */
  lemma FirstDayCanWorsen(c: Curves)
    requires Regular(c) && Doubling(c)
    ensures var day0 := NEWCOMER;
            var day1 := day0.(ageDays := 1);
            && WellFormed(day0, None) && Improves(day0, day1, None, None)
            && Grade(Compute(c, day0, false, None)) == DPlus
            && Rank(Grade(Compute(c, day1, false, None))) < Rank(DPlus)
  {
    var day0, day1 := NEWCOMER, NEWCOMER.(ageDays := 1);
    hide Steadiness, Originality, ClampedRatio, Raw, LogCurve, BehavioralScore, Regular, Doubling, ToFixed;
    FirstDayBehavior(day0);
    FirstDayBehavior(day1);
    FirstDayRaw(c, day0);
    FirstDayRaw(c, day1);
    FirstDayLog(c);
    ToFixedMonotone(Raw(c, day1, false, None), 0.4449, 100);
    TwoDigits();
  }

  /** Opened today, with a company and a location, twenty merged pull requests in five repositories,
      thirty repositories of its own and one follower. */
  const NEWCOMER := Signals(0, "NONE", false, true, true, false, false, 0, 0, 0, 0, 20, 0, 1, 0, 30, 5, 0, 0, false,
                            false, false)

  lemma TwoDigits()
    ensures ToFixed(0.28 / 0.60, 100) == 0.47 && ToFixed(0.4449, 100) == 0.44
  {
  }

  lemma FirstDayBehavior(s: Signals)
    requires s == NEWCOMER || s == NEWCOMER.(ageDays := 1)
    ensures BehavioralScore(s, None) == if s.ageDays == 0 then 0.06 else 0.03
  {
    assert Steadiness(s) == if s.ageDays == 0 then 1.0 else 0.0;
    assert Originality(s) == 1.0;
    hide Steadiness, Originality;
  }

  lemma FirstDayRaw(c: Curves, s: Signals)
    requires Regular(c) && (s == NEWCOMER || s == NEWCOMER.(ageDays := 1))
    ensures Raw(c, s, false, None) ==
            (LogCurve(c, s.ageDays as real, AGE_CEIL) * 0.15 + 0.22 + BehavioralScore(s, None)) / 0.60
  {
    assert LogCurve(c, 20.0, PR_COUNT_CEIL) == 1.0 && LogCurve(c, 30.0, REPO_COUNT_CEIL) == 1.0;
    assert Accepted(c, s) == 1.0 && Followed(c, s) == 1.0 && ProfileScore(s) == 0.4;
    RawIsWeighted(c, s, false, None);
    hide Raw, LogCurve, BehavioralScore, Accepted, Followed, ProfileScore, Regular;
  }

  lemma FirstDayLog(c: Curves)
    requires Regular(c) && Doubling(c)
    ensures LogCurve(c, 0.0, AGE_CEIL) == 0.0
    ensures LogCurve(c, 1.0, AGE_CEIL) <= 1.0 / 9.0
  {
    var one := c.ln(2.0);
    assert one > 0.0;
    assert c.ln(4.0) == 2.0 * one;
    assert c.ln(8.0) == 3.0 * one;
    assert c.ln(16.0) == 4.0 * one;
    assert c.ln(32.0) == 5.0 * one;
    assert c.ln(64.0) == 6.0 * one;
    assert c.ln(128.0) == 7.0 * one;
    assert c.ln(256.0) == 8.0 * one;
    assert c.ln(512.0) == 9.0 * one;
    assert c.ln(512.0) < c.ln(731.0);
    CrossMultiply(one, c.ln(731.0), 1.0, 9.0);
  }

  // ---------------------------------------------------------------- what each signal is worth

  /** From nothing to everything, in proportion to the logarithm, up to `full`. */
  ghost function Logarithmic(c: Curves, v: real, full: real): real
    requires Regular(c) && full > 0.0
  {
    if v <= 0.0 then 0.0
    else if v >= full then 1.0
    else
      assert c.ln(1.0 + full) > 0.0;
      c.ln(1.0 + v) / c.ln(1.0 + full)
  }

  /** From nothing to everything, in proportion, up to `full`. */
  function Linear(v: real, full: real): real
    requires full > 0.0
  {
    if v <= 0.0 then 0.0 else if v >= full then 1.0 else v / full
  }

  lemma LogCurveIsLogarithmic(c: Curves, v: real, full: real)
    requires Regular(c) && full > 0.0
    ensures LogCurve(c, v, full) == Logarithmic(c, v, full)
  {
    if 0.0 < v < full {
      assert 0.0 < c.ln(1.0 + v) < c.ln(1.0 + full);
      QuotientSign(c.ln(1.0 + v), c.ln(1.0 + full));
    }
  }

  lemma ClampedRatioIsLinear(v: real, full: real)
    requires full > 0.0
    ensures ClampedRatio(v, full) == Linear(v, full)
  {
  }

  /** Points count for more without repository context. */
  function Points(points: real, hasRepo: bool): real {
    if hasRepo then points else points / 0.60
  }

  /** What the score changes by, from one account to another. */
  lemma RawDifference(c: Curves, a: Signals, b: Signals, hasRepo: bool, behA: Option<Behavior>, behB: Option<Behavior>)
    requires Regular(c)
    ensures Raw(c, b, hasRepo, behB) - Raw(c, a, hasRepo, behA) == Points(
      (if hasRepo then
         (Verified(c, b) - Verified(c, a)) * 0.15 + (AssociationScore(b) - AssociationScore(a)) * 0.05
         + (RepoEngagementScore(c, b) - RepoEngagementScore(c, a))
       else 0.0)
      + (LogCurve(c, b.ageDays as real, 730.0) - LogCurve(c, a.ageDays as real, 730.0)) * 0.15
      + (ProfileScore(b) - ProfileScore(a)) * 0.05 + (Accepted(c, b) - Accepted(c, a)) * 0.05
      + (Followed(c, b) - Followed(c, a)) * 0.05
      + (LogCurve(c, b.publicRepos as real, 30.0) - LogCurve(c, a.publicRepos as real, 30.0)) * 0.10
      + (BehavioralScore(b, behB) - BehavioralScore(a, behA)), hasRepo)
  {
    hide Verified, LogCurve, AssociationScore, ProfileScore, RepoEngagementScore, Accepted, Followed, BehavioralScore,
         Regular, Raw;
    RawIsWeighted(c, a, hasRepo, behA);
    RawIsWeighted(c, b, hasRepo, behB);
  }

  /** The points of an association, without trust by the organisation: for an unknown one membership
      of the organisation decides. */
  function AssociationPoints(association: string, orgMember: bool): real {
    match association
    case "OWNER" => 0.05
    case "MEMBER" => 0.05
    case "COLLABORATOR" => 0.04
    case "CONTRIBUTOR" => 0.025
    case "FIRST_TIME_CONTRIBUTOR" => 0.01
    case "NONE" => 0.0
    case _ => if orgMember then 0.05 else 0.0
  }

  /** Each part depends on its own signals alone. */
  lemma PartsDependOn(c: Curves, a: Signals, b: Signals, beh: Option<Behavior>)
    requires Regular(c)
    ensures (a.commits, a.totalCommits, a.unverifiedCommits, a.ageDays) ==
            (b.commits, b.totalCommits, b.unverifiedCommits, b.ageDays) ==>
              Verified(c, a) == Verified(c, b)
    ensures (a.association, a.orgMember, a.trustedOrgMember) == (b.association, b.orgMember, b.trustedOrgMember) ==>
              AssociationScore(a) == AssociationScore(b)
    ensures (a.commits, a.totalCommits, a.totalContributors, a.lastCommitDays) ==
            (b.commits, b.totalCommits, b.totalContributors, b.lastCommitDays) ==>
              RepoEngagementScore(c, a) == RepoEngagementScore(c, b)
    ensures (a.hasBio, a.hasCompany, a.hasLocation, a.hasWebsite, a.hasPublicEmail) ==
            (b.hasBio, b.hasCompany, b.hasLocation, b.hasWebsite, b.hasPublicEmail) ==>
              ProfileScore(a) == ProfileScore(b)
    ensures (a.prsMerged, a.prsClosed) == (b.prsMerged, b.prsClosed) ==> Accepted(c, a) == Accepted(c, b)
    ensures (a.followers, a.following) == (b.followers, b.following) ==> Followed(c, a) == Followed(c, b)
    ensures (a.publicRepos, a.forkedRepos, a.ageDays, a.recentPRRepoCount) ==
            (b.publicRepos, b.forkedRepos, b.ageDays, b.recentPRRepoCount) ==>
              BehavioralScore(a, beh) == BehavioralScore(b, beh)
  {
    hide LogCurve, ExpDecay, ClampedRatio, Regular, Share, Damped;
  }

  /** An association is worth so much more than none; trust makes it worth 0.04 at least. Without
      repository context it is worth nothing. */
  lemma AssociationIsWorth(c: Curves, none: Signals, hasRepo: bool, beh: Option<Behavior>,
                           association: string, trusted: bool)
    requires Regular(c) && none.association == "NONE" && !none.trustedOrgMember
    ensures var points := AssociationPoints(association, none.orgMember);
            var some := none.(association := association, trustedOrgMember := trusted);
            Raw(c, some, hasRepo, beh) - Raw(c, none, hasRepo, beh) ==
            if !hasRepo then 0.0 else if trusted && points < 0.04 then 0.04 else points
  {
    var some := none.(association := association, trustedOrgMember := trusted);
    PartsDependOn(c, none, some, beh);
    AssociationInPoints(none);
    AssociationInPoints(some);
    hide Verified, LogCurve, AssociationScore, ProfileScore, RepoEngagementScore, Accepted, Followed, BehavioralScore,
         Regular, Raw, AssociationPoints;
    RawDifference(c, none, some, hasRepo, beh, beh);
    assert AssociationPoints("NONE", none.orgMember) == 0.0;
  }

  lemma AssociationInPoints(s: Signals)
    ensures var points := AssociationPoints(s.association, s.orgMember);
            AssociationScore(s) * 0.05 == if s.trustedOrgMember && points < 0.04 then 0.04 else points
  {
  }

  /** Company, website and the like are worth 0.01 each. */
  lemma ProfileIsWorth(c: Curves, s: Signals, hasRepo: bool, beh: Option<Behavior>, some: Signals)
    requires Regular(c)
    requires !s.hasBio && !s.hasCompany && !s.hasLocation && !s.hasWebsite && !s.hasPublicEmail
    requires some == s.(hasBio := some.hasBio, hasCompany := some.hasCompany, hasLocation := some.hasLocation,
                        hasWebsite := some.hasWebsite, hasPublicEmail := some.hasPublicEmail)
    ensures Raw(c, some, hasRepo, beh) - Raw(c, s, hasRepo, beh) == Points(
      (if some.hasBio then 0.01 else 0.0) + (if some.hasCompany then 0.01 else 0.0)
      + (if some.hasLocation then 0.01 else 0.0) + (if some.hasWebsite then 0.01 else 0.0)
      + (if some.hasPublicEmail then 0.01 else 0.0), hasRepo)
  {
    PartsDependOn(c, s, some, beh);
    assert ProfileScore(s) == 0.0;
    FlagsInPoints(some);
    hide Verified, LogCurve, AssociationScore, ProfileScore, RepoEngagementScore, Accepted, Followed, BehavioralScore,
         Regular, Raw;
    RawDifference(c, s, some, hasRepo, beh, beh);
  }

  lemma FlagsInPoints(s: Signals)
    ensures ProfileScore(s) * 0.05 ==
            (if s.hasBio then 0.01 else 0.0) + (if s.hasCompany then 0.01 else 0.0)
            + (if s.hasLocation then 0.01 else 0.0) + (if s.hasWebsite then 0.01 else 0.0)
            + (if s.hasPublicEmail then 0.01 else 0.0)
  {
  }

  /** The part of `of` that is `part`. */
  function Fraction(part: int, of: int): real
    requires of > 0
  {
    part as real / of as real
  }

  /** The share of verified commits, by maturity of the account. */
  ghost function MatureShare(c: Curves, s: Signals): real
    requires Regular(c)
  {
    if s.commits <= 0 || s.totalCommits <= 0 then 0.0
    else Fraction(s.commits - s.unverifiedCommits, s.commits) * Logarithmic(c, s.ageDays as real, 730.0)
  }

  lemma VerifiedInPoints(c: Curves, s: Signals)
    requires Regular(c)
    ensures Verified(c, s) == MatureShare(c, s)
    ensures s.commits == s.unverifiedCommits || s.ageDays <= 0 ==> MatureShare(c, s) == 0.0
  {
    LogCurveIsLogarithmic(c, s.ageDays as real, 730.0);
    assert s.ageDays <= 0 ==> Logarithmic(c, s.ageDays as real, 730.0) == 0.0;
    assert s.commits > 0 && s.commits == s.unverifiedCommits ==> Fraction(0, s.commits) == 0.0;
    hide LogCurve, Logarithmic, Regular;
  }

  /** Verified commits are worth up to 0.15, by their share and with an age of two years. */
  lemma VerificationIsWorth(c: Curves, s: Signals, hasRepo: bool, beh: Option<Behavior>, unverified: int)
    requires Regular(c) && s.unverifiedCommits == s.commits
    ensures var some := s.(unverifiedCommits := unverified);
            Raw(c, some, hasRepo, beh) - Raw(c, s, hasRepo, beh) == if hasRepo then 0.15 * MatureShare(c, some) else 0.0
  {
    var some := s.(unverifiedCommits := unverified);
    PartsDependOn(c, s, some, beh);
    VerifiedInPoints(c, s);
    VerifiedInPoints(c, some);
    hide Verified, LogCurve, AssociationScore, ProfileScore, RepoEngagementScore, Accepted, Followed, BehavioralScore,
         Regular, Raw, MatureShare;
    RawDifference(c, s, some, hasRepo, beh, beh);
  }

  /** Age is worth up to 0.15 at two years, matures the verified commits, and brings the burst of recent
      pull requests into play. */
  lemma AgeIsWorth(c: Curves, s: Signals, hasRepo: bool, beh: Option<Behavior>, days: int)
    requires Regular(c) && s.ageDays == 0 && days > 0
    ensures var grown := s.(ageDays := days);
            Raw(c, grown, hasRepo, beh) - Raw(c, s, hasRepo, beh) == Points(
              (if hasRepo then 0.15 * MatureShare(c, grown) else 0.0)
              + 0.15 * Logarithmic(c, days as real, 730.0) - 0.03 * BurstRate(grown), hasRepo)
  {
    var grown := s.(ageDays := days);
    PartsDependOn(c, s, grown, beh);
    VerifiedInPoints(c, s);
    VerifiedInPoints(c, grown);
    BehaviorInPoints(s, beh);
    BehaviorInPoints(grown, beh);
    LogCurveIsLogarithmic(c, 0.0, 730.0);
    LogCurveIsLogarithmic(c, days as real, 730.0);
    assert Logarithmic(c, 0.0, 730.0) == 0.0 && BurstRate(s) == 0.0 && OriginalRepos(s) == OriginalRepos(grown);
    hide Verified, LogCurve, AssociationScore, ProfileScore, RepoEngagementScore, Accepted, Followed, BehavioralScore,
         Regular, Raw, Logarithmic, BehaviorPoints, BurstRate, OriginalRepos, MatureShare;
    RawDifference(c, s, grown, hasRepo, beh, beh);
  }

  /** Repositories with recent pull requests, by month of age, from none to five. */
  function BurstRate(s: Signals): real {
    if s.recentPRRepoCount <= 0 || s.ageDays <= 0 then 0.0
    else if s.ageDays <= 30 then Linear(s.recentPRRepoCount as real, 5.0)
    else Linear(s.recentPRRepoCount as real / (s.ageDays as real / 30.0), 5.0)
  }

  function OriginalRepos(s: Signals): real {
    if s.publicRepos <= 0 then 0.0 else Linear((s.publicRepos - s.forkedRepos) as real, 5.0)
  }

  function BehaviorPoints(beh: Option<Behavior>): real {
    if beh.None? then 0.0
    else
      0.06 * beh.value.consistency + 0.04 * Linear(beh.value.reviewsGiven30d as real, 10.0)
      + 0.04 * Linear(beh.value.distinctRepos90d as real, 8.0)
  }

  lemma BehaviorInPoints(s: Signals, beh: Option<Behavior>)
    ensures BehavioralScore(s, beh) == BehaviorPoints(beh) + 0.03 - 0.03 * BurstRate(s) + 0.03 * OriginalRepos(s)
  {
    SteadinessInPoints(s);
    ClampedRatioIsLinear((s.publicRepos - s.forkedRepos) as real, 5.0);
    if beh.Some? {
      ClampedRatioIsLinear(beh.value.reviewsGiven30d as real, 10.0);
      ClampedRatioIsLinear(beh.value.distinctRepos90d as real, 8.0);
    }
    hide ClampedRatio, Linear, Steadiness, BurstRate;
  }

  lemma SteadinessInPoints(s: Signals)
    ensures Steadiness(s) == 1.0 - BurstRate(s)
  {
    if s.recentPRRepoCount > 0 && s.ageDays > 0 {
      var recent, months := s.recentPRRepoCount as real, s.ageDays as real / 30.0;
      assert Max(months, 1.0) == if s.ageDays <= 30 then 1.0 else months;
      ClampedRatioIsLinear(recent / Max(months, 1.0), 5.0);
      assert recent / 1.0 == recent;
      hide ClampedRatio, Linear;
    }
  }

  /** Behaviour is worth up to 0.06 for consistency, 0.04 for ten reviews and 0.04 for eight repositories. */
  lemma BehaviorIsWorth(c: Curves, s: Signals, hasRepo: bool, beh: Behavior)
    requires Regular(c)
    ensures Raw(c, s, hasRepo, Some(beh)) - Raw(c, s, hasRepo, None) == Points(
      0.06 * beh.consistency + 0.04 * Linear(beh.reviewsGiven30d as real, 10.0)
      + 0.04 * Linear(beh.distinctRepos90d as real, 8.0), hasRepo)
  {
    BehaviorInPoints(s, None);
    BehaviorInPoints(s, Some(beh));
    hide Verified, LogCurve, AssociationScore, ProfileScore, RepoEngagementScore, Accepted, Followed, BehavioralScore,
         Regular, Raw, Linear;
    RawDifference(c, s, s, hasRepo, None, Some(beh));
  }

  /** A burst costs up to 0.03. */
  lemma BurstCosts(c: Curves, s: Signals, hasRepo: bool, beh: Option<Behavior>, recent: int)
    requires Regular(c) && s.recentPRRepoCount == 0
    ensures var busy := s.(recentPRRepoCount := recent);
            Raw(c, busy, hasRepo, beh) - Raw(c, s, hasRepo, beh) == Points(-0.03 * BurstRate(busy), hasRepo)
  {
    var busy := s.(recentPRRepoCount := recent);
    PartsDependOn(c, s, busy, beh);
    BehaviorInPoints(s, beh);
    BehaviorInPoints(busy, beh);
    assert BurstRate(s) == 0.0;
    hide Verified, LogCurve, AssociationScore, ProfileScore, RepoEngagementScore, Accepted, Followed, BehavioralScore,
         Regular, Raw, Linear, BurstRate;
    RawDifference(c, s, busy, hasRepo, beh, beh);
  }

  /** Public repositories are worth up to 0.10 at thirty, and up to 0.03 for five that are no forks. */
  lemma ReposAreWorth(c: Curves, s: Signals, hasRepo: bool, beh: Option<Behavior>, repos: int, forked: int)
    requires Regular(c) && s.publicRepos == 0 && repos > 0
    ensures var some := s.(publicRepos := repos, forkedRepos := forked);
            Raw(c, some, hasRepo, beh) - Raw(c, s, hasRepo, beh) == Points(
              0.10 * Logarithmic(c, repos as real, 30.0) + 0.03 * Linear((repos - forked) as real, 5.0), hasRepo)
  {
    var some := s.(publicRepos := repos, forkedRepos := forked);
    PartsDependOn(c, s, some, beh);
    BehaviorInPoints(s, beh);
    BehaviorInPoints(some, beh);
    LogCurveIsLogarithmic(c, 0.0, 30.0);
    LogCurveIsLogarithmic(c, repos as real, 30.0);
    assert Logarithmic(c, 0.0, 30.0) == 0.0;
    assert BurstRate(s) == BurstRate(some);
    hide Verified, LogCurve, AssociationScore, ProfileScore, RepoEngagementScore, Accepted, Followed, BehavioralScore,
         Regular, Raw, Linear, Logarithmic, BurstRate, BehaviorPoints;
    RawDifference(c, s, some, hasRepo, beh, beh);
  }

  /** The share of merged pull requests, by how many there are. */
  ghost function MergeShare(c: Curves, merged: int, closed: int): real
    requires Regular(c)
  {
    if merged + closed <= 0 then 0.0
    else Fraction(merged, merged + closed) * Logarithmic(c, (merged + closed) as real, 20.0)
  }

  lemma AcceptedInPoints(c: Curves, s: Signals)
    requires Regular(c)
    ensures Accepted(c, s) == MergeShare(c, s.prsMerged, s.prsClosed)
  {
    LogCurveIsLogarithmic(c, (s.prsMerged + s.prsClosed) as real, 20.0);
    hide LogCurve, Logarithmic, Regular;
  }

  /** Merged pull requests are worth up to 0.05, by their share and with twenty in all. */
  lemma MergesAreWorth(c: Curves, s: Signals, hasRepo: bool, beh: Option<Behavior>, merged: int, closed: int)
    requires Regular(c) && s.prsMerged == s.prsClosed == 0
    ensures Raw(c, s.(prsMerged := merged, prsClosed := closed), hasRepo, beh) - Raw(c, s, hasRepo, beh) ==
            Points(0.05 * MergeShare(c, merged, closed), hasRepo)
  {
    var some := s.(prsMerged := merged, prsClosed := closed);
    PartsDependOn(c, s, some, beh);
    AcceptedInPoints(c, s);
    AcceptedInPoints(c, some);
    assert MergeShare(c, 0, 0) == 0.0;
    hide Verified, LogCurve, AssociationScore, ProfileScore, RepoEngagementScore, Accepted, Followed, BehavioralScore,
         Regular, Raw, MergeShare;
    RawDifference(c, s, some, hasRepo, beh, beh);
  }

  /** Followers are worth up to 0.05, at ten for each one followed or when nobody is followed. */
  lemma FollowersAreWorth(c: Curves, s: Signals, hasRepo: bool, beh: Option<Behavior>, followers: int)
    requires Regular(c) && s.followers == 0 && followers > 0
    ensures var some := s.(followers := followers);
            Raw(c, some, hasRepo, beh) - Raw(c, s, hasRepo, beh) == Points(
              if s.following <= 0 then 0.05 else 0.05 * Logarithmic(c, Fraction(followers, s.following), 10.0), hasRepo)
  {
    var some := s.(followers := followers);
    PartsDependOn(c, s, some, beh);
    LogCurveIsLogarithmic(c, 0.0, 10.0);
    assert Logarithmic(c, 0.0, 10.0) == 0.0;
    assert Followed(c, s) == 0.0;
    if s.following > 0 {
      LogCurveIsLogarithmic(c, Fraction(followers, s.following), 10.0);
    }
    assert Followed(c, some) ==
           if s.following <= 0 then 1.0 else LogCurve(c, Fraction(followers, s.following), 10.0);
    hide Verified, LogCurve, AssociationScore, ProfileScore, RepoEngagementScore, Accepted, Followed, BehavioralScore,
         Regular, Raw, Logarithmic;
    RawDifference(c, s, some, hasRepo, beh, beh);
  }

  /** The share of the commits that counts in full, by the size of the team: all of them for one, a
      twentieth for twenty or more. */
  function FullShare(team: int): real {
    if team <= 1 then 1.0 else if team >= 20 then 0.05 else 1.0 / team as real
  }

  /** How many commits it takes for that: ten a head and thirty at least. */
  function FullHistory(team: int): int {
    if team <= 3 then 30 else 10 * team
  }

  function Contribution(s: Signals): real {
    if s.commits <= 0 || s.totalCommits <= 0 then 0.0
    else
      Linear(Fraction(s.commits, s.totalCommits), FullShare(s.totalContributors))
      * (if s.totalCommits >= FullHistory(s.totalContributors) then 1.0
         else Fraction(s.totalCommits, FullHistory(s.totalContributors)))
  }

  /** Days after which recency is worth half: ninety for a small team, fewer with its logarithm, and a
      quarter of that at least. */
  ghost function HalfLife(c: Curves, team: int): real
    requires Regular(c)
  {
    var log := c.ln(1.0 + (if team <= 1 then 1.0 else team as real));
    if log <= 1.0 then 90.0 else if log >= 4.0 then 22.5 else 90.0 / log
  }

  ghost function Freshness(c: Curves, days: int, team: int): real
    requires Regular(c)
  {
    if days <= 0 then 1.0
    else
      assert HalfLife(c, team) > 0.0;
      c.exp(-(days as real * c.ln(2.0)) / HalfLife(c, team))
  }

  lemma ProportionInPoints(s: Signals)
    ensures Proportion(s) == Contribution(s)
  {
    if s.commits > 0 && s.totalCommits > 0 {
      var team := s.totalContributors;
      FullShareIsCeiling(team);
      ClampedRatioIsLinear(Fraction(s.commits, s.totalCommits), FullShare(team));
      HistoryIsConfidence(s.totalCommits, team);
      hide ClampedRatio, Linear, FullShare, FullHistory, Max, MaxInt, Min;
    }
  }

  lemma HistoryIsConfidence(commits: int, team: int)
    requires commits > 0
    ensures MaxInt(team * 10, 30) == FullHistory(team)
    ensures Min(commits as real / FullHistory(team) as real, 1.0) ==
            if commits >= FullHistory(team) then 1.0 else Fraction(commits, FullHistory(team))
  {
    QuotientSign(commits as real, FullHistory(team) as real);
  }

  lemma FullShareIsCeiling(team: int)
    ensures Max(1.0 / MaxInt(team, 1) as real, 0.05) == FullShare(team)
  {
    if team >= 20 {
      QuotientMonotone(20.0, team as real, 20.0 * team as real);
    } else if team > 1 {
      assert 20.0 * (1.0 / team as real) * team as real == 20.0;
    }
  }

  lemma RecencyInPoints(c: Curves, s: Signals)
    requires Regular(c)
    ensures Recency(c, s) == Freshness(c, s.lastCommitDays, s.totalContributors)
  {
    var log := c.ln(1.0 + MaxInt(s.totalContributors, 1) as real);
    assert log > 0.0;
    QuotientSign(log, 1.0);
    assert 90.0 * Min(Max(1.0 / log, 0.25), 1.0) == HalfLife(c, s.totalContributors) by {
      assert (1.0 / log) * log == 1.0;
      if log <= 1.0 {
        QuotientSign(1.0, log);
      } else if log >= 4.0 {
        assert 1.0 / log <= 0.25;
      }
    }
    hide Regular;
  }

  /** In a repository commits are worth up to 0.15, by their share and with enough of them, and a recent
      last one up to 0.05. */
  lemma EngagementInPoints(c: Curves, s: Signals)
    requires Regular(c)
    ensures RepoEngagementScore(c, s) ==
            0.15 * Contribution(s) + 0.05 * Freshness(c, s.lastCommitDays, s.totalContributors)
  {
    ProportionInPoints(s);
    RecencyInPoints(c, s);
    hide Proportion, Recency, Contribution, Freshness, Regular;
  }

  /** So what an account does in a repository is worth this much, provenance included. */
  lemma EngagementIsWorth(c: Curves, s: Signals, hasRepo: bool, beh: Option<Behavior>, some: Signals)
    requires Regular(c)
    requires some == s.(commits := some.commits, totalCommits := some.totalCommits,
                        totalContributors := some.totalContributors, lastCommitDays := some.lastCommitDays)
    ensures Raw(c, some, hasRepo, beh) - Raw(c, s, hasRepo, beh) ==
            if !hasRepo then 0.0
            else 0.15 * (MatureShare(c, some) - MatureShare(c, s)) + 0.15 * (Contribution(some) - Contribution(s))
                 + 0.05 * (Freshness(c, some.lastCommitDays, some.totalContributors)
                           - Freshness(c, s.lastCommitDays, s.totalContributors))
  {
    PartsDependOn(c, s, some, beh);
    VerifiedInPoints(c, s);
    VerifiedInPoints(c, some);
    EngagementInPoints(c, s);
    EngagementInPoints(c, some);
    hide Verified, LogCurve, AssociationScore, ProfileScore, RepoEngagementScore, Accepted, Followed, BehavioralScore,
         Regular, Raw, MatureShare, Contribution, Freshness;
    RawDifference(c, s, some, hasRepo, beh, beh);
  }

  /** An account of which nothing is known: the calm of no burst counts, and in a repository a last
      commit that is not known to be old. */
  const UNKNOWN := Signals(0, "NONE", false, false, false, false, false, 0, 0, 0, 0, 0, 0, 0, 0, 0, 0, 0, 0,
                           false, false, false)

  lemma UnknownIsWorth(c: Curves, hasRepo: bool)
    requires Regular(c)
    ensures Raw(c, UNKNOWN, hasRepo, None) == if hasRepo then 0.08 else 0.05
  {
    UnknownParts(c);
    hide Verified, LogCurve, AssociationScore, ProfileScore, RepoEngagementScore, Accepted, Followed, BehavioralScore,
         Regular, Raw;
    RawIsWeighted(c, UNKNOWN, hasRepo, None);
  }

  lemma UnknownParts(c: Curves)
    requires Regular(c)
    ensures Verified(c, UNKNOWN) == Accepted(c, UNKNOWN) == Followed(c, UNKNOWN) == 0.0
    ensures AssociationScore(UNKNOWN) == ProfileScore(UNKNOWN) == 0.0
    ensures LogCurve(c, 0.0, 730.0) == LogCurve(c, 0.0, 30.0) == 0.0
    ensures RepoEngagementScore(c, UNKNOWN) == 0.05 && BehavioralScore(UNKNOWN, None) == 0.03
  {
    EngagementInPoints(c, UNKNOWN);
    BehaviorInPoints(UNKNOWN, None);
    hide Regular;
  }

  /** An account with every signal at its best. */
  const PERFECT := Signals(730, "OWNER", true, true, true, true, true, 30, 30, 1, 0, 20, 0, 10, 1, 30, 0, 0, 0,
                           false, true, true)

  const PERFECT_BEHAVIOR := Behavior(1.0, 10, 8)

  lemma PerfectParts(c: Curves)
    requires Regular(c)
    ensures Verified(c, PERFECT) == Accepted(c, PERFECT) == Followed(c, PERFECT) == 1.0
    ensures AssociationScore(PERFECT) == ProfileScore(PERFECT) == 1.0
    ensures LogCurve(c, 730.0, 730.0) == LogCurve(c, 30.0, 30.0) == 1.0
    ensures RepoEngagementScore(c, PERFECT) == 0.20 && BehavioralScore(PERFECT, Some(PERFECT_BEHAVIOR)) == 0.20
  {
    VerifiedInPoints(c, PERFECT);
    EngagementInPoints(c, PERFECT);
    BehaviorInPoints(PERFECT, Some(PERFECT_BEHAVIOR));
    hide Regular;
  }

  /** Each category reaches its maximum, and the score reaches one, with and without a repository. */
  lemma PerfectScore(c: Curves)
    requires Regular(c)
    ensures Compute(c, PERFECT, true, Some(PERFECT_BEHAVIOR)) == 1.0
    ensures Compute(c, PERFECT, false, Some(PERFECT_BEHAVIOR)) == 1.0
    ensures Categories(c, PERFECT, true, Some(PERFECT_BEHAVIOR)) == CategoryScores(Some(0.15), 0.25, 0.25, 0.15, 0.20)
    ensures Categories(c, PERFECT, false, Some(PERFECT_BEHAVIOR)) == CategoryScores(None, 0.3333, 0.0833, 0.25, 0.3333)
  {
    PerfectParts(c);
    hide Verified, LogCurve, AssociationScore, ProfileScore, RepoEngagementScore, Accepted, Followed, BehavioralScore,
         Regular, Raw;
    RawIsWeighted(c, PERFECT, true, Some(PERFECT_BEHAVIOR));
    RawIsWeighted(c, PERFECT, false, Some(PERFECT_BEHAVIOR));
    FourDigits();
    hide ToFixed;
    CategoriesAreRounded(c, PERFECT, true, Some(PERFECT_BEHAVIOR));
    CategoriesAreRounded(c, PERFECT, false, Some(PERFECT_BEHAVIOR));
  }

  lemma FourDigits()
    ensures ToFixed(1.0, 100) == 1.0
    ensures ToFixed(0.15, 10000) == 0.15 && ToFixed(0.25, 10000) == 0.25 && ToFixed(0.20, 10000) == 0.20
    ensures ToFixed(0.20 / 0.60, 10000) == 0.3333 && ToFixed(0.05 / 0.60, 10000) == 0.0833
    ensures ToFixed(0.15 / 0.60, 10000) == 0.25
  {
  }

  /** A suspended account scores nothing. */
  lemma SuspendedScoresNothing(c: Curves, s: Signals, hasRepo: bool, beh: Option<Behavior>)
    requires Regular(c) && s.suspended
    ensures Compute(c, s, hasRepo, beh) == 0.0 && CategorySum(Categories(c, s, hasRepo, beh)) == 0.0
    ensures Grade(Compute(c, s, hasRepo, beh)) == F
  {
  }

  const THRESHOLDS := [0.37, 0.43, 0.47, 0.53, 0.57, 0.63, 0.67, 0.73, 0.77, 0.83, 0.87, 0.93]
  const LETTERS := [F, DMinus, D, DPlus, CMinus, C, CPlus, BMinus, B, BPlus, AMinus, A, APlus]

  /** The letter is as many steps up as there are thresholds that the score reaches. */
  lemma GradeFollowsThresholds(score: real)
    ensures Rank(Grade(score)) < |LETTERS| && Grade(score) == LETTERS[Rank(Grade(score))]
    ensures forall i :: 0 <= i < |THRESHOLDS| ==> (THRESHOLDS[i] <= score <==> i < Rank(Grade(score)))
  {
  }

  /** Rounding goes to the nearest number of steps, and away from zero half-way between two. */
  lemma HalvesRoundAway(n: nat, d: real)
    requires -0.5 <= d < 0.5
    ensures d >= 0.0 || n > 0 ==> Round(n as real + d) == n && Round(-(n as real + d)) == 0 - n
    ensures Round(n as real + 0.5) == n + 1 && Round(-(n as real + 0.5)) == -1 - n
  {
  }
}
