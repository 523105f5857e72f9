/** The owned-repositories summary: totals, the most starred repositories and the most used
    languages. */
module RepoProfile {
  import opened Options

  const TOP_REPO_LIMIT := 5
  const LANGUAGE_LIMIT := 5
  const MIN_STARS := 1

  datatype Repo = Repo(fullName: string, stars: int, language: string, description: string, fork: bool, archived: bool)

  datatype OwnedRepo = OwnedRepo(name: string, stars: int, language: string, description: string)

  datatype Bucket = Bucket(language: string, repos: int, share: real)

  datatype Summary = Summary(totalRepos: int, totalStars: int, top: seq<OwnedRepo>, languages: seq<Bucket>)

  // ---------------------------------------------------------------- the order

  /** The order of strings by their first difference. */
  predicate Less(a: string, b: string) {
    b != [] && (a == [] || a[0] < b[0] || (a[0] == b[0] && Less(a[1..], b[1..])))
  }

  lemma {:induction false} LessIsTotal(a: string, b: string)
    ensures !(Less(a, b) && Less(b, a)) && !Less(a, a)
    ensures Less(a, b) || Less(b, a) || a == b
    decreases |a|
  {
    if a != [] {
      LessIsTotal(a[1..], if b == [] then a[1..] else b[1..]);
      if b != [] && a[0] == b[0] && a[1..] == b[1..] {
        assert a == [a[0]] + a[1..] && b == [b[0]] + b[1..];
      }
    }
  }

  lemma {:induction false} LessIsTransitive(a: string, b: string, c: string)
    requires Less(a, b) && Less(b, c)
    ensures Less(a, c)
    decreases |a|
  {
    if a != [] && a[0] == b[0] && b[0] == c[0] {
      LessIsTransitive(a[1..], b[1..], c[1..]);
    }
  }

  /** The first place at which the strings differ decides, or else the length. */
  lemma {:induction false} LessIsFirstDifference(a: string, b: string, k: nat)
    requires k <= |a| && k <= |b| && a[..k] == b[..k]
    requires k < |a| && k < |b| ==> a[k] != b[k]
    ensures Less(a, b) <==> k < |b| && (k == |a| || a[k] < b[k])
    decreases k
  {
    if k > 0 {
      assert a[..k][0] == b[..k][0];
      assert a[1..][..k - 1] == a[..k][1..] && b[1..][..k - 1] == b[..k][1..];
      LessIsFirstDifference(a[1..], b[1..], k - 1);
    }
  }

  datatype Rank = Rank(size: int, name: string)

  /** Bigger first, then by name. */
  predicate Before(a: Rank, b: Rank) {
    a.size > b.size || (a.size == b.size && Less(a.name, b.name))
  }

  lemma BeforeIsTotal(a: Rank, b: Rank)
    ensures !(Before(a, b) && Before(b, a)) && !Before(a, a)
    ensures Before(a, b) || Before(b, a) || a == b
  {
    LessIsTotal(a.name, b.name);
  }

  lemma BeforeIsTransitive(a: Rank, b: Rank, c: Rank)
    requires Before(a, b) && Before(b, c)
    ensures Before(a, c)
  {
    if a.size == b.size == c.size {
      LessIsTransitive(a.name, b.name, c.name);
    }
  }

  ghost predicate Sorted<T>(s: seq<T>, rank: T -> Rank) {
    forall i, j :: 0 <= i < j < |s| ==> !Before(rank(s[j]), rank(s[i]))
  }

  ghost predicate StrictlySorted<T>(s: seq<T>, rank: T -> Rank) {
    forall i, j :: 0 <= i < j < |s| ==> Before(rank(s[i]), rank(s[j]))
  }

  ghost predicate DistinctRanks<T>(s: seq<T>, rank: T -> Rank) {
    forall i, j :: 0 <= i < j < |s| ==> rank(s[i]) != rank(s[j])
  }

  ghost predicate SameElements<T>(a: seq<T>, b: seq<T>) {
    (forall x :: x in a ==> x in b) && (forall x :: x in b ==> x in a)
  }

  /** A strict order leaves only one way to list a set of elements. */
  lemma {:induction false} SortedIsUnique<T>(a: seq<T>, b: seq<T>, rank: T -> Rank)
    requires StrictlySorted(a, rank) && StrictlySorted(b, rank) && SameElements(a, b)
    ensures a == b
    decreases |a|
  {
    assert b != [] ==> b[0] in a;
    if a != [] {
      FirstIsFirst(a, b, rank);
      forall x | x in a ensures (x in a[1..] <==> x in a && x != a[0]) && (x in b[1..] <==> x in b && x != b[0]) {
        RestMembers(a, rank, x);
        RestMembers(b, rank, x);
      }
      SortedIsUnique(a[1..], b[1..], rank);
      assert a == [a[0]] + a[1..] && b == [b[0]] + b[1..];
    }
  }

  lemma FirstIsFirst<T>(a: seq<T>, b: seq<T>, rank: T -> Rank)
    requires StrictlySorted(a, rank) && StrictlySorted(b, rank) && SameElements(a, b) && a != []
    ensures b != [] && a[0] == b[0]
  {
    assert a[0] in b;
    assert b[0] in a;
    var i :| 0 <= i < |a| && a[i] == b[0];
    var j :| 0 <= j < |b| && b[j] == a[0];
    BeforeIsTotal(rank(a[0]), rank(b[0]));
  }

  lemma RestMembers<T>(s: seq<T>, rank: T -> Rank, x: T)
    requires StrictlySorted(s, rank) && s != []
    ensures x in s[1..] <==> x in s && x != s[0]
  {
    if x in s[1..] {
      var i :| 0 <= i < |s[1..]| && s[1..][i] == x;
      BeforeIsTotal(rank(s[0]), rank(s[i + 1]));
    }
  }

  /** `sorted` is `s` in order, strictly so when no two ranks are equal. */
  ghost predicate IsRanking<T>(s: seq<T>, sorted: seq<T>, rank: T -> Rank) {
    && multiset(sorted) == multiset(s) && SameElements(sorted, s)
    && Sorted(sorted, rank)
    && (DistinctRanks(s, rank) ==> StrictlySorted(sorted, rank))
  }

  /** A stable insertion sort. */
  method SortByRank<T>(s: seq<T>, rank: T -> Rank) returns (sorted: seq<T>)
    ensures IsRanking(s, sorted, rank)
  {
    sorted := [];
    assert IsRanking([], sorted, rank);
    hide SameElements, Sorted, DistinctRanks, StrictlySorted, Before, IsRanking;
    for i := 0 to |s|
      invariant IsRanking(s[..i], sorted, rank)
    {
      var p := InsertionPoint(s[..i], sorted, rank, s[i]);
      RankedOneMore(s[..i], sorted, rank, s[i], p);
      assert s[..i + 1] == s[..i] + [s[i]];
      sorted := sorted[..p] + [s[i]] + sorted[p..];
    }
    assert s[..|s|] == s;
  }

  /** Behind every element that is not after `x`. */
  method InsertionPoint<T>(ghost done: seq<T>, sorted: seq<T>, rank: T -> Rank, x: T) returns (p: nat)
    requires IsRanking(done, sorted, rank)
    ensures p <= |sorted|
    ensures forall i :: 0 <= i < p ==> !Before(rank(x), rank(sorted[i]))
    ensures forall i :: p <= i < |sorted| ==> !Before(rank(sorted[i]), rank(x))
  {
    p := |sorted|;
    while p > 0 && Before(rank(x), rank(sorted[p - 1]))
      invariant p <= |sorted|
      invariant forall i :: p <= i < |sorted| ==> !Before(rank(sorted[i]), rank(x))
    {
      BeforeIsTotal(rank(x), rank(sorted[p - 1]));
      p := p - 1;
    }
    forall i | 0 <= i < p ensures !Before(rank(x), rank(sorted[i])) {
      if i < p - 1 && Before(rank(x), rank(sorted[i])) {
        BeforeIsTotal(rank(sorted[i]), rank(sorted[p - 1]));
        if Before(rank(sorted[i]), rank(sorted[p - 1])) {
          BeforeIsTransitive(rank(x), rank(sorted[i]), rank(sorted[p - 1]));
        }
      }
    }
  }

  lemma RankedOneMore<T>(done: seq<T>, sorted: seq<T>, rank: T -> Rank, x: T, p: nat)
    requires IsRanking(done, sorted, rank) && p <= |sorted|
    requires forall i :: 0 <= i < p ==> !Before(rank(x), rank(sorted[i]))
    requires forall i :: p <= i < |sorted| ==> !Before(rank(sorted[i]), rank(x))
    ensures IsRanking(done + [x], sorted[..p] + [x] + sorted[p..], rank)
  {
    assert sorted == sorted[..p] + sorted[p..];
    InsertedMembers(done, sorted, x, p);
    Inserted(sorted, rank, x, p);
    if DistinctRanks(done + [x], rank) {
      FewerAreDistinct(done, x, rank);
      InsertedStrictly(sorted, rank, done, x, p);
    }
    hide SameElements, Sorted, DistinctRanks, StrictlySorted, Before;
  }

  lemma FewerAreDistinct<T>(done: seq<T>, x: T, rank: T -> Rank)
    requires DistinctRanks(done + [x], rank)
    ensures DistinctRanks(done, rank)
  {
    assert forall i :: 0 <= i < |done| ==> (done + [x])[i] == done[i];
  }

  lemma InsertedMembers<T>(done: seq<T>, sorted: seq<T>, x: T, p: nat)
    requires SameElements(sorted, done) && p <= |sorted|
    ensures SameElements(sorted[..p] + [x] + sorted[p..], done + [x])
  {
    assert sorted == sorted[..p] + sorted[p..];
  }

  lemma Inserted<T>(sorted: seq<T>, rank: T -> Rank, x: T, p: nat)
    requires Sorted(sorted, rank) && p <= |sorted|
    requires forall i :: 0 <= i < p ==> !Before(rank(x), rank(sorted[i]))
    requires forall i :: p <= i < |sorted| ==> !Before(rank(sorted[i]), rank(x))
    ensures Sorted(sorted[..p] + [x] + sorted[p..], rank)
  {
    hide Before;
  }

  lemma InsertedStrictly<T>(sorted: seq<T>, rank: T -> Rank, done: seq<T>, x: T, p: nat)
    requires StrictlySorted(sorted, rank) && SameElements(sorted, done) && DistinctRanks(done + [x], rank)
             && p <= |sorted|
    requires forall i :: 0 <= i < p ==> !Before(rank(x), rank(sorted[i]))
    requires forall i :: p <= i < |sorted| ==> !Before(rank(sorted[i]), rank(x))
    ensures StrictlySorted(sorted[..p] + [x] + sorted[p..], rank)
  {
    forall i | 0 <= i < |sorted|
      ensures if i < p then Before(rank(sorted[i]), rank(x)) else Before(rank(x), rank(sorted[i]))
    {
      assert sorted[i] in done;
      var k :| 0 <= k < |done| && done[k] == sorted[i];
      assert rank((done + [x])[k]) != rank((done + [x])[|done|]);
      BeforeIsTotal(rank(sorted[i]), rank(x));
    }
  }

  // ---------------------------------------------------------------- what is aggregated

  /** The elements to keep, in order. */
  ghost function Filter<T>(s: seq<T>, keep: T -> bool): (r: seq<T>)
    ensures forall x :: x in r ==> x in s && keep(x)
    ensures forall x :: x in s && keep(x) ==> x in r
  {
    if s == [] then []
    else
      var n := |s| - 1;
      assert s == s[..n] + [s[n]];
      Filter(s[..n], keep) + if keep(s[n]) then [s[n]] else []
  }

  lemma FilterOneMore<T>(s: seq<T>, x: T, keep: T -> bool)
    ensures Filter(s + [x], keep) == Filter(s, keep) + if keep(x) then [x] else []
  {
    assert (s + [x])[..|s|] == s;
  }

  predicate IsOwned(r: Repo) {
    !r.fork && !r.archived
  }

  predicate IsStarred(r: Repo) {
    r.stars >= MIN_STARS
  }

  predicate IsClassified(r: Repo) {
    r.language != ""
  }

  function Speaks(language: string): Repo -> bool {
    (r: Repo) => r.language == language
  }

  ghost function SumStars(s: seq<Repo>): int {
    if s == [] then 0 else SumStars(s[..|s| - 1]) + s[|s| - 1].stars
  }

  function StarRank(r: Repo): Rank {
    Rank(r.stars, r.fullName)
  }

  function BucketRank(b: Bucket): Rank {
    Rank(b.repos, b.language)
  }

  function Card(r: Repo): OwnedRepo {
    OwnedRepo(r.fullName, r.stars, r.language, r.description)
  }

  function Atmost(n: nat, limit: nat): nat {
    if n < limit then n else limit
  }

  function Cards(s: seq<Repo>, n: nat): (top: seq<OwnedRepo>)
    requires n <= |s|
    ensures |top| == n && forall i :: 0 <= i < n ==> top[i] == Card(s[i])
  {
    seq(n, i requires 0 <= i < n => Card(s[i]))
  }

  ghost function Repos(owned: seq<Repo>, language: string): int {
    |Filter(owned, Speaks(language))|
  }

  ghost predicate IsSpoken(owned: seq<Repo>, language: string) {
    language != "" && exists i :: 0 <= i < |owned| && owned[i].language == language
  }

  /** The bucket of one language. */
  ghost predicate IsBucket(owned: seq<Repo>, b: Bucket) {
    && IsSpoken(owned, b.language)
    && b.repos == Repos(owned, b.language)
    && |Filter(owned, IsClassified)| > 0
    && b.share == b.repos as real / |Filter(owned, IsClassified)| as real
  }

  /** `ranked` holds the bucket of every language, most used first. */
  ghost predicate RanksLanguages(owned: seq<Repo>, ranked: seq<Bucket>) {
    && StrictlySorted(ranked, BucketRank)
    && (forall b :: b in ranked ==> IsBucket(owned, b))
    && (forall b :: IsBucket(owned, b) ==> b in ranked)
  }

  /** `ranked` holds every starred repository, most stars first. */
  ghost predicate RanksRepos(owned: seq<Repo>, ranked: seq<Repo>) {
    IsRanking(Filter(owned, IsStarred), ranked, StarRank)
  }

  ghost predicate IsSummary(repos: seq<Repo>, out: Option<Summary>, stars: seq<Repo>, languages: seq<Bucket>) {
    var owned := Filter(repos, IsOwned);
    && RanksRepos(owned, stars) && RanksLanguages(owned, languages)
    && out == if owned == [] then None
              else Some(Summary(|owned|, SumStars(owned), Cards(stars, Atmost(|stars|, TOP_REPO_LIMIT)),
                                languages[..Atmost(|languages|, LANGUAGE_LIMIT)]))
  }

  method OwnedRepos(repos: seq<Repo>) returns (owned: seq<Repo>)
    ensures owned == Filter(repos, IsOwned)
  {
    owned := [];
    for i := 0 to |repos|
      invariant owned == Filter(repos[..i], IsOwned)
    {
      FilterOneMore(repos[..i], repos[i], IsOwned);
      assert repos[..i + 1] == repos[..i] + [repos[i]];
      if repos[i].fork || repos[i].archived {
        continue;
      }
      owned := owned + [repos[i]];
    }
    assert repos[..|repos|] == repos;
  }

  method TotalStars(owned: seq<Repo>) returns (total: int)
    ensures total == SumStars(owned)
  {
    total := 0;
    for i := 0 to |owned|
      invariant total == SumStars(owned[..i])
    {
      assert owned[..i + 1][..i] == owned[..i];
      total := total + owned[i].stars;
    }
    assert owned[..|owned|] == owned;
  }

  /** `stars` and `languages` are the full rankings that the summary shows the heads of. */
  method AggregateRepos(repos: seq<Repo>)
      returns (out: Option<Summary>, ghost stars: seq<Repo>, ghost languages: seq<Bucket>)
    ensures IsSummary(repos, out, stars, languages)
  {
    hide RanksRepos, RanksLanguages, Filter, SumStars;
    var owned := OwnedRepos(repos);
    var top, buckets;
    top, stars := TopByStars(owned);
    buckets, languages := LanguageBuckets(owned);
    if |owned| == 0 {
      return None, stars, languages;
    }
    var total := TotalStars(owned);
    return Some(Summary(|owned|, total, top, buckets)), stars, languages;
  }

  method TopByStars(owned: seq<Repo>) returns (out: seq<OwnedRepo>, ghost ranked: seq<Repo>)
    ensures RanksRepos(owned, ranked) && out == Cards(ranked, Atmost(|ranked|, TOP_REPO_LIMIT))
  {
    var starred: seq<Repo> := [];
    assert owned[..0] == [] && Filter([], IsStarred) == [];
    hide Filter, IsRanking;
    for i := 0 to |owned|
      invariant starred == Filter(owned[..i], IsStarred)
    {
      FilterOneMore(owned[..i], owned[i], IsStarred);
      assert owned[..i + 1] == owned[..i] + [owned[i]];
      if owned[i].stars >= MIN_STARS {
        starred := starred + [owned[i]];
      }
    }
    assert owned[..|owned|] == owned;
    var sorted := SortByRank(starred, StarRank);
    ranked := sorted;
    var limit := TOP_REPO_LIMIT;
    if |sorted| < limit {
      limit := |sorted|;
    }
    out := [];
    for i := 0 to limit
      invariant out == Cards(sorted, i)
    {
      var r := sorted[i];
      out := out + [OwnedRepo(r.fullName, r.stars, r.language, r.description)];
    }
  }

  /** `counts` holds, for each language of `repos`, how many of them use it. */
  ghost predicate CountsLanguages(repos: seq<Repo>, counts: map<string, int>) {
    && (forall language :: language in counts <==> IsSpoken(repos, language))
    && (forall language :: language in counts ==> counts[language] == Repos(repos, language))
  }

  lemma LanguageOneMore(repos: seq<Repo>, r: Repo, language: string)
    ensures IsSpoken(repos + [r], language) <==> IsSpoken(repos, language) || (language != "" && language == r.language)
    ensures Repos(repos + [r], language) == Repos(repos, language) + if r.language == language then 1 else 0
  {
    var more := repos + [r];
    FilterOneMore(repos, r, Speaks(language));
    if IsSpoken(repos, language) {
      var i :| 0 <= i < |repos| && repos[i].language == language;
      assert more[i].language == language;
    }
    assert more[|repos|] == r;
  }

  function Count(counts: map<string, int>, language: string): int {
    if language in counts then counts[language] else 0
  }

  lemma CountOneMore(repos: seq<Repo>, counts: map<string, int>, r: Repo)
    requires CountsLanguages(repos, counts)
    ensures r.language == "" ==> CountsLanguages(repos + [r], counts)
    ensures r.language != "" ==> CountsLanguages(repos + [r], counts[r.language := Count(counts, r.language) + 1])
  {
    hide IsSpoken, Repos;
    forall language ensures
        && (IsSpoken(repos + [r], language) <==>
            IsSpoken(repos, language) || (language != "" && language == r.language))
        && Repos(repos + [r], language) == Repos(repos, language) + if r.language == language then 1 else 0
    {
      LanguageOneMore(repos, r, language);
    }
    NotSpoken(repos, r.language);
  }

  lemma NotSpoken(repos: seq<Repo>, language: string)
    ensures IsSpoken(repos, language) ==> language != ""
    ensures !IsSpoken(repos, language) && language != "" ==> Repos(repos, language) == 0
  {
    var found := Filter(repos, Speaks(language));
    assert found != [] ==> found[0] in repos && found[0].language == language;
  }

  ghost predicate IsCensus(repos: seq<Repo>, counts: map<string, int>, classified: int) {
    CountsLanguages(repos, counts) && classified == |Filter(repos, IsClassified)|
  }

  lemma CensusOneMore(repos: seq<Repo>, counts: map<string, int>, classified: int, r: Repo)
    requires IsCensus(repos, counts, classified)
    ensures r.language == "" ==> IsCensus(repos + [r], counts, classified)
    ensures r.language != "" ==>
            IsCensus(repos + [r], counts[r.language := Count(counts, r.language) + 1], classified + 1)
  {
    CountOneMore(repos, counts, r);
    FilterOneMore(repos, r, IsClassified);
    hide CountsLanguages, Filter;
  }

  method CountLanguages(owned: seq<Repo>) returns (counts: map<string, int>, classified: nat)
    ensures IsCensus(owned, counts, classified)
  {
    counts := map[];
    classified := 0;
    assert IsCensus([], counts, classified);
    hide IsCensus;
    for i := 0 to |owned|
      invariant IsCensus(owned[..i], counts, classified)
    {
      var language := owned[i].language;
      assert owned[..i + 1] == owned[..i] + [owned[i]];
      CensusOneMore(owned[..i], counts, classified, owned[i]);
      if language == "" {
        continue;
      }
      counts := counts[language := Count(counts, language) + 1];
      classified := classified + 1;
    }
    assert owned[..|owned|] == owned;
  }

  function BucketFor(counts: map<string, int>, classified: int, language: string): Bucket
    requires language in counts && classified > 0
  {
    Bucket(language, counts[language], counts[language] as real / classified as real)
  }

  /** `buckets` lists the bucket of each of the languages, once. */
  ghost predicate ListsBuckets(counts: map<string, int>, classified: int, languages: set<string>, buckets: seq<Bucket>)
    requires languages <= counts.Keys && classified > 0
  {
    && (forall b :: b in buckets ==> b.language in languages && b == BucketFor(counts, classified, b.language))
    && (forall language :: language in languages ==> BucketFor(counts, classified, language) in buckets)
    && DistinctRanks(buckets, BucketRank)
  }

  /** The buckets in whatever order the map yields its languages. */
  method MakeBuckets(counts: map<string, int>, classified: int) returns (buckets: seq<Bucket>)
    requires classified > 0
    ensures ListsBuckets(counts, classified, counts.Keys, buckets)
  {
    buckets := [];
    var todo := counts.Keys;
    while todo != {}
      invariant todo <= counts.Keys
      invariant ListsBuckets(counts, classified, counts.Keys - todo, buckets)
      decreases todo
    {
      var language :| language in todo;
      assert forall i :: 0 <= i < |buckets| ==> buckets[i] in buckets;
      todo := todo - {language};
      buckets := buckets + [BucketFor(counts, classified, language)];
    }
  }

  lemma ListedAreRanked(owned: seq<Repo>, counts: map<string, int>, buckets: seq<Bucket>, sorted: seq<Bucket>)
    requires CountsLanguages(owned, counts) && |Filter(owned, IsClassified)| > 0
    requires ListsBuckets(counts, |Filter(owned, IsClassified)|, counts.Keys, buckets)
    requires SameElements(sorted, buckets) && StrictlySorted(sorted, BucketRank)
    ensures RanksLanguages(owned, sorted)
  {
    hide IsSpoken, Repos, StrictlySorted, DistinctRanks;
    forall b | IsBucket(owned, b) ensures b in sorted {
      assert b == BucketFor(counts, |Filter(owned, IsClassified)|, b.language);
    }
  }

  method LanguageBuckets(owned: seq<Repo>) returns (out: seq<Bucket>, ghost ranked: seq<Bucket>)
    ensures RanksLanguages(owned, ranked) && out == ranked[..Atmost(|ranked|, LANGUAGE_LIMIT)]
  {
    hide CountsLanguages, ListsBuckets, RanksLanguages;
    var counts, classified := CountLanguages(owned);
    if classified == 0 {
      NoBuckets(owned);
      return [], [];
    }
    var buckets := MakeBuckets(counts, classified);
    var sorted := SortByRank(buckets, BucketRank);
    ListedAreDistinct(counts, classified, buckets);
    ListedAreRanked(owned, counts, buckets, sorted);
    ranked := sorted;
    if |sorted| > LANGUAGE_LIMIT {
      sorted := sorted[..LANGUAGE_LIMIT];
    }
    return sorted, ranked;
  }

  lemma ListedAreDistinct(counts: map<string, int>, classified: int, buckets: seq<Bucket>)
    requires classified > 0 && ListsBuckets(counts, classified, counts.Keys, buckets)
    ensures DistinctRanks(buckets, BucketRank)
  {
  }

  lemma NoBuckets(owned: seq<Repo>)
    requires |Filter(owned, IsClassified)| == 0
    ensures RanksLanguages(owned, [])
  {
  }

  // ---------------------------------------------------------------- any order of the input

  lemma {:induction false} FilterCounts<T>(s: seq<T>, keep: T -> bool, x: T)
    ensures multiset(Filter(s, keep))[x] == if keep(x) then multiset(s)[x] else 0
    decreases |s|
  {
    if s != [] {
      var n := |s| - 1;
      FilterCounts(s[..n], keep, x);
      assert s == s[..n] + [s[n]];
    }
  }

  lemma FilterOfSame(a: seq<Repo>, b: seq<Repo>, keep: Repo -> bool)
    requires multiset(a) == multiset(b)
    ensures multiset(Filter(a, keep)) == multiset(Filter(b, keep))
    ensures |Filter(a, keep)| == |Filter(b, keep)| && SameElements(Filter(a, keep), Filter(b, keep))
  {
    forall x ensures multiset(Filter(a, keep))[x] == multiset(Filter(b, keep))[x] {
      FilterCounts(a, keep, x);
      FilterCounts(b, keep, x);
    }
    SameMembers(Filter(a, keep), Filter(b, keep));
  }

  lemma SameMembers(a: seq<Repo>, b: seq<Repo>)
    requires multiset(a) == multiset(b)
    ensures |a| == |b| && SameElements(a, b)
  {
    assert |multiset(a)| == |multiset(b)|;
    forall x ensures x in a <==> x in b {
      assert x in multiset(a) <==> x in multiset(b);
    }
  }

  lemma {:induction false} SumStarsConcat(a: seq<Repo>, b: seq<Repo>)
    ensures SumStars(a + b) == SumStars(a) + SumStars(b)
    decreases |b|
  {
    if b == [] {
      assert a + b == a;
    } else {
      assert (a + b)[..|a + b| - 1] == a + b[..|b| - 1];
      SumStarsConcat(a, b[..|b| - 1]);
    }
  }

  lemma TakeOut(s: seq<Repo>, i: nat) returns (rest: seq<Repo>)
    requires i < |s|
    ensures |rest| == |s| - 1 && multiset(rest) == multiset(s) - multiset{s[i]}
    ensures SumStars(s) == SumStars(rest) + s[i].stars
  {
    rest := s[..i] + s[i + 1..];
    var front := s[..i] + [s[i]];
    assert s == front + s[i + 1..];
    SumStarsConcat(s[..i], s[i + 1..]);
    SumStarsConcat(front, s[i + 1..]);
    assert front[..|front| - 1] == s[..i];
  }

  lemma {:induction false} SumStarsOfSame(a: seq<Repo>, b: seq<Repo>)
    requires multiset(a) == multiset(b)
    ensures SumStars(a) == SumStars(b)
    decreases |a|
  {
    SameMembers(a, b);
    if a != [] {
      assert a[0] in b;
      var i :| 0 <= i < |b| && b[i] == a[0];
      var restA := TakeOut(a, 0);
      var restB := TakeOut(b, i);
      SumStarsOfSame(restA, restB);
    }
  }

  ghost predicate DistinctNames(repos: seq<Repo>) {
    forall i, j :: 0 <= i < j < |repos| ==> repos[i].fullName != repos[j].fullName
  }

  lemma {:induction false} FilterKeepsDistinct(repos: seq<Repo>, keep: Repo -> bool)
    requires DistinctNames(repos)
    ensures DistinctNames(Filter(repos, keep))
    decreases |repos|
  {
    if repos != [] {
      var n := |repos| - 1;
      FilterKeepsDistinct(repos[..n], keep);
      var kept := Filter(repos[..n], keep);
      assert forall i :: 0 <= i < |kept| ==> kept[i] in kept && kept[i] in repos[..n];
    }
  }

  lemma BucketsOfSame(a: seq<Repo>, b: seq<Repo>, x: Bucket)
    requires multiset(a) == multiset(b) && IsBucket(a, x)
    ensures IsBucket(b, x)
  {
    FilterOfSame(a, b, Speaks(x.language));
    FilterOfSame(a, b, IsClassified);
    SameMembers(a, b);
    var i :| 0 <= i < |a| && a[i].language == x.language;
    assert a[i] in b;
  }

  lemma RankingsOfSame(a: seq<Repo>, b: seq<Repo>, starsA: seq<Repo>, starsB: seq<Repo>, langA: seq<Bucket>,
                       langB: seq<Bucket>)
    requires multiset(a) == multiset(b) && DistinctNames(a) && DistinctNames(b)
    requires RanksRepos(a, starsA) && RanksRepos(b, starsB) && RanksLanguages(a, langA) && RanksLanguages(b, langB)
    ensures starsA == starsB && langA == langB
  {
    FilterOfSame(a, b, IsStarred);
    FilterKeepsDistinct(a, IsStarred);
    FilterKeepsDistinct(b, IsStarred);
    SortedIsUnique(starsA, starsB, StarRank);
    forall x | x in langA ensures x in langB {
      BucketsOfSame(a, b, x);
    }
    forall x | x in langB ensures x in langA {
      BucketsOfSame(b, a, x);
    }
    SortedIsUnique(langA, langB, BucketRank);
  }

  /** With distinct names, the summary does not depend on the order of the repositories. */
  lemma OrderDoesNotMatter(a: seq<Repo>, b: seq<Repo>, outA: Option<Summary>, outB: Option<Summary>,
                           starsA: seq<Repo>, starsB: seq<Repo>, langA: seq<Bucket>, langB: seq<Bucket>)
    requires multiset(a) == multiset(b) && DistinctNames(a) && DistinctNames(b)
    requires IsSummary(a, outA, starsA, langA) && IsSummary(b, outB, starsB, langB)
    ensures outA == outB
  {
    var ownedA, ownedB := Filter(a, IsOwned), Filter(b, IsOwned);
    FilterOfSame(a, b, IsOwned);
    FilterKeepsDistinct(a, IsOwned);
    FilterKeepsDistinct(b, IsOwned);
    SumStarsOfSame(ownedA, ownedB);
    RankingsOfSame(ownedA, ownedB, starsA, starsB, langA, langB);
  }

  // ---------------------------------------------------------------- what is shown

  /** With distinct names, `Top` is exactly the best five of the starred owned repositories. */
  lemma TopIsTheBest(repos: seq<Repo>, out: Summary, stars: seq<Repo>, languages: seq<Bucket>)
    requires DistinctNames(repos) && IsSummary(repos, Some(out), stars, languages)
    ensures var starred := Filter(Filter(repos, IsOwned), IsStarred);
            && |out.top| == Atmost(|starred|, TOP_REPO_LIMIT)
            && (forall c :: c in out.top ==> exists r :: r in starred && c == Card(r))
            && (forall i, j :: 0 <= i < j < |out.top| ==>
                  Before(Rank(out.top[i].stars, out.top[i].name), Rank(out.top[j].stars, out.top[j].name)))
            && (forall i, j :: 0 <= i < j < |out.top| ==>
                  || out.top[i].stars > out.top[j].stars
                  || (out.top[i].stars == out.top[j].stars && Less(out.top[i].name, out.top[j].name)))
            && (forall r, c :: r in starred && Card(r) !in out.top && c in out.top ==>
                Before(Rank(c.stars, c.name), StarRank(r)))
  {
    var owned := Filter(repos, IsOwned);
    FilterKeepsDistinct(repos, IsOwned);
    FilterKeepsDistinct(owned, IsStarred);
    assert |multiset(stars)| == |multiset(Filter(owned, IsStarred))|;
    HeadIsTheBest(Filter(owned, IsStarred), stars, out.top);
  }

  lemma HeadIsTheBest(starred: seq<Repo>, stars: seq<Repo>, top: seq<OwnedRepo>)
    requires StrictlySorted(stars, StarRank) && SameElements(stars, starred) && |top| <= |stars|
             && top == Cards(stars, |top|)
    ensures forall c :: c in top ==> exists r :: r in starred && c == Card(r)
    ensures forall i, j :: 0 <= i < j < |top| ==>
            Before(Rank(top[i].stars, top[i].name), Rank(top[j].stars, top[j].name))
    ensures forall r, c :: r in starred && Card(r) !in top && c in top ==> Before(Rank(c.stars, c.name), StarRank(r))
  {
    hide Before;
    forall c | c in top ensures exists r :: r in starred && c == Card(r) {
      var i :| 0 <= i < |top| && top[i] == c;
      assert stars[i] in starred;
    }
    forall i, j | 0 <= i < j < |top| ensures Before(Rank(top[i].stars, top[i].name), Rank(top[j].stars, top[j].name)) {
      assert Before(StarRank(stars[i]), StarRank(stars[j]));
    }
    forall r, c | r in starred && Card(r) !in top && c in top ensures Before(Rank(c.stars, c.name), StarRank(r)) {
      var i :| 0 <= i < |top| && top[i] == c;
      assert r in stars;
      var j :| 0 <= j < |stars| && stars[j] == r;
      assert |top| <= j;
      assert Before(StarRank(stars[i]), StarRank(stars[j]));
    }
  }

  ghost function ShareSum(buckets: seq<Bucket>): real {
    if buckets == [] then 0.0 else ShareSum(buckets[..|buckets| - 1]) + buckets[|buckets| - 1].share
  }

  ghost function RepoSum(owned: seq<Repo>, buckets: seq<Bucket>): int {
    if buckets == [] then 0
    else RepoSum(owned, buckets[..|buckets| - 1]) + Repos(owned, buckets[|buckets| - 1].language)
  }

  ghost predicate DistinctLanguages(buckets: seq<Bucket>) {
    && (forall i, j :: 0 <= i < j < |buckets| ==> buckets[i].language != buckets[j].language)
    && (forall i :: 0 <= i < |buckets| ==> buckets[i].language != "")
  }

  ghost predicate Among(buckets: seq<Bucket>, language: string) {
    exists i :: 0 <= i < |buckets| && buckets[i].language == language
  }

  lemma AmongOneMore(init: seq<Bucket>, last: Bucket, language: string)
    ensures Among(init + [last], language) <==> Among(init, language) || last.language == language
  {
    var all := init + [last];
    assert all[|init|] == last;
    if Among(init, language) {
      var i :| 0 <= i < |init| && init[i].language == language;
      assert all[i].language == language;
    }
  }

  /** One more repository adds to the bucket of its language, if that is among them. */
  lemma {:induction false} RepoSumOneMore(owned: seq<Repo>, r: Repo, buckets: seq<Bucket>)
    requires DistinctLanguages(buckets)
    ensures RepoSum(owned + [r], buckets) == RepoSum(owned, buckets) + if Among(buckets, r.language) then 1 else 0
    decreases |buckets|
  {
    if buckets != [] {
      var n := |buckets| - 1;
      var init, last := buckets[..n], buckets[n];
      assert buckets == init + [last] && !Among(init, last.language);
      RepoSumOneMore(owned, r, init);
      AmongOneMore(init, last, r.language);
      LanguageOneMore(owned, r, last.language);
      hide Among, Repos;
    }
  }

  lemma {:induction false} RepoSumIsBounded(owned: seq<Repo>, buckets: seq<Bucket>)
    requires DistinctLanguages(buckets)
    ensures RepoSum(owned, buckets) <= |Filter(owned, IsClassified)|
    decreases |owned|
  {
    if owned == [] {
      NoRepoSum(buckets);
    } else {
      var n := |owned| - 1;
      RepoSumIsBounded(owned[..n], buckets);
      RepoSumOneMore(owned[..n], owned[n], buckets);
      assert owned == owned[..n] + [owned[n]];
    }
  }

  lemma {:induction false} NoRepoSum(buckets: seq<Bucket>)
    ensures RepoSum([], buckets) == 0
    decreases |buckets|
  {
    if buckets != [] {
      NoRepoSum(buckets[..|buckets| - 1]);
    }
  }

  lemma AddFractions(a: int, b: int, d: int)
    requires d > 0
    ensures a as real / d as real + b as real / d as real == (a + b) as real / d as real
  {
  }

  lemma {:induction false} ShareSumIsFraction(owned: seq<Repo>, buckets: seq<Bucket>, classified: int)
    requires classified > 0
    requires forall b :: b in buckets ==> b.share == Repos(owned, b.language) as real / classified as real
    ensures ShareSum(buckets) == RepoSum(owned, buckets) as real / classified as real
    decreases |buckets|
  {
    hide Repos;
    if buckets != [] {
      var n := |buckets| - 1;
      assert buckets[n] in buckets;
      ShareSumIsFraction(owned, buckets[..n], classified);
      AddFractions(RepoSum(owned, buckets[..n]), Repos(owned, buckets[n].language), classified);
    }
  }

  /** The shares shown add up to at most one. */
  lemma SharesAreAtMostOne(repos: seq<Repo>, out: Summary, stars: seq<Repo>, languages: seq<Bucket>)
    requires IsSummary(repos, Some(out), stars, languages)
    ensures ShareSum(out.languages) <= 1.0
  {
    HeadSharesAreAtMostOne(Filter(repos, IsOwned), languages, |out.languages|);
  }

  lemma HeadSharesAreAtMostOne(owned: seq<Repo>, languages: seq<Bucket>, n: nat)
    requires RanksLanguages(owned, languages) && n <= |languages|
    ensures ShareSum(languages[..n]) <= 1.0
  {
    var shown, classified := languages[..n], |Filter(owned, IsClassified)|;
    SpokenOnce(owned, languages);
    assert forall b :: b in shown ==> b in languages;
    if n > 0 {
      assert shown[0] in languages;
      hide RanksLanguages, Filter, Repos;
      RepoSumIsBounded(owned, shown);
      ShareSumIsFraction(owned, shown, classified);
      AtMostOne(RepoSum(owned, shown), classified);
    }
  }

  lemma AtMostOne(a: int, d: int)
    requires a <= d && 0 < d
    ensures a as real / d as real <= 1.0
  {
  }

  lemma SpokenOnce(owned: seq<Repo>, languages: seq<Bucket>)
    requires RanksLanguages(owned, languages)
    ensures DistinctLanguages(languages)
  {
    assert forall i :: 0 <= i < |languages| ==> languages[i] in languages;
    forall i, j | 0 <= i < j < |languages| ensures languages[i].language != languages[j].language {
      BeforeIsTotal(BucketRank(languages[i]), BucketRank(languages[j]));
    }
  }

  // ---------------------------------------------------------------- the summary in plain terms

  /** How many of the repositories are their owner's own work, neither forked nor archived, and meet a
      further condition. */
  ghost function OwnCount(repos: seq<Repo>, also: Repo -> bool): nat {
    |set i | 0 <= i < |repos| && !repos[i].fork && !repos[i].archived && also(repos[i])|
  }

  ghost function OwnStars(repos: seq<Repo>): int {
    if repos == [] then 0
    else
      var last := repos[|repos| - 1];
      OwnStars(repos[..|repos| - 1]) + if last.fork || last.archived then 0 else last.stars
  }

  lemma OwnCountOneMore(repos: seq<Repo>, r: Repo, also: Repo -> bool)
    ensures OwnCount(repos + [r], also) == OwnCount(repos, also) + if !r.fork && !r.archived && also(r) then 1 else 0
  {
    var more := repos + [r];
    var before := set i | 0 <= i < |repos| && !repos[i].fork && !repos[i].archived && also(repos[i]);
    var after := set i | 0 <= i < |more| && !more[i].fork && !more[i].archived && also(more[i]);
    assert more[|repos|] == r && forall i :: 0 <= i < |repos| ==> more[i] == repos[i];
    assert after == if !r.fork && !r.archived && also(r) then before + {|repos|} else before;
  }

  lemma {:induction false} OwnedAreCounted(repos: seq<Repo>, also: Repo -> bool)
    ensures |Filter(Filter(repos, IsOwned), also)| == OwnCount(repos, also)
    decreases |repos|
  {
    hide Filter;
    if repos == [] {
      NothingToFilter(also);
    } else {
      var init, last := repos[..|repos| - 1], repos[|repos| - 1];
      assert repos == init + [last];
      OwnedAreCounted(init, also);
      OwnCountOneMore(init, last, also);
      FilterOneMore(init, last, IsOwned);
      FilterOneMore(Filter(init, IsOwned), last, also);
      assert Filter(init, IsOwned) + [] == Filter(init, IsOwned);
      hide OwnCount;
    }
  }

  lemma NothingToFilter(also: Repo -> bool)
    ensures Filter<Repo>([], IsOwned) == [] && Filter<Repo>([], also) == [] && OwnCount([], also) == 0
  {
  }

  lemma {:induction false} OwnedStarsAreSummed(repos: seq<Repo>)
    ensures SumStars(Filter(repos, IsOwned)) == OwnStars(repos)
    decreases |repos|
  {
    hide Filter, SumStars;
    if repos == [] {
      NoStars();
    } else {
      var init, last := repos[..|repos| - 1], repos[|repos| - 1];
      assert repos == init + [last];
      OwnedStarsAreSummed(init);
      FilterOneMore(init, last, IsOwned);
      SumStarsOneMore(Filter(init, IsOwned), last);
      assert Filter(init, IsOwned) + [] == Filter(init, IsOwned);
    }
  }

  lemma NoStars()
    ensures SumStars(Filter([], IsOwned)) == 0
  {
  }

  lemma SumStarsOneMore(s: seq<Repo>, r: Repo)
    ensures SumStars(s + [r]) == SumStars(s) + r.stars
  {
    assert (s + [r])[..|s|] == s;
  }

  predicate Any(r: Repo) {
    true
  }

  lemma {:induction false} FilterAny(s: seq<Repo>)
    ensures Filter(s, Any) == s
    decreases |s|
  {
    if s != [] {
      FilterAny(s[..|s| - 1]);
      assert s == s[..|s| - 1] + [s[|s| - 1]];
    }
  }

  /** The numbers of the summary are those of the owned repositories, and at most five repositories and
      five languages are shown. */
  lemma SummaryCounts(repos: seq<Repo>, out: Summary, stars: seq<Repo>, languages: seq<Bucket>)
    requires IsSummary(repos, Some(out), stars, languages)
    ensures out.totalRepos == OwnCount(repos, Any) && out.totalStars == OwnStars(repos)
    ensures var starred := OwnCount(repos, HasStar);
            |out.top| == if starred < 5 then starred else 5
    ensures forall c :: c in out.top ==> exists r ::
              && r in repos && !r.fork && !r.archived && r.stars >= 1
              && c == OwnedRepo(r.fullName, r.stars, r.language, r.description)
  {
    var owned := Filter(repos, IsOwned);
    FilterAny(owned);
    OwnedAreCounted(repos, Any);
    OwnedStarsAreSummed(repos);
    StarredAreCounted(repos);
    assert |multiset(stars)| == |multiset(Filter(owned, IsStarred))|;
    forall c | c in out.top ensures exists r ::
              && r in repos && !r.fork && !r.archived && r.stars >= 1
              && c == OwnedRepo(r.fullName, r.stars, r.language, r.description)
    {
      var i :| 0 <= i < |out.top| && out.top[i] == c;
      assert stars[i] in Filter(owned, IsStarred) && c == Card(stars[i]);
    }
  }

  predicate HasStar(r: Repo) {
    r.stars >= 1
  }

  predicate HasLanguage(r: Repo) {
    r.language != ""
  }

  function WrittenIn(language: string): Repo -> bool {
    (r: Repo) => r.language == language
  }

  lemma SameCount(repos: seq<Repo>, also: Repo -> bool, too: Repo -> bool)
    requires forall r :: also(r) == too(r)
    ensures OwnCount(repos, also) == OwnCount(repos, too)
  {
    assert (set i | 0 <= i < |repos| && !repos[i].fork && !repos[i].archived && also(repos[i])) ==
           set i | 0 <= i < |repos| && !repos[i].fork && !repos[i].archived && too(repos[i]);
  }

  lemma StarredAreCounted(repos: seq<Repo>)
    ensures |Filter(Filter(repos, IsOwned), IsStarred)| == OwnCount(repos, HasStar)
  {
    OwnedAreCounted(repos, IsStarred);
    SameCount(repos, IsStarred, HasStar);
  }

  /** The repositories of one's own in a language, and those in any. */
  ghost function InLanguage(repos: seq<Repo>, language: string): nat {
    OwnCount(repos, WrittenIn(language))
  }

  ghost function InSomeLanguage(repos: seq<Repo>): nat {
    OwnCount(repos, HasLanguage)
  }

  lemma LanguagesAreCounted(repos: seq<Repo>, language: string)
    ensures Repos(Filter(repos, IsOwned), language) == InLanguage(repos, language)
    ensures |Filter(Filter(repos, IsOwned), IsClassified)| == InSomeLanguage(repos)
  {
    OwnedAreCounted(repos, Speaks(language));
    SameCount(repos, Speaks(language), WrittenIn(language));
    OwnedAreCounted(repos, IsClassified);
    SameCount(repos, IsClassified, HasLanguage);
  }

  /** `b` is the bucket of its language, with its number and its share. */
  ghost predicate IsShareOf(repos: seq<Repo>, b: Bucket) {
    && b.language != "" && b.repos == InLanguage(repos, b.language) > 0 && InSomeLanguage(repos) > 0
    && b.share == b.repos as real / InSomeLanguage(repos) as real
  }

  /** More repositories first, equal numbers by name. */
  predicate MoreUsed(repos: int, language: string, than: int, other: string) {
    repos > than || (repos == than && Less(language, other))
  }

  lemma BucketsAreShares(repos: seq<Repo>, languages: seq<Bucket>)
    requires RanksLanguages(Filter(repos, IsOwned), languages)
    ensures forall b :: b in languages ==> IsShareOf(repos, b)
    ensures forall r :: r in repos && !r.fork && !r.archived && r.language != "" ==>
              exists k :: 0 <= k < |languages| && languages[k].language == r.language
    ensures forall i, j :: 0 <= i < j < |languages| ==>
              MoreUsed(languages[i].repos, languages[i].language, languages[j].repos, languages[j].language)
  {
    var owned := Filter(repos, IsOwned);
    forall b | b in languages ensures IsShareOf(repos, b) {
      LanguagesAreCounted(repos, b.language);
      SpokenCounts(owned, b.language);
    }
    hide InLanguage, InSomeLanguage;
    forall r | r in repos && !r.fork && !r.archived && r.language != ""
      ensures exists k :: 0 <= k < |languages| && languages[k].language == r.language
    {
      BucketIsThere(owned, languages, r);
    }
    forall i, j | 0 <= i < j < |languages|
      ensures MoreUsed(languages[i].repos, languages[i].language, languages[j].repos, languages[j].language)
    {
      assert Before(BucketRank(languages[i]), BucketRank(languages[j]));
    }
  }

  /** The languages shown are the most used ones, with their numbers and shares: five, or all there are. */
  ghost predicate ShowsMostUsed(repos: seq<Repo>, shown: seq<Bucket>) {
    && |shown| <= 5 && (forall b :: b in shown ==> IsShareOf(repos, b))
    && (forall i, j :: 0 <= i < j < |shown| ==>
          MoreUsed(shown[i].repos, shown[i].language, shown[j].repos, shown[j].language))
    && (forall r :: r in repos && !r.fork && !r.archived && r.language != "" ==>
          ShownOrBehind(repos, shown, r.language))
  }

  lemma LanguagesAreTheMostUsed(repos: seq<Repo>, out: Summary, stars: seq<Repo>, languages: seq<Bucket>)
    requires IsSummary(repos, Some(out), stars, languages)
    ensures ShowsMostUsed(repos, out.languages)
  {
    assert RanksLanguages(Filter(repos, IsOwned), languages);
    assert out.languages == languages[..|out.languages|] && |out.languages| <= 5;
    assert |out.languages| < |languages| ==> |out.languages| == 5;
    hide IsSummary, RanksLanguages, ShowsMostUsed, Filter;
    HeadShowsMostUsed(repos, languages, |out.languages|);
  }

  lemma HeadShowsMostUsed(repos: seq<Repo>, languages: seq<Bucket>, n: nat)
    requires RanksLanguages(Filter(repos, IsOwned), languages)
    requires n <= 5 && n <= |languages| && (n < |languages| ==> n == 5)
    ensures ShowsMostUsed(repos, languages[..n])
  {
    hide RanksLanguages, Filter, IsShareOf, MoreUsed, ShownOrBehind, InLanguage;
    BucketsAreShares(repos, languages);
    var shown := languages[..n];
    forall r | r in repos && !r.fork && !r.archived && r.language != ""
      ensures ShownOrBehind(repos, shown, r.language)
    {
      var k :| 0 <= k < |languages| && languages[k].language == r.language;
      assert languages[k] in languages;
      LanguageShownOrBehind(repos, languages, n, k);
    }
  }

  /** The language is shown, or five more used ones are. */
  ghost predicate ShownOrBehind(repos: seq<Repo>, shown: seq<Bucket>, language: string) {
    || (exists b :: b in shown && b.language == language)
    || (|shown| == 5 && forall b :: b in shown ==> MoreUsed(b.repos, b.language, InLanguage(repos, language), language))
  }

  lemma LanguageShownOrBehind(repos: seq<Repo>, languages: seq<Bucket>, n: nat, k: nat)
    requires n <= |languages| && (n < |languages| ==> n == 5) && k < |languages| && IsShareOf(repos, languages[k])
    requires forall i, j :: 0 <= i < j < |languages| ==>
               MoreUsed(languages[i].repos, languages[i].language, languages[j].repos, languages[j].language)
    ensures ShownOrBehind(repos, languages[..n], languages[k].language)
  {
    hide InLanguage, InSomeLanguage, MoreUsed;
    if k < n {
      assert languages[..n][k] in languages[..n];
    }
  }

  lemma SpokenCounts(owned: seq<Repo>, language: string)
    requires IsSpoken(owned, language)
    ensures Repos(owned, language) > 0
  {
    var i :| 0 <= i < |owned| && owned[i].language == language;
    assert owned[i] in owned && Speaks(language)(owned[i]);
    assert owned[i] in Filter(owned, Speaks(language));
  }

  lemma BucketIsThere(owned: seq<Repo>, languages: seq<Bucket>, r: Repo)
    requires RanksLanguages(owned, languages) && r in owned && r.language != ""
    ensures exists k :: 0 <= k < |languages| && languages[k].language == r.language
  {
    assert r in Filter(owned, IsClassified);
    var n := |Filter(owned, IsClassified)|;
    var b := Bucket(r.language, Repos(owned, r.language), Repos(owned, r.language) as real / n as real);
    assert IsBucket(owned, b);
    assert b in languages;
  }
}
