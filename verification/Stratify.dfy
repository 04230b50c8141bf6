/**
Choosing the crawl's first URLs under a budget: classify every discovered URL by its path, sort each
bucket by score, take each bucket's quota in a fixed order, and fill what is left of the budget by
score.
*/
module Stratify {
  import opened Text
  import opened WebUrls

  datatype Scored = Scored(url: Url, score: int)

  datatype Bucket =
    | HOME | POLICIES | ABOUT | CONTACT | FAQS | PRICING
    | COLLECTIONS | PROOF | DOCUMENTATION | PRODUCTS | OTHER

  const BUCKET_COUNT: nat := 11

  // The order of the tiers, which is also the order of the fill.
  function Index(b: Bucket): (i: nat)
    ensures i < BUCKET_COUNT
  {
    match b
    case HOME => 0 case POLICIES => 1 case ABOUT => 2 case CONTACT => 3 case FAQS => 4 case PRICING => 5
    case COLLECTIONS => 6 case PROOF => 7 case DOCUMENTATION => 8 case PRODUCTS => 9 case OTHER => 10
  }

  function BucketAt(i: nat): (b: Bucket)
    ensures i < BUCKET_COUNT ==> Index(b) == i
  {
    match i
    case 0 => HOME case 1 => POLICIES case 2 => ABOUT case 3 => CONTACT case 4 => FAQS case 5 => PRICING
    case 6 => COLLECTIONS case 7 => PROOF case 8 => DOCUMENTATION case 9 => PRODUCTS case _ => OTHER
  }

  predicate HasAny(path: string, words: seq<string>) {
    exists w <- words :: Contains(path, w)
  }

  function Keywords(b: Bucket): seq<string> {
    match b
    case HOME => []
    case POLICIES => ["refund", "return", "exchange", "shipping", "delivery", "policy", "policies", "terms",
                      "privacy", "warranty", "security"]
    case ABOUT => ["about", "our-story", "story", "company", "mission", "team", "who-we-are"]
    case CONTACT => ["contact", "reach-us", "locations", "support", "help-center"]
    case FAQS => ["faq", "faqs", "help", "frequently-asked-questions"]
    case PRICING => ["pricing", "plans", "cost", "fees", "subscription", "rates"]
    case COLLECTIONS => ["collection", "collections", "category", "categories", "services", "service",
                         "solutions", "solution", "industry", "industries"]
    case PROOF => ["case-study", "case-studies", "testimonials", "reviews", "customers", "success-stories"]
    case DOCUMENTATION => ["docs", "documentation", "guides", "api", "manual"]
    case PRODUCTS => ["product", "products", "item", "items", "shop", "store"]
    case OTHER => []
  }

  function BucketOf(path: string): Bucket {
    if path == "" || path == "/" then HOME
    else if HasAny(path, Keywords(POLICIES)) then POLICIES
    else if HasAny(path, Keywords(ABOUT)) then ABOUT
    else if HasAny(path, Keywords(CONTACT)) then CONTACT
    else if HasAny(path, Keywords(FAQS)) then FAQS
    else if HasAny(path, Keywords(PRICING)) then PRICING
    else if HasAny(path, Keywords(COLLECTIONS)) then COLLECTIONS
    else if HasAny(path, Keywords(PROOF)) then PROOF
    else if HasAny(path, Keywords(DOCUMENTATION)) then DOCUMENTATION
    else if HasAny(path, Keywords(PRODUCTS)) then PRODUCTS
    else OTHER
  }

  predicate Suits(path: string, b: Bucket) {
    match b
    case HOME => path == "" || path == "/"
    case OTHER => true
    case _ => HasAny(path, Keywords(b))
  }

  // A path goes to the first bucket, in tier order, that suits it.
  lemma {:induction false} FirstSuitableBucket(path: string, b: Bucket)
    ensures BucketOf(path) == b <==>
              Suits(path, b) && forall c: Bucket | Index(c) < Index(b) :: !Suits(path, c)
  {
    var chosen := BucketOf(path);
    assert Suits(path, chosen);
    forall c: Bucket | Index(c) < Index(chosen)
      ensures !Suits(path, c)
    {
    }
    assert Index(b) == Index(chosen) ==> BucketAt(Index(b)) == b == chosen;
  }

  function StripSlashes(path: string): string {
    if path != "" && path[|path| - 1] == '/' then StripSlashes(path[..|path| - 1]) else path
  }

  // pathOf stands for the path component of a URL.
  function Classify(pathOf: Url -> string): Url -> Bucket {
    u => BucketOf(StripSlashes(Lower(pathOf(u))))
  }

  predicate IsSlashes(s: string) { forall c <- s :: c == '/' }

  lemma {:induction false} SlashesFallOff(path: string, slashes: string)
    requires IsSlashes(slashes)
    ensures StripSlashes(path + slashes) == StripSlashes(path)
    decreases |slashes|
  {
    var s := path + slashes;
    if slashes == "" {
      assert s == path;
    } else {
      var fewer := slashes[..|slashes| - 1];
      assert slashes[|slashes| - 1] in slashes && forall c <- fewer :: c in slashes;
      assert s[..|s| - 1] == path + fewer && s[|s| - 1] == '/';
      SlashesFallOff(path, fewer);
    }
  }

  // Neither the case of a path nor slashes at its end matter to its bucket.
  lemma {:induction false} SpellingKeepsBucket(pathOf: Url -> string, u: Url, v: Url, slashes: string)
    requires Lower(pathOf(u)) == Lower(pathOf(v)) + slashes && IsSlashes(slashes)
    ensures Classify(pathOf)(u) == Classify(pathOf)(v)
  {
    SlashesFallOff(Lower(pathOf(v)), slashes);
  }

  // Each of a bucket's words takes a path there, unless an earlier bucket suits it too.
  lemma {:induction false} WordDecides(pathOf: Url -> string, u: Url, b: Bucket, word: string)
    requires word in Keywords(b) && Contains(StripSlashes(Lower(pathOf(u))), word)
    ensures Index(Classify(pathOf)(u)) <= Index(b)
  {
    FirstSuitableBucket(StripSlashes(Lower(pathOf(u))), Classify(pathOf)(u));
  }

  // How many of a bucket's URLs the tiers take; the home bucket is taken whole.
  function Quota(b: Bucket, size: nat): nat {
    match b
    case HOME => size
    case POLICIES => 8
    case ABOUT => 4
    case CONTACT => 4
    case FAQS => 6
    case PRICING => 6
    case COLLECTIONS => 12
    case PROOF => 5
    case DOCUMENTATION => 5
    case PRODUCTS => 35
    case OTHER => 0
  }

  // ----- Sorting -----

  function Insert(x: Scored, sorted: seq<Scored>): seq<Scored> {
    if sorted == [] || sorted[0].score <= x.score then [x] + sorted
    else [sorted[0]] + Insert(x, sorted[1..])
  }

  // Descending by score, equal scores in their given order.
  function SortDesc(s: seq<Scored>): seq<Scored> {
    if s == [] then [] else Insert(s[0], SortDesc(s[1..]))
  }

  predicate Descending(s: seq<Scored>) {
    forall i, j | 0 <= i < j < |s| :: s[i].score >= s[j].score
  }

  function WithScore(s: seq<Scored>, score: int): seq<Scored> {
    if s == [] then [] else (if s[0].score == score then [s[0]] else []) + WithScore(s[1..], score)
  }

  lemma {:induction false} InsertKeepsMultiset(x: Scored, sorted: seq<Scored>)
    ensures multiset(Insert(x, sorted)) == multiset{x} + multiset(sorted)
  {
    if sorted != [] && sorted[0].score > x.score {
      InsertKeepsMultiset(x, sorted[1..]);
      assert sorted == [sorted[0]] + sorted[1..];
    }
  }

  lemma {:induction false} InsertKeepsDescending(x: Scored, sorted: seq<Scored>)
    requires Descending(sorted)
    ensures Descending(Insert(x, sorted))
    ensures forall y <- Insert(x, sorted) :: y == x || y in sorted
  {
    if sorted != [] && sorted[0].score > x.score {
      var tail := sorted[1..];
      InsertKeepsDescending(x, tail);
      assert forall y <- tail :: y.score <= sorted[0].score;
    }
  }

  lemma {:induction false} WithScoreCons(x: Scored, s: seq<Scored>, score: int)
    ensures WithScore([x] + s, score) == if x.score == score then [x] + WithScore(s, score) else WithScore(s, score)
  {
    assert ([x] + s)[1..] == s;
  }

  lemma {:induction false} InsertIsStable(x: Scored, sorted: seq<Scored>, score: int)
    ensures WithScore(Insert(x, sorted), score)
         == if x.score == score then [x] + WithScore(sorted, score) else WithScore(sorted, score)
  {
    if sorted == [] || sorted[0].score <= x.score {
      WithScoreCons(x, sorted, score);
    } else {
      var first, tail := sorted[0], sorted[1..];
      InsertIsStable(x, tail, score);
      WithScoreCons(first, Insert(x, tail), score);
      WithScoreCons(first, tail, score);
      assert sorted == [first] + tail;
    }
  }

  lemma {:induction false} SortKeepsMultiset(s: seq<Scored>)
    ensures multiset(SortDesc(s)) == multiset(s)
  {
    if s != [] {
      SortKeepsMultiset(s[1..]);
      InsertKeepsMultiset(s[0], SortDesc(s[1..]));
      assert s == [s[0]] + s[1..];
    }
  }

  lemma {:induction false} SortIsDescending(s: seq<Scored>)
    ensures Descending(SortDesc(s))
  {
    if s != [] {
      SortIsDescending(s[1..]);
      InsertKeepsDescending(s[0], SortDesc(s[1..]));
    }
  }

  lemma {:induction false} SortIsStable(s: seq<Scored>, score: int)
    ensures WithScore(SortDesc(s), score) == WithScore(s, score)
  {
    if s != [] {
      SortIsStable(s[1..], score);
      InsertIsStable(s[0], SortDesc(s[1..]), score);
    }
  }

  // The sort is a stable descending sort.
  lemma {:induction false} SortDescExact(s: seq<Scored>, score: int)
    ensures Descending(SortDesc(s))
    ensures multiset(SortDesc(s)) == multiset(s)
    ensures WithScore(SortDesc(s), score) == WithScore(s, score)
  {
    SortKeepsMultiset(s);
    SortIsDescending(s);
    SortIsStable(s, score);
  }

  // ----- The selection as functions -----

  function InBucket(bucketOf: Url -> Bucket, scored: seq<Scored>, b: Bucket): seq<Scored> {
    if scored == [] then []
    else
      var last := scored[|scored| - 1];
      InBucket(bucketOf, scored[..|scored| - 1], b) + if bucketOf(last.url) == b then [last] else []
  }

  function Sorted(bucketOf: Url -> Bucket, scored: seq<Scored>, b: Bucket): seq<Scored> {
    SortDesc(InBucket(bucketOf, scored, b))
  }

  function Urls(s: seq<Scored>): (r: seq<Url>)
    ensures |r| == |s| && forall i | 0 <= i < |s| :: r[i] == s[i].url
  {
    seq(|s|, i requires 0 <= i < |s| => s[i].url)
  }

  function Head<T>(s: seq<T>, n: nat): seq<T> { if |s| <= n then s else s[..n] }

  // What the tiers take from a bucket.
  function TierOf(bucketOf: Url -> Bucket, scored: seq<Scored>, b: Bucket): seq<Url> {
    var sorted := Sorted(bucketOf, scored, b);
    Urls(Head(sorted, Quota(b, |sorted|)))
  }

  // The first n parts, one after another.
  function Flat<T>(part: nat -> seq<T>, n: nat): seq<T> {
    if n == 0 then [] else Flat(part, n - 1) + part(n - 1)
  }

  lemma {:induction false} FlatGrows<T>(part: nat -> seq<T>, m: nat, n: nat)
    requires m <= n
    ensures Flat(part, m) <= Flat(part, n)
    decreases n
  {
    if m < n {
      FlatGrows(part, m, n - 1);
    }
  }

  // The tiers of the first n buckets.
  function Tiers(bucketOf: Url -> Bucket, scored: seq<Scored>, n: nat): seq<Url> {
    Flat(k => TierOf(bucketOf, scored, BucketAt(k)), n)
  }

  // The first n buckets, one after another.
  function Everything(bucketOf: Url -> Bucket, scored: seq<Scored>, n: nat): seq<Scored> {
    Flat(k => Sorted(bucketOf, scored, BucketAt(k)), n)
  }

  function Without(s: seq<Scored>, selected: seq<Url>): seq<Scored> {
    if s == [] then [] else (if s[0].url in selected then [] else [s[0]]) + Without(s[1..], selected)
  }

  function AddUrl(selected: seq<Url>, u: Url, budget: int): seq<Url> {
    if u !in selected && |selected| < budget then selected + [u] else selected
  }

  function AddUrls(selected: seq<Url>, us: seq<Url>, budget: int): seq<Url>
    decreases |us|
  {
    if us == [] then selected else AddUrls(AddUrl(selected, us[0], budget), us[1..], budget)
  }

  // The inputs the tiers left out, best first.
  function LeftOver(bucketOf: Url -> Bucket, scored: seq<Scored>, tiered: seq<Url>): seq<Scored> {
    SortDesc(Without(Everything(bucketOf, scored, BUCKET_COUNT), tiered))
  }

  function Pool(bucketOf: Url -> Bucket, scored: seq<Scored>, selected: seq<Url>): seq<Url> {
    Urls(LeftOver(bucketOf, scored, selected))
  }

  function Selection(bucketOf: Url -> Bucket, scored: seq<Scored>, budget: int): seq<Url> {
    var tiered := AddUrls([], Tiers(bucketOf, scored, BUCKET_COUNT), budget);
    AddUrls(tiered, Pool(bucketOf, scored, tiered), budget)
  }

  // ----- The same in the source's form -----

  method AddFrom(before: seq<Url>, us: seq<Scored>, quota: nat, budget: int) returns (selected: seq<Url>)
    ensures selected == AddUrls(before, Urls(Head(us, quota)), budget)
  {
    selected := before;
    var top := Head(us, quota);
    for i := 0 to |top|
      invariant AddUrls(selected, Urls(top)[i..], budget) == AddUrls(before, Urls(top), budget)
    {
      assert Urls(top)[i..][1..] == Urls(top)[i + 1..];
      if top[i].url !in selected && |selected| < budget {
        selected := selected + [top[i].url];
      }
    }
  }

  method FillBuckets(bucketOf: Url -> Bucket, scored: seq<Scored>) returns (buckets: map<Bucket, seq<Scored>>)
    ensures AreSorted(bucketOf, scored, buckets)
  {
    buckets := map[HOME := [], POLICIES := [], ABOUT := [], CONTACT := [], FAQS := [], PRICING := [],
                   COLLECTIONS := [], PROOF := [], DOCUMENTATION := [], PRODUCTS := [], OTHER := []];
    forall b: Bucket
      ensures b in buckets && buckets[b] == InBucket(bucketOf, scored[..0], b)
    {
      assert scored[..0] == [];
      match b
      case HOME => case POLICIES => case ABOUT => case CONTACT => case FAQS => case PRICING =>
      case COLLECTIONS => case PROOF => case DOCUMENTATION => case PRODUCTS => case OTHER =>
    }
    for i := 0 to |scored|
      invariant forall b: Bucket :: b in buckets && buckets[b] == InBucket(bucketOf, scored[..i], b)
    {
      assert scored[..i + 1][..i] == scored[..i];
      var b := bucketOf(scored[i].url);
      buckets := buckets[b := buckets[b] + [scored[i]]];
    }
    assert scored[..|scored|] == scored;
    buckets := map b | b in buckets :: SortDesc(buckets[b]);
  }

  method TakeTiers(bucketOf: Url -> Bucket, scored: seq<Scored>, buckets: map<Bucket, seq<Scored>>, budget: int)
    returns (selected: seq<Url>)
    requires AreSorted(bucketOf, scored, buckets)
    ensures selected == AddUrls([], Tiers(bucketOf, scored, BUCKET_COUNT), budget)
  {
    selected := [];
    for i := 0 to BUCKET_COUNT
      invariant selected == AddUrls([], Tiers(bucketOf, scored, i), budget)
    {
      var b := BucketAt(i);
      AddUrlsConcat([], Tiers(bucketOf, scored, i), TierOf(bucketOf, scored, b), budget);
      selected := AddFrom(selected, buckets[b], Quota(b, |buckets[b]|), budget);
    }
  }

  method KeepUnselected(before: seq<Scored>, items: seq<Scored>, selected: seq<Url>) returns (pool: seq<Scored>)
    ensures pool == before + Without(items, selected)
  {
    pool := before;
    for j := 0 to |items|
      invariant pool + Without(items[j..], selected) == before + Without(items, selected)
    {
      assert items[j..][1..] == items[j + 1..];
      if items[j].url !in selected {
        pool := pool + [items[j]];
      }
    }
  }

  ghost predicate AreSorted(bucketOf: Url -> Bucket, scored: seq<Scored>, buckets: map<Bucket, seq<Scored>>) {
    forall b: Bucket :: b in buckets && buckets[b] == Sorted(bucketOf, scored, b)
  }

  method RemainingPool(ghost bucketOf: Url -> Bucket, ghost scored: seq<Scored>, buckets: map<Bucket, seq<Scored>>,
                       selected: seq<Url>) returns (pool: seq<Scored>)
    requires AreSorted(bucketOf, scored, buckets)
    ensures pool == Without(Everything(bucketOf, scored, BUCKET_COUNT), selected)
  {
    pool := [];
    for i := 0 to BUCKET_COUNT
      invariant pool == Without(Everything(bucketOf, scored, i), selected)
    {
      WithoutConcat(Everything(bucketOf, scored, i), Sorted(bucketOf, scored, BucketAt(i)), selected);
      pool := KeepUnselected(pool, buckets[BucketAt(i)], selected);
    }
  }

  method StratifyUrls(pathOf: Url -> string, scored: seq<Scored>, maxBudget: int) returns (selected: seq<Url>)
    ensures selected == Selection(Classify(pathOf), scored, maxBudget)
  {
    var bucketOf := Classify(pathOf);
    var buckets := FillBuckets(bucketOf, scored);
    var tiered := TakeTiers(bucketOf, scored, buckets, maxBudget);
    var pool := RemainingPool(bucketOf, scored, buckets, tiered);
    var sorted := SortDesc(pool);
    selected := tiered;
    for i := 0 to |sorted|
      invariant AddUrls(selected, Urls(sorted)[i..], maxBudget) == AddUrls(tiered, Urls(sorted), maxBudget)
    {
      assert Urls(sorted)[i..][1..] == Urls(sorted)[i + 1..];
      if |selected| >= maxBudget {
        FullStays(selected, Urls(sorted)[i..], maxBudget);
        return;
      }
      selected := AddUrl(selected, sorted[i].url, maxBudget);
    }
  }

  lemma {:induction false} AddUrlsConcat(selected: seq<Url>, a: seq<Url>, b: seq<Url>, budget: int)
    ensures AddUrls(selected, a + b, budget) == AddUrls(AddUrls(selected, a, budget), b, budget)
    decreases |a|
  {
    if a == [] {
      assert a + b == b;
    } else {
      assert (a + b)[1..] == a[1..] + b;
      AddUrlsConcat(AddUrl(selected, a[0], budget), a[1..], b, budget);
    }
  }

  lemma {:induction false} WithoutConcat(a: seq<Scored>, b: seq<Scored>, selected: seq<Url>)
    ensures Without(a + b, selected) == Without(a, selected) + Without(b, selected)
  {
    if a == [] {
      assert a + b == b;
    } else {
      assert (a + b)[1..] == a[1..] + b;
      WithoutConcat(a[1..], b, selected);
    }
  }

  lemma {:induction false} FullStays(selected: seq<Url>, us: seq<Url>, budget: int)
    requires |selected| >= budget
    ensures AddUrls(selected, us, budget) == selected
    decreases |us|
  {
    if us != [] {
      FullStays(selected, us[1..], budget);
    }
  }

  // ----- The budget only cuts a ranking off -----

  function AddAll(selected: seq<Url>, us: seq<Url>): seq<Url>
    decreases |us|
  {
    if us == [] then selected
    else AddAll(AddNew(selected, us[0]), us[1..])
  }

  // All URLs, best first, whatever the budget.
  function Ranking(bucketOf: Url -> Bucket, scored: seq<Scored>): seq<Url> {
    var tiered := AddAll([], Tiers(bucketOf, scored, BUCKET_COUNT));
    AddAll(tiered, Pool(bucketOf, scored, tiered))
  }

  function AddNew(selected: seq<Url>, u: Url): (r: seq<Url>)
    ensures NoDup(selected) ==> NoDup(r)
    ensures selected <= r && forall v :: v in r <==> v in selected || v == u
    ensures |r| <= |selected| + 1
  {
    if u in selected then selected else selected + [u]
  }

  lemma {:induction false} AddAllGrows(selected: seq<Url>, us: seq<Url>)
    requires NoDup(selected)
    ensures NoDup(AddAll(selected, us)) && selected <= AddAll(selected, us)
    ensures |AddAll(selected, us)| <= |selected| + |us|
    decreases |us|
  {
    if us != [] {
      AddAllGrows(AddNew(selected, us[0]), us[1..]);
    }
  }

  lemma {:induction false} AddAllMembers(selected: seq<Url>, us: seq<Url>, u: Url)
    ensures u in AddAll(selected, us) <==> u in selected || u in us
    decreases |us|
  {
    if us != [] {
      var next := AddNew(selected, us[0]);
      AddAllMembers(next, us[1..], u);
      assert u in next <==> u in selected || u == us[0];
      assert u in us <==> u == us[0] || u in us[1..];
    }
  }

  lemma {:induction false} AddAllExact(selected: seq<Url>, us: seq<Url>)
    requires NoDup(selected)
    ensures NoDup(AddAll(selected, us)) && selected <= AddAll(selected, us)
    ensures |AddAll(selected, us)| <= |selected| + |us|
    ensures forall u :: u in AddAll(selected, us) <==> u in selected || u in us
  {
    AddAllGrows(selected, us);
    forall u
      ensures u in AddAll(selected, us) <==> u in selected || u in us
    {
      AddAllMembers(selected, us, u);
    }
  }

  lemma {:induction false} AddUrlsCutsOff(selected: seq<Url>, us: seq<Url>, budget: nat)
    requires NoDup(selected) && |selected| <= budget
    ensures AddUrls(selected, us, budget) == Head(AddAll(selected, us), budget)
    decreases |us|
  {
    if us != [] {
      if us[0] !in selected && |selected| == budget {
        FullStays(selected, us, budget);
        AddAllExact(selected, us);
      } else {
        AddUrlsCutsOff(AddUrl(selected, us[0], budget), us[1..], budget);
      }
    }
  }

  lemma {:induction false} RoomForTiers(tiered: seq<Url>, pool: seq<Url>, budget: nat)
    requires NoDup(tiered) && |tiered| <= budget
    ensures AddUrls(tiered, pool, budget) == Head(AddAll(tiered, pool), budget)
  {
    AddUrlsCutsOff(tiered, pool, budget);
  }

  lemma {:induction false} NoRoomForTiers(tiered: seq<Url>, pool: seq<Url>, other: seq<Url>, budget: nat)
    requires NoDup(tiered) && |tiered| > budget
    ensures AddUrls(Head(tiered, budget), other, budget) == Head(AddAll(tiered, pool), budget)
  {
    FullStays(Head(tiered, budget), other, budget);
    AddAllGrows(tiered, pool);
  }

  // The budget only cuts one ranking off.
  lemma {:induction false} SelectionIsCutRanking(bucketOf: Url -> Bucket, scored: seq<Scored>, budget: nat)
    ensures Selection(bucketOf, scored, budget) == Head(Ranking(bucketOf, scored), budget)
  {
    var tiers := Tiers(bucketOf, scored, BUCKET_COUNT);
    var tiered := AddAll([], tiers);
    AddAllGrows([], tiers);
    AddUrlsCutsOff([], tiers, budget);
    var cut := AddUrls([], tiers, budget);
    assert cut == Head(tiered, budget);
    if |tiered| <= budget {
      RoomForTiers(tiered, Pool(bucketOf, scored, tiered), budget);
    } else {
      NoRoomForTiers(tiered, Pool(bucketOf, scored, tiered), Pool(bucketOf, scored, cut), budget);
    }
  }

  // A smaller budget selects a prefix of what a larger one selects.
  lemma {:induction false} BudgetPrefix(bucketOf: Url -> Bucket, scored: seq<Scored>, b: nat, c: nat)
    requires b <= c
    ensures Selection(bucketOf, scored, b) == Head(Selection(bucketOf, scored, c), b)
  {
    SelectionIsCutRanking(bucketOf, scored, b);
    SelectionIsCutRanking(bucketOf, scored, c);
  }

  lemma {:induction false} NoBudgetSelectsNothing(bucketOf: Url -> Bucket, scored: seq<Scored>, b: int)
    requires b <= 0
    ensures Selection(bucketOf, scored, b) == []
  {
    FullStays([], Tiers(bucketOf, scored, BUCKET_COUNT), b);
    FullStays([], Pool(bucketOf, scored, []), b);
  }

  // ----- The ranking lists every input URL once -----

  ghost predicate SameUrls(s: seq<Scored>, t: seq<Scored>) {
    forall x :: x in s <==> x in t
  }

  lemma {:induction false} SortKeepsMembers(s: seq<Scored>)
    ensures SameUrls(SortDesc(s), s) && |SortDesc(s)| == |s|
  {
    SortDescExact(s, 0);
    var r := SortDesc(s);
    assert |multiset(r)| == |r| && |multiset(s)| == |s|;
    forall x
      ensures x in r <==> x in s
    {
      assert x in multiset(r) <==> x in multiset(s);
    }
  }

  lemma {:induction false} InBucketExact(bucketOf: Url -> Bucket, scored: seq<Scored>, b: Bucket)
    ensures forall x :: x in InBucket(bucketOf, scored, b) <==> x in scored && bucketOf(x.url) == b
  {
    if scored != [] {
      var front := scored[..|scored| - 1];
      assert scored == front + [scored[|scored| - 1]];
      InBucketExact(bucketOf, front, b);
    }
  }

  // Everything holds exactly the inputs of the first n buckets.
  lemma {:induction false} EverythingExact(bucketOf: Url -> Bucket, scored: seq<Scored>, n: nat)
    requires n <= BUCKET_COUNT
    ensures forall x :: x in Everything(bucketOf, scored, n) <==>
                          x in scored && Index(bucketOf(x.url)) < n
  {
    if n > 0 {
      EverythingExact(bucketOf, scored, n - 1);
      InBucketExact(bucketOf, scored, BucketAt(n - 1));
      SortKeepsMembers(InBucket(bucketOf, scored, BucketAt(n - 1)));
    }
  }

  lemma {:induction false} TierFromInput(bucketOf: Url -> Bucket, scored: seq<Scored>, b: Bucket, u: Url)
    requires u in TierOf(bucketOf, scored, b)
    ensures exists x <- scored :: x.url == u
  {
    var sorted := Sorted(bucketOf, scored, b);
    var top := Head(sorted, Quota(b, |sorted|));
    var k :| 0 <= k < |top| && Urls(top)[k] == u;
    assert top[k] in sorted;
    InBucketExact(bucketOf, scored, b);
    SortKeepsMembers(InBucket(bucketOf, scored, b));
  }

  lemma {:induction false} TiersFromInput(bucketOf: Url -> Bucket, scored: seq<Scored>, n: nat, u: Url)
    requires n <= BUCKET_COUNT && u in Tiers(bucketOf, scored, n)
    ensures exists x <- scored :: x.url == u
  {
    if u in TierOf(bucketOf, scored, BucketAt(n - 1)) {
      TierFromInput(bucketOf, scored, BucketAt(n - 1), u);
    } else {
      TiersFromInput(bucketOf, scored, n - 1, u);
    }
  }

  lemma {:induction false} WithoutExact(s: seq<Scored>, selected: seq<Url>)
    ensures forall x :: x in Without(s, selected) <==> x in s && x.url !in selected
  {
    if s != [] {
      WithoutExact(s[1..], selected);
      assert s == [s[0]] + s[1..];
    }
  }

  lemma {:induction false} LeftOverExact(bucketOf: Url -> Bucket, scored: seq<Scored>, tiered: seq<Url>)
    ensures Descending(LeftOver(bucketOf, scored, tiered))
    ensures forall x :: x in LeftOver(bucketOf, scored, tiered) <==> x in scored && x.url !in tiered
  {
    var all := Everything(bucketOf, scored, BUCKET_COUNT);
    var left := Without(all, tiered);
    EverythingExact(bucketOf, scored, BUCKET_COUNT);
    WithoutExact(all, tiered);
    SortKeepsMembers(left);
    SortDescExact(left, 0);
  }

  lemma {:induction false} RankingExact(bucketOf: Url -> Bucket, scored: seq<Scored>)
    ensures NoDup(Ranking(bucketOf, scored))
    ensures forall u :: u in Ranking(bucketOf, scored) <==> exists x <- scored :: x.url == u
  {
    var tiers := Tiers(bucketOf, scored, BUCKET_COUNT);
    var tiered := AddAll([], tiers);
    AddAllExact([], tiers);
    var left := LeftOver(bucketOf, scored, tiered);
    AddAllExact(tiered, Urls(left));
    LeftOverExact(bucketOf, scored, tiered);
    forall u
      ensures u in Ranking(bucketOf, scored) <==> exists x <- scored :: x.url == u
    {
      UrlsMembers(left, u);
      if u in tiers {
        TiersFromInput(bucketOf, scored, BUCKET_COUNT, u);
      }
    }
  }

  lemma {:induction false} UrlsMembers(s: seq<Scored>, u: Url)
    ensures u in Urls(s) <==> exists x <- s :: x.url == u
  {
    if u in Urls(s) {
      var k :| 0 <= k < |s| && Urls(s)[k] == u;
      assert s[k] in s;
    }
    if x :| x in s && x.url == u {
      var k :| 0 <= k < |s| && s[k] == x;
      assert Urls(s)[k] == u;
    }
  }

  function UrlSet(scored: seq<Scored>): set<Url> { set x | x in scored :: x.url }

  lemma {:induction false} NoDupLength(us: seq<Url>)
    requires NoDup(us)
    ensures |us| == |set u | u in us|
  {
    if us != [] {
      var front := us[..|us| - 1];
      NoDupLength(front);
      assert (set u | u in us) == (set u | u in front) + {us[|us| - 1]};
    }
  }

  lemma {:induction false} ListingOfUrlSet(us: seq<Url>, scored: seq<Scored>)
    requires NoDup(us) && forall u :: u in us <==> exists x <- scored :: x.url == u
    ensures |us| == |UrlSet(scored)| && forall u <- us :: u in UrlSet(scored)
  {
    assert (set u | u in us) == UrlSet(scored);
    NoDupLength(us);
  }

  lemma {:induction false} CutExact(us: seq<Url>, budget: nat)
    requires NoDup(us)
    ensures NoDup(Head(us, budget)) && forall u <- Head(us, budget) :: u in us
    ensures |Head(us, budget)| == if budget < |us| then budget else |us|
  {
  }

  // The selection is duplicate-free, drawn from the input, and as long as budget and input allow.
  lemma {:induction false} SelectionExact(bucketOf: Url -> Bucket, scored: seq<Scored>, budget: nat)
    ensures var selected := Selection(bucketOf, scored, budget);
            && NoDup(selected) && (forall u <- selected :: u in UrlSet(scored))
            && |selected| == if budget < |UrlSet(scored)| then budget else |UrlSet(scored)|
  {
    var ranking := Ranking(bucketOf, scored);
    SelectionIsCutRanking(bucketOf, scored, budget);
    RankingExact(bucketOf, scored);
    ListingOfUrlSet(ranking, scored);
    CutExact(ranking, budget);
  }

  // ----- Guaranteed quotas -----

  // The places the first n buckets are promised beside those of the home pages.
  function PlacesOf(n: nat): nat {
    match n
    case 0 => 0 case 1 => 0 case 2 => 8 case 3 => 12 case 4 => 16 case 5 => 22 case 6 => 28
    case 7 => 40 case 8 => 45 case 9 => 50 case _ => 85
  }

  lemma {:induction false} OneTierSize(bucketOf: Url -> Bucket, scored: seq<Scored>, b: Bucket)
    ensures |TierOf(bucketOf, scored, b)|
         <= if b == HOME then |InBucket(bucketOf, scored, HOME)| else PlacesOf(Index(b) + 1) - PlacesOf(Index(b))
  {
    SortKeepsMembers(InBucket(bucketOf, scored, b));
  }

  lemma {:induction false} TierSize(bucketOf: Url -> Bucket, scored: seq<Scored>, n: nat)
    requires n <= BUCKET_COUNT
    ensures |Tiers(bucketOf, scored, n)| <= |InBucket(bucketOf, scored, HOME)| + PlacesOf(n)
  {
    if n > 0 {
      TierSize(bucketOf, scored, n - 1);
      OneTierSize(bucketOf, scored, BucketAt(n - 1));
      assert n == 1 ==> Tiers(bucketOf, scored, 0) == [];
    }
  }

  lemma {:induction false} TiersGrow(bucketOf: Url -> Bucket, scored: seq<Scored>, m: nat, n: nat)
    requires m <= n
    ensures Tiers(bucketOf, scored, m) <= Tiers(bucketOf, scored, n)
  {
    FlatGrows(k => TierOf(bucketOf, scored, BucketAt(k)), m, n);
  }

  // The places the buckets are promised; the last bucket has none.
  predicate Promised(b: Bucket, i: nat) {
    || b == HOME || (b == POLICIES && i < 8) || (b == ABOUT && i < 4)
    || (b == CONTACT && i < 4) || (b == FAQS && i < 6) || (b == PRICING && i < 6)
    || (b == COLLECTIONS && i < 12) || (b == PROOF && i < 5) || (b == DOCUMENTATION && i < 5)
    || (b == PRODUCTS && i < 35)
  }

  lemma {:induction false} PromisedIsInTier(bucketOf: Url -> Bucket, scored: seq<Scored>, b: Bucket, i: nat)
    requires i < |Sorted(bucketOf, scored, b)| && Promised(b, i)
    ensures Sorted(bucketOf, scored, b)[i].url in TierOf(bucketOf, scored, b)
  {
    var sorted := Sorted(bucketOf, scored, b);
    assert Urls(Head(sorted, Quota(b, |sorted|)))[i] == sorted[i].url;
  }

  lemma {:induction false} TierIsInTiers(bucketOf: Url -> Bucket, scored: seq<Scored>, n: nat, k: nat, u: Url)
    requires k < n && u in TierOf(bucketOf, scored, BucketAt(k))
    ensures u in Tiers(bucketOf, scored, n)
  {
    assert u in Tiers(bucketOf, scored, k + 1);
    TiersGrow(bucketOf, scored, k + 1, n);
  }

  lemma {:induction false} PromisedIsTiered(bucketOf: Url -> Bucket, scored: seq<Scored>, n: nat, b: Bucket, i: nat)
    requires Index(b) < n && i < |Sorted(bucketOf, scored, b)| && Promised(b, i)
    ensures Sorted(bucketOf, scored, b)[i].url in Tiers(bucketOf, scored, n)
  {
    PromisedIsInTier(bucketOf, scored, b, i);
    assert BucketAt(Index(b)) == b;
    TierIsInTiers(bucketOf, scored, n, Index(b), Sorted(bucketOf, scored, b)[i].url);
  }

  // The promised URLs of the first n buckets, each once, in tier order.
  function PromisedUrls(bucketOf: Url -> Bucket, scored: seq<Scored>, n: nat): seq<Url> {
    AddAll([], Tiers(bucketOf, scored, n))
  }

  ghost predicate AllPromisedSelected(bucketOf: Url -> Bucket, scored: seq<Scored>, n: nat, budget: nat) {
    forall b: Bucket, i: nat | Index(b) < n && i < |Sorted(bucketOf, scored, b)| && Promised(b, i) ::
      Sorted(bucketOf, scored, b)[i].url in Selection(bucketOf, scored, budget)
  }

  lemma {:induction false} AddAllConcat(selected: seq<Url>, a: seq<Url>, b: seq<Url>)
    ensures AddAll(selected, a + b) == AddAll(AddAll(selected, a), b)
    decreases |a|
  {
    if a == [] {
      assert a + b == b;
    } else {
      assert (a + b)[1..] == a[1..] + b;
      AddAllConcat(AddNew(selected, a[0]), a[1..], b);
    }
  }

  lemma {:induction false} MoreOnlyAdds(a: seq<Url>, all: seq<Url>, pool: seq<Url>)
    requires a <= all
    ensures NoDup(AddAll([], a)) && AddAll([], a) <= AddAll(AddAll([], all), pool)
  {
    AddAllGrows([], a);
    AddAllGrows(AddAll([], a), all[|a|..]);
    AddAllConcat([], a, all[|a|..]);
    assert all == a + all[|a|..];
    AddAllGrows(AddAll([], all), pool);
  }

  // The ranking begins with the promised URLs.
  lemma {:induction false} PromisedLeadTheRanking(bucketOf: Url -> Bucket, scored: seq<Scored>, n: nat)
    requires n <= BUCKET_COUNT
    ensures NoDup(PromisedUrls(bucketOf, scored, n)) && PromisedUrls(bucketOf, scored, n) <= Ranking(bucketOf, scored)
  {
    var tiers := Tiers(bucketOf, scored, BUCKET_COUNT);
    TiersGrow(bucketOf, scored, n, BUCKET_COUNT);
    MoreOnlyAdds(Tiers(bucketOf, scored, n), tiers, Pool(bucketOf, scored, AddAll([], tiers)));
  }

  lemma {:induction false} TierIsPromised(bucketOf: Url -> Bucket, scored: seq<Scored>, b: Bucket, u: Url) returns (i: nat)
    requires u in TierOf(bucketOf, scored, b)
    ensures i < |Sorted(bucketOf, scored, b)| && Promised(b, i) && Sorted(bucketOf, scored, b)[i].url == u
  {
    var sorted := Sorted(bucketOf, scored, b);
    var top := Head(sorted, Quota(b, |sorted|));
    i :| 0 <= i < |top| && Urls(top)[i] == u;
  }

  // Every URL of a tier stands at a promised place.
  lemma {:induction false} TieredIsPromised(bucketOf: Url -> Bucket, scored: seq<Scored>, n: nat, u: Url)
    returns (b: Bucket, i: nat)
    requires n <= BUCKET_COUNT && u in Tiers(bucketOf, scored, n)
    ensures Index(b) < n && i < |Sorted(bucketOf, scored, b)| && Promised(b, i) && Sorted(bucketOf, scored, b)[i].url == u
  {
    if u in TierOf(bucketOf, scored, BucketAt(n - 1)) {
      b := BucketAt(n - 1);
      i := TierIsPromised(bucketOf, scored, b, u);
    } else {
      b, i := TieredIsPromised(bucketOf, scored, n - 1, u);
    }
  }

  lemma {:induction false} CutKeeps(us: seq<Url>, all: seq<Url>, budget: nat)
    requires NoDup(all) && us <= all
    ensures |us| <= budget ==> forall u <- us :: u in Head(all, budget)
    ensures |us| > budget ==> us[|us| - 1] !in Head(all, budget)
  {
    assert forall i | 0 <= i < |us| :: us[i] == all[i];
    if |us| <= budget {
      forall u | u in us
        ensures u in Head(all, budget)
      {
        var i :| 0 <= i < |us| && us[i] == u;
        assert Head(all, budget)[i] == u;
      }
    }
  }

  // Every promised place of the first n buckets is selected exactly when the budget has room for their
  // promised URLs.
  lemma {:induction false} QuotasExact(bucketOf: Url -> Bucket, scored: seq<Scored>, n: nat, budget: nat)
    requires n <= BUCKET_COUNT
    ensures AllPromisedSelected(bucketOf, scored, n, budget) <==> budget >= |PromisedUrls(bucketOf, scored, n)|
  {
    var promised, first := PromisedUrls(bucketOf, scored, n), Tiers(bucketOf, scored, n);
    SelectionIsCutRanking(bucketOf, scored, budget);
    RankingExact(bucketOf, scored);
    PromisedLeadTheRanking(bucketOf, scored, n);
    CutKeeps(promised, Ranking(bucketOf, scored), budget);
    if |promised| <= budget {
      forall b: Bucket, i: nat | Index(b) < n && i < |Sorted(bucketOf, scored, b)| && Promised(b, i)
        ensures Sorted(bucketOf, scored, b)[i].url in Selection(bucketOf, scored, budget)
      {
        PromisedIsTiered(bucketOf, scored, n, b, i);
        AddAllMembers([], first, Sorted(bucketOf, scored, b)[i].url);
      }
    } else {
      var last := promised[|promised| - 1];
      AddAllMembers([], first, last);
      var b, i := TieredIsPromised(bucketOf, scored, n, last);
    }
  }

  lemma {:induction false} PromisedAreFew(bucketOf: Url -> Bucket, scored: seq<Scored>, n: nat)
    requires n <= BUCKET_COUNT
    ensures |PromisedUrls(bucketOf, scored, n)| <= |InBucket(bucketOf, scored, HOME)| + PlacesOf(n)
  {
    TierSize(bucketOf, scored, n);
    AddAllGrows([], Tiers(bucketOf, scored, n));
  }

  lemma {:induction false} PromisedFit(bucketOf: Url -> Bucket, scored: seq<Scored>, n: nat, budget: nat,
                                       b: Bucket, i: nat)
    requires n <= BUCKET_COUNT && Index(b) < n
    requires budget >= |InBucket(bucketOf, scored, HOME)| + PlacesOf(n)
    requires i < |Sorted(bucketOf, scored, b)| && Promised(b, i)
    ensures Sorted(bucketOf, scored, b)[i].url in Selection(bucketOf, scored, budget)
  {
    PromisedAreFew(bucketOf, scored, n);
    QuotasExact(bucketOf, scored, n, budget);
  }

  // With room for the home pages and 28 more, every home page, the best 8 policy, 4 about, 4 contact,
  // 6 FAQ and 6 pricing pages are selected, however many products there are; with room for 85 more, so are
  // the best 12 collections, 5 proofs, 5 documents and 35 products.
  lemma {:induction false} QuotasGuaranteed(bucketOf: Url -> Bucket, scored: seq<Scored>, budget: nat,
                                            b: Bucket, i: nat)
    requires budget >= |InBucket(bucketOf, scored, HOME)| + if Index(b) < 6 then 28 else 85
    requires i < |Sorted(bucketOf, scored, b)| && Promised(b, i)
    ensures Sorted(bucketOf, scored, b)[i].url in Selection(bucketOf, scored, budget)
  {
    PromisedFit(bucketOf, scored, if Index(b) < 6 then 6 else BUCKET_COUNT, budget, b, i);
  }

  lemma {:induction false} AddUrlsGrows(selected: seq<Url>, us: seq<Url>, budget: int)
    ensures selected <= AddUrls(selected, us, budget)
    decreases |us|
  {
    if us != [] {
      AddUrlsGrows(AddUrl(selected, us[0], budget), us[1..], budget);
    }
  }

  // A tier holds its bucket's best: nothing left out of it scores higher than anything in it.
  lemma {:induction false} TierIsBest(bucketOf: Url -> Bucket, scored: seq<Scored>, b: Bucket, i: nat, j: nat)
    requires i < Quota(b, |Sorted(bucketOf, scored, b)|) <= j < |Sorted(bucketOf, scored, b)|
    ensures var sorted := Sorted(bucketOf, scored, b);
            sorted[i].url in TierOf(bucketOf, scored, b) && sorted[i].score >= sorted[j].score
  {
    SortDescExact(InBucket(bucketOf, scored, b), 0);
    var sorted := Sorted(bucketOf, scored, b);
    assert Urls(Head(sorted, Quota(b, |sorted|)))[i] == sorted[i].url;
  }

  // What was added found everything before it added too.
  lemma {:induction false} AddedInOrder(selected: seq<Url>, us: seq<Url>, budget: int, u: Url) returns (k: nat)
    requires u in AddUrls(selected, us, budget) && u !in selected
    ensures k < |us| && us[k] == u
    ensures forall j | 0 <= j < k :: us[j] in AddUrls(selected, us, budget)
    decreases |us|
  {
    var next := AddUrl(selected, us[0], budget);
    AddUrlsGrows(next, us[1..], budget);
    if u in next {
      k := 0;
    } else {
      var rest := AddedInOrder(next, us[1..], budget, u);
      assert us[0] in AddUrls(selected, us, budget) by {
        assert |next| < budget ==> us[0] in next;
        assert forall v <- next :: v in AddUrls(selected, us, budget);
        if |next| >= budget {
          FullStays(next, us[1..], budget);
        }
      }
      k := rest + 1;
      assert forall j | 0 < j < k :: us[j] == us[1..][j - 1];
    }
  }

  // Of a list in descending order, what was added scores no less than what was not.
  lemma {:induction false} AddedIsBest(tiered: seq<Url>, sorted: seq<Scored>, budget: int, u: Url, x: Scored)
    requires Descending(sorted) && x in sorted && x.url !in AddUrls(tiered, Urls(sorted), budget)
    requires u in AddUrls(tiered, Urls(sorted), budget) && u !in tiered
    ensures exists y <- sorted :: y.url == u && y.score >= x.score
  {
    var k := AddedInOrder(tiered, Urls(sorted), budget, u);
    var j :| 0 <= j < |sorted| && sorted[j] == x;
    assert Urls(sorted)[j] == x.url;
    assert k <= j;
    assert sorted[k] in sorted && sorted[k].url == u;
  }

  // Beyond the tiers the best are taken: no input that was left out scores higher than one that filled up.
  lemma {:induction false} FillTakesTheBest(bucketOf: Url -> Bucket, scored: seq<Scored>, budget: nat, u: Url, x: Scored)
    ensures var selected := Selection(bucketOf, scored, budget);
            x in scored && x.url !in selected && u in selected
            && u !in AddUrls([], Tiers(bucketOf, scored, BUCKET_COUNT), budget) ==>
              exists y <- scored :: y.url == u && y.score >= x.score
  {
    var tiered := AddUrls([], Tiers(bucketOf, scored, BUCKET_COUNT), budget);
    var sorted := LeftOver(bucketOf, scored, tiered);
    LeftOverExact(bucketOf, scored, tiered);
    AddUrlsGrows(tiered, Urls(sorted), budget);
    var selected := AddUrls(tiered, Urls(sorted), budget);
    if x in scored && x.url !in selected && u in selected && u !in tiered {
      AddedIsBest(tiered, sorted, budget, u, x);
    }
  }

  // Each input lands in exactly one bucket: the buckets together hold the input, neither more nor less.
  lemma {:induction false} BucketsPartitionInput(bucketOf: Url -> Bucket, scored: seq<Scored>)
    ensures multiset(Everything(bucketOf, scored, BUCKET_COUNT)) == multiset(scored)
  {
    forall x: Scored
      ensures multiset(Everything(bucketOf, scored, BUCKET_COUNT))[x] == multiset(scored)[x]
    {
      EverythingCounts(bucketOf, scored, BUCKET_COUNT, x);
    }
  }

  lemma {:induction false} SortedCounts(bucketOf: Url -> Bucket, scored: seq<Scored>, b: Bucket, x: Scored)
    ensures multiset(Sorted(bucketOf, scored, b))[x] == if bucketOf(x.url) == b then multiset(scored)[x] else 0
  {
    InBucketCounts(bucketOf, scored, b, x);
    SortKeepsMultiset(InBucket(bucketOf, scored, b));
  }

  lemma {:induction false} FlatCounts<T>(part: nat -> seq<T>, n: nat, x: T)
    requires n > 0
    ensures multiset(Flat(part, n))[x] == multiset(Flat(part, n - 1))[x] + multiset(part(n - 1))[x]
  {
  }

  lemma {:induction false} EverythingCounts(bucketOf: Url -> Bucket, scored: seq<Scored>, n: nat, x: Scored)
    requires n <= BUCKET_COUNT
    ensures multiset(Everything(bucketOf, scored, n))[x]
         == if Index(bucketOf(x.url)) < n then multiset(scored)[x] else 0
  {
    if n > 0 {
      EverythingCounts(bucketOf, scored, n - 1, x);
      FlatCounts(k => Sorted(bucketOf, scored, BucketAt(k)), n, x);
      SortedCounts(bucketOf, scored, BucketAt(n - 1), x);
      SameIndex(bucketOf(x.url), n - 1);
    }
  }

  lemma {:induction false} SameIndex(b: Bucket, k: nat)
    requires k < BUCKET_COUNT
    ensures Index(b) == k <==> b == BucketAt(k)
  {
  }

  lemma {:induction false} InBucketCounts(bucketOf: Url -> Bucket, scored: seq<Scored>, b: Bucket, x: Scored)
    ensures multiset(InBucket(bucketOf, scored, b))[x] == if bucketOf(x.url) == b then multiset(scored)[x] else 0
  {
    if scored != [] {
      var front := scored[..|scored| - 1];
      assert scored == front + [scored[|scored| - 1]];
      InBucketCounts(bucketOf, front, b, x);
    }
  }
}
