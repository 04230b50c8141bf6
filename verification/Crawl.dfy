/**
The website crawl: a frontier of URLs from which batches are pulled and fetched, links discovered in
fetched pages are put at the front or the back of the frontier, and only successful pages count
against the limit.  The web may be infinite.

What a URL's fetch yields, how a link is normalized, and the domain, robots and priority answers for
a URL are parameters.
*/
module Crawl {
  import opened Options
  import opened WebUrls
  import Stratify

  datatype Outcome =
    | Page(links: seq<Url>)
    | Missing  // 404 or 410: an expected miss
    | Failed

  datatype Site = Site(fetch: Url -> Outcome, normalize: Url -> Url,
                       sameDomain: Url -> bool, canFetch: Url -> bool, score: Url -> int)

  const MAX_PAGES_TO_CRAWL: int := 75
  const CONCURRENCY_LIMIT: nat := 8

  // log lists the fetches in order.
  datatype State = State(frontier: seq<Url>, visited: set<Url>, log: seq<Url>, crawled: seq<Url>,
                         failed: nat, missing: nat, discovered: int)

  // ----- The loop as functions -----

  // The next batch and what is left of the frontier.
  function Pull(frontier: seq<Url>, visited: set<Url>, room: nat): (seq<Url>, seq<Url>)
    decreases |frontier|
  {
    if room == 0 || frontier == [] then ([], frontier)
    else if frontier[0] in visited then Pull(frontier[1..], visited, room)
    else
      var (batch, rest) := Pull(frontier[1..], visited + {frontier[0]}, room - 1);
      ([frontier[0]] + batch, rest)
  }

  function Room(s: State, limit: int): nat {
    if limit <= |s.crawled| then 0
    else if limit - |s.crawled| < CONCURRENCY_LIMIT then limit - |s.crawled|
    else CONCURRENCY_LIMIT
  }

  predicate IsNew(site: Site, visited: set<Url>, frontier: seq<Url>, u: Url) {
    site.sameDomain(u) && u !in visited && u !in frontier && site.canFetch(u)
  }

  function AddLink(site: Site, visited: set<Url>, frontier: seq<Url>, link: Url): seq<Url> {
    var u := site.normalize(link);
    if !IsNew(site, visited, frontier, u) then frontier
    else if site.score(u) >= 50 then [u] + frontier
    else frontier + [u]
  }

  function AddLinks(site: Site, visited: set<Url>, frontier: seq<Url>, links: seq<Url>): seq<Url>
    decreases |links|
  {
    if links == [] then frontier
    else AddLinks(site, visited, AddLink(site, visited, frontier, links[0]), links[1..])
  }

  function Digest(site: Site, s: State, url: Url): State {
    match site.fetch(url)
    case Failed => s.(failed := s.failed + 1)
    case Missing => s.(missing := s.missing + 1)
    case Page(links) =>
      s.(crawled := s.crawled + [url], frontier := AddLinks(site, s.visited, s.frontier, links))
  }

  function DigestAll(site: Site, s: State, batch: seq<Url>): State
    decreases |batch|
  {
    if batch == [] then s else DigestAll(site, Digest(site, s, batch[0]), batch[1..])
  }

  function Elements(us: seq<Url>): set<Url> { set u | u in us }

  function Pulled(s: State, limit: int): State {
    var (batch, rest) := Pull(s.frontier, s.visited, Room(s, limit));
    s.(frontier := rest, visited := s.visited + Elements(batch), log := s.log + batch)
  }

  function Round(site: Site, s: State, limit: int): State {
    var s' := DigestAll(site, Pulled(s, limit), Pull(s.frontier, s.visited, Room(s, limit)).0);
    var seen := |s'.visited| + |s'.frontier|;
    s'.(discovered := if seen > s'.discovered then seen else s'.discovered)
  }

  predicate Going(s: State, limit: int) {
    s.frontier != [] && |s.crawled| < limit
  }

  // The whole loop; it ends although the web need not.
  function Loop(site: Site, s: State, limit: int): State
    decreases limit - |s.crawled|, |s.frontier|
  {
    if !Going(s, limit) then s
    else if Pull(s.frontier, s.visited, Room(s, limit)).0 == [] then Pulled(s, limit)
    else
      RoundProgresses(site, s, limit);
      Loop(site, Round(site, s, limit), limit)
  }

  lemma {:induction false} PullShrinks(frontier: seq<Url>, visited: set<Url>, room: nat)
    ensures var (batch, rest) := Pull(frontier, visited, room);
            |batch| <= room && |batch| + |rest| <= |frontier|
    decreases |frontier|
  {
    if room > 0 && frontier != [] {
      if frontier[0] in visited {
        PullShrinks(frontier[1..], visited, room);
      } else {
        PullShrinks(frontier[1..], visited + {frontier[0]}, room - 1);
      }
    }
  }

  // Either a page was crawled, or the frontier lost the batch and gained nothing.
  lemma {:induction false} DigestAllProgresses(site: Site, s: State, batch: seq<Url>)
    ensures var s' := DigestAll(site, s, batch);
            && |s.crawled| <= |s'.crawled| <= |s.crawled| + |batch|
            && (|s'.crawled| == |s.crawled| ==> s'.frontier == s.frontier)
    decreases |batch|
  {
    if batch != [] {
      DigestAllProgresses(site, Digest(site, s, batch[0]), batch[1..]);
    }
  }

  lemma {:induction false} RoundProgresses(site: Site, s: State, limit: int)
    requires Going(s, limit) && Pull(s.frontier, s.visited, Room(s, limit)).0 != []
    ensures var s' := Round(site, s, limit);
            && |s'.crawled| <= limit
            && (|s'.crawled| > |s.crawled| || (|s'.crawled| == |s.crawled| && |s'.frontier| < |s.frontier|))
  {
    PullShrinks(s.frontier, s.visited, Room(s, limit));
    DigestAllProgresses(site, Pulled(s, limit), Pull(s.frontier, s.visited, Room(s, limit)).0);
  }

  // ----- The scan in the source's form -----

  datatype ScanStatus = COMPLETED | PARTIAL_FAILURE | FAILED

  datatype Scan = Scan(status: ScanStatus, pagesDiscovered: int, pagesCrawled: nat, pagesFailed: nat)

  // No limit, or none of use, means 75 pages.
  function Limit(maxPages: Option<int>): (limit: int)
    ensures if maxPages == None || maxPages == Some(0) then limit == 75 else maxPages == Some(limit)
  {
    if maxPages.None? || maxPages.value == 0 then MAX_PAGES_TO_CRAWL else maxPages.value
  }

  function Remove(us: seq<Url>, u: Url): seq<Url> {
    if us == [] then [] else if us[0] == u then us[1..] else [us[0]] + Remove(us[1..], u)
  }

  // The home page goes first, and is added if it is not there.
  function HomeFirst(home: Url, us: seq<Url>): seq<Url> {
    if home !in us then [home] + us
    else if us[0] != home then [home] + Remove(us, home)
    else us
  }

  function Begin(home: Url, targets: seq<Url>, discovered: nat): State {
    State(HomeFirst(home, targets), {}, [], [], 0, 0, discovered)
  }

  // What the scan record says at the end.
  function ScanOf(s: State): Scan {
    Scan(if s.crawled == [] then FAILED else if s.failed > 0 then PARTIAL_FAILURE else COMPLETED,
         s.discovered, |s.crawled|, s.failed)
  }

  method NextBatch(s: State, limit: int) returns (batch: seq<Url>, s': State)
    ensures batch == Pull(s.frontier, s.visited, Room(s, limit)).0
    ensures s' == Pulled(s, limit)
  {
    var frontier, visited := s.frontier, s.visited;
    batch := [];
    ghost var room := Room(s, limit);
    while frontier != [] && |batch| < CONCURRENCY_LIMIT && |s.crawled| + |batch| < limit
      invariant |batch| <= room
      invariant visited == s.visited + Elements(batch)
      invariant Pull(s.frontier, s.visited, room).0 == batch + Pull(frontier, visited, room - |batch|).0
      invariant Pull(s.frontier, s.visited, room).1 == Pull(frontier, visited, room - |batch|).1
      decreases |frontier|
    {
      var next := frontier[0];
      frontier := frontier[1..];
      if next !in visited {
        visited := visited + {next};
        batch := batch + [next];
      }
    }
    s' := s.(frontier := frontier, visited := visited, log := s.log + batch);
  }

  method AddPageLinks(site: Site, visited: set<Url>, before: seq<Url>, links: seq<Url>) returns (frontier: seq<Url>)
    ensures frontier == AddLinks(site, visited, before, links)
  {
    frontier := before;
    for i := 0 to |links|
      invariant AddLinks(site, visited, frontier, links[i..]) == AddLinks(site, visited, before, links)
    {
      assert links[i..][1..] == links[i + 1..];
      var u := site.normalize(links[i]);
      if site.sameDomain(u) && u !in visited && u !in frontier {
        if site.canFetch(u) {
          if site.score(u) >= 50 {
            frontier := [u] + frontier;
          } else {
            frontier := frontier + [u];
          }
        }
      }
    }
  }

  method FetchBatch(site: Site, before: State, batch: seq<Url>) returns (s: State)
    ensures s == DigestAll(site, before, batch)
  {
    s := before;
    for i := 0 to |batch|
      invariant DigestAll(site, s, batch[i..]) == DigestAll(site, before, batch)
    {
      assert batch[i..][1..] == batch[i + 1..];
      match site.fetch(batch[i]) {
        case Failed => s := s.(failed := s.failed + 1);
        case Missing => s := s.(missing := s.missing + 1);
        case Page(links) =>
          var frontier := AddPageLinks(site, s.visited, s.frontier, links);
          s := s.(crawled := s.crawled + [batch[i]], frontier := frontier);
      }
    }
  }

  method ScanRound(site: Site, before: State, limit: int) returns (s: State, empty: bool)
    ensures empty == (Pull(before.frontier, before.visited, Room(before, limit)).0 == [])
    ensures s == if empty then Pulled(before, limit) else Round(site, before, limit)
  {
    var batch, pulled := NextBatch(before, limit);
    if batch == [] {
      return pulled, true;
    }
    s := FetchBatch(site, pulled, batch);
    var seen := |s.visited| + |s.frontier|;
    s := s.(discovered := if seen > s.discovered then seen else s.discovered);
    empty := false;
  }

  method ScanLoop(site: Site, start: State, limit: int) returns (s: State)
    ensures s == Loop(site, start, limit)
  {
    s := start;
    while s.frontier != [] && |s.crawled| < limit
      invariant Loop(site, s, limit) == Loop(site, start, limit)
      decreases limit - |s.crawled|, |s.frontier|
    {
      ghost var before := s;
      var empty;
      s, empty := ScanRound(site, s, limit);
      if empty {
        return;
      }
      RoundProgresses(site, before, limit);
    }
  }

  // The discovered URLs that robots.txt admits.
  function Allowed(site: Site, discovered: seq<Stratify.Scored>): seq<Stratify.Scored> {
    if discovered == [] then []
    else
      var last := |discovered| - 1;
      Allowed(site, discovered[..last]) + if site.canFetch(discovered[last].url) then [discovered[last]] else []
  }

  // The URLs the scan starts from; pathOf gives the path of a URL.
  function Targets(site: Site, pathOf: Url -> string, discovered: seq<Stratify.Scored>, limit: int): seq<Url> {
    Stratify.Selection(Stratify.Classify(pathOf), Allowed(site, discovered), limit)
  }

  function Scanned(site: Site, home: Url, pathOf: Url -> string, discovered: seq<Stratify.Scored>, limit: int): State {
    Loop(site, Begin(home, Targets(site, pathOf, discovered, limit), |discovered|), limit)
  }

  method InitialFrontier(site: Site, home: Url, pathOf: Url -> string, discovered: seq<Stratify.Scored>, limit: int)
    returns (frontier: seq<Url>)
    ensures frontier == HomeFirst(home, Targets(site, pathOf, discovered, limit))
  {
    var filtered: seq<Stratify.Scored> := [];
    for i := 0 to |discovered|
      invariant filtered == Allowed(site, discovered[..i])
    {
      assert discovered[..i + 1][..i] == discovered[..i];
      if site.canFetch(discovered[i].url) {
        filtered := filtered + [discovered[i]];
      }
    }
    assert discovered[..|discovered|] == discovered;
    frontier := Stratify.StratifyUrls(pathOf, filtered, limit);
    if frontier == [] || home !in frontier {
      frontier := [home] + frontier;
    } else if frontier[0] != home {
      frontier := [home] + Remove(frontier, home);
    }
  }

  method RunScan(site: Site, home: Url, pathOf: Url -> string, discovered: seq<Stratify.Scored>, maxPages: Option<int>)
    returns (scan: Scan)
    ensures scan == ScanOf(Scanned(site, home, pathOf, discovered, Limit(maxPages)))
    ensures Reports(site, Scanned(site, home, pathOf, discovered, Limit(maxPages)), Limit(maxPages), |discovered|, scan)
  {
    var limit := Limit(maxPages);
    var frontier := InitialFrontier(site, home, pathOf, discovered, limit);
    var s := State(frontier, {}, [], [], 0, 0, |discovered|);
    s := ScanLoop(site, s, limit);
    scan := Scan(if |s.crawled| == 0 then FAILED else if s.failed > 0 then PARTIAL_FAILURE else COMPLETED,
                 s.discovered, |s.crawled|, s.failed);
    ScanReports(site, home, pathOf, discovered, limit);
  }

  // ----- Where discovered links go -----

  // The links that are new, each once, in the order discovered.
  function Discovered(site: Site, visited: set<Url>, frontier: seq<Url>, links: seq<Url>): seq<Url>
    decreases |links|
  {
    if links == [] then []
    else
      var u := site.normalize(links[0]);
      if IsNew(site, visited, frontier, u) then [u] + Discovered(site, visited, frontier + [u], links[1..])
      else Discovered(site, visited, frontier, links[1..])
  }

  // The urgent ones, last discovered first.
  function Urgent(site: Site, us: seq<Url>): seq<Url> {
    if us == [] then [] else Urgent(site, us[1..]) + if site.score(us[0]) >= 50 then [us[0]] else []
  }

  function Ordinary(site: Site, us: seq<Url>): seq<Url> {
    if us == [] then [] else (if site.score(us[0]) >= 50 then [] else [us[0]]) + Ordinary(site, us[1..])
  }

  lemma {:induction false} DiscoveredDependsOnMembers(site: Site, visited: set<Url>, f: seq<Url>, g: seq<Url>,
                                                      links: seq<Url>)
    requires forall u :: u in f <==> u in g
    ensures Discovered(site, visited, f, links) == Discovered(site, visited, g, links)
    decreases |links|
  {
    if links != [] {
      var u := site.normalize(links[0]);
      DiscoveredDependsOnMembers(site, visited, f, g, links[1..]);
      DiscoveredDependsOnMembers(site, visited, f + [u], g + [u], links[1..]);
    }
  }

  function Layout(site: Site, found: seq<Url>, frontier: seq<Url>): seq<Url> {
    Urgent(site, found) + frontier + Ordinary(site, found)
  }

  lemma {:induction false} LayoutCons(site: Site, u: Url, rest: seq<Url>, frontier: seq<Url>)
    ensures Layout(site, [u] + rest, frontier)
         == Layout(site, rest, if site.score(u) >= 50 then [u] + frontier else frontier + [u])
  {
    assert ([u] + rest)[1..] == rest;
    if site.score(u) >= 50 {
      assert Urgent(site, [u] + rest) == Urgent(site, rest) + [u];
      assert Ordinary(site, [u] + rest) == [] + Ordinary(site, rest) == Ordinary(site, rest);
    } else {
      assert Urgent(site, [u] + rest) == Urgent(site, rest) + [] == Urgent(site, rest);
      assert Ordinary(site, [u] + rest) == [u] + Ordinary(site, rest);
    }
  }

  // Closed form of the insertions: urgent links in front in reverse, ordinary ones behind in order.
  lemma {:induction false} AddLinksClosedForm(site: Site, visited: set<Url>, frontier: seq<Url>, links: seq<Url>)
    ensures var found := Discovered(site, visited, frontier, links);
            AddLinks(site, visited, frontier, links) == Urgent(site, found) + frontier + Ordinary(site, found)
    decreases |links|
  {
    if links != [] {
      var u := site.normalize(links[0]);
      var next := AddLink(site, visited, frontier, links[0]);
      AddLinksClosedForm(site, visited, next, links[1..]);
      if IsNew(site, visited, frontier, u) {
        DiscoveredDependsOnMembers(site, visited, next, frontier + [u], links[1..]);
        LayoutCons(site, u, Discovered(site, visited, frontier + [u], links[1..]), frontier);
      }
    }
  }

  // ----- What the crawl visits -----

  // b is an admissible link of the page fetched from a.
  ghost predicate LinksTo(site: Site, a: Url, b: Url) {
    && site.fetch(a).Page? && site.sameDomain(b) && site.canFetch(b)
    && exists link <- site.fetch(a).links :: site.normalize(link) == b
  }

  ghost predicate IsPath(site: Site, init: seq<Url>, p: seq<Url>) {
    && p != [] && p[0] in init
    && forall i, j | 0 <= i < |p| && j == i + 1 < |p| :: LinksTo(site, p[i], p[j])
  }

  ghost predicate Reachable(site: Site, init: seq<Url>, u: Url) {
    exists p: seq<Url> :: IsPath(site, init, p) && p[|p| - 1] == u
  }

  lemma {:induction false} ReachableStep(site: Site, init: seq<Url>, a: Url, b: Url)
    requires Reachable(site, init, a) && LinksTo(site, a, b)
    ensures Reachable(site, init, b)
  {
    var p: seq<Url> :| IsPath(site, init, p) && p[|p| - 1] == a;
    var q := p + [b];
    forall i, j | 0 <= i < |q| && j == i + 1 < |q|
      ensures LinksTo(site, q[i], q[j])
    {
      assert i < |p| && q[i] == p[i];
      assert j < |p| ==> q[j] == p[j];
    }
    assert IsPath(site, init, q);
  }

  lemma {:induction false} StartIsReachable(site: Site, init: seq<Url>, u: Url)
    requires u in init
    ensures Reachable(site, init, u)
  {
    assert IsPath(site, init, [u]);
  }

  // What the loop keeps; pending is the part of the current batch not yet digested.
  ghost predicate Sound(site: Site, init: seq<Url>, s: State) {
    forall u | u in s.visited || u in s.frontier :: Reachable(site, init, u)
  }

  ghost predicate Closed(site: Site, init: seq<Url>, s: State) {
    && (forall u <- init :: u in s.visited || u in s.frontier)
    && (forall a, b | a in s.crawled && LinksTo(site, a, b) :: b in s.visited || b in s.frontier)
  }

  ghost predicate Counted(site: Site, s: State, pending: seq<Url>) {
    && NoDup(s.log) && NoDup(pending) && NoDup(s.crawled)
    && (forall u :: u in s.log <==> u in s.visited)
    && (forall u <- pending :: u in s.visited)
    && (forall u :: u in s.crawled <==> u in s.visited && u !in pending && site.fetch(u).Page?)
    && |s.log| == |s.crawled| + s.failed + s.missing + |pending|
  }

  ghost predicate Tidy(s: State) {
    NoDup(s.frontier) && forall u <- s.frontier :: u !in s.visited
  }

  lemma {:induction false} PullExact(frontier: seq<Url>, visited: set<Url>, room: nat)
    ensures var (batch, rest) := Pull(frontier, visited, room);
            && NoDup(batch)
            && (forall u <- batch :: u in frontier && u !in visited)
            && (forall u <- rest :: u in frontier)
            && (forall u <- frontier :: u in visited || u in batch || u in rest)
            && (|batch| < room ==> rest == [])
            && (NoDup(frontier) ==> NoDup(rest) && forall u <- batch :: u !in rest)
    decreases |frontier|
  {
    if room > 0 && frontier != [] {
      var tail := frontier[1..];
      assert frontier == [frontier[0]] + tail;
      if frontier[0] in visited {
        PullExact(tail, visited, room);
      } else {
        PullExact(tail, visited + {frontier[0]}, room - 1);
        var (batch, rest) := Pull(tail, visited + {frontier[0]}, room - 1);
        assert frontier[0] !in batch;
        assert NoDup(frontier) ==> frontier[0] !in tail;
      }
    }
  }

  lemma {:induction false} AddLinksExact(site: Site, visited: set<Url>, frontier: seq<Url>, links: seq<Url>)
    ensures var f := AddLinks(site, visited, frontier, links);
            && (forall u <- frontier :: u in f)
            && (forall u <- f :: u in frontier || (u !in visited && site.sameDomain(u) && site.canFetch(u)
                                                   && exists link <- links :: site.normalize(link) == u))
            && (forall link <- links :: var u := site.normalize(link);
                  site.sameDomain(u) && site.canFetch(u) ==> u in visited || u in f)
            && (NoDup(frontier) ==> NoDup(f))
    decreases |links|
  {
    if links != [] {
      var next := AddLink(site, visited, frontier, links[0]);
      assert links == [links[0]] + links[1..];
      AddLinksExact(site, visited, next, links[1..]);
    }
  }

  lemma {:induction false} DigestKeeps(site: Site, init: seq<Url>, s: State, u: Url, rest: seq<Url>)
    requires Sound(site, init, s) && Closed(site, init, s) && Counted(site, s, [u] + rest)
    ensures var s' := Digest(site, s, u);
            && Sound(site, init, s') && Closed(site, init, s') && Counted(site, s', rest)
            && (Tidy(s) ==> Tidy(s'))
  {
    var s' := Digest(site, s, u);
    assert ([u] + rest)[0] == u && forall i | 0 <= i < |rest| :: ([u] + rest)[i + 1] == rest[i];
    assert u in [u] + rest;
    assert NoDup(rest) && u !in rest;
    match site.fetch(u)
    case Page(links) =>
      AddLinksExact(site, s.visited, s.frontier, links);
      forall v | v in s'.frontier
        ensures Reachable(site, init, v)
      {
        if v !in s.frontier {
          assert LinksTo(site, u, v);
          ReachableStep(site, init, u, v);
        }
      }
    case _ =>
  }

  lemma {:induction false} DigestAllKeeps(site: Site, init: seq<Url>, s: State, batch: seq<Url>)
    requires Sound(site, init, s) && Closed(site, init, s) && Counted(site, s, batch)
    ensures var s' := DigestAll(site, s, batch);
            && Sound(site, init, s') && Closed(site, init, s') && Counted(site, s', [])
            && (Tidy(s) ==> Tidy(s'))
    decreases |batch|
  {
    if batch != [] {
      assert batch == [batch[0]] + batch[1..];
      DigestKeeps(site, init, s, batch[0], batch[1..]);
      DigestAllKeeps(site, init, Digest(site, s, batch[0]), batch[1..]);
    }
  }

  lemma {:induction false} NoDupConcat(a: seq<Url>, b: seq<Url>)
    requires NoDup(a) && NoDup(b) && forall u <- b :: u !in a
    ensures NoDup(a + b)
  {
    var c := a + b;
    forall i, j | 0 <= i < j < |c|
      ensures c[i] != c[j]
    {
      assert j >= |a| ==> c[j] == b[j - |a|] && c[j] in b;
      assert i < |a| ==> c[i] == a[i] && c[i] in a;
    }
  }

  lemma {:induction false} PulledKeepsCount(site: Site, s: State, limit: int)
    requires Counted(site, s, [])
    ensures Counted(site, Pulled(s, limit), Pull(s.frontier, s.visited, Room(s, limit)).0)
  {
    PullExact(s.frontier, s.visited, Room(s, limit));
    var batch := Pull(s.frontier, s.visited, Room(s, limit)).0;
    assert forall u <- batch :: u !in s.log;
    NoDupConcat(s.log, batch);
  }

  lemma {:induction false} PulledKeeps(site: Site, init: seq<Url>, s: State, limit: int)
    requires Sound(site, init, s) && Closed(site, init, s) && Counted(site, s, [])
    ensures var s' := Pulled(s, limit);
            && Sound(site, init, s') && Closed(site, init, s')
            && Counted(site, s', Pull(s.frontier, s.visited, Room(s, limit)).0)
            && (Tidy(s) ==> Tidy(s'))
  {
    PullExact(s.frontier, s.visited, Room(s, limit));
    PulledKeepsCount(site, s, limit);
  }

  ghost predicate Inv(site: Site, init: seq<Url>, s: State) {
    Sound(site, init, s) && Closed(site, init, s) && Counted(site, s, [])
  }

  lemma {:induction false} LoopKeeps(site: Site, init: seq<Url>, s: State, limit: int)
    requires Inv(site, init, s)
    ensures Inv(site, init, Loop(site, s, limit))
    ensures Tidy(s) ==> Tidy(Loop(site, s, limit))
    ensures |s.crawled| <= limit ==> |Loop(site, s, limit).crawled| <= limit
    ensures |Loop(site, s, limit).crawled| < limit ==> Loop(site, s, limit).frontier == []
    decreases limit - |s.crawled|, |s.frontier|
  {
    if Going(s, limit) {
      PulledKeeps(site, init, s, limit);
      var batch := Pull(s.frontier, s.visited, Room(s, limit)).0;
      if batch == [] {
        EmptyBatchMeansDone(s, limit);
      } else {
        RoundProgresses(site, s, limit);
        DigestAllKeeps(site, init, Pulled(s, limit), batch);
        LoopKeeps(site, init, Round(site, s, limit), limit);
      }
    }
  }

  // The loop's exit on an empty batch is never premature.
  lemma {:induction false} EmptyBatchMeansDone(s: State, limit: int)
    requires Going(s, limit) && Pull(s.frontier, s.visited, Room(s, limit)).0 == []
    ensures Pulled(s, limit).frontier == [] && forall u <- s.frontier :: u in s.visited
  {
    PullExact(s.frontier, s.visited, Room(s, limit));
  }

  lemma {:induction false} BeginHolds(site: Site, home: Url, targets: seq<Url>, discovered: nat)
    ensures Inv(site, HomeFirst(home, targets), Begin(home, targets, discovered))
  {
    forall u | u in HomeFirst(home, targets)
      ensures Reachable(site, HomeFirst(home, targets), u)
    {
      StartIsReachable(site, HomeFirst(home, targets), u);
    }
  }

  // A crawl that stops short of its limit has visited exactly what its pages' admissible links
  // reach from the initial targets; and every crawl visits only such URLs.
  lemma {:induction false} VisitsExactlyTheReachable(site: Site, home: Url, targets: seq<Url>, discovered: nat, limit: int)
    ensures var final := Loop(site, Begin(home, targets, discovered), limit);
            && (forall u <- final.visited :: Reachable(site, HomeFirst(home, targets), u))
            && (|final.crawled| < limit ==>
                  && final.frontier == []
                  && forall u: Url :: Reachable(site, HomeFirst(home, targets), u) ==> u in final.visited)
  {
    var init := HomeFirst(home, targets);
    var final := Loop(site, Begin(home, targets, discovered), limit);
    BeginHolds(site, home, targets, discovered);
    LoopKeeps(site, init, Begin(home, targets, discovered), limit);
    if |final.crawled| < limit {
      forall u: Url | Reachable(site, init, u)
        ensures u in final.visited
      {
        var p: seq<Url> :| IsPath(site, init, p) && p[|p| - 1] == u;
        PathIsVisited(site, init, final, p, |p| - 1);
      }
    }
  }

  lemma {:induction false} PathIsVisited(site: Site, init: seq<Url>, s: State, p: seq<Url>, n: nat)
    requires Inv(site, init, s) && s.frontier == []
    requires IsPath(site, init, p) && n < |p|
    ensures p[n] in s.visited
    decreases n
  {
    if n > 0 {
      PathIsVisited(site, init, s, p, n - 1);
      assert LinksTo(site, p[n - 1], p[n]);
    }
  }

  // Budget and accounting: the limit holds, no URL is fetched twice, and each fetch is a crawled
  // page, a failure or an expected miss.
  lemma {:induction false} CrawlAccounts(site: Site, home: Url, targets: seq<Url>, discovered: nat, limit: int)
    ensures var final := Loop(site, Begin(home, targets, discovered), limit);
            && |final.crawled| <= (if limit < 0 then 0 else limit)
            && NoDup(final.log) && (forall u :: u in final.log <==> u in final.visited)
            && |final.log| == |final.crawled| + final.failed + final.missing
            && (forall u :: u in final.crawled <==> u in final.visited && site.fetch(u).Page?)
            && (NoDup(targets) ==> NoDup(final.frontier) && forall u <- final.frontier :: u !in final.visited)
  {
    BeginHolds(site, home, targets, discovered);
    var start := Begin(home, targets, discovered);
    LoopKeeps(site, HomeFirst(home, targets), start, limit);
    if NoDup(targets) {
      HomeFirstKeepsNoDup(home, targets);
    }
  }

  lemma {:induction false} RemoveExact(us: seq<Url>, u: Url)
    requires NoDup(us)
    ensures NoDup(Remove(us, u)) && u !in Remove(us, u)
    ensures forall v | v != u :: v in Remove(us, u) <==> v in us
  {
    if us != [] {
      var tail := us[1..];
      assert us == [us[0]] + tail && us[0] !in tail;
      RemoveExact(tail, u);
      assert us[0] != u ==> us[0] !in Remove(tail, u);
    }
  }

  // The home page heads the initial frontier, which otherwise holds just the targets.
  lemma {:induction false} HomeFirstKeepsNoDup(home: Url, us: seq<Url>)
    requires NoDup(us)
    ensures HomeFirst(home, us) != [] && HomeFirst(home, us)[0] == home && NoDup(HomeFirst(home, us))
    ensures forall u :: u in HomeFirst(home, us) <==> u == home || u in us
  {
    RemoveExact(us, home);
  }

  // ----- The whole scan -----

  lemma {:induction false} AllowedExact(site: Site, discovered: seq<Stratify.Scored>)
    ensures forall x :: x in Allowed(site, discovered) <==> x in discovered && site.canFetch(x.url)
  {
    if discovered != [] {
      var front := discovered[..|discovered| - 1];
      assert discovered == front + [discovered[|discovered| - 1]];
      AllowedExact(site, front);
    }
  }

  lemma {:induction false} TargetsExact(site: Site, pathOf: Url -> string, discovered: seq<Stratify.Scored>, limit: int)
    ensures var targets := Targets(site, pathOf, discovered, limit);
            NoDup(targets) && forall u <- targets :: site.canFetch(u)
  {
    var bucketOf, allowed := Stratify.Classify(pathOf), Allowed(site, discovered);
    if limit <= 0 {
      Stratify.NoBudgetSelectsNothing(bucketOf, allowed, limit);
    } else {
      Stratify.SelectionExact(bucketOf, allowed, limit);
      AllowedExact(site, discovered);
    }
  }

  lemma {:induction false} ReachedByLink(site: Site, init: seq<Url>, u: Url)
    requires Reachable(site, init, u)
    ensures u in init || (site.canFetch(u) && site.sameDomain(u))
  {
    var p: seq<Url> :| IsPath(site, init, p) && p[|p| - 1] == u;
    if |p| > 1 {
      assert LinksTo(site, p[|p| - 2], p[|p| - 1]);
    }
  }

  // A scan fetches each URL at most once, never more pages successfully than its limit, and, the home
  // page aside, only what robots.txt admits.
  lemma {:induction false} ScanRespectsRobots(site: Site, home: Url, pathOf: Url -> string,
                                              discovered: seq<Stratify.Scored>, limit: int)
    ensures var final := Scanned(site, home, pathOf, discovered, limit);
            && NoDup(final.log) && |final.crawled| <= (if limit < 0 then 0 else limit)
            && (forall u <- final.log :: u == home || site.canFetch(u))
            && (forall u <- final.frontier :: u !in final.log)
  {
    var targets := Targets(site, pathOf, discovered, limit);
    var init := HomeFirst(home, targets);
    TargetsExact(site, pathOf, discovered, limit);
    HomeFirstKeepsNoDup(home, targets);
    VisitsExactlyTheReachable(site, home, targets, |discovered|, limit);
    CrawlAccounts(site, home, targets, |discovered|, limit);
    forall u | u in Scanned(site, home, pathOf, discovered, limit).log
      ensures u == home || site.canFetch(u)
    {
      ReachedByLink(site, init, u);
    }
  }

  // ----- What the scan reports -----

  function PagesIn(site: Site, us: seq<Url>): set<Url> { set u | u in us && site.fetch(u).Page? }

  function FailuresIn(site: Site, us: seq<Url>): set<Url> { set u | u in us && site.fetch(u).Failed? }

  function MissesIn(site: Site, us: seq<Url>): set<Url> { set u | u in us && site.fetch(u).Missing? }

  // The record by what the site answered to the fetches: a 404 or 410 is no failure.  Unless the limit
  // leaves nothing to do, the URLs seen by the end, fetched or not, raise the number discovered.
  predicate Reports(site: Site, final: State, limit: int, discovered: nat, scan: Scan) {
    var pages, failures := PagesIn(site, final.log), FailuresIn(site, final.log);
    && (scan.status == FAILED <==> pages == {})
    && (scan.status == PARTIAL_FAILURE <==> pages != {} && failures != {})
    && scan.pagesCrawled == |pages| && scan.pagesFailed == |failures|
    && scan.pagesDiscovered == var seen := |final.log| + |final.frontier|;
                               if limit <= 0 || seen < discovered then discovered else seen
  }

  // The counters, apart from the part of the batch not yet digested.
  ghost predicate Tallied(site: Site, s: State, pending: seq<Url>) {
    && s.failed == |FailuresIn(site, s.log) - Elements(pending)|
    && s.missing == |MissesIn(site, s.log) - Elements(pending)|
  }

  lemma {:induction false} OneLessPending(us: set<Url>, u: Url, rest: seq<Url>)
    requires u !in rest
    ensures |us - Elements(rest)| == |us - Elements([u] + rest)| + if u in us then 1 else 0
  {
    assert Elements([u] + rest) == {u} + Elements(rest);
    var which := if u in us then {u} else {};
    assert us - Elements(rest) == (us - Elements([u] + rest)) + which;
  }

  lemma {:induction false} DigestTallies(site: Site, s: State, u: Url, rest: seq<Url>)
    requires Tallied(site, s, [u] + rest) && u in s.log && u !in rest
    ensures Tallied(site, Digest(site, s, u), rest) && Digest(site, s, u).log == s.log
  {
    OneLessPending(FailuresIn(site, s.log), u, rest);
    OneLessPending(MissesIn(site, s.log), u, rest);
  }

  lemma {:induction false} DigestAllTallies(site: Site, s: State, batch: seq<Url>)
    requires Tallied(site, s, batch) && NoDup(batch) && forall u <- batch :: u in s.log
    ensures Tallied(site, DigestAll(site, s, batch), [])
    decreases |batch|
  {
    if batch != [] {
      var u, rest := batch[0], batch[1..];
      assert batch == [u] + rest;
      assert forall v <- rest :: v in batch;
      DigestTallies(site, s, u, rest);
      DigestAllTallies(site, Digest(site, s, u), rest);
    }
  }

  lemma {:induction false} PulledTallies(site: Site, s: State, limit: int)
    requires Tallied(site, s, []) && Counted(site, s, [])
    ensures Tallied(site, Pulled(s, limit), Pull(s.frontier, s.visited, Room(s, limit)).0)
  {
    PullExact(s.frontier, s.visited, Room(s, limit));
    var batch := Pull(s.frontier, s.visited, Room(s, limit)).0;
    var log := s.log + batch;
    assert forall u <- batch :: u !in s.log;
    assert FailuresIn(site, log) - Elements(batch) == FailuresIn(site, s.log) - Elements([]);
    assert MissesIn(site, log) - Elements(batch) == MissesIn(site, s.log) - Elements([]);
  }

  // The URLs seen: fetched, or still in the frontier.
  function Seen(s: State): nat { |s.visited| + |s.frontier| }

  lemma {:induction false} ElementsCount(us: seq<Url>)
    requires NoDup(us)
    ensures |Elements(us)| == |us|
    decreases |us|
  {
    if us != [] {
      var front, last := us[..|us| - 1], us[|us| - 1];
      assert us == front + [last] && last !in front;
      ElementsCount(front);
      assert Elements(us) == Elements(front) + {last};
    }
  }

  lemma {:induction false} PulledSees(s: State, limit: int)
    requires Tidy(s)
    ensures Seen(Pulled(s, limit)) == Seen(s)
  {
    var m := BatchSize(s, limit);
    PullIsPrefix(s.frontier, s.visited, Room(s, limit));
    var batch := s.frontier[..m];
    assert forall u <- batch :: u in s.frontier;
    ElementsCount(batch);
    assert s.visited !! Elements(batch);
  }

  lemma {:induction false} LinksSee(site: Site, visited: set<Url>, frontier: seq<Url>, links: seq<Url>)
    ensures |frontier| <= |AddLinks(site, visited, frontier, links)|
    decreases |links|
  {
    if links != [] {
      LinksSee(site, visited, AddLink(site, visited, frontier, links[0]), links[1..]);
    }
  }

  lemma {:induction false} DigestAllSees(site: Site, s: State, batch: seq<Url>)
    ensures Seen(s) <= Seen(DigestAll(site, s, batch)) && DigestAll(site, s, batch).discovered == s.discovered
    decreases |batch|
  {
    if batch != [] {
      match site.fetch(batch[0]) {
        case Page(links) => LinksSee(site, s.visited, s.frontier, links);
        case _ =>
      }
      DigestAllSees(site, Digest(site, s, batch[0]), batch[1..]);
    }
  }

  // discovered is the number found before the crawl, or what has been seen by now if that is more.
  predicate Noted(s: State, discovered: nat) {
    s.discovered == if Seen(s) < discovered then discovered else Seen(s)
  }

  lemma {:induction false} RoundNotes(site: Site, s: State, limit: int, discovered: nat)
    requires Tidy(s) && (Noted(s, discovered) || s.discovered == discovered)
    ensures Noted(Round(site, s, limit), discovered)
  {
    PulledSees(s, limit);
    DigestAllSees(site, Pulled(s, limit), Pull(s.frontier, s.visited, Room(s, limit)).0);
  }

  lemma {:induction false} RoundReports(site: Site, init: seq<Url>, s: State, limit: int, discovered: nat)
    requires Inv(site, init, s) && Tidy(s) && Tallied(site, s, [])
    requires Noted(s, discovered) || s.discovered == discovered
    ensures var s' := Round(site, s, limit);
            Inv(site, init, s') && Tidy(s') && Tallied(site, s', []) && Noted(s', discovered)
  {
    var batch := Pull(s.frontier, s.visited, Room(s, limit)).0;
    PulledKeeps(site, init, s, limit);
    DigestAllKeeps(site, init, Pulled(s, limit), batch);
    PulledTallies(site, s, limit);
    DigestAllTallies(site, Pulled(s, limit), batch);
    RoundNotes(site, s, limit, discovered);
  }

  lemma {:induction false} LoopReports(site: Site, init: seq<Url>, s: State, limit: int, discovered: nat)
    requires Inv(site, init, s) && Tidy(s) && Tallied(site, s, [])
    requires Noted(s, discovered) || (s.discovered == discovered && Going(s, limit))
    ensures var final := Loop(site, s, limit); Tallied(site, final, []) && Noted(final, discovered)
    decreases limit - |s.crawled|, |s.frontier|
  {
    if Going(s, limit) {
      PullIsPrefix(s.frontier, s.visited, Room(s, limit));
      RoundProgresses(site, s, limit);
      RoundReports(site, init, s, limit, discovered);
      LoopReports(site, init, Round(site, s, limit), limit, discovered);
    }
  }

  lemma {:induction false} BeginTallies(site: Site, home: Url, targets: seq<Url>, discovered: nat)
    ensures Tallied(site, Begin(home, targets, discovered), [])
  {
    assert FailuresIn(site, []) == {} && MissesIn(site, []) == {} && Elements([]) == {};
  }

  lemma {:induction false} CountedPages(site: Site, s: State)
    requires Counted(site, s, [])
    ensures |s.crawled| == |PagesIn(site, s.log)| && |s.visited| == |s.log|
  {
    ElementsCount(s.crawled);
    ElementsCount(s.log);
    assert Elements(s.crawled) == PagesIn(site, s.log) && Elements(s.log) == s.visited;
  }

  lemma {:induction false} CountersExact(site: Site, home: Url, targets: seq<Url>, discovered: nat, limit: int)
    requires NoDup(targets)
    ensures var final := Loop(site, Begin(home, targets, discovered), limit);
            && Counted(site, final, []) && Tallied(site, final, [])
            && final.discovered == if limit <= 0 || Seen(final) < discovered then discovered else Seen(final)
  {
    var start := Begin(home, targets, discovered);
    BeginHolds(site, home, targets, discovered);
    BeginTallies(site, home, targets, discovered);
    HomeFirstKeepsNoDup(home, targets);
    LoopKeeps(site, HomeFirst(home, targets), start, limit);
    if limit > 0 {
      LoopReports(site, HomeFirst(home, targets), start, limit, discovered);
    }
  }

  lemma {:induction false} TalliedReports(site: Site, final: State, limit: int, discovered: nat)
    requires Counted(site, final, []) && Tallied(site, final, [])
    requires final.discovered == if limit <= 0 || Seen(final) < discovered then discovered else Seen(final)
    ensures Reports(site, final, limit, discovered, ScanOf(final))
  {
    CountedPages(site, final);
    assert FailuresIn(site, final.log) - Elements([]) == FailuresIn(site, final.log);
  }

  // A scan has FAILED exactly when no fetched URL was a page, and is a PARTIAL_FAILURE exactly when one was
  // and some fetch failed.
  lemma {:induction false} ScanReports(site: Site, home: Url, pathOf: Url -> string,
                                       discovered: seq<Stratify.Scored>, limit: int)
    ensures var final := Scanned(site, home, pathOf, discovered, limit);
            Reports(site, final, limit, |discovered|, ScanOf(final))
  {
    TargetsExact(site, pathOf, discovered, limit);
    CountersExact(site, home, Targets(site, pathOf, discovered, limit), |discovered|, limit);
    TalliedReports(site, Scanned(site, home, pathOf, discovered, limit), limit, |discovered|);
  }

  // The home page is fetched first, whatever robots.txt says of it.
  lemma {:induction false} HomeIsScannedFirst(site: Site, home: Url, pathOf: Url -> string,
                                              discovered: seq<Stratify.Scored>, limit: int)
    requires limit > 0
    ensures [home] <= Scanned(site, home, pathOf, discovered, limit).log
  {
    TargetsExact(site, pathOf, discovered, limit);
    HomeIsFetchedFirst(site, home, Targets(site, pathOf, discovered, limit), |discovered|, limit);
  }

  lemma {:induction false} DigestAllKeepsLog(site: Site, s: State, batch: seq<Url>)
    ensures DigestAll(site, s, batch).log == s.log
    decreases |batch|
  {
    if batch != [] {
      DigestAllKeepsLog(site, Digest(site, s, batch[0]), batch[1..]);
    }
  }

  lemma {:induction false} LogGrows(site: Site, s: State, limit: int)
    ensures s.log <= Loop(site, s, limit).log
    decreases limit - |s.crawled|, |s.frontier|
  {
    if Going(s, limit) && Pull(s.frontier, s.visited, Room(s, limit)).0 != [] {
      RoundProgresses(site, s, limit);
      DigestAllKeepsLog(site, Pulled(s, limit), Pull(s.frontier, s.visited, Room(s, limit)).0);
      LogGrows(site, Round(site, s, limit), limit);
    }
  }

  lemma {:induction false} HomeIsFetchedFirst(site: Site, home: Url, targets: seq<Url>, discovered: nat, limit: int)
    requires limit > 0 && NoDup(targets)
    ensures [home] <= Loop(site, Begin(home, targets, discovered), limit).log
  {
    var s := Begin(home, targets, discovered);
    HomeFirstKeepsNoDup(home, targets);
    var batch := Pull(s.frontier, s.visited, Room(s, limit)).0;
    assert batch != [] && batch[0] == home;
    RoundProgresses(site, s, limit);
    DigestAllKeepsLog(site, Pulled(s, limit), batch);
    LogGrows(site, Round(site, s, limit), limit);
    assert Round(site, s, limit).log == [] + batch == batch;
  }

  // ----- Whether the targets are fetched -----

  // The first n places of a frontier hold every target still to be fetched, and beside targets only
  // urgent links.
  predicate Ahead(init: seq<Url>, urgent: set<Url>, frontier: seq<Url>, n: nat) {
    && n <= |frontier|
    && (forall i | 0 <= i < n :: frontier[i] in init || frontier[i] in urgent)
    && (forall i | n <= i < |frontier| :: frontier[i] !in init)
  }

  // While a target is still to be fetched, nothing but targets and urgent links has been.
  predicate TargetsFirst(init: seq<Url>, urgent: set<Url>, visited: set<Url>) {
    (exists u <- init :: u !in visited) ==> forall v <- visited :: v in init || v in urgent
  }

  // The urgent links of the pages that can be reached.
  ghost predicate UrgentAre(site: Site, init: seq<Url>, urgent: set<Url>) {
    forall a, b | Reachable(site, init, a) && LinksTo(site, a, b) && site.score(b) >= 50 :: b in urgent
  }

  lemma {:induction false} PullIsPrefix(frontier: seq<Url>, visited: set<Url>, room: nat)
    requires NoDup(frontier) && forall u <- frontier :: u !in visited
    ensures var m := if room <= |frontier| then room else |frontier|;
            Pull(frontier, visited, room) == (frontier[..m], frontier[m..])
    decreases |frontier|
  {
    if room > 0 && frontier != [] {
      var tail := frontier[1..];
      assert frontier[0] !in tail;
      PullIsPrefix(tail, visited + {frontier[0]}, room - 1);
      var m := if room <= |frontier| then room else |frontier|;
      assert [frontier[0]] + tail[..m - 1] == frontier[..m] && tail[m - 1..] == frontier[m..];
    }
  }

  // A round fetches eight URLs, unless the limit or the frontier has fewer left.
  lemma {:induction false} BatchSizeExactly(s: State, limit: int)
    requires Tidy(s) && |s.crawled| <= limit
    ensures var size, left := |Pull(s.frontier, s.visited, Room(s, limit)).0|, limit - |s.crawled|;
            && size <= 8 && size <= left && size <= |s.frontier|
            && (size == 8 || size == left || size == |s.frontier|)
  {
    PullIsPrefix(s.frontier, s.visited, Room(s, limit));
  }

  lemma {:induction false} CutKeepsAhead(init: seq<Url>, urgent: set<Url>, frontier: seq<Url>, n: nat, m: nat)
    requires Ahead(init, urgent, frontier, n) && m <= |frontier|
    ensures Ahead(init, urgent, frontier[m..], if m <= n then n - m else 0)
  {
    assert forall i | 0 <= i < |frontier| - m :: frontier[m..][i] == frontier[m + i];
  }

  // A target that is not in the batch comes after it, so the batch lies within the first n places.
  lemma {:induction false} BatchIsTargetsFirst(init: seq<Url>, urgent: set<Url>, visited: set<Url>, frontier: seq<Url>,
                                               n: nat, m: nat)
    requires Ahead(init, urgent, frontier, n) && TargetsFirst(init, urgent, visited) && m <= |frontier|
    requires forall u <- init :: u in visited || u in frontier
    ensures TargetsFirst(init, urgent, visited + Elements(frontier[..m]))
  {
    if u :| u in init && u !in visited + Elements(frontier[..m]) {
      var i :| 0 <= i < |frontier| && frontier[i] == u;
      assert forall j | 0 <= j < m :: frontier[j] in frontier[..m];
      assert i < n;
      forall v | v in frontier[..m]
        ensures v in init || v in urgent
      {
        var j :| 0 <= j < m && frontier[..m][j] == v;
        assert frontier[j] == v;
      }
    }
  }

  lemma {:induction false} PulledKeepsAhead(init: seq<Url>, urgent: set<Url>, s: State, limit: int, n: nat)
    returns (left: nat)
    requires Tidy(s) && Ahead(init, urgent, s.frontier, n) && TargetsFirst(init, urgent, s.visited)
    requires forall u <- init :: u in s.visited || u in s.frontier
    ensures Ahead(init, urgent, Pulled(s, limit).frontier, left) && TargetsFirst(init, urgent, Pulled(s, limit).visited)
  {
    var room := Room(s, limit);
    var m := if room <= |s.frontier| then room else |s.frontier|;
    PullIsPrefix(s.frontier, s.visited, room);
    CutKeepsAhead(init, urgent, s.frontier, n, m);
    BatchIsTargetsFirst(init, urgent, s.visited, s.frontier, n, m);
    left := if m <= n then n - m else 0;
  }

  lemma {:induction false} LinkKeepsAhead(site: Site, init: seq<Url>, urgent: set<Url>, visited: set<Url>,
                                          frontier: seq<Url>, link: Url, n: nat) returns (m: nat)
    requires Ahead(init, urgent, frontier, n) && forall u <- init :: u in visited || u in frontier
    requires var u := site.normalize(link);
             site.sameDomain(u) && site.canFetch(u) && site.score(u) >= 50 ==> u in urgent
    ensures Ahead(init, urgent, AddLink(site, visited, frontier, link), m)
    ensures forall u <- init :: u in visited || u in AddLink(site, visited, frontier, link)
  {
    var u := site.normalize(link);
    m := if IsNew(site, visited, frontier, u) && site.score(u) >= 50 then n + 1 else n;
  }

  lemma {:induction false} LinksKeepAhead(site: Site, init: seq<Url>, urgent: set<Url>, visited: set<Url>,
                                          frontier: seq<Url>, links: seq<Url>, n: nat) returns (m: nat)
    requires Ahead(init, urgent, frontier, n) && forall u <- init :: u in visited || u in frontier
    requires forall link <- links :: var u := site.normalize(link);
               site.sameDomain(u) && site.canFetch(u) && site.score(u) >= 50 ==> u in urgent
    ensures Ahead(init, urgent, AddLinks(site, visited, frontier, links), m)
    ensures forall u <- init :: u in visited || u in AddLinks(site, visited, frontier, links)
    decreases |links|
  {
    m := n;
    if links != [] {
      assert links[0] in links && forall link <- links[1..] :: link in links;
      m := LinkKeepsAhead(site, init, urgent, visited, frontier, links[0], n);
      m := LinksKeepAhead(site, init, urgent, visited, AddLink(site, visited, frontier, links[0]), links[1..], m);
    }
  }

  lemma {:induction false} DigestKeepsAhead(site: Site, init: seq<Url>, urgent: set<Url>, s: State, u: Url, n: nat)
    returns (m: nat)
    requires Ahead(init, urgent, s.frontier, n) && forall v <- init :: v in s.visited || v in s.frontier
    requires UrgentAre(site, init, urgent) && Reachable(site, init, u)
    ensures Ahead(init, urgent, Digest(site, s, u).frontier, m) && Digest(site, s, u).visited == s.visited
    ensures forall v <- init :: v in s.visited || v in Digest(site, s, u).frontier
  {
    m := n;
    match site.fetch(u) {
      case Page(links) =>
        forall link | link in links
          ensures var v := site.normalize(link);
                  site.sameDomain(v) && site.canFetch(v) && site.score(v) >= 50 ==> v in urgent
        {
          var v := site.normalize(link);
          assert site.sameDomain(v) && site.canFetch(v) ==> LinksTo(site, u, v);
        }
        m := LinksKeepAhead(site, init, urgent, s.visited, s.frontier, links, n);
      case _ =>
    }
  }

  lemma {:induction false} DigestAllKeepsAhead(site: Site, init: seq<Url>, urgent: set<Url>, s: State,
                                               batch: seq<Url>, n: nat)
    returns (m: nat)
    requires Ahead(init, urgent, s.frontier, n) && forall v <- init :: v in s.visited || v in s.frontier
    requires UrgentAre(site, init, urgent) && forall u <- batch :: Reachable(site, init, u)
    ensures Ahead(init, urgent, DigestAll(site, s, batch).frontier, m) && DigestAll(site, s, batch).visited == s.visited
    decreases |batch|
  {
    m := n;
    if batch != [] {
      assert batch[0] in batch && forall u <- batch[1..] :: u in batch;
      m := DigestKeepsAhead(site, init, urgent, s, batch[0], n);
      m := DigestAllKeepsAhead(site, init, urgent, Digest(site, s, batch[0]), batch[1..], m);
    }
  }

  lemma {:induction false} LoopKeepsAhead(site: Site, init: seq<Url>, urgent: set<Url>, s: State, limit: int, n: nat)
    requires Inv(site, init, s) && Tidy(s) && UrgentAre(site, init, urgent)
    requires Ahead(init, urgent, s.frontier, n) && TargetsFirst(init, urgent, s.visited)
    ensures TargetsFirst(init, urgent, Loop(site, s, limit).visited)
    decreases limit - |s.crawled|, |s.frontier|
  {
    if Going(s, limit) {
      var left := PulledKeepsAhead(init, urgent, s, limit, n);
      var batch := Pull(s.frontier, s.visited, Room(s, limit)).0;
      if batch != [] {
        RoundProgresses(site, s, limit);
        PulledKeeps(site, init, s, limit);
        assert forall u <- batch :: u in Pulled(s, limit).visited;
        var m := DigestAllKeepsAhead(site, init, urgent, Pulled(s, limit), batch, left);
        DigestAllKeeps(site, init, Pulled(s, limit), batch);
        LoopKeepsAhead(site, init, urgent, Round(site, s, limit), limit, m);
      }
    }
  }

  lemma {:induction false} NoDupIsCounted(us: seq<Url>, all: set<Url>)
    requires NoDup(us) && forall u <- us :: u in all
    ensures |us| <= |all|
    decreases |us|
  {
    if us != [] {
      var front, last := us[..|us| - 1], us[|us| - 1];
      assert last !in front;
      NoDupIsCounted(front, all - {last});
    }
  }

  lemma {:induction false} MissingTargetLeavesRoom(init: seq<Url>, urgent: set<Url>, visited: set<Url>,
                                                   log: seq<Url>, u: Url)
    requires TargetsFirst(init, urgent, visited) && NoDup(log) && forall v <- log :: v in visited
    requires u in init && u !in visited
    ensures |log| < |Elements(init) + urgent|
  {
    var all := Elements(init) + urgent;
    assert u in all && forall v <- log :: v in all - {u};
    NoDupIsCounted(log, all - {u});
    assert |all - {u}| == |all| - 1;
  }

  // With room in the limit for the home page, the targets and the urgent links of the reachable pages, every
  // target is fetched.
  lemma {:induction false} TargetsFetchedWithRoom(site: Site, home: Url, targets: seq<Url>, discovered: nat, limit: int,
                                                  urgent: set<Url>)
    requires NoDup(targets) && UrgentAre(site, HomeFirst(home, targets), urgent)
    requires |Elements(HomeFirst(home, targets)) + urgent| <= limit
    ensures forall u <- HomeFirst(home, targets) :: u in Loop(site, Begin(home, targets, discovered), limit).log
  {
    var init := HomeFirst(home, targets);
    var final := Loop(site, Begin(home, targets, discovered), limit);
    HomeFirstKeepsNoDup(home, targets);
    CrawlAccounts(site, home, targets, discovered, limit);
    BeginHolds(site, home, targets, discovered);
    LoopKeepsAhead(site, init, urgent, Begin(home, targets, discovered), limit, |init|);
    VisitsExactlyTheReachable(site, home, targets, discovered, limit);
    forall u | u in init
      ensures u in final.visited
    {
      if u !in final.visited {
        MissingTargetLeavesRoom(init, urgent, final.visited, final.log, u);
        StartIsReachable(site, init, u);
      }
    }
  }

  // ----- and when there is no room -----

  // Every URL is a page of score 60, and only the home page has links.
  function LinksAtHome(home: Url, links: seq<Url>): Site {
    Site(u => if u == home then Page(links) else Page([]), u => u, u => true, u => true, u => 60)
  }

  lemma {:induction false} DigestWithoutLinks(home: Url, links: seq<Url>, s: State, batch: seq<Url>)
    requires home !in batch || links == []
    ensures DigestAll(LinksAtHome(home, links), s, batch) == s.(crawled := s.crawled + batch)
    decreases |batch|
  {
    if batch != [] {
      var next := Digest(LinksAtHome(home, links), s, batch[0]);
      DigestWithoutLinks(home, links, next, batch[1..]);
      assert next.crawled + batch[1..] == s.crawled + batch;
    } else {
      assert s.crawled + batch == s.crawled;
    }
  }

  ghost predicate IsPlain(home: Url, links: seq<Url>, s: State) { Tidy(s) && (home !in s.frontier || links == []) }

  function BatchSize(s: State, limit: int): nat {
    if Room(s, limit) <= |s.frontier| then Room(s, limit) else |s.frontier|
  }

  // How far into the frontier the limit goes.
  function Within(s: State, limit: int): nat {
    if limit <= |s.crawled| then 0
    else if limit - |s.crawled| < |s.frontier| then limit - |s.crawled| else |s.frontier|
  }

  // next is s after a batch of m pages without links.
  predicate IsAfterBatch(s: State, next: State, m: nat) {
    && m <= |s.frontier|
    && next.frontier == s.frontier[m..] && next.visited == s.visited + Elements(s.frontier[..m])
    && next.log == s.log + s.frontier[..m] && next.crawled == s.crawled + s.frontier[..m]
  }

  lemma {:induction false} PlainRound(home: Url, links: seq<Url>, s: State, limit: int, m: nat)
    requires IsPlain(home, links, s) && m == BatchSize(s, limit)
    ensures Pull(s.frontier, s.visited, Room(s, limit)).0 == s.frontier[..m]
    ensures IsAfterBatch(s, Round(LinksAtHome(home, links), s, limit), m)
  {
    PullIsPrefix(s.frontier, s.visited, Room(s, limit));
    assert forall u <- s.frontier[..m] :: u in s.frontier;
    DigestWithoutLinks(home, links, Pulled(s, limit), s.frontier[..m]);
  }

  lemma {:induction false} CutTwice(us: seq<Url>, log: seq<Url>, m: nat, k: nat)
    requires m + k <= |us|
    ensures log + us[..m] + us[m..][..k] == log + us[..m + k]
  {
    assert us[..m] + us[m..][..k] == us[..m + k];
  }

  lemma {:induction false} WithinAfterBatch(s: State, next: State, limit: int)
    requires IsAfterBatch(s, next, BatchSize(s, limit)) && Going(s, limit)
    ensures BatchSize(s, limit) > 0 && BatchSize(s, limit) + Within(next, limit) == Within(s, limit)
  {
    assert |next.crawled| == |s.crawled| + BatchSize(s, limit);
  }

  ghost predicate FetchesInOrder(site: Site, s: State, limit: int) {
    Loop(site, s, limit).log == s.log + s.frontier[..Within(s, limit)]
  }

  lemma {:induction false} BatchThenOrder(site: Site, s: State, next: State, limit: int)
    requires IsAfterBatch(s, next, BatchSize(s, limit)) && Going(s, limit) && FetchesInOrder(site, next, limit)
    requires Loop(site, s, limit) == Loop(site, next, limit)
    ensures FetchesInOrder(site, s, limit)
  {
    WithinAfterBatch(s, next, limit);
    CutTwice(s.frontier, s.log, BatchSize(s, limit), Within(next, limit));
  }

  // A frontier of pages without links is fetched in order, as far as the limit goes.
  lemma {:induction false} PlainLoop(home: Url, links: seq<Url>, s: State, limit: int)
    requires IsPlain(home, links, s)
    ensures FetchesInOrder(LinksAtHome(home, links), s, limit)
    decreases |s.frontier|
  {
    if Going(s, limit) {
      var m := BatchSize(s, limit);
      PlainRound(home, links, s, limit, m);
      var next := Round(LinksAtHome(home, links), s, limit);
      WithinAfterBatch(s, next, limit);
      LoopGoesOn(LinksAtHome(home, links), s, limit, next);
      TailIsTidy(s, next, m);
      PlainLoop(home, links, next, limit);
      BatchThenOrder(LinksAtHome(home, links), s, next, limit);
    } else {
      StopsAtOnce(LinksAtHome(home, links), s, limit);
    }
  }

  lemma {:induction false} StopsAtOnce(site: Site, s: State, limit: int)
    requires !Going(s, limit)
    ensures FetchesInOrder(site, s, limit)
  {
    assert s.log + [] == s.log;
  }

  lemma {:induction false} TailIsTidy(s: State, next: State, m: nat)
    requires Tidy(s) && m <= |s.frontier| && next.frontier == s.frontier[m..]
    requires next.visited == s.visited + Elements(s.frontier[..m])
    ensures Tidy(next) && forall u <- next.frontier :: u in s.frontier
  {
    forall i, j | 0 <= i < |s.frontier| - m && 0 <= j < m
      ensures s.frontier[m..][i] != s.frontier[..m][j]
    {
      assert s.frontier[m..][i] == s.frontier[m + i] && s.frontier[..m][j] == s.frontier[j];
    }
  }

  lemma {:induction false} LoopGoesOn(site: Site, s: State, limit: int, next: State)
    requires Going(s, limit) && Pull(s.frontier, s.visited, Room(s, limit)).0 != [] && next == Round(site, s, limit)
    ensures Loop(site, s, limit) == Loop(site, next, limit)
  {
    RoundProgresses(site, s, limit);
  }

  // New links, all urgent, come to stand before the frontier.
  lemma {:induction false} NewLinksGoInFront(home: Url, all: seq<Url>, visited: set<Url>, frontier: seq<Url>,
                                             links: seq<Url>) returns (front: seq<Url>)
    requires NoDup(links) && forall u <- links :: u !in visited && u !in frontier
    ensures AddLinks(LinksAtHome(home, all), visited, frontier, links) == front + frontier && |front| == |links|
    decreases |links|
  {
    front := [];
    if links != [] {
      var next := AddLink(LinksAtHome(home, all), visited, frontier, links[0]);
      assert links[0] in links && next == [links[0]] + frontier;
      assert forall u <- links[1..] :: u in links && u != links[0];
      var rest := NewLinksGoInFront(home, all, visited, next, links[1..]);
      front := rest + [links[0]];
      assert rest + next == front + frontier;
    } else {
      assert [] + frontier == frontier;
    }
  }

  lemma {:induction false} HomeFirstInBatch(home: Url, links: seq<Url>, s: State, batch: seq<Url>)
    requires batch != [] && batch[0] == home && home !in batch[1..]
    ensures DigestAll(LinksAtHome(home, links), s, batch)
         == s.(crawled := s.crawled + batch, frontier := AddLinks(LinksAtHome(home, links), s.visited, s.frontier, links))
  {
    var next := Digest(LinksAtHome(home, links), s, home);
    DigestWithoutLinks(home, links, next, batch[1..]);
    assert next.crawled + batch[1..] == s.crawled + batch;
  }

  // The first batch of a selection that is larger than it.
  lemma {:induction false} FirstPull(init: seq<Url>, s: State, limit: int)
    requires NoDup(init) && CONCURRENCY_LIMIT < |init| <= limit && s.frontier == init && s.visited == {}
    requires s.log == [] && s.crawled == []
    ensures Room(s, limit) == CONCURRENCY_LIMIT
    ensures Pull(s.frontier, s.visited, Room(s, limit)).0 == init[..CONCURRENCY_LIMIT]
    ensures var p := Pulled(s, limit);
            && p.frontier == init[CONCURRENCY_LIMIT..] && p.visited == Elements(init[..CONCURRENCY_LIMIT])
            && p.log == init[..CONCURRENCY_LIMIT] && p.crawled == []
  {
    PullIsPrefix(init, {}, CONCURRENCY_LIMIT);
  }

  predicate AfterFirstBatch(init: seq<Url>, front: seq<Url>, s: State)
    requires |init| > CONCURRENCY_LIMIT
  {
    && s.frontier == front + init[CONCURRENCY_LIMIT..] && s.visited == Elements(init[..CONCURRENCY_LIMIT])
    && s.log == init[..CONCURRENCY_LIMIT] && s.crawled == init[..CONCURRENCY_LIMIT]
  }

  lemma {:induction false} FirstRound(home: Url, links: seq<Url>, init: seq<Url>, s: State, limit: int)
    returns (front: seq<Url>)
    requires NoDup(init) && CONCURRENCY_LIMIT < |init| <= limit && init[0] == home
    requires s.frontier == init && s.visited == {} && s.log == [] && s.crawled == []
    requires NoDup(links) && forall u <- links :: u !in init
    ensures AfterFirstBatch(init, front, Round(LinksAtHome(home, links), s, limit)) && |front| == |links|
    ensures IsPlain(home, links, Round(LinksAtHome(home, links), s, limit))
  {
    var batch, rest := init[..CONCURRENCY_LIMIT], init[CONCURRENCY_LIMIT..];
    FirstPull(init, s, limit);
    assert forall u <- batch :: u in init;
    assert forall u <- rest :: u in init;
    front := NewLinksGoInFront(home, links, Elements(batch), rest, links);
    assert home !in batch[1..];
    HomeFirstInBatch(home, links, Pulled(s, limit), batch);
    NewFrontierIsPlain(home, links, init, Round(LinksAtHome(home, links), s, limit));
  }

  lemma {:induction false} NewFrontierIsPlain(home: Url, links: seq<Url>, init: seq<Url>, s: State)
    requires NoDup(init) && |init| > CONCURRENCY_LIMIT && init[0] == home
    requires s.visited == Elements(init[..CONCURRENCY_LIMIT])
    requires s.frontier == AddLinks(LinksAtHome(home, links), s.visited, init[CONCURRENCY_LIMIT..], links)
    ensures IsPlain(home, links, s)
  {
    AddLinksExact(LinksAtHome(home, links), s.visited, init[CONCURRENCY_LIMIT..], links);
    assert init[..CONCURRENCY_LIMIT][0] == home;
  }

  // ----- exactly when there is room -----

  // Of whatever pages the site has, at most m of the urgent links that can be reached are not targets.
  ghost predicate AtMostUrgent(site: Site, init: seq<Url>, m: nat) {
    exists urgent: set<Url> :: UrgentAre(site, init, urgent) && |urgent - Elements(init)| <= m
  }

  ghost predicate AllFetched(site: Site, home: Url, targets: seq<Url>, discovered: nat, limit: int) {
    forall u <- HomeFirst(home, targets) :: u in Loop(site, Begin(home, targets, discovered), limit).log
  }

  lemma {:induction false} RoundLogs(site: Site, s: State, limit: int, batch: seq<Url>)
    requires Pull(s.frontier, s.visited, Room(s, limit)).0 == batch && batch != [] && Going(s, limit)
    ensures s.log + batch <= Loop(site, s, limit).log
  {
    DigestAllKeepsLog(site, Pulled(s, limit), batch);
    LoopGoesOn(site, s, limit, Round(site, s, limit));
    LogGrows(site, Round(site, s, limit), limit);
  }

  // A selection no larger than a batch is fetched before any link is found.
  lemma {:induction false} FirstBatchIsAll(site: Site, home: Url, targets: seq<Url>, discovered: nat, limit: int)
    requires NoDup(targets)
    requires |HomeFirst(home, targets)| <= limit && |HomeFirst(home, targets)| <= CONCURRENCY_LIMIT
    ensures AllFetched(site, home, targets, discovered, limit)
  {
    var init, s := HomeFirst(home, targets), Begin(home, targets, discovered);
    HomeFirstKeepsNoDup(home, targets);
    PullIsPrefix(init, {}, Room(s, limit));
    assert init[..|init|] == init;
    RoundLogs(site, s, limit, init);
    assert [] + init == init;
    PrefixContains(init, Loop(site, s, limit).log);
  }

  lemma {:induction false} PrefixContains(prefix: seq<Url>, us: seq<Url>)
    requires prefix <= us
    ensures forall u <- prefix :: u in us
  {
    assert us == prefix + us[|prefix|..];
  }

  lemma {:induction false} LinksAreUrgent(home: Url, links: seq<Url>, init: seq<Url>, m: nat)
    requires |links| <= m
    ensures AtMostUrgent(LinksAtHome(home, links), init, m)
  {
    ElementsAtMost(links);
    assert UrgentAre(LinksAtHome(home, links), init, Elements(links));
    SubsetIsSmaller(Elements(links) - Elements(init), Elements(links));
  }

  lemma {:induction false} SubsetIsSmaller(a: set<Url>, b: set<Url>)
    requires a <= b
    ensures |a| <= |b|
  {
    assert b == a + (b - a);
  }

  lemma {:induction false} ElementsAtMost(us: seq<Url>)
    ensures |Elements(us)| <= |us|
    decreases |us|
  {
    if us != [] {
      var front, last := us[..|us| - 1], us[|us| - 1];
      ElementsAtMost(front);
      assert Elements(us) == Elements(front) + {last};
    }
  }

  // A selection larger than the limit loses its last page even where there are no links.
  lemma {:induction false} NoLinksStarve(home: Url, targets: seq<Url>, discovered: nat, limit: int)
    requires NoDup(targets) && |HomeFirst(home, targets)| > limit
    ensures !AllFetched(LinksAtHome(home, []), home, targets, discovered, limit)
  {
    var init, s := HomeFirst(home, targets), Begin(home, targets, discovered);
    HomeFirstKeepsNoDup(home, targets);
    PlainLoop(home, [], s, limit);
    var k := Within(s, limit);
    assert [] + init[..k] == init[..k] && k < |init|;
    assert init[|init| - 1] !in init[..k];
  }

  lemma {:induction false} UrgentLinksStarveTarget(home: Url, targets: seq<Url>, discovered: nat, limit: int,
                                                   links: seq<Url>)
    requires NoDup(targets) && CONCURRENCY_LIMIT < |HomeFirst(home, targets)| <= limit
    requires NoDup(links) && |links| == limit - |HomeFirst(home, targets)| + 1
    requires forall u <- links :: u !in HomeFirst(home, targets)
    ensures !AllFetched(LinksAtHome(home, links), home, targets, discovered, limit)
  {
    var init, s := HomeFirst(home, targets), Begin(home, targets, discovered);
    HomeFirstKeepsNoDup(home, targets);
    var front := FirstRound(home, links, init, s, limit);
    var next := Round(LinksAtHome(home, links), s, limit);
    FirstPull(init, s, limit);
    LoopGoesOn(LinksAtHome(home, links), s, limit, next);
    PlainLoop(home, links, next, limit);
    LastIsCut(init, front, next, limit);
    assert init[|init| - 1] in init;
  }

  // The urgent links fill the limit, so that the last page falls out.
  lemma {:induction false} LastIsCut(init: seq<Url>, front: seq<Url>, s: State, limit: int)
    requires NoDup(init) && |init| > CONCURRENCY_LIMIT && AfterFirstBatch(init, front, s) && NoDup(s.frontier)
    requires |front| == limit - |init| + 1
    ensures init[|init| - 1] !in s.log + s.frontier[..Within(s, limit)]
  {
    var last := |s.frontier| - 1;
    assert s.frontier[last] == init[|init| - 1] && Within(s, limit) == last;
    assert init[|init| - 1] !in init[..CONCURRENCY_LIMIT];
    assert s.frontier[last] !in s.frontier[..last];
  }

  function Longest(us: seq<Url>): nat {
    if us == [] then 0 else if |us[0]| > Longest(us[1..]) then |us[0]| else Longest(us[1..])
  }

  lemma {:induction false} LongestBounds(us: seq<Url>)
    ensures forall u <- us :: |u| <= Longest(us)
    decreases |us|
  {
    if us != [] {
      LongestBounds(us[1..]);
      assert us == [us[0]] + us[1..];
    }
  }

  // There are always more URLs.
  lemma {:induction false} OtherUrls(us: seq<Url>, n: nat) returns (others: seq<Url>)
    ensures |others| == n && NoDup(others) && forall u <- others :: u !in us
  {
    LongestBounds(us);
    others := seq(n, i requires 0 <= i < n => seq(Longest(us) + 1 + i, _ => 'a'));
    assert forall i | 0 <= i < n :: |others[i]| == Longest(us) + 1 + i;
  }

  // Whatever the site, the home page and all selected pages are fetched exactly if they fit the limit, and
  // fit the first batch or leave room for all urgent links.
  lemma {:induction false} TargetsFetchedExactly(home: Url, targets: seq<Url>, discovered: nat, limit: int, m: nat)
    requires NoDup(targets)
    ensures var n := |HomeFirst(home, targets)|;
            (forall site: Site | AtMostUrgent(site, HomeFirst(home, targets), m) ::
               AllFetched(site, home, targets, discovered, limit))
            <==> n <= limit && (n <= CONCURRENCY_LIMIT || n + m <= limit)
  {
    var init := HomeFirst(home, targets);
    var n := |init|;
    if n > limit {
      LinksAreUrgent(home, [], init, m);
      NoLinksStarve(home, targets, discovered, limit);
    } else if n > CONCURRENCY_LIMIT && n + m > limit {
      var links := OtherUrls(init, limit - n + 1);
      LinksAreUrgent(home, links, init, m);
      UrgentLinksStarveTarget(home, targets, discovered, limit, links);
    } else {
      forall site: Site | AtMostUrgent(site, init, m)
        ensures AllFetched(site, home, targets, discovered, limit)
      {
        FetchedWithRoom(site, home, targets, discovered, limit, m);
      }
    }
  }

  lemma {:induction false} FetchedWithRoom(site: Site, home: Url, targets: seq<Url>, discovered: nat, limit: int, m: nat)
    requires NoDup(targets) && AtMostUrgent(site, HomeFirst(home, targets), m)
    requires var n := |HomeFirst(home, targets)|; n <= limit && (n <= CONCURRENCY_LIMIT || n + m <= limit)
    ensures AllFetched(site, home, targets, discovered, limit)
  {
    var init := HomeFirst(home, targets);
    if |init| <= CONCURRENCY_LIMIT {
      FirstBatchIsAll(site, home, targets, discovered, limit);
    } else {
      var urgent: set<Url> :| UrgentAre(site, init, urgent) && |urgent - Elements(init)| <= m;
      ElementsAtMost(init);
      assert Elements(init) + urgent == Elements(init) + (urgent - Elements(init));
      TargetsFetchedWithRoom(site, home, targets, discovered, limit, urgent);
    }
  }
}
