/** Shared ground of the search-source reader and bootstrap: channel configurations, cluster
    rosters, and the configuration revision that writers keep odd while they are writing. */
module SearchSource {
  import opened Common

  datatype Config = Config(
    id: nat, channelId: string, channelType: nat, normal: bool, leader: nat,
    replicaMax: nat, replicas: seq<nat>, learners: seq<nat>, migrateFrom: nat, migrateTo: nat,
    term: nat, version: nat)

  /** White space in the Latin-1 range. */
  predicate Space(c: char) {
    c == ' ' || '\t' <= c <= '\r' || c == '\U{85}' || c == '\U{A0}'
  }

  /** Empty after trimming white space. */
  predicate Blank(s: string) {
    forall c :: c in s ==> Space(c)
  }

  predicate Distinct(s: seq<nat>) {
    forall i, j :: 0 <= i < j < |s| ==> s[i] != s[j]
  }

  predicate ValidConfig(cfg: Config, roster: seq<nat>) {
    && cfg.id != 0 && !Blank(cfg.channelId) && cfg.channelType != 0 && cfg.normal && cfg.leader != 0
    && cfg.replicaMax != 0 && cfg.replicaMax == |cfg.replicas| <= |roster| && cfg.learners == []
    && cfg.migrateFrom == 0 && cfg.migrateTo == 0 && cfg.term != 0 && cfg.version != 0
    && (forall r :: r in cfg.replicas ==> r != 0 && r in roster)
    && Distinct(cfg.replicas) && cfg.leader in cfg.replicas
  }

  // ---------- Rosters ----------

  predicate Ascending(s: seq<nat>) {
    forall i, j :: 0 <= i < j < |s| ==> s[i] < s[j]
  }

  /** `s` in ascending order, repetitions kept next to each other. */
  function Sort(s: seq<nat>): seq<nat> {
    if s == [] then [] else Insert(s[0], Sort(s[1..]))
  }

  function Insert(x: nat, s: seq<nat>): seq<nat> {
    if s == [] || x <= s[0] then [x] + s else [s[0]] + Insert(x, s[1..])
  }

  /** Ascending, seen one neighbour at a time. */
  predicate Climbs(s: seq<nat>) {
    |s| < 2 || (s[0] < s[1] && Climbs(s[1..]))
  }

  /** Never descending, seen one neighbour at a time. */
  predicate NeverDescends(s: seq<nat>) {
    |s| < 2 || (s[0] <= s[1] && NeverDescends(s[1..]))
  }

  lemma {:induction false} ClimbsIsAscending(s: seq<nat>)
    ensures Climbs(s) <==> Ascending(s)
  {
    if |s| >= 2 {
      ClimbsIsAscending(s[1..]);
      if Climbs(s) {
        forall i, j | 0 <= i < j < |s| ensures s[i] < s[j] {
          assert s[j] == s[1..][j - 1] && (i > 0 ==> s[i] == s[1..][i - 1]);
        }
      }
      if Ascending(s) {
        forall i, j | 0 <= i < j < |s[1..]| ensures s[1..][i] < s[1..][j] {
          assert s[1..][i] == s[i + 1] && s[1..][j] == s[j + 1];
        }
      }
    }
  }

  lemma {:induction false} InsertKeeps(x: nat, s: seq<nat>)
    requires NeverDescends(s)
    ensures NeverDescends(Insert(x, s)) && forall y :: y in Insert(x, s) <==> y == x || y in s
    ensures Climbs(Insert(x, s)) <==> Climbs(s) && x !in s
    ensures Insert(x, s)[0] == if s == [] || x <= s[0] then x else s[0]
  {
    if s != [] {
      LeastIsFirst(s);
      if s[0] < x {
        InsertKeeps(x, s[1..]);
        var r := Insert(x, s[1..]);
        assert ([s[0]] + r)[1..] == r && s == [s[0]] + s[1..];
      } else {
        assert ([x] + s)[1..] == s;
      }
    }
  }

  lemma {:induction false} LeastIsFirst(s: seq<nat>)
    requires NeverDescends(s) && s != []
    ensures forall y :: y in s ==> s[0] <= y
  {
    if |s| >= 2 {
      LeastIsFirst(s[1..]);
      assert s == [s[0]] + s[1..];
    }
  }

  lemma {:induction false} Neighbours(s: seq<nat>, i: nat)
    requires NeverDescends(s) && i + 1 < |s|
    ensures s[i] <= s[i + 1]
  {
    if i > 0 {
      Neighbours(s[1..], i - 1);
    }
  }

  lemma {:induction false} AscendsFurther(s: seq<nat>, n: nat)
    requires NeverDescends(s) && n < |s| && Ascending(s[..n]) && (n > 0 ==> s[n - 1] != s[n])
    ensures Ascending(s[..n + 1])
  {
    if n > 0 {
      Neighbours(s, n - 1);
      forall i | 0 <= i < n ensures s[i] < s[n] {
        assert i < n - 1 ==> s[..n][i] < s[..n][n - 1];
      }
    }
  }

  /** Sorting keeps the elements, and the result ascends exactly when nothing was repeated. */
  lemma {:induction false} SortKeeps(s: seq<nat>)
    ensures NeverDescends(Sort(s)) && forall y :: y in Sort(s) <==> y in s
    ensures Ascending(Sort(s)) <==> Distinct(s)
    ensures Climbs(Sort(s)) <==> Distinct(s)
  {
    ClimbsIsAscending(Sort(s));
    if s != [] {
      SortKeeps(s[1..]);
      InsertKeeps(s[0], Sort(s[1..]));
      assert s == [s[0]] + s[1..];
      assert Distinct(s) <==> Distinct(s[1..]) && s[0] !in s[1..] by {
        if Distinct(s[1..]) && s[0] !in s[1..] {
          forall i, j | 0 <= i < j < |s| ensures s[i] != s[j] {
            assert s[j] == s[1..][j - 1] && (i > 0 ==> s[i] == s[1..][i - 1]);
          }
        }
      }
    }
  }

  /** A roster is usable when it is free of zero and of repetitions and names the local node;
      its canonical form is ascending. */
  predicate Usable(node: nat, ids: seq<nat>) {
    node != 0 && 0 !in ids && Distinct(ids) && node in ids
  }

  function Canonical(node: nat, ids: seq<nat>): Maybe<seq<nat>> {
    if Usable(node, ids) then Some(Sort(ids)) else None
  }

  method CanonicalRoster(node: nat, ids: seq<nat>) returns (r: Maybe<seq<nat>>)
    ensures r == Canonical(node, ids)
    ensures r.Some? ==> Ascending(r.value) && forall x :: x in r.value <==> x in ids
  {
    if node == 0 || |ids| == 0 {
      return None;
    }
    hide Sort, NeverDescends, Climbs;
    var roster := Sort(ids);
    SortKeeps(ids);
    var localFound := false;
    for index := 0 to |roster|
      invariant 0 !in roster[..index] && (localFound <==> node in roster[..index])
      invariant Ascending(roster[..index])
    {
      var id := roster[index];
      if id == 0 || (index > 0 && roster[index - 1] == id) {
        assert roster[index] in roster;
        return None;
      }
      AscendsFurther(roster, index);
      if id == node {
        localFound := true;
      }
    }
    assert roster[..|roster|] == roster;
    if !localFound {
      return None;
    }
    return Some(roster);
  }

  // ---------- The revision that fences configuration reads ----------

  const MAX_ID := 0xFFFF_FFFF_FFFF_FFFF

  /** The configuration table is keyed by a positive 64-bit id and read in ascending order. */
  predicate Keyed(cs: seq<Config>) {
    && (forall i :: 0 <= i < |cs| ==> 0 < cs[i].id <= MAX_ID)
    && (forall i, j :: 0 <= i < j < |cs| ==> cs[i].id < cs[j].id)
  }

  /** What a reader could see at one moment. */
  datatype World = World(revision: nat, configs: seq<Config>, roster: seq<nat>)

  predicate Stable(revision: nat) {
    revision != 0 && revision % 2 == 0
  }

  /** One step of the outside world. A writer makes the revision odd, changes configurations
      in any number of steps, and makes it even again; the roster may change at any time. */
  ghost predicate WorldStep(w: World, w': World) {
    || w' == w.(roster := w'.roster)
    || (w.revision % 2 == 0 && w' == w.(revision := w.revision + 1))
    || (w.revision % 2 == 1 && w' == w.(configs := w'.configs) && Keyed(w'.configs))
    || (w.revision % 2 == 1 && w' == w.(revision := w.revision + 1))
  }

  /** The store starts at revision 2. */
  ghost predicate History(h: seq<World>) {
    && h != [] && h[0].revision == 2 && Keyed(h[0].configs)
    && forall i :: 0 <= i < |h| - 1 ==> WorldStep(h[i], h[i + 1])
  }

  lemma {:induction false} RevisionGrows(h: seq<World>, i: nat, j: nat)
    requires History(h) && i <= j < |h|
    ensures h[i].revision <= h[j].revision && Keyed(h[j].configs) && 2 <= h[j].revision
    decreases j
  {
    if i < j {
      RevisionGrows(h, i, j - 1);
      assert WorldStep(h[j - 1], h[j]);
    } else if 0 < j {
      RevisionGrows(h, 0, j - 1);
      assert WorldStep(h[j - 1], h[j]);
    }
  }

  /** The same even revision at two moments means that no configuration changed between them. */
  lemma {:induction false} StableBetween(h: seq<World>, i: nat, j: nat, t: nat)
    requires History(h) && i <= t <= j < |h|
    requires h[i].revision == h[j].revision && Stable(h[i].revision)
    ensures h[t].configs == h[i].configs && h[t].revision == h[i].revision
    decreases t
  {
    RevisionGrows(h, i, t);
    RevisionGrows(h, t, j);
    if i < t {
      StableBetween(h, i, j, t - 1);
      assert WorldStep(h[t - 1], h[t]);
    }
  }

  /** Equal even revisions identify the configuration table, whichever was read first. */
  lemma {:induction false} RevisionIdentifies(h: seq<World>, i: nat, j: nat)
    requires History(h) && i < |h| && j < |h|
    requires h[i].revision == h[j].revision && Stable(h[i].revision)
    ensures h[i].configs == h[j].configs
  {
    if i <= j {
      StableBetween(h, i, j, j);
    } else {
      StableBetween(h, j, i, i);
    }
  }

  // ---------- Pages of the configuration table ----------

  /** How many configurations have an id up to `after`. */
  function IndexAfter(cs: seq<Config>, after: nat): (n: nat)
    ensures n <= |cs|
  {
    if cs == [] || after < cs[0].id then 0 else 1 + IndexAfter(cs[1..], after)
  }

  /** The page the store returns: the `limit` smallest ids above `after`, ascending. */
  function PageOf(cs: seq<Config>, after: nat, limit: nat): seq<Config> {
    var j := IndexAfter(cs, after);
    if j + limit <= |cs| then cs[j..j + limit] else cs[j..]
  }

  lemma {:induction false} IndexAfterSplits(cs: seq<Config>, after: nat)
    requires Keyed(cs)
    ensures forall k :: 0 <= k < |cs| ==> (cs[k].id <= after <==> k < IndexAfter(cs, after))
  {
    if cs != [] && cs[0].id <= after {
      IndexAfterSplits(cs[1..], after);
      forall k | 0 < k < |cs| ensures cs[k].id <= after <==> k < IndexAfter(cs, after) {
        assert cs[k] == cs[1..][k - 1];
      }
    }
  }

  /** The page starts right above `after`, leaves nothing out, and is short only at the end of
      the table. */
  lemma {:induction false} PageIsTheSmallest(cs: seq<Config>, after: nat, limit: nat)
    requires Keyed(cs)
    ensures var page, j := PageOf(cs, after, limit), IndexAfter(cs, after);
      && |page| <= limit && j + |page| <= |cs| && page == cs[j..j + |page|]
      && (j + |page| < |cs| ==> |page| == limit)
      && (forall k :: 0 <= k < j ==> cs[k].id <= after)
      && (forall k :: j <= k < |cs| ==> after < cs[k].id)
  {
    IndexAfterSplits(cs, after);
  }

  function LastId(after: nat, cs: seq<Config>): nat {
    if cs == [] then after else cs[|cs| - 1].id
  }

  /** Continuing after the last id of a page continues right behind the page. */
  lemma {:induction false} NextPageStart(cs: seq<Config>, after: nat, limit: nat)
    requires Keyed(cs)
    ensures IndexAfter(cs, LastId(after, PageOf(cs, after, limit))) ==
            IndexAfter(cs, after) + |PageOf(cs, after, limit)|
  {
    var page, last := PageOf(cs, after, limit), LastId(after, PageOf(cs, after, limit));
    PageIsTheSmallest(cs, after, limit);
    IndexAfterSplits(cs, last);
    var j, n := IndexAfter(cs, after), IndexAfter(cs, last);
    if page != [] {
      var e := j + |page|;
      assert cs[e - 1] == page[|page| - 1] && cs[e - 1].id == last;
      assert e < |cs| ==> last < cs[e].id;
    }
  }

  // ---------- A reader's view of a changing world ----------

  /** What successive reads find: read number `k` sees `world(k)`. */
  type View = nat -> World

  /** Reads happen one after the other at moments of one history. */
  ghost predicate Samples(h: seq<World>, at: nat -> nat, view: View) {
    && History(h) && (forall k: nat :: at(k) < |h| && view(k) == h[at(k)])
    && (forall k: nat :: at(k) <= at(k + 1))
  }

  /** Seeing the same even revision twice means seeing one table in between. */
  ghost predicate Fenced(view: View) {
    && (forall k: nat :: Keyed(view(k).configs))
    && (forall i: nat, j: nat, k: nat ::
          i <= k <= j && view(i).revision == view(j).revision && Stable(view(i).revision) ==>
          view(k).configs == view(i).configs)
  }

  lemma {:induction false} SampleOrder(h: seq<World>, at: nat -> nat, view: View, i: nat, j: nat)
    requires Samples(h, at, view) && i <= j
    ensures at(i) <= at(j)
    decreases j
  {
    if i < j {
      SampleOrder(h, at, view, i, j - 1);
      assert at(j - 1) <= at(j - 1 + 1);
    }
  }

  lemma {:induction false} SamplesAreFenced(h: seq<World>, at: nat -> nat, view: View)
    requires Samples(h, at, view)
    ensures Fenced(view)
  {
    forall k: nat ensures Keyed(view(k).configs) {
      RevisionGrows(h, 0, at(k));
    }
    forall i: nat, j: nat, k: nat | i <= k <= j && view(i).revision == view(j).revision && Stable(view(i).revision)
      ensures view(k).configs == view(i).configs
    {
      SampleOrder(h, at, view, i, k);
      SampleOrder(h, at, view, k, j);
      StableBetween(h, at(i), at(j), at(k));
    }
  }
}
