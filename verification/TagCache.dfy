/** The cache of channel tags as one state (internal/manager/manager_tag.go, bucket.go): active
    tags, retired tags that stay readable for a grace period, and the tag each channel uses.
    Every operation of the manager is one step; a run is any sequence of them. */
module TagCache {
  import opened Common
  import opened TagUsers

  datatype Tag = Tag(
    key: string, channel: Maybe<Chan>, nodes: seq<Node>, lastGet: int, nodeVersion: nat, getCount: nat)

  datatype Retired = Retired(tag: Tag, expiresAt: int)

  datatype State = State(active: map<string, Tag>, retired: map<string, Retired>, channels: map<Chan, string>)

  // ---------- Operations ----------

  function Made(s: State, tag: Tag): State {
    s.(active := s.active[tag.key := tag], retired := s.retired - {tag.key})
  }

  function Retire(s: State, key: string, until: int): State {
    if key !in s.active then s
    else s.(active := s.active - {key}, retired := s.retired[key := Retired(s.active[key], until)])
  }

  /** The key recorded for a channel, empty when there is none. */
  function Mapped(s: State, ch: Chan): string {
    if ch in s.channels then s.channels[ch] else ""
  }

  function Unmapped(s: State, ch: Chan): State {
    s.(channels := s.channels - {ch})
  }

  /** A membership change: the channel forgets its tag, and both the tag it used and the one the
      caller expected it to use are retired. */
  function Invalidated(s: State, ch: Chan, expected: string, until: int, until': int): State {
    var mapped := Mapped(s, ch);
    var s1 := Unmapped(s, ch);
    var s2 := if mapped != "" then Retire(s1, mapped, until) else s1;
    if expected != "" && expected != mapped then Retire(s2, expected, until') else s2
  }

  function Dropped(s: State, key: string): State {
    s.(active := s.active - {key}, retired := s.retired - {key})
  }

  /** Nothing happens to a key that is not active. Renaming a tag to its own key drops it. */
  function Renamed(s: State, from: string, to: string, now: int): State {
    if from !in s.active then s
    else s.(active := s.active[to := s.active[from].(key := to, lastGet := now)] - {from},
            retired := s.retired - {from, to})
  }

  function Mapping(s: State, ch: Chan, key: string): State {
    State(if key in s.active then s.active[key := s.active[key].(channel := Some(ch))] else s.active,
          s.retired - {key},
          s.channels[ch := key])
  }

  function WithNodes(s: State, key: string, nodes: seq<Node>): State {
    if key !in s.active then s else s.(active := s.active[key := s.active[key].(nodes := nodes)])
  }

  function Touched(s: State, key: string, now: int, version: nat): State {
    if key in s.active then
      var t := s.active[key];
      if t.nodeVersion < version then s
      else s.(active := s.active[key := t.(lastGet := now, getCount := t.getCount + 1)])
    else if key !in s.retired then s
    else
      var r := s.retired[key];
      if now >= r.expiresAt then s.(retired := s.retired - {key})
      else if r.tag.nodeVersion < version then s
      else s.(retired := s.retired[key := r.(tag := r.tag.(getCount := r.tag.getCount + 1))])
  }

  /** The tag a reader gets: an active one, or a retired one within its grace period, unless it
      was made under an older node version. */
  function Got(s: State, key: string, now: int, version: nat): Maybe<Tag> {
    var t := if key in s.active then Some(s.active[key])
             else if key in s.retired && now < s.retired[key].expiresAt then Some(s.retired[key].tag)
             else None;
    if t.Some? && t.value.nodeVersion >= version then t else None
  }

  /** One bucket drops the tags nobody has read for too long, and then its channels whose tag no
      longer exists in any bucket. */
  function Expired(s: State, keyHere: string -> bool, chanHere: Chan -> bool, now: int, expire: int): State {
    var active := map k | k in s.active && !(keyHere(k) && now - s.active[k].lastGet > expire) :: s.active[k];
    s.(active := active,
       channels := map ch | ch in s.channels && (chanHere(ch) ==> s.channels[ch] in active) :: s.channels[ch])
  }

  /** The retired tags that are not over, and those nobody has looked at yet. */
  function Left(olds: map<string, Retired>, unseen: set<string>, now: int): map<string, Retired> {
    map k | k in olds && (k in unseen || now < olds[k].expiresAt) :: olds[k]
  }

  function Cleaned(s: State, now: int): State {
    s.(retired := Left(s.retired, {}, now))
  }

  // ---------- Runs ----------

  datatype Event =
    | Make(tag: Tag)
    | RetireKey(key: string, until: int)
    | Invalidate(ch: Chan, expected: string, until: int, until': int)
    | Drop(key: string)
    | Rename(from: string, to: string, now: int)
    | Map(ch: Chan, key: string)
    | Unmap(ch: Chan)
    | SetNodes(key: string, nodes: seq<Node>)
    | Get(key: string, now: int, version: nat)
    | Expire(keyHere: string -> bool, chanHere: Chan -> bool, now: int, expire: int)
    | Clean(now: int)

  function Next(s: State, e: Event): State {
    match e
    case Make(tag) => Made(s, tag)
    case RetireKey(key, until) => Retire(s, key, until)
    case Invalidate(ch, expected, until, until') => Invalidated(s, ch, expected, until, until')
    case Drop(key) => Dropped(s, key)
    case Rename(from, to, now) => Renamed(s, from, to, now)
    case Map(ch, key) => Mapping(s, ch, key)
    case Unmap(ch) => Unmapped(s, ch)
    case SetNodes(key, nodes) => WithNodes(s, key, nodes)
    case Get(key, now, version) => Touched(s, key, now, version)
    case Expire(keyHere, chanHere, now, expire) => Expired(s, keyHere, chanHere, now, expire)
    case Clean(now) => Cleaned(s, now)
  }

  /** Every tag is under its own key, and no key is both active and retired. */
  predicate Inv(s: State) {
    && (forall k :: k in s.active ==> s.active[k].key == k)
    && (forall k :: k in s.retired ==> s.retired[k].tag.key == k)
    && (forall k :: k in s.active ==> k !in s.retired)
  }

  lemma {:induction false} RetireKeepsInv(s: State, key: string, until: int)
    requires Inv(s)
    ensures Inv(Retire(s, key, until))
  {
  }

  lemma {:induction false} NextKeepsInv(s: State, e: Event)
    requires Inv(s)
    ensures Inv(Next(s, e))
  {
    if e.Invalidate? {
      var s1 := Unmapped(s, e.ch);
      RetireKeepsInv(s1, Mapped(s, e.ch), e.until);
    }
  }

  lemma {:induction false} MappingKeepsInv(s: State, ch: Chan, key: string)
    requires Inv(s)
    ensures Inv(State(s.active, s.retired - {key}, s.channels[ch := key]))
  {
  }

  lemma {:induction false} LeftStep(olds: map<string, Retired>, unseen: set<string>, now: int, k: string)
    requires k in unseen && k in olds
    ensures Left(olds, unseen - {k}, now) ==
            if now < olds[k].expiresAt then Left(olds, unseen, now) else Left(olds, unseen, now) - {k}
  {
  }

  /** Expiry, by the keys and channels it finds to remove. */
  lemma {:induction false} ExpiredMaps(s: State, keyHere: string -> bool, chanHere: Chan -> bool, now: int, expire: int,
                                       dead: set<string>, lost: set<Chan>)
    requires forall k :: k in dead <==> k in s.active && keyHere(k) && now - s.active[k].lastGet > expire
    requires forall ch :: ch in lost <==> ch in s.channels && chanHere(ch) && s.channels[ch] !in s.active - dead
    ensures Expired(s, keyHere, chanHere, now, expire) == State(s.active - dead, s.retired, s.channels - lost)
  {
    assert Expired(s, keyHere, chanHere, now, expire).active == s.active - dead;
  }

  lemma {:induction false} RenamedMaps(s: State, from: string, to: string, now: int)
    requires from in s.active
    ensures var t := s.active[from].(key := to, lastGet := now);
            && Renamed(s, from, to, now).active == s.active[from := t][to := t] - {from}
            && Renamed(s, from, to, now).retired == s.retired - {from} - {to}
  {
  }

  /** The state after the first `n` events, from the empty cache. */
  function After(es: seq<Event>, n: nat): State
    requires n <= |es|
  {
    if n == 0 then State(map[], map[], map[]) else Next(After(es, n - 1), es[n - 1])
  }

  lemma {:induction false} ReachableInv(es: seq<Event>, n: nat)
    requires n <= |es|
    ensures Inv(After(es, n))
  {
    if n > 0 {
      ReachableInv(es, n - 1);
      NextKeepsInv(After(es, n - 1), es[n - 1]);
    }
  }

  /** Renaming keeps the tag, with its users, if and only if the new key is another one. */
  lemma {:induction false} RenameKeepsIff(s: State, from: string, to: string, now: int)
    requires from in s.active
    ensures to in Renamed(s, from, to, now).active <==> from != to
    ensures from != to ==> Renamed(s, from, to, now).active[to].nodes == s.active[from].nodes
  {
  }

  // ---------- Active tags ----------

  /** The users an active key stands for. */
  ghost predicate Stands(s: State, key: string, nodes: seq<Node>, version: nat) {
    key in s.active && s.active[key].nodes == nodes && s.active[key].nodeVersion == version
  }

  /** The events that take an active key away: it is retired, dropped or renamed, or expires. */
  predicate Removes(s: State, e: Event, key: string) {
    match e
    case RetireKey(k, _) => k == key
    case Invalidate(ch, expected, _, _) => key != "" && (key == Mapped(s, ch) || key == expected)
    case Drop(k) => k == key
    case Rename(from, _, _) => from == key
    case Expire(keyHere, _, now, expire) => key in s.active && keyHere(key) && now - s.active[key].lastGet > expire
    case _ => false
  }

  /** The events that put a tag under a key, or other users into it. */
  predicate Rewrites(s: State, e: Event, key: string) {
    match e
    case Make(tag) => tag.key == key
    case Rename(from, to, _) => to == key && from in s.active
    case SetNodes(k, _) => k == key
    case _ => false
  }

  /** A key leaves the active tags exactly in those ways, and what is not rewritten stays. */
  lemma {:induction false} ActiveIsFrozen(s: State, e: Event, key: string)
    ensures Removes(s, e, key) ==> key !in Next(s, e).active
    ensures !Removes(s, e, key) && !Rewrites(s, e, key) ==>
      (key in Next(s, e).active <==> key in s.active)
    ensures !Removes(s, e, key) && !Rewrites(s, e, key) && key in s.active ==>
      Stands(Next(s, e), key, s.active[key].nodes, s.active[key].nodeVersion)
  {
    match e
    case Invalidate(ch, expected, until, until') =>
    case _ =>
  }

  /** What was made is what readers get: through any run that neither removes nor rewrites the key,
      every reader whose version is not newer gets the users the tag was made with, and any other
      reader gets nothing. */
  lemma {:induction false} MadeIsRead(es: seq<Event>, m: nat, n: nat, tag: Tag)
    requires m < n <= |es| && es[m] == Make(tag)
    requires forall i :: m < i < n ==> !Removes(After(es, i), es[i], tag.key) && !Rewrites(After(es, i), es[i], tag.key)
    ensures Stands(After(es, n), tag.key, tag.nodes, tag.nodeVersion)
    ensures forall now: int, v: nat ::
      if v <= tag.nodeVersion
      then Got(After(es, n), tag.key, now, v).Some? && Got(After(es, n), tag.key, now, v).value.nodes == tag.nodes
      else Got(After(es, n), tag.key, now, v).None?
    decreases n
  {
    if m + 1 < n {
      MadeIsRead(es, m, n - 1, tag);
      ActiveIsFrozen(After(es, n - 1), es[n - 1], tag.key);
    }
  }

  /** The keys whose entries an event may touch. */
  predicate Names(s: State, e: Event, key: string) {
    match e
    case Make(tag) => tag.key == key
    case RetireKey(k, _) => k == key
    case Invalidate(ch, expected, _, _) => key == Mapped(s, ch) || key == expected
    case Drop(k) => k == key
    case Rename(from, to, _) => key == from || key == to
    case Map(_, k) => k == key
    case Unmap(_) => false
    case SetNodes(k, _) => k == key
    case Get(k, _, _) => k == key
    case Expire(keyHere, _, _, _) => keyHere(key)
    case Clean(_) => true
  }

  /** An event leaves every key alone that it does not name, active or retired; and only mapping,
      unmapping, invalidation and expiry touch what channels resolve to. */
  lemma {:induction false} OthersAreLeftAlone(s: State, e: Event, key: string)
    ensures !Names(s, e, key) ==>
      && (key in Next(s, e).active <==> key in s.active)
      && (key in s.active ==> Next(s, e).active[key] == s.active[key])
      && (key in Next(s, e).retired <==> key in s.retired)
      && (key in s.retired ==> Next(s, e).retired[key] == s.retired[key])
    ensures !e.Map? && !e.Unmap? && !e.Invalidate? && !e.Expire? ==> Next(s, e).channels == s.channels
  {
    match e
    case Invalidate(ch, expected, until, until') =>
    case _ =>
  }

  /** A dropped key is unreadable until a tag is made for it or renamed to it. */
  lemma {:induction false} DroppedIsGone(es: seq<Event>, m: nat, n: nat, key: string)
    requires m < n <= |es| && es[m] == Drop(key)
    requires forall i :: m < i < n ==> !(es[i].Make? && es[i].tag.key == key) && !(es[i].Rename? && es[i].to == key)
    ensures key !in After(es, n).active && key !in After(es, n).retired
    ensures forall now: int, v: nat :: Got(After(es, n), key, now, v).None?
    decreases n
  {
    if m + 1 < n {
      DroppedIsGone(es, m, n - 1, key);
      StaysGone(After(es, n - 1), es[n - 1], key);
    }
  }

  lemma {:induction false} StaysGone(s: State, e: Event, key: string)
    requires key !in s.active && key !in s.retired
    requires !(e.Make? && e.tag.key == key) && !(e.Rename? && e.to == key)
    ensures key !in Next(s, e).active && key !in Next(s, e).retired
  {
  }

  /** A retired key is no longer active, and is readable with the users it had until its time is over. */
  lemma {:induction false} RetiringRetires(s: State, key: string, until: int)
    requires key in s.active
    ensures var s' := Next(s, RetireKey(key, until));
      key !in s'.active && Holds(s', key, s.active[key].nodes, s.active[key].nodeVersion, until)
  {
  }

  /** Other users replace the old ones at once, for the same version. */
  lemma {:induction false} SettingNodesIsRead(s: State, key: string, nodes: seq<Node>, now: int, v: nat)
    requires key in s.active && v <= s.active[key].nodeVersion
    ensures var s' := Next(s, SetNodes(key, nodes));
      Got(s', key, now, v).Some? && Got(s', key, now, v).value == s.active[key].(nodes := nodes)
  {
  }

  /** Reading a tag keeps it from expiring for the full time, counted from the reading. */
  lemma {:induction false} ReadingKeepsAlive(s: State, key: string, now: int, version: nat, keyHere: string -> bool,
        chanHere: Chan -> bool, later: int, expire: int)
    requires key in s.active && version <= s.active[key].nodeVersion
    ensures var s' := Next(s, Get(key, now, version));
      && s'.active[key] == s.active[key].(lastGet := now, getCount := s.active[key].getCount + 1)
      && (key in Next(s', Expire(keyHere, chanHere, later, expire)).active <==> !keyHere(key) || later <= now + expire)
  {
  }

  // ---------- What a channel resolves to ----------

  /** The events after which a channel may resolve to something else. */
  predicate Remaps(s: State, e: Event, ch: Chan) {
    match e
    case Map(c, _) => c == ch
    case Unmap(c) => c == ch
    case Invalidate(c, _, _, _) => c == ch
    case Expire(_, chanHere, _, _) => chanHere(ch) && ch in s.channels && s.channels[ch] !in Next(s, e).active
    case _ => false
  }

  lemma {:induction false} KeepsMapping(s: State, e: Event, ch: Chan)
    requires ch in s.channels
    ensures !Remaps(s, e, ch) ==> ch in Next(s, e).channels && Next(s, e).channels[ch] == s.channels[ch]
    ensures Remaps(s, e, ch) && !e.Map? ==> ch !in Next(s, e).channels
  {
  }

  /** A channel resolves to the key set for it until it is mapped anew, unmapped or invalidated, or
      its bucket expires it because the tag is gone. */
  lemma {:induction false} ResolvesAsSet(es: seq<Event>, m: nat, n: nat, ch: Chan, key: string)
    requires m < n <= |es| && es[m] == Map(ch, key)
    requires forall i :: m < i < n ==> !Remaps(After(es, i), es[i], ch)
    ensures ch in After(es, n).channels && Mapped(After(es, n), ch) == key
    decreases n
  {
    if m + 1 < n {
      ResolvesAsSet(es, m, n - 1, ch, key);
      KeepsMapping(After(es, n - 1), es[n - 1], ch);
    }
  }

  /** Setting a tag for a channel tells an active tag its channel, ends a retirement of the key, and
      leaves all other channels and the users of the tag alone. */
  lemma {:induction false} SettingIsLocal(s: State, ch: Chan, key: string)
    ensures var s' := Next(s, Map(ch, key));
      && (forall c :: c != ch ==> Mapped(s', c) == Mapped(s, c) && (c in s'.channels <==> c in s.channels))
      && key !in s'.retired && (key in s'.active <==> key in s.active)
      && (key in s.active ==> s'.active[key] == s.active[key].(channel := Some(ch)))
  {
  }

  // ---------- Retired tags ----------

  /** The users a retired key stands for, and until when. */
  ghost predicate Holds(s: State, key: string, nodes: seq<Node>, version: nat, until: int) {
    && key in s.retired && s.retired[key].expiresAt == until
    && s.retired[key].tag.nodes == nodes && s.retired[key].tag.nodeVersion == version
  }

  /** The events that take a key out of retirement: it is made or mapped anew, dropped, renamed,
      or somebody looks after its grace period is over. */
  predicate Ends(s: State, e: Event, key: string, until: int) {
    match e
    case Make(tag) => tag.key == key
    case Drop(k) => k == key
    case Rename(from, to, _) => from in s.active && to == key
    case Map(_, k) => k == key
    case Get(k, now, _) => k == key && now >= until
    case Clean(now) => now >= until
    case _ => false
  }

  /** A retired tag changes only by leaving retirement, and leaves only in those ways. */
  lemma {:induction false} RetiredIsFrozen(s: State, e: Event, key: string, nodes: seq<Node>, version: nat, until: int)
    requires Inv(s) && Holds(s, key, nodes, version, until)
    ensures if Ends(s, e, key, until) then key !in Next(s, e).retired else Holds(Next(s, e), key, nodes, version, until)
  {
  }

  /** Once retired with some users, a key keeps exactly these users through any run in which
      nothing ends its retirement, and a reader gets them until the grace period is over. */
  lemma {:induction false} SnapshotSurvives(es: seq<Event>, m: nat, n: nat, key: string, nodes: seq<Node>,
        version: nat, until: int)
    requires m <= n <= |es|
    requires Holds(After(es, m), key, nodes, version, until)
    requires forall i :: m <= i < n ==> !Ends(After(es, i), es[i], key, until)
    ensures Holds(After(es, n), key, nodes, version, until)
    ensures forall now: int, v: nat :: now < until && v <= version ==>
      Got(After(es, n), key, now, v).Some? && Got(After(es, n), key, now, v).value.nodes == nodes
    decreases n - m
  {
    ReachableInv(es, n);
    if m < n {
      SnapshotSurvives(es, m, n - 1, key, nodes, version, until);
      ReachableInv(es, n - 1);
      RetiredIsFrozen(After(es, n - 1), es[n - 1], key, nodes, version, until);
    }
  }

  /** A tag enters retirement with the users it had while active, and only by being retired. */
  lemma {:induction false} EntersAsItWas(s: State, e: Event, key: string)
    requires Inv(s) && key !in s.retired && key in Next(s, e).retired
    ensures key in s.active && key !in Next(s, e).active
    ensures Next(s, e).retired[key].tag == s.active[key]
    ensures (e.RetireKey? && e.key == key) || (e.Invalidate? && (key == Mapped(s, e.ch) || key == e.expected))
  {
  }

  // ---------- Invalidation ----------

  /** Invalidating a channel leaves it without a tag, and retires the tag it had if that was
      active, with its users. */
  lemma {:induction false} InvalidationRetires(s: State, ch: Chan, expected: string, until: int, until': int)
    requires Inv(s)
    ensures var s' := Invalidated(s, ch, expected, until, until');
            && Mapped(s', ch) == ""
            && (forall k :: k != "" && (k == Mapped(s, ch) || k == expected) ==>
                  k !in s'.active && (k in s.active ==> k in s'.retired && s'.retired[k].tag == s.active[k]))
            && (forall c :: c != ch ==> Mapped(s', c) == Mapped(s, c))
  {
  }

  lemma {:induction false} StaysUnmapped(s: State, e: Event, ch: Chan)
    requires (e.Invalidate? && e.ch == ch) || (ch !in s.channels && !(e.Map? && e.ch == ch))
    ensures ch !in Next(s, e).channels
  {
  }

  /** From then on the channel resolves to no tag until one is set for it. */
  lemma {:induction false} NoTagUntilSet(es: seq<Event>, m: nat, n: nat, ch: Chan)
    requires m < n <= |es| && es[m].Invalidate? && es[m].ch == ch
    requires forall i :: m < i < n ==> !(es[i].Map? && es[i].ch == ch)
    ensures ch !in After(es, n).channels
    decreases n - m
  {
    if m + 1 < n {
      NoTagUntilSet(es, m, n - 1, ch);
    }
    StaysUnmapped(After(es, n - 1), es[n - 1], ch);
  }
}
