/** The tag manager itself (internal/manager/manager_tag.go, bucket.go): tag objects that are
    updated in place, spread over buckets by the hash of their key, with channel mappings spread
    over the same buckets. Each method is one step of `TagCache`. */
module TagManager {
  import opened Common
  import opened TagUsers
  import opened TagCache

  /** A tag shared by reference and updated in place. */
  class TagObject {
    var tag: Tag

    constructor (tag: Tag)
      ensures this.tag == tag
    {
      this.tag := tag;
    }
  }

  class Bucket {
    var tags: map<string, TagObject>
    var channels: map<Chan, string>

    constructor ()
      ensures tags == map[] && channels == map[]
    {
      tags, channels := map[], map[];
    }
  }

  datatype RetiredObject = RetiredObject(obj: TagObject, expiresAt: int)

  class Manager {
    const buckets: seq<Bucket>
    /** The bucket of each tag key and of each channel, by hash. */
    const bucketOf: string -> nat
    const channelBucket: Chan -> nat
    var retired: map<string, RetiredObject>
    /** The tag objects and the channels of all buckets together. */
    ghost var active: map<string, TagObject>
    ghost var channels: map<Chan, string>
    /** What the active and the retired objects hold. */
    ghost var tags: map<string, Tag>
    ghost var olds: map<string, Retired>
    ghost var objects: set<TagObject>

    function BucketOf(key: string): nat {
      bucketOf(key)
    }

    function ChannelBucket(ch: Chan): nat {
      channelBucket(ch)
    }

    ghost predicate Spread() {
      && (forall i, j :: 0 <= i < j < |buckets| ==> buckets[i] != buckets[j])
      && (forall k {:trigger BucketOf(k)} :: BucketOf(k) < |buckets|)
      && (forall ch {:trigger ChannelBucket(ch)} :: ChannelBucket(ch) < |buckets|)
    }

    /** Each active tag is in the bucket of its key, and in no other. */
    ghost predicate TagsInPlace()
      requires Spread()
      reads this`active, buckets`tags
    {
      && (forall i, k :: 0 <= i < |buckets| && k in buckets[i].tags ==> i == BucketOf(k))
      && (forall k {:trigger BucketOf(k)} :: k in active <==> k in buckets[BucketOf(k)].tags)
      && (forall k {:trigger BucketOf(k)} :: k in active ==> active[k] == buckets[BucketOf(k)].tags[k])
    }

    ghost predicate ChannelsInPlace()
      requires Spread()
      reads this`channels, buckets`channels
    {
      && (forall i, ch :: 0 <= i < |buckets| && ch in buckets[i].channels ==> i == ChannelBucket(ch))
      && (forall ch {:trigger ChannelBucket(ch)} :: ch in channels <==> ch in buckets[ChannelBucket(ch)].channels)
      && (forall ch {:trigger ChannelBucket(ch)} ::
            ch in channels ==> channels[ch] == buckets[ChannelBucket(ch)].channels[ch])
    }

    ghost predicate TagsSeen()
      reads this`active, this`tags, this`objects, objects
    {
      && (forall k :: k in tags <==> k in active)
      && (forall k :: k in active ==> active[k] in objects)
      && (forall k :: k in active ==> tags[k] == active[k].tag)
    }

    ghost predicate OldsSeen()
      reads this`retired, this`olds, this`objects, objects
    {
      && (forall k :: k in olds <==> k in retired)
      && (forall k :: k in retired ==> retired[k].obj in objects)
      && (forall k :: k in retired ==> olds[k] == Retired(retired[k].obj.tag, retired[k].expiresAt))
    }

    ghost function Contents(): State
      reads this
    {
      State(tags, olds, channels)
    }

    ghost predicate Valid()
      reads this, buckets, objects
    {
      Spread() && TagsInPlace() && ChannelsInPlace() && TagsSeen() && OldsSeen() && Inv(Contents())
    }

    constructor (count: nat, hash: string -> nat, chanHash: Chan -> nat)
      requires count > 0
      ensures Valid() && Contents() == State(map[], map[], map[]) && |buckets| == count && fresh(buckets)
      ensures bucketOf == (key => hash(key) % count) && channelBucket == (ch => chanHash(ch) % count)
    {
      var bs: seq<Bucket> := [];
      for i := 0 to count
        invariant |bs| == i && fresh(bs)
        invariant forall j :: 0 <= j < i ==> bs[j].tags == map[] && bs[j].channels == map[]
        invariant forall j, k :: 0 <= j < k < i ==> bs[j] != bs[k]
      {
        var b := new Bucket();
        bs := bs + [b];
      }
      buckets, bucketOf, channelBucket := bs, key => hash(key) % count, ch => chanHash(ch) % count;
      retired, active, channels := map[], map[], map[];
      tags, olds, objects := map[], map[], {};
    }

    // Steps on one map or one object.

    /** The object under an active key. */
    ghost predicate Holds(key: string, obj: TagObject)
      reads this`active, this`objects
    {
      key in active && active[key] == obj && obj in objects
    }

    method CutTag(key: string)
      requires Spread() && TagsInPlace()
      modifies this`active, buckets`tags
      ensures TagsInPlace() && active == old(active) - {key}
    {
      var b := buckets[BucketOf(key)];
      b.tags := b.tags - {key};
      active := active - {key};
    }

    method DeleteTag(key: string)
      requires Spread() && TagsInPlace() && TagsSeen()
      modifies this`active, this`tags, buckets`tags
      ensures TagsInPlace() && TagsSeen() && tags == old(tags) - {key}
    {
      hide Spread, TagsInPlace;
      CutTag(key);
      tags := tags - {key};
    }

    method SetTag(key: string, obj: TagObject)
      requires Spread() && TagsInPlace() && TagsSeen() && obj in objects
      modifies this`active, this`tags, buckets`tags
      ensures TagsInPlace() && TagsSeen() && tags == old(tags)[key := obj.tag]
    {
      var b := buckets[BucketOf(key)];
      b.tags := b.tags[key := obj];
      active, tags := active[key := obj], tags[key := obj.tag];
    }

    method GetTag(key: string) returns (r: Maybe<TagObject>)
      requires Spread() && TagsInPlace() && TagsSeen()
      ensures r.Some? <==> key in tags
      ensures r.Some? ==> Holds(key, r.value) && r.value.tag == tags[key]
    {
      var b := buckets[BucketOf(key)];
      r := if key in b.tags then Some(b.tags[key]) else None;
    }

    method DeleteRetired(key: string)
      requires OldsSeen()
      modifies this`retired, this`olds
      ensures OldsSeen() && olds == old(olds) - {key}
    {
      retired, olds := retired - {key}, olds - {key};
    }

    method SetRetired(key: string, obj: TagObject, until: int)
      requires OldsSeen() && obj in objects
      modifies this`retired, this`olds
      ensures OldsSeen() && olds == old(olds)[key := Retired(obj.tag, until)]
    {
      retired, olds := retired[key := RetiredObject(obj, until)], olds[key := Retired(obj.tag, until)];
    }

    method RemoveChannelTag(ch: Chan)
      requires Spread() && ChannelsInPlace()
      modifies this`channels, buckets`channels
      ensures ChannelsInPlace() && channels == old(channels) - {ch}
    {
      var b := buckets[ChannelBucket(ch)];
      b.channels := b.channels - {ch};
      channels := channels - {ch};
    }

    method PutChannelTag(ch: Chan, key: string)
      requires Spread() && ChannelsInPlace()
      modifies this`channels, buckets`channels
      ensures ChannelsInPlace() && channels == old(channels)[ch := key]
    {
      var b := buckets[ChannelBucket(ch)];
      b.channels := b.channels[ch := key];
      channels := channels[ch := key];
    }

    method GetChannelTag(ch: Chan) returns (key: string)
      requires Spread() && ChannelsInPlace()
      ensures key == if ch in channels then channels[ch] else ""
    {
      var b := buckets[ChannelBucket(ch)];
      key := if ch in b.channels then b.channels[ch] else "";
    }

    /** Changes one active tag object in place. No other key, active or retired, is affected,
        because every object is under its own key. */
    method Change(key: string, obj: TagObject, tag: Tag)
      requires TagsSeen() && OldsSeen() && Inv(Contents()) && Holds(key, obj)
      modifies obj, this`tags
      ensures TagsSeen() && OldsSeen() && tags == old(tags)[key := tag] && obj.tag == tag
    {
      forall k | k in active && k != key
        ensures active[k] != obj
      {
        assert tags[k].key == k;
      }
      forall k | k in retired
        ensures retired[k].obj != obj
      {
        assert olds[k].tag.key == k;
      }
      obj.tag := tag;
      tags := tags[key := tag];
    }

    // The operations.

    method Retire(key: string, until: int)
      requires Valid()
      modifies this`retired, this`active, this`tags, this`olds, buckets`tags
      ensures Valid() && Contents() == TagCache.Retire(old(Contents()), key, until)
    {
      hide Spread, TagsInPlace, ChannelsInPlace, TagsSeen, OldsSeen, Inv;
      var obj := GetTag(key);
      if obj.Some? {
        NextKeepsInv(Contents(), RetireKey(key, until));
        DeleteTag(key);
        SetRetired(key, obj.value, until);
      }
    }

    method MakeTag(c: Cluster, key: string, uids: seq<string>, now: int, version: nat) returns (r: Maybe<TagObject>)
      requires Valid()
      modifies this, buckets`tags
      ensures Valid()
      ensures r.None? <==> Leaderless(c, uids)
      ensures r.None? ==> Contents() == old(Contents())
      ensures r.Some? ==>
        var t := r.value.tag;
        && Contents() == Made(old(Contents()), t)
        && t == Tag(key, None, t.nodes, now, version, 0) && Partitions(t.nodes, c, uids)
    {
      var nodes := CalcUsersInNode(c, uids);
      if nodes.None? {
        return None;
      }
      var obj := new TagObject(Tag(key, None, nodes.value, now, version, 0));
      Install(key, obj);
      r := Some(obj);
    }

    method Adopt(obj: TagObject)
      requires TagsSeen() && OldsSeen()
      modifies this`objects
      ensures TagsSeen() && OldsSeen() && obj in objects
    {
      objects := objects + {obj};
    }

    method Install(key: string, obj: TagObject)
      requires Valid() && obj.tag.key == key
      modifies this, buckets`tags
      ensures Valid() && Contents() == Made(old(Contents()), obj.tag)
    {
      hide Spread, TagsInPlace, ChannelsInPlace, TagsSeen, OldsSeen, Inv;
      NextKeepsInv(Contents(), Make(obj.tag));
      Adopt(obj);
      DeleteRetired(key);
      SetTag(key, obj);
    }

    method UpdateChannelTag(ch: Chan, expected: string, until: int, until': int)
      requires Valid()
      modifies this, buckets
      ensures Valid() && Contents() == Invalidated(old(Contents()), ch, expected, until, until')
    {
      hide Spread, TagsInPlace, ChannelsInPlace, TagsSeen, OldsSeen, Inv;
      NextKeepsInv(Contents(), Unmap(ch));
      var mapped := GetChannelTag(ch);
      RemoveChannelTag(ch);
      if mapped != "" {
        Retire(mapped, until);
      }
      if expected != "" && expected != mapped {
        Retire(expected, until');
      }
    }

    method SetChannelTag(ch: Chan, key: string)
      requires Valid()
      modifies this, buckets`channels, objects
      ensures Valid() && Contents() == Mapping(old(Contents()), ch, key)
    {
      hide Spread, TagsInPlace, ChannelsInPlace, TagsSeen, OldsSeen, Inv;
      NextKeepsInv(Contents(), Map(ch, key));
      MappingKeepsInv(Contents(), ch, key);
      DeleteRetired(key);
      PutChannelTag(ch, key);
      var obj := GetTag(key);
      if obj.Some? {
        Change(key, obj.value, obj.value.tag.(channel := Some(ch)));
      }
    }

    method RemoveTag(key: string)
      requires Valid()
      modifies this, buckets`tags
      ensures Valid() && Contents() == Dropped(old(Contents()), key)
    {
      hide Spread, TagsInPlace, ChannelsInPlace, TagsSeen, OldsSeen;
      DeleteTag(key);
      DeleteRetired(key);
    }

    method RenameTag(from: string, to: string, now: int) returns (ok: bool)
      requires Valid()
      modifies this, buckets`tags, objects
      ensures Valid() && Contents() == Renamed(old(Contents()), from, to, now)
      ensures ok <==> from in old(Contents()).active
    {
      hide Spread, TagsInPlace, ChannelsInPlace, TagsSeen, OldsSeen, Inv;
      var obj := GetTag(from);
      ok := obj.Some?;
      if ok {
        NextKeepsInv(Contents(), Rename(from, to, now));
        RenamedMaps(Contents(), from, to, now);
        Change(from, obj.value, obj.value.tag.(key := to, lastGet := now));
        MoveTag(from, to, obj.value);
      }
    }

    method MoveTag(from: string, to: string, obj: TagObject)
      requires Spread() && TagsInPlace() && TagsSeen() && OldsSeen() && obj in objects
      modifies this`retired, this`active, this`tags, this`olds, buckets`tags
      ensures TagsInPlace() && TagsSeen() && tags == old(tags)[to := obj.tag] - {from}
      ensures OldsSeen() && olds == old(olds) - {from} - {to}
    {
      hide Spread, TagsInPlace, TagsSeen, OldsSeen;
      DeleteRetired(from);
      DeleteRetired(to);
      SetTag(to, obj);
      DeleteTag(from);
    }

    method SetNodes(key: string, obj: TagObject, nodes: seq<Node>)
      requires Valid() && Holds(key, obj)
      modifies obj, this`tags
      ensures Valid() && Contents() == WithNodes(old(Contents()), key, nodes) && obj.tag.nodes == nodes
    {
      hide Spread, TagsInPlace, ChannelsInPlace, OldsSeen, Inv;
      NextKeepsInv(Contents(), Event.SetNodes(key, nodes));
      Change(key, obj, obj.tag.(nodes := nodes));
    }

    /** On failure the listed users are already gone from the tag. */
    method AddUsers(c: Cluster, key: string, uids: seq<string>) returns (ok: bool, ghost parts: seq<Node>)
      requires Valid()
      modifies objects, this`tags
      ensures Valid()
      ensures var s := old(Contents());
        && (ok <==> key in s.active && !Leaderless(c, uids))
        && (key !in s.active ==> Contents() == s)
        && (key in s.active && !ok ==> Contents() == WithNodes(s, key, Without(s.active[key].nodes, uids)))
        && (ok ==> Partitions(parts, c, uids)
                   && Contents() == WithNodes(s, key, Added(s.active[key].nodes, uids, parts)))
    {
      hide Spread, TagsInPlace, ChannelsInPlace, TagsSeen, OldsSeen, Inv;
      ok, parts := false, [];
      var obj := GetTag(key);
      if obj.Some? {
        var rest := RemoveExisting(obj.value.tag.nodes, uids);
        SetNodes(key, obj.value, rest);
        var nodes := CalcUsersInNode(c, uids);
        if nodes.Some? {
          var merged := MergeNodes(obj.value.tag.nodes, nodes.value);
          SetNodes(key, obj.value, merged);
          ok, parts := true, nodes.value;
        }
      }
    }

    method RemoveUsers(c: Cluster, key: string, uids: seq<string>) returns (ok: bool, ghost n: nat)
      requires Valid()
      modifies objects, this`tags
      ensures Valid()
      ensures var s := old(Contents());
        && n <= |uids| && (ok <==> key in s.active && !Leaderless(c, uids)) && (ok ==> n == |uids|)
        && (key !in s.active ==> Contents() == s)
        && (key in s.active ==> Contents() == WithNodes(s, key, Removed(s.active[key].nodes, c, uids, n)))
    {
      hide Spread, TagsInPlace, ChannelsInPlace, TagsSeen, OldsSeen, Inv;
      ok, n := false, 0;
      var obj := GetTag(key);
      if obj.Some? {
        var nodes, fine, done := TagUsers.RemoveUsers(obj.value.tag.nodes, c, uids);
        SetNodes(key, obj.value, nodes);
        ok, n := fine, done;
      }
    }

    method Get(key: string, now: int, version: nat) returns (r: Maybe<TagObject>)
      requires Valid()
      modifies this, objects
      ensures Valid() && Contents() == Touched(old(Contents()), key, now, version)
      ensures var got := old(Got(Contents(), key, now, version));
        (r.Some? <==> got.Some?) && (r.Some? ==> r.value.tag.nodes == got.value.nodes)
    {
      hide Spread, TagsInPlace, ChannelsInPlace, TagsSeen, OldsSeen, Inv;
      NextKeepsInv(Contents(), Event.Get(key, now, version));
      r := GetTag(key);
      if r.Some? {
        var tag := r.value.tag;
        if tag.nodeVersion < version {
          return None;
        }
        Change(key, r.value, tag.(lastGet := now, getCount := tag.getCount + 1));
      } else {
        r := GetRetired(key, now, version);
      }
    }

    method GetRetired(key: string, now: int, version: nat) returns (r: Maybe<TagObject>)
      requires Valid() && key !in tags
      modifies this`retired, this`olds, objects
      ensures TagsSeen() && OldsSeen() && Contents() == Touched(old(Contents()), key, now, version)
      ensures var got := old(Got(Contents(), key, now, version));
        (r.Some? <==> got.Some?) && (r.Some? ==> r.value.tag.nodes == got.value.nodes)
    {
      hide Spread, TagsInPlace, ChannelsInPlace, TagsSeen;
      if key !in retired {
        return None;
      }
      var entry := retired[key];
      if now >= entry.expiresAt {
        DeleteRetired(key);
        return None;
      }
      if entry.obj.tag.nodeVersion < version {
        return None;
      }
      CountRead(key, entry.obj);
      r := Some(entry.obj);
    }

    /** Reading a retired tag counts the read and changes nothing else. */
    method CountRead(key: string, obj: TagObject)
      requires TagsSeen() && OldsSeen() && Inv(Contents()) && key in retired && retired[key].obj == obj
      modifies obj, this`olds
      ensures TagsSeen() && OldsSeen() && obj.tag.nodes == old(obj.tag.nodes)
      ensures var r := old(olds)[key]; olds == old(olds)[key := r.(tag := r.tag.(getCount := r.tag.getCount + 1))]
    {
      forall k | k in active
        ensures active[k] != obj
      {
        assert tags[k].key == k && olds[key].tag.key == key;
      }
      forall k | k in retired && k != key
        ensures retired[k].obj != obj
      {
        assert olds[k].tag.key == k;
      }
      obj.tag := obj.tag.(getCount := obj.tag.getCount + 1);
      olds := olds[key := Retired(obj.tag, retired[key].expiresAt)];
    }

    method CleanRetired(now: int)
      requires Valid()
      modifies this`retired, this`olds
      ensures Valid() && Contents() == Cleaned(old(Contents()), now)
    {
      hide Spread, TagsInPlace, ChannelsInPlace, TagsSeen, Inv;
      NextKeepsInv(Contents(), Clean(now));
      var unseen := retired.Keys;
      assert olds == Left(olds, unseen, now);
      while unseen != {}
        invariant unseen <= retired.Keys && unseen <= old(olds).Keys
        invariant OldsSeen() && TagsSeen() && olds == Left(old(olds), unseen, now)
        decreases unseen
      {
        var k :| k in unseen;
        LeftStep(old(olds), unseen, now, k);
        unseen := unseen - {k};
        if now >= retired[k].expiresAt {
          DeleteRetired(k);
        }
      }
    }

    function KeyHere(i: nat): string -> bool {
      key => BucketOf(key) == i
    }

    function ChannelHere(i: nat): Chan -> bool {
      ch => ChannelBucket(ch) == i
    }

    /** The keys of one bucket that nobody has read for too long. */
    method FindDead(i: nat, now: int, expire: int) returns (dead: set<string>)
      requires Valid() && i < |buckets|
      ensures forall k :: k in dead <==> k in tags && KeyHere(i)(k) && now - tags[k].lastGet > expire
    {
      var b := buckets[i];
      forall k | k in b.tags
        ensures BucketOf(k) == i && k in tags && tags[k] == b.tags[k].tag && tags[k].key == k
      {
        assert k in buckets[i].tags;
      }
      assert forall k :: k in tags && BucketOf(k) == i ==> k in b.tags;
      dead := {};
      var unseen := b.tags.Keys;
      while unseen != {}
        invariant unseen <= b.tags.Keys
        invariant forall k :: k in dead <==> k in b.tags && k !in unseen && now - tags[k].lastGet > expire
        decreases unseen
      {
        var k :| k in unseen;
        unseen := unseen - {k};
        if now - b.tags[k].tag.lastGet > expire {
          dead := dead + {b.tags[k].tag.key};
        }
      }
    }

    method DeleteTags(keys: set<string>)
      requires Spread() && TagsInPlace() && TagsSeen()
      modifies this`active, this`tags, buckets`tags
      ensures TagsInPlace() && TagsSeen() && tags == old(tags) - keys
    {
      hide Spread, TagsInPlace, TagsSeen;
      var rest := keys;
      while rest != {}
        invariant rest <= keys && TagsInPlace() && TagsSeen() && tags == old(tags) - (keys - rest)
        decreases rest
      {
        var k :| k in rest;
        rest := rest - {k};
        DeleteTag(k);
      }
    }

    /** The channels of one bucket whose tag is in no bucket any more. */
    method FindLost(i: nat) returns (lost: set<Chan>)
      requires Spread() && TagsInPlace() && TagsSeen() && ChannelsInPlace() && i < |buckets|
      ensures forall ch :: ch in lost <==> ch in channels && ChannelHere(i)(ch) && channels[ch] !in tags
    {
      var b := buckets[i];
      forall ch | ch in b.channels
        ensures ChannelBucket(ch) == i && ch in channels && channels[ch] == b.channels[ch]
      {
        assert ch in buckets[i].channels;
      }
      assert forall ch :: ch in channels && ChannelBucket(ch) == i ==> ch in b.channels;
      lost := {};
      var unseen := b.channels.Keys;
      while unseen != {}
        invariant unseen <= b.channels.Keys
        invariant forall ch :: ch in lost <==> ch in b.channels && ch !in unseen && b.channels[ch] !in tags
        decreases unseen
      {
        var ch :| ch in unseen;
        unseen := unseen - {ch};
        var obj := GetTag(b.channels[ch]);
        if obj.None? {
          lost := lost + {ch};
        }
      }
    }

    method DeleteChannels(chs: set<Chan>)
      requires Spread() && ChannelsInPlace()
      modifies this`channels, buckets`channels
      ensures ChannelsInPlace() && channels == old(channels) - chs
    {
      hide Spread, ChannelsInPlace;
      var rest := chs;
      while rest != {}
        invariant rest <= chs && ChannelsInPlace() && channels == old(channels) - (chs - rest)
        decreases rest
      {
        var ch :| ch in rest;
        rest := rest - {ch};
        RemoveChannelTag(ch);
      }
    }

    method CheckExpireTags(i: nat, now: int, expire: int)
      requires Valid() && i < |buckets|
      modifies this, buckets
      ensures Valid() && Contents() == Expired(old(Contents()), KeyHere(i), ChannelHere(i), now, expire)
    {
      hide Spread, TagsInPlace, ChannelsInPlace, TagsSeen, OldsSeen, Inv, Expired;
      var dead := FindDead(i, now, expire);
      DeleteTags(dead);
      var lost := FindLost(i);
      ExpiredMaps(old(Contents()), KeyHere(i), ChannelHere(i), now, expire, dead, lost);
      NextKeepsInv(old(Contents()), Expire(KeyHere(i), ChannelHere(i), now, expire));
      DeleteChannels(lost);
    }
  }
}
