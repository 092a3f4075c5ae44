/** The cache of conversations waiting to be stored (internal/manager/manager_conversation.go):
    shards of pending channel updates, each with an inverted index from user to channels, and the
    pass that stores a limited batch and then forgets what it stored. */
module Conversation {
  import opened Common

  datatype Update = Update(readSeqs: map<string, nat>, tagKey: string, lastSeq: nat)

  type Pending = map<Chan, Update>

  type Index = map<string, set<Chan>>

  /** The index that belongs to a set of pending updates: every listed user, with exactly the
      channels that list it. In particular no user is kept with an empty set. */
  ghost predicate Indexes(index: Index, p: Pending) {
    && (forall uid :: uid in index ==> index[uid] != {})
    && (forall uid, ch :: uid in index && ch in index[uid] ==> ch in p && uid in p[ch].readSeqs)
    && (forall ch, uid :: ch in p && uid in p[ch].readSeqs ==> uid in index && ch in index[uid])
  }

  /** `after` is `before` with the channel added for all `users`. */
  ghost predicate Listed(before: Index, after: Index, ch: Chan, users: set<string>) {
    && (forall uid :: uid in after <==> uid in before || uid in users)
    && (forall uid :: uid in after ==>
          after[uid] == (if uid in before then before[uid] else {}) + (if uid in users then {ch} else {}))
  }

  lemma {:induction false} Relisted(before: Index, after: Index, p: Pending, ch: Chan, update: Update)
    requires Indexes(before, p - {ch}) && Listed(before, after, ch, update.readSeqs.Keys)
    ensures Indexes(after, p[ch := update])
  {
    var q := p[ch := update];
    forall uid, c | uid in after && c in after[uid]
      ensures c in q && uid in q[c].readSeqs
    {
      if c != ch {
        assert uid in before && c in before[uid];
        assert c in p - {ch};
      } else {
        assert ch !in p - {ch};
        assert uid in update.readSeqs.Keys;
      }
    }
    forall c, uid | c in q && uid in q[c].readSeqs
      ensures uid in after && c in after[uid]
    {
      if c != ch {
        assert uid in (p - {ch})[c].readSeqs;
      }
    }
  }

  class Updater {
    var pending: Pending
    var index: Index

    ghost predicate Valid()
      reads this
    {
      Indexes(index, pending)
    }

    constructor ()
      ensures Valid() && pending == map[]
    {
      pending, index := map[], map[];
    }

    /** One user stops being listed for the channel. */
    method Unlist(ch: Chan, uid: string)
      modifies this`index
      ensures index == Unlisted(old(index), ch, uid)
    {
      if uid in index {
        if index[uid] - {ch} == {} {
          index := index - {uid};
        } else {
          index := index[uid := index[uid] - {ch}];
        }
      }
    }

    /** The channel leaves the index for all `users`. */
    method UnlistAll(ch: Chan, users: set<string>)
      modifies this`index
      ensures forall uid :: uid in index <==> uid in old(index) && (uid in users ==> old(index)[uid] - {ch} != {})
      ensures forall uid :: uid in index ==>
        index[uid] == if uid in users then old(index)[uid] - {ch} else old(index)[uid]
    {
      var rest := users;
      while rest != {}
        invariant rest <= users
        invariant forall uid :: uid in index <==>
          uid in old(index) && (uid in users - rest ==> old(index)[uid] - {ch} != {})
        invariant forall uid :: uid in index ==>
          index[uid] == if uid in users - rest then old(index)[uid] - {ch} else old(index)[uid]
        decreases rest
      {
        var uid :| uid in rest;
        Unlist(ch, uid);
        rest := rest - {uid};
      }
    }

    method ListAll(ch: Chan, users: set<string>)
      modifies this`index
      ensures Listed(old(index), index, ch, users)
    {
      var rest := users;
      while rest != {}
        invariant rest <= users
        invariant Listed(old(index), index, ch, users - rest)
        decreases rest
      {
        var uid :| uid in rest;
        index := index[uid := (if uid in index then index[uid] else {}) + {ch}];
        rest := rest - {uid};
      }
    }

    method UpdateUserIndex(ch: Chan, update: Update)
      requires Valid()
      modifies this`index
      ensures Indexes(index, pending[ch := update])
    {
      if ch in pending {
        UnlistAll(ch, pending[ch].readSeqs.Keys);
      }
      ghost var cleared := index;
      assert Indexes(cleared, pending - {ch});
      ListAll(ch, update.readSeqs.Keys);
      Relisted(cleared, index, pending, ch, update);
    }

    /** A later message under another tag replaces the channel's pending update; `tagUsers` are
        the users of the tag on this node, `None` when the tag is gone. */
    method Push(ch: Chan, tagKey: string, lastSeq: nat, senderSeqs: map<string, nat>, tagUsers: Maybe<seq<string>>)
      requires Valid()
      modifies this
      ensures Valid()
      ensures pending == if Skips(old(pending), ch, tagKey, lastSeq, tagUsers) then old(pending)
                         else old(pending)[ch := Update(ReadSeqs(tagUsers.value, senderSeqs), tagKey, lastSeq)]
    {
      if ch in pending && (pending[ch].lastSeq >= lastSeq || tagKey == pending[ch].tagKey) {
        return;
      }
      if tagUsers.None? || |tagUsers.value| == 0 {
        return;
      }
      var update := Update(ReadSeqs(tagUsers.value, senderSeqs), tagKey, lastSeq);
      UpdateUserIndex(ch, update);
      pending := pending[ch := update];
    }

    /** Used when loading from the file of an earlier process. */
    method SetChannelUpdate(ch: Chan, update: Update)
      requires Valid()
      modifies this
      ensures Valid() && pending == old(pending)[ch := update]
    {
      UpdateUserIndex(ch, update);
      pending := pending[ch := update];
    }

    method RemoveChannel(ch: Chan)
      requires Valid()
      modifies this
      ensures Valid() && pending == old(pending) - {ch}
    {
      if ch in pending {
        UnlistAll(ch, pending[ch].readSeqs.Keys);
      }
      pending := pending - {ch};
    }

    method RemoveUserChannel(ch: Chan, uid: string)
      requires Valid()
      modifies this
      ensures Valid()
      ensures pending == if ch in old(pending)
        then old(pending)[ch := old(pending)[ch].(readSeqs := old(pending)[ch].readSeqs - {uid})] else old(pending)
    {
      if ch in pending {
        pending := pending[ch := pending[ch].(readSeqs := pending[ch].readSeqs - {uid})];
      }
      Unlist(ch, uid);
    }

    /** The channels of one kind waiting for one user, found through the index alone. */
    method UserChannels(uid: string, wanted: Chan -> bool) returns (chs: set<Chan>)
      requires Valid()
      ensures forall ch :: ch in chs <==> ch in pending && uid in pending[ch].readSeqs && wanted(ch)
    {
      chs := if uid in index then set ch | ch in index[uid] && wanted(ch) else {};
    }
  }

  function Unlisted(index: Index, ch: Chan, uid: string): Index {
    if uid !in index then index
    else if index[uid] - {ch} == {} then index - {uid}
    else index[uid := index[uid] - {ch}]
  }

  function ReadSeqs(users: seq<string>, senderSeqs: map<string, nat>): map<string, nat> {
    map uid | uid in users :: if uid in senderSeqs then senderSeqs[uid] else 0
  }

  predicate Skips(p: Pending, ch: Chan, tagKey: string, lastSeq: nat, tagUsers: Maybe<seq<string>>) {
    || (ch in p && (p[ch].lastSeq >= lastSeq || p[ch].tagKey == tagKey))
    || tagUsers.None? || tagUsers.value == []
  }

  // ---------- The pass that stores a batch ----------

  datatype Entry = Entry(uid: string, readSeq: nat)

  /** A pending channel as the pass comes across it, with its users in the order they come up. */
  datatype Visit = Visit(ch: Chan, users: seq<Entry>)

  datatype Row = Row(ch: Chan, user: Entry)

  /** Rows without a user or a channel id are never stored. */
  predicate Storable(r: Row) {
    r.user.uid != "" && r.ch.channelId != ""
  }

  /** The rows of the first `n` users of a channel. */
  function RowsOf(v: Visit, n: nat): (rows: seq<Row>)
    requires n <= |v.users|
  {
    if n == 0 then [] else
    var r := Row(v.ch, v.users[n - 1]);
    RowsOf(v, n - 1) + if Storable(r) then [r] else []
  }

  /** The rows of the first `n` channels. */
  function Rows(vs: seq<Visit>, n: nat): (rows: seq<Row>)
    requires n <= |vs|
  {
    if n == 0 then [] else Rows(vs, n - 1) + RowsOf(vs[n - 1], |vs[n - 1].users|)
  }

  /** A batch holds `syncOnce` rows at most, but its first row in any case. */
  function Cut(rows: seq<Row>, syncOnce: int): (batch: seq<Row>)
    ensures batch <= rows
  {
    var n := if syncOnce < 1 then 1 else syncOnce;
    if |rows| <= n then rows else rows[..n]
  }

  /** As many rows as the limit lets through, and one in any case. */
  lemma {:induction false} BatchSize(rows: seq<Row>, syncOnce: int)
    ensures syncOnce <= 1 ==> |Cut(rows, syncOnce)| == if rows == [] then 0 else 1
    ensures 1 <= syncOnce ==> |Cut(rows, syncOnce)| == if |rows| < syncOnce then |rows| else syncOnce
  {
  }

  lemma {:induction false} RowsOfPrefix(v: Visit, m: nat, n: nat)
    requires m <= n <= |v.users|
    ensures RowsOf(v, m) <= RowsOf(v, n)
    decreases n
  {
    if m < n {
      RowsOfPrefix(v, m, n - 1);
    }
  }

  lemma {:induction false} RowsPrefix(vs: seq<Visit>, m: nat, n: nat)
    requires m <= n <= |vs|
    ensures Rows(vs, m) <= Rows(vs, n)
    decreases n
  {
    if m < n {
      RowsPrefix(vs, m, n - 1);
    }
  }

  lemma {:induction false} CutWithin(batch0: seq<Row>, v: Visit, n: nat, syncOnce: int)
    requires n <= |v.users|
    requires |batch0 + RowsOf(v, n)| == if syncOnce < 1 then 1 else syncOnce
    ensures Cut(batch0 + RowsOf(v, |v.users|), syncOnce) == batch0 + RowsOf(v, n)
  {
    RowsOfPrefix(v, n, |v.users|);
  }

  /** The users of one channel are added until the batch is full. */
  method CollectChannel(batch0: seq<Row>, v: Visit, syncOnce: int) returns (batch: seq<Row>, full: bool)
    requires batch0 == [] || |batch0| < syncOnce
    ensures batch == Cut(batch0 + RowsOf(v, |v.users|), syncOnce)
    ensures full <==> batch != [] && syncOnce <= |batch|
  {
    batch := batch0;
    for i := 0 to |v.users|
      invariant batch == batch0 + RowsOf(v, i)
      invariant batch == [] || |batch| < syncOnce
    {
      var r := Row(v.ch, v.users[i]);
      if Storable(r) {
        batch := batch + [r];
        assert batch == batch0 + (RowsOf(v, i) + [r]);
        if |batch| >= syncOnce {
          CutWithin(batch0, v, i + 1, syncOnce);
          return batch, true;
        }
      }
    }
    full := false;
  }

  method Collect(vs: seq<Visit>, syncOnce: int) returns (batch: seq<Row>)
    ensures batch == Cut(Rows(vs, |vs|), syncOnce)
  {
    batch := [];
    for i := 0 to |vs|
      invariant batch == Rows(vs, i)
      invariant batch == [] || |batch| < syncOnce
    {
      var full;
      batch, full := CollectChannel(batch, vs[i], syncOnce);
      if full {
        RowsPrefix(vs, i + 1, |vs|);
        return;
      }
    }
  }

  /** Each channel is met once, and in it each user once. */
  predicate Orderly(vs: seq<Visit>) {
    && (forall i, j :: 0 <= i < j < |vs| ==> vs[i].ch != vs[j].ch)
    && (forall j :: 0 <= j < |vs| ==> OnceEach(vs[j].users))
  }

  predicate OnceEach(users: seq<Entry>) {
    forall i, j :: 0 <= i < j < |users| ==> users[i].uid != users[j].uid
  }

  /** The visits show what is pending, all of it and nothing else. */
  ghost predicate Shows(vs: seq<Visit>, p: Pending) {
    && Orderly(vs)
    && (forall v :: v in vs ==> v.ch in p && ShowsUsers(v, p[v.ch].readSeqs))
    && (forall ch :: ch in p ==> exists v :: v in vs && v.ch == ch)
  }

  ghost predicate ShowsUsers(v: Visit, readSeqs: map<string, nat>) {
    forall e :: e in v.users <==> e.uid in readSeqs && readSeqs[e.uid] == e.readSeq
  }

  /** The row is waiting in the cache, and is one that can be stored. */
  predicate Owed(p: Pending, r: Row) {
    && r.user.uid != "" && r.ch.channelId != ""
    && r.ch in p && r.user.uid in p[r.ch].readSeqs && p[r.ch].readSeqs[r.user.uid] == r.user.readSeq
  }

  function Channels(rows: seq<Row>): set<Chan> {
    set i | 0 <= i < |rows| :: rows[i].ch
  }

  /** What a successful pass leaves pending. */
  function Kept(p: Pending, batch: seq<Row>): Pending {
    p - Channels(batch)
  }

  // The rows of a visit, and of all visits, are exactly the owed ones, each once.

  lemma {:induction false} RowOfVisit(v: Visit, n: nat, r: Row)
    requires n <= |v.users|
    ensures r in RowsOf(v, n) <==> Storable(r) && r.ch == v.ch && r.user in v.users[..n]
  {
    if n > 0 {
      RowOfVisit(v, n - 1, r);
    }
  }

  lemma {:induction false} RowOfVisits(vs: seq<Visit>, n: nat, r: Row)
    requires n <= |vs|
    ensures r in Rows(vs, n) <==> Storable(r) && exists v :: v in vs[..n] && v.ch == r.ch && r.user in v.users
  {
    if n > 0 {
      RowOfVisits(vs, n - 1, r);
      RowOfVisit(vs[n - 1], |vs[n - 1].users|, r);
      assert vs[..n] == vs[..n - 1] + [vs[n - 1]];
    }
  }

  lemma {:induction false} RowsAreOwed(vs: seq<Visit>, p: Pending, r: Row)
    requires Shows(vs, p)
    ensures r in Rows(vs, |vs|) <==> Owed(p, r)
  {
    RowOfVisits(vs, |vs|, r);
    assert vs[..|vs|] == vs;
    if Owed(p, r) {
      var v :| v in vs && v.ch == r.ch;
      assert ShowsUsers(v, p[r.ch].readSeqs);
    }
  }

  predicate Distinct(rows: seq<Row>) {
    forall i, j :: 0 <= i < j < |rows| ==> rows[i] != rows[j]
  }

  lemma {:induction false} VisitDistinct(v: Visit, n: nat)
    requires n <= |v.users| && OnceEach(v.users)
    ensures Distinct(RowsOf(v, n))
  {
    if n > 0 {
      VisitDistinct(v, n - 1);
      RowOfVisit(v, n - 1, Row(v.ch, v.users[n - 1]));
    }
  }

  lemma {:induction false} DistinctConcat(a: seq<Row>, b: seq<Row>)
    requires Distinct(a) && Distinct(b) && forall r :: r in a ==> r !in b
    ensures Distinct(a + b)
  {
    forall i, j | 0 <= i < j < |a + b|
      ensures (a + b)[i] != (a + b)[j]
    {
      if i < |a| <= j {
        assert a[i] in a && b[j - |a|] in b;
      }
    }
  }

  lemma {:induction false} RowsDistinct(vs: seq<Visit>, n: nat)
    requires n <= |vs| && Orderly(vs)
    ensures Distinct(Rows(vs, n))
  {
    if n > 0 {
      RowsDistinct(vs, n - 1);
      var v := vs[n - 1];
      VisitDistinct(v, |v.users|);
      forall r | r in Rows(vs, n - 1)
        ensures r !in RowsOf(v, |v.users|)
      {
        RowOfVisits(vs, n - 1, r);
        RowOfVisit(v, |v.users|, r);
      }
      DistinctConcat(Rows(vs, n - 1), RowsOf(v, |v.users|));
    }
  }

  /** The cut falls between two channels. */
  ghost predicate Whole(vs: seq<Visit>, batch: seq<Row>) {
    exists k: nat :: k <= |vs| && batch == Rows(vs, k)
  }

  /** Everything that was owed is either in the batch or still owed. */
  ghost predicate Conserves(p: Pending, batch: seq<Row>) {
    forall r :: Owed(p, r) ==> r in batch || Owed(Kept(p, batch), r)
  }

  lemma {:induction false} WholeConserves(vs: seq<Visit>, p: Pending, k: nat)
    requires Shows(vs, p) && k <= |vs|
    ensures Conserves(p, Rows(vs, k))
  {
    var batch := Rows(vs, k);
    forall r | Owed(p, r) && r.ch in Channels(batch)
      ensures r in batch
    {
      var i :| 0 <= i < |batch| && batch[i].ch == r.ch;
      RowOfVisits(vs, k, batch[i]);
      RowOfVisits(vs, k, r);
      var v :| v in vs[..k] && v.ch == r.ch;
      assert v in vs && ShowsUsers(v, p[r.ch].readSeqs);
    }
  }

  /** A prefix of all the rows ends inside the rows of some channel or at the end of one. */
  lemma {:induction false} CutFalls(vs: seq<Visit>, n: nat, m: nat) returns (k: nat)
    requires n <= |vs| && m <= |Rows(vs, n)|
    ensures k <= n && |Rows(vs, k)| <= m
    ensures m == |Rows(vs, k)| || (k < n && m < |Rows(vs, k + 1)|)
  {
    if m == |Rows(vs, n)| {
      k := n;
    } else if m >= |Rows(vs, n - 1)| {
      k := n - 1;
    } else {
      k := CutFalls(vs, n - 1, m);
    }
  }

  lemma {:induction false} RowWithin(vs: seq<Visit>, k: nat, i: nat)
    requires k < |vs| && |Rows(vs, k)| <= i < |Rows(vs, k + 1)|
    ensures i < |Rows(vs, |vs|)| && Rows(vs, |vs|)[i].ch == vs[k].ch
  {
    RowsPrefix(vs, k + 1, |vs|);
    var rows := RowsOf(vs[k], |vs[k].users|);
    RowOfVisit(vs[k], |vs[k].users|, rows[i - |Rows(vs, k)|]);
  }

  /** Two rows of one channel, one inside the cut and one outside. */
  lemma {:induction false} StraddleSplits(vs: seq<Visit>, k: nat, m: nat)
    requires Orderly(vs) && k < |vs|
    requires |Rows(vs, k)| < m < |Rows(vs, k + 1)|
    ensures m < |Rows(vs, |vs|)|
    ensures var all := Rows(vs, |vs|); all[m] !in all[..m] && all[m].ch in Channels(all[..m])
  {
    var all := Rows(vs, |vs|);
    RowWithin(vs, k, m - 1);
    RowWithin(vs, k, m);
    RowsDistinct(vs, |vs|);
    assert all[..m][m - 1].ch == all[m].ch;
  }

  lemma {:induction false} StraddleLoses(vs: seq<Visit>, p: Pending, k: nat, m: nat)
    requires Shows(vs, p) && k < |vs|
    requires |Rows(vs, k)| < m < |Rows(vs, k + 1)|
    requires m <= |Rows(vs, |vs|)|
    ensures !Conserves(p, Rows(vs, |vs|)[..m])
  {
    StraddleSplits(vs, k, m);
    RowsAreOwed(vs, p, Rows(vs, |vs|)[m]);
  }

  lemma {:induction false} BatchIsOwed(vs: seq<Visit>, p: Pending, batch: seq<Row>, r: Row)
    requires Shows(vs, p) && batch <= Rows(vs, |vs|) && r in batch
    ensures Owed(p, r) && !Owed(Kept(p, batch), r)
  {
    RowsAreOwed(vs, p, r);
    var i :| 0 <= i < |batch| && batch[i] == r;
    assert r.ch in Channels(batch);
  }

  lemma {:induction false} ConservesIff(vs: seq<Visit>, p: Pending, batch: seq<Row>)
    requires Shows(vs, p) && batch <= Rows(vs, |vs|)
    ensures Conserves(p, batch) <==> Whole(vs, batch)
  {
    if Whole(vs, batch) {
      var k: nat :| k <= |vs| && batch == Rows(vs, k);
      WholeConserves(vs, p, k);
    }
    var k := CutFalls(vs, |vs|, |batch|);
    if |batch| == |Rows(vs, k)| {
      RowsPrefix(vs, k, |vs|);
      assert batch == Rows(vs, k);
    } else {
      assert batch == Rows(vs, |vs|)[..|batch|];
      StraddleLoses(vs, p, k, |batch|);
    }
  }

  /** A successful pass stores rows that were owed, each once, and forgets every channel it has
      touched. Nothing is lost if and only if the limit does not fall inside a channel. */
  lemma {:induction false} PassConservesIff(vs: seq<Visit>, p: Pending, syncOnce: int)
    requires Shows(vs, p)
    ensures var batch := Cut(Rows(vs, |vs|), syncOnce);
            && Distinct(batch) && (forall r :: r in batch ==> Owed(p, r) && !Owed(Kept(p, batch), r))
            && (Conserves(p, batch) <==> Whole(vs, batch))
  {
    var batch := Cut(Rows(vs, |vs|), syncOnce);
    RowsDistinct(vs, |vs|);
    forall r | r in batch
      ensures Owed(p, r) && !Owed(Kept(p, batch), r)
    {
      BatchIsOwed(vs, p, batch, r);
    }
    ConservesIff(vs, p, batch);
  }

  /** A limit of one row loses the second user of any channel. */
  lemma {:induction false} LimitInsideLoses(ch: Chan, u: string, v: string)
    returns (vs: seq<Visit>, p: Pending, lost: Row)
    requires ch.channelId != "" && u != "" && v != "" && u != v
    ensures Shows(vs, p) && Owed(p, lost)
    ensures var batch := Cut(Rows(vs, |vs|), 1); lost !in batch && !Owed(Kept(p, batch), lost)
  {
    var visit := Visit(ch, [Entry(u, 0), Entry(v, 0)]);
    vs, p, lost := [visit], map[ch := Update(map[u := 0, v := 0], "", 1)], Row(ch, Entry(v, 0));
    assert visit in vs;
    assert RowsOf(visit, 1) == RowsOf(visit, 0) + [Row(ch, Entry(u, 0))];
    assert RowsOf(visit, 2) == [Row(ch, Entry(u, 0)), lost];
    assert Rows(vs, 1) == Rows(vs, 0) + RowsOf(visit, 2);
    assert Cut(Rows(vs, 1), 1)[0].ch == ch;
  }

  // ---------- Pushes while the batch is being stored ----------

  /** A channel of the batch has a row now, in `q`, that it did not have when the batch was collected. */
  ghost predicate Gains(p: Pending, q: Pending, batch: seq<Row>) {
    exists r: Row :: r.ch in Channels(batch) && Owed(q, r) && !Owed(p, r)
  }

  /** The limit cuts a row off that is still owed, and leaves others of its channel in the batch. */
  ghost predicate Splits(vs: seq<Visit>, q: Pending, batch: seq<Row>) {
    exists r :: r in Rows(vs, |vs|) && r !in batch && r.ch in Channels(batch) && Owed(q, r)
  }

  /** The batch was collected from `p`; by the time it is stored and its channels are forgotten the
      cache holds `q`. Nothing that is owed then is lost if and only if no channel of the batch has
      gained a row in between and the limit does not separate rows of one channel. */
  lemma {:induction false} LatePassConservesIff(vs: seq<Visit>, p: Pending, q: Pending, batch: seq<Row>)
    requires Shows(vs, p) && batch <= Rows(vs, |vs|)
    ensures Conserves(q, batch) <==> !Gains(p, q, batch) && !Splits(vs, q, batch)
  {
    hide Rows, Channels;
    if r: Row :| r.ch in Channels(batch) && Owed(q, r) && !Owed(p, r) {
      if r in batch {
        BatchIsOwed(vs, p, batch, r);
      }
      assert !Conserves(q, batch);
    }
    forall r: Row | Owed(q, r) && r.ch in Channels(batch) && r !in batch
      ensures Gains(p, q, batch) || Splits(vs, q, batch)
    {
      RowsAreOwed(vs, p, r);
    }
  }

  /** A push of a newer message of `uid` on a channel of the batch is such a gain, and is lost. */
  lemma {:induction false} LatePushIsLost(vs: seq<Visit>, p: Pending, q: Pending, batch: seq<Row>, ch: Chan,
        uid: string)
    requires Shows(vs, p) && batch <= Rows(vs, |vs|) && ch in Channels(batch) && ch in p && ch in q
    requires ch.channelId != "" && uid != "" && forall u :: u in p[ch].readSeqs ==> p[ch].readSeqs[u] <= p[ch].lastSeq
    requires uid in q[ch].readSeqs && p[ch].lastSeq < q[ch].readSeqs[uid]
    ensures var r := Row(ch, Entry(uid, q[ch].readSeqs[uid]));
      Owed(q, r) && r !in batch && !Owed(Kept(q, batch), r)
  {
    var r := Row(ch, Entry(uid, q[ch].readSeqs[uid]));
    if r in batch {
      BatchIsOwed(vs, p, batch, r);
    }
  }

  /** If no channel of the batch was touched in between, what happened to others does not matter. */
  lemma {:induction false} UntouchedPassConservesIff(vs: seq<Visit>, p: Pending, q: Pending, batch: seq<Row>)
    requires Shows(vs, p) && batch <= Rows(vs, |vs|)
    requires forall ch :: ch in Channels(batch) ==> ch in p && ch in q && q[ch] == p[ch]
    ensures Conserves(q, batch) <==> Whole(vs, batch)
  {
    hide Rows, Channels, Whole;
    ConservesIff(vs, p, batch);
    assert forall r: Row :: r.ch in Channels(batch) ==> (Owed(q, r) <==> Owed(p, r));
  }

  // ---------- The shards ----------

  lemma {:induction false} KeptStep(p: Pending, batch: seq<Row>, k: nat)
    requires k < |batch|
    ensures Kept(p, batch[..k + 1]) == Kept(p, batch[..k]) - {batch[k].ch}
  {
    assert Channels(batch[..k + 1]) == Channels(batch[..k]) + {batch[k].ch};
  }

  datatype Saved = Saved(ch: Chan, update: Update)

  /** What the first `n` saved updates make of a channel that had `before`. */
  function Latest(saved: seq<Saved>, n: nat, ch: Chan, before: Maybe<Update>): Maybe<Update>
    requires n <= |saved|
  {
    if n == 0 then before
    else if saved[n - 1].ch == ch then Some(saved[n - 1].update)
    else Latest(saved, n - 1, ch, before)
  }

  /** The file lists what was pending, in any order. */
  ghost predicate Lists(saved: seq<Saved>, p: Pending) {
    forall ch, u :: Saved(ch, u) in saved <==> ch in p && p[ch] == u
  }

  /** Loading the saved updates into empty shards brings back every pending update. */
  lemma {:induction false} ReloadRestores(saved: seq<Saved>, n: nat, p: Pending, ch: Chan)
    requires n <= |saved| && Lists(saved, p)
    ensures Latest(saved, n, ch, None) ==
            if ch in p && Saved(ch, p[ch]) in saved[..n] then Some(p[ch]) else None
  {
    if n > 0 {
      ReloadRestores(saved, n - 1, p, ch);
      var s := saved[n - 1];
      assert Saved(s.ch, s.update) in saved;
      assert saved[..n] == saved[..n - 1] + [s];
    }
  }

  function WithoutUser(u: Maybe<Update>, uid: string): Maybe<Update> {
    if u.None? then None else Some(u.value.(readSeqs := u.value.readSeqs - {uid}))
  }

  // ---------- What a push says ----------

  /** A message event; the sender is empty when the event has no connection. */
  datatype Message = Message(noPersist: bool, number: nat, sender: string)

  /** A stored message of `uid` that carries a number. */
  predicate SentBy(m: Message, uid: string) {
    !m.noPersist && m.number > 0 && uid != "" && m.sender == uid
  }

  /** `last` is the highest number of a stored message, 0 if there is none. */
  ghost predicate IsLast(ms: seq<Message>, last: nat) {
    && (forall i :: 0 <= i < |ms| && !ms[i].noPersist ==> ms[i].number <= last)
    && (last > 0 ==> exists i :: 0 <= i < |ms| && !ms[i].noPersist && ms[i].number == last)
  }

  /** `first` is the number of the first stored message that has one, 0 if none has. */
  ghost predicate IsFirst(ms: seq<Message>, first: nat) {
    if first == 0 then forall i :: 0 <= i < |ms| ==> ms[i].noPersist || ms[i].number == 0
    else exists i :: && 0 <= i < |ms| && !ms[i].noPersist && ms[i].number == first
                     && forall j :: 0 <= j < i ==> ms[j].noPersist || ms[j].number == 0
  }

  /** Every sender has read up to its own last message. */
  ghost predicate AreSenders(ms: seq<Message>, senders: map<string, nat>) {
    && (forall i, uid :: 0 <= i < |ms| && SentBy(ms[i], uid) ==> uid in senders && ms[i].number <= senders[uid])
    && (forall uid :: uid in senders ==>
          exists i :: 0 <= i < |ms| && SentBy(ms[i], uid) && ms[i].number == senders[uid])
  }

  method Summarise(ms: seq<Message>) returns (last: nat, first: nat, senders: map<string, nat>)
    ensures IsLast(ms, last) && IsFirst(ms, first) && AreSenders(ms, senders)
  {
    last, first, senders := 0, 0, map[];
    for k := 0 to |ms|
      invariant IsLast(ms[..k], last) && IsFirst(ms[..k], first) && AreSenders(ms[..k], senders)
    {
      var m := ms[k];
      LastStep(ms[..k], last, m);
      FirstStep(ms[..k], first, m);
      SendersStep(ms[..k], senders, m);
      assert ms[..k + 1] == ms[..k] + [m];
      if m.noPersist {
        continue;
      }
      if m.number > last {
        last := m.number;
      }
      if first == 0 {
        first := m.number;
      }
      if m.sender != "" && m.number > (if m.sender in senders then senders[m.sender] else 0) {
        senders := senders[m.sender := m.number];
      }
    }
    assert ms[..|ms|] == ms;
  }

  lemma {:induction false} EmptyHasNoLast(ms: seq<Message>, last: nat)
    requires IsLast(ms, last)
    ensures ms == [] ==> last == 0
  {
  }

  lemma {:induction false} LastStep(ms: seq<Message>, last: nat, m: Message)
    requires IsLast(ms, last)
    ensures IsLast(ms + [m], if !m.noPersist && m.number > last then m.number else last)
  {
    var ms' := ms + [m];
    assert ms'[|ms|] == m;
    if last > 0 {
      var i :| 0 <= i < |ms| && !ms[i].noPersist && ms[i].number == last;
      assert ms'[i] == ms[i];
    }
  }

  lemma {:induction false} FirstStep(ms: seq<Message>, first: nat, m: Message)
    requires IsFirst(ms, first)
    ensures IsFirst(ms + [m], if !m.noPersist && first == 0 then m.number else first)
  {
    var ms' := ms + [m];
    assert ms'[|ms|] == m && forall i :: 0 <= i < |ms| ==> ms'[i] == ms[i];
  }

  lemma {:induction false} SendersStep(ms: seq<Message>, senders: map<string, nat>, m: Message)
    requires AreSenders(ms, senders)
    ensures AreSenders(ms + [m],
      if SentBy(m, m.sender) && m.number > (if m.sender in senders then senders[m.sender] else 0)
      then senders[m.sender := m.number] else senders)
  {
    var ms' := ms + [m];
    assert ms'[|ms|] == m && forall i :: 0 <= i < |ms| ==> ms'[i] == ms[i];
  }

  /** Exactly the users are listed, and each has read up to its own last message, or nothing. */
  ghost predicate HaveRead(readSeqs: map<string, nat>, users: seq<string>, ms: seq<Message>) {
    && (forall uid :: uid in readSeqs <==> uid in users)
    && (forall i, uid :: 0 <= i < |ms| && SentBy(ms[i], uid) && uid in users ==> ms[i].number <= readSeqs[uid])
    && (forall uid :: uid in users && 0 < readSeqs[uid] ==>
          exists i :: 0 <= i < |ms| && SentBy(ms[i], uid) && ms[i].number == readSeqs[uid])
  }

  lemma {:induction false} SendersHaveRead(users: seq<string>, ms: seq<Message>, senders: map<string, nat>)
    requires AreSenders(ms, senders)
    ensures HaveRead(ReadSeqs(users, senders), users, ms)
  {
  }

  /** Channel types that are treated differently, and the two options that decide about them. */
  datatype Options = Options(
    live: nat, person: nat, customerService: nat, isCommand: string -> bool, whitelistOffOfPerson: bool)

  /** Which pushes reach the cache: those of command channels, and the very first messages of
      customer-service channels and, with their whitelist off, of personal channels. */
  predicate Caches(o: Options, ch: Chan, last: nat, first: nat) {
    && ch.channelType != o.live && last > 0
    && (|| o.isCommand(ch.channelId)
        || (&& first == 1 && (ch.channelType == o.person || ch.channelType == o.customerService)
            && (ch.channelType == o.person ==> o.whitelistOffOfPerson)))
  }

  /** What is cached, type by type, where the three types are different ones. */
  lemma {:induction false} WhatIsCached(o: Options, ch: Chan, last: nat, first: nat)
    requires o.live != o.person && o.live != o.customerService && o.person != o.customerService
    ensures ch.channelType == o.live || last == 0 ==> !Caches(o, ch, last, first)
    ensures ch.channelType != o.live && last > 0 && o.isCommand(ch.channelId) ==> Caches(o, ch, last, first)
    ensures !o.isCommand(ch.channelId) && last > 0 ==>
      (Caches(o, ch, last, first) <==>
         first == 1 && (ch.channelType == o.customerService || (ch.channelType == o.person && o.whitelistOffOfPerson)))
  {
  }

  datatype PushCall = PushCall(ch: Chan, tagKey: string, ms: seq<Message>, tagUsers: Maybe<seq<string>>)

  /** `q` is `p` after some pushes: channels that are not pushed stay as they were, and an update is
      replaced only by one with a higher number. */
  ghost predicate Later(p: Pending, q: Pending, calls: seq<PushCall>) {
    && (forall ch :: ch in p ==> ch in q && (q[ch] == p[ch] || p[ch].lastSeq < q[ch].lastSeq))
    && (forall ch :: (forall call :: call in calls ==> call.ch != ch) ==>
          (ch in q <==> ch in p) && (ch in p ==> q[ch] == p[ch]))
  }

  lemma {:induction false} OneIsLater(p: Pending, call: PushCall, was: Maybe<Update>, u: Maybe<Update>)
    requires was == if call.ch in p then Some(p[call.ch]) else None
    requires was.Some? ==> u.Some? && (u == was || was.value.lastSeq < u.value.lastSeq)
    ensures Later(p, if u.Some? then p[call.ch := u.value] else p, [call])
  {
    assert call in [call];
  }

  lemma {:induction false} LaterNone(p: Pending)
    ensures Later(p, p, [])
  {
  }

  lemma {:induction false} LaterThen(p: Pending, q: Pending, q': Pending, calls: seq<PushCall>, more: seq<PushCall>)
    requires Later(p, q, calls) && Later(q, q', more)
    ensures Later(p, q', calls + more)
  {
    forall ch | forall call :: call in calls + more ==> call.ch != ch
      ensures (ch in q' <==> ch in p) && (ch in p ==> q'[ch] == p[ch])
    {
      assert forall call :: call in calls ==> call in calls + more;
      assert forall call :: call in more ==> call in calls + more;
    }
  }

  lemma {:induction false} BatchChannelsArePending(vs: seq<Visit>, p: Pending, batch: seq<Row>)
    requires Shows(vs, p) && batch <= Rows(vs, |vs|)
    ensures forall ch :: ch in Channels(batch) ==> ch in p
  {
    forall i | 0 <= i < |batch| ensures batch[i].ch in p {
      RowsAreOwed(vs, p, batch[i]);
    }
  }

  class Manager {
    const updaters: seq<Updater>
    const hash: string -> nat
    const options: Options

    predicate Sharded() {
      0 < |updaters| && forall i, j :: 0 <= i < j < |updaters| ==> updaters[i] != updaters[j]
    }

    function Shard(ch: Chan): (i: nat)
      requires Sharded()
      ensures i < |updaters|
    {
      hash(ch.channelId) % |updaters|
    }

    /** Every shard keeps its own index, and holds only channels that hash to it. */
    ghost predicate Valid()
      reads updaters
    {
      && Sharded()
      && (forall i :: 0 <= i < |updaters| ==> updaters[i].Valid())
      && (forall i, ch :: 0 <= i < |updaters| && ch in updaters[i].pending ==> Shard(ch) == i)
    }

    /** The pending update of a channel, wherever it sits. */
    ghost function At(ch: Chan): (u: Maybe<Update>)
      requires Sharded()
      reads updaters
    {
      var p := updaters[Shard(ch)].pending;
      if ch in p then Some(p[ch]) else None
    }

    constructor (count: nat, hash: string -> nat, options: Options)
      requires count > 0
      ensures Valid() && |updaters| == count && this.hash == hash && this.options == options && fresh(updaters)
      ensures forall ch :: At(ch) == None
    {
      var us: seq<Updater> := [];
      for i := 0 to count
        invariant |us| == i && fresh(us)
        invariant forall j :: 0 <= j < i ==> us[j].Valid() && us[j].pending == map[]
        invariant forall j, k :: 0 <= j < k < i ==> us[j] != us[k]
      {
        var u := new Updater();
        us := us + [u];
      }
      updaters, this.hash, this.options := us, hash, options;
    }

    /** The update that a push makes of the one that is there: a channel that is not cached, an
        older or equal number, the same tag and a tag without users leave it alone. */
    ghost function Pushed(was: Maybe<Update>, ch: Chan, tagKey: string, last: nat, first: nat,
          senders: map<string, nat>, tagUsers: Maybe<seq<string>>): (u: Maybe<Update>)
      ensures was.Some? ==> u.Some? && (u == was || was.value.lastSeq < u.value.lastSeq)
    {
      if !Caches(options, ch, last, first) then was
      else if was.Some? && (was.value.lastSeq >= last || was.value.tagKey == tagKey) then was
      else if tagUsers.None? || tagUsers.value == [] then was
      else Some(Update(ReadSeqs(tagUsers.value, senders), tagKey, last))
    }

    method PushToShard(ch: Chan, tagKey: string, lastSeq: nat, senderSeqs: map<string, nat>,
          tagUsers: Maybe<seq<string>>)
      requires Valid()
      modifies updaters
      ensures Valid()
      ensures forall c :: c != ch ==> At(c) == old(At(c))
      ensures At(ch) == if Skips(old(updaters[Shard(ch)].pending), ch, tagKey, lastSeq, tagUsers) then old(At(ch))
                        else Some(Update(ReadSeqs(tagUsers.value, senderSeqs), tagKey, lastSeq))
    {
      updaters[Shard(ch)].Push(ch, tagKey, lastSeq, senderSeqs, tagUsers);
    }

    /** Takes the messages of one channel. `tagUsers` are the users of the tag on this node. */
    method Push(ch: Chan, tagKey: string, ms: seq<Message>, tagUsers: Maybe<seq<string>>)
      returns (ghost last: nat, ghost first: nat, ghost senders: map<string, nat>)
      requires Valid()
      modifies updaters
      ensures Valid()
      ensures IsLast(ms, last) && IsFirst(ms, first) && AreSenders(ms, senders)
      ensures forall c :: c != ch ==> At(c) == old(At(c))
      ensures At(ch) == Pushed(old(At(ch)), ch, tagKey, last, first, senders, tagUsers)
      ensures var was := old(At(ch));
        if Caches(options, ch, last, first) && tagUsers.Some? && tagUsers.value != [] &&
           (was.Some? ==> was.value.lastSeq < last && was.value.tagKey != tagKey)
        then
          && At(ch).Some? && At(ch).value.lastSeq == last && At(ch).value.tagKey == tagKey
          && HaveRead(At(ch).value.readSeqs, tagUsers.value, ms)
        else At(ch) == was
    {
      hide IsLast, IsFirst, AreSenders, HaveRead;
      if tagUsers.Some? {
        forall senders: map<string, nat> | AreSenders(ms, senders)
          ensures HaveRead(ReadSeqs(tagUsers.value, senders), tagUsers.value, ms)
        {
          SendersHaveRead(tagUsers.value, ms, senders);
        }
      }
      var lastSeq, firstSeq, senderSeqs := Summarise(ms);
      last, first, senders := lastSeq, firstSeq, senderSeqs;
      if |ms| == 0 || ch.channelType == options.live || lastSeq == 0 {
        EmptyHasNoLast(ms, lastSeq);
        return;
      }
      if options.isCommand(ch.channelId) {
        PushToShard(ch, tagKey, lastSeq, senderSeqs, tagUsers);
        return;
      }
      if ch.channelType == options.person && !options.whitelistOffOfPerson {
        return;
      }
      if ch.channelType == options.customerService || ch.channelType == options.person {
        if firstSeq == 1 {
          PushToShard(ch, tagKey, lastSeq, senderSeqs, tagUsers);
        }
      }
    }

    /** The entries of a live channel are left alone. */
    method DeleteFromCache(uid: string, ch: Chan)
      requires Valid()
      modifies updaters
      ensures Valid()
      ensures forall c :: c != ch || ch.channelType == options.live ==> At(c) == old(At(c))
      ensures ch.channelType != options.live ==> At(ch) == WithoutUser(old(At(ch)), uid)
      ensures ch.channelType != options.live && old(At(ch)).Some? ==>
        && At(ch).Some? && uid !in At(ch).value.readSeqs
        && forall u :: u != uid && u in old(At(ch)).value.readSeqs ==>
             u in At(ch).value.readSeqs && At(ch).value.readSeqs[u] == old(At(ch)).value.readSeqs[u]
    {
      if ch.channelType != options.live {
        updaters[Shard(ch)].RemoveUserChannel(ch, uid);
      }
    }

    method UserChannels(uid: string, wanted: Chan -> bool) returns (chs: set<Chan>)
      requires Valid()
      ensures forall ch :: ch in chs <==> At(ch).Some? && uid in At(ch).value.readSeqs && wanted(ch)
    {
      chs := {};
      for i := 0 to |updaters|
        invariant forall ch :: ch in chs <==>
          Shard(ch) < i && At(ch).Some? && uid in At(ch).value.readSeqs && wanted(ch)
      {
        var some := updaters[i].UserChannels(uid, wanted);
        chs := chs + some;
      }
    }

    /** Puts back what an earlier process saved, perhaps under another number of shards. */
    method Load(saved: seq<Saved>)
      requires Valid()
      modifies updaters
      ensures Valid()
      ensures forall ch :: At(ch) == Latest(saved, |saved|, ch, old(At(ch)))
    {
      for k := 0 to |saved|
        invariant Valid()
        invariant forall ch :: At(ch) == Latest(saved, k, ch, old(At(ch)))
      {
        updaters[Shard(saved[k].ch)].SetChannelUpdate(saved[k].ch, saved[k].update);
      }
    }

    /** Together the shards hold `p`. */
    ghost predicate Holds(p: Pending)
      requires Sharded()
      reads updaters
    {
      forall ch :: At(ch) == if ch in p then Some(p[ch]) else None
    }

    /** What one process saves, the next one holds again. */
    method Restart(saved: seq<Saved>, ghost p: Pending)
      requires Valid() && Holds(map[]) && Lists(saved, p)
      modifies updaters
      ensures Valid() && Holds(p)
    {
      Load(saved);
      forall ch {
        ReloadRestores(saved, |saved|, p, ch);
      }
      assert saved[..|saved|] == saved;
    }

    method Forget(ch: Chan, ghost p: Pending)
      requires Valid() && Holds(p)
      modifies updaters
      ensures Valid() && Holds(p - {ch})
    {
      updaters[Shard(ch)].RemoveChannel(ch);
    }

    method ForgetAll(batch: seq<Row>, ghost p: Pending)
      requires Valid() && Holds(p)
      modifies updaters
      ensures Valid() && Holds(Kept(p, batch))
    {
      assert Kept(p, batch[..0]) == p;
      for k := 0 to |batch|
        invariant Valid() && Holds(Kept(p, batch[..k]))
      {
        KeptStep(p, batch, k);
        Forget(batch[k].ch, Kept(p, batch[..k]));
      }
      assert batch[..|batch|] == batch;
    }

    /** Another thread pushes; `p` is what the shards hold before, `q` what they hold afterwards. */
    method PushOne(call: PushCall, ghost p: Pending) returns (ghost q: Pending)
      requires Valid() && Holds(p)
      modifies updaters
      ensures Valid() && Holds(q) && Later(p, q, [call])
    {
      hide IsLast, IsFirst, AreSenders, Indexes, HaveRead, Caches, ReadSeqs, Later;
      ghost var was := At(call.ch);
      var _, _, _ := Push(call.ch, call.tagKey, call.ms, call.tagUsers);
      ghost var u := At(call.ch);
      q := if u.Some? then p[call.ch := u.value] else p;
      OneIsLater(p, call, was, u);
    }

    method PushAll(calls: seq<PushCall>, ghost p: Pending) returns (ghost q: Pending)
      requires Valid() && Holds(p)
      modifies updaters
      ensures Valid() && Holds(q) && Later(p, q, calls)
    {
      hide Later, Holds, Indexes;
      q := p;
      LaterNone(p);
      for k := 0 to |calls|
        invariant Valid() && Holds(q) && Later(p, q, calls[..k])
      {
        ghost var before := q;
        q := PushOne(calls[k], before);
        LaterThen(p, before, q, calls[..k], [calls[k]]);
        assert calls[..k + 1] == calls[..k] + [calls[k]];
      }
      assert calls[..|calls|] == calls;
    }

    /** One pass over all shards, which meets the pending channels in the order of `vs`; `stored`
        tells whether the store accepted the batch, and `during` are the pushes that come in before
        it answers. */
    method StoreConversations(vs: seq<Visit>, syncOnce: int, stored: bool, during: seq<PushCall>, ghost p: Pending)
      returns (batch: seq<Row>, ghost q: Pending)
      requires Valid() && Holds(p) && Shows(vs, p)
      modifies updaters
      ensures Valid() && Later(p, q, during) && Holds(if stored then Kept(q, batch) else q)
      ensures batch == Cut(Rows(vs, |vs|), syncOnce)
      ensures Conserves(q, batch) <==> !Gains(p, q, batch) && !Splits(vs, q, batch)
      ensures (forall call :: call in during ==> call.ch !in Channels(batch)) ==>
        (Conserves(q, batch) <==> Whole(vs, batch))
    {
      hide Rows, Gains, Splits, Conserves, Whole, Shows;
      batch := Collect(vs, syncOnce);
      q := PushAll(during, p);
      LatePassConservesIff(vs, p, q, batch);
      if forall call :: call in during ==> call.ch !in Channels(batch) {
        BatchChannelsArePending(vs, p, batch);
        UntouchedPassConservesIff(vs, p, q, batch);
      }
      if stored {
        ForgetAll(batch, q);
      }
    }
  }
}
