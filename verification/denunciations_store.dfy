/**
 * The in-memory list of denunciations: append, a newest-first copy, a
 * merge-update of the first record with a given id, and clearing. Each
 * operation maps the current list to the next one and, except clearing,
 * to what it returns.
 */
module DenunciationsStore {
  import opened Wrappers

  datatype Status = Resolvido | NaoResolvido

  /** One complaint record; `timestamp` is the record date in milliseconds. */
  datatype Denunciation = Denunciation(
    id: string,
    title: string,
    description: string,
    location: string,
    isAnonymous: bool,
    reporterName: string,
    userId: string,
    timestamp: int,
    status: Status,
    imageUrl: Option<string>,
    likes: seq<string>,
    dislikes: seq<string>)

  /**
   * A `Partial<Denunciation>`: `None` for a field the update does not mention.
   * `imageUrl` is itself optional, so an update may set it to a value or to absent.
   */
  datatype DenunciationUpdate = DenunciationUpdate(
    id: Option<string>,
    title: Option<string>,
    description: Option<string>,
    location: Option<string>,
    isAnonymous: Option<bool>,
    reporterName: Option<string>,
    userId: Option<string>,
    timestamp: Option<int>,
    status: Option<Status>,
    imageUrl: Option<Option<string>>,
    likes: Option<seq<string>>,
    dislikes: Option<seq<string>>)

  const NoChange := DenunciationUpdate(None, None, None, None, None, None, None, None, None, None, None, None)

  type Store = seq<Denunciation>

  /** A store operation's effect: the list afterwards and the value returned to the caller. */
  datatype Step = Step(store: Store, returned: seq<Denunciation>)

  /** `{ ...d, ...u }`: every field the update mentions overrides, every other field is kept. */
  function Merge(d: Denunciation, u: DenunciationUpdate): (r: Denunciation)
    ensures u.id.Some? ==> r.id == u.id.value
    ensures u.id.None? ==> r.id == d.id
    ensures u.title.Some? ==> r.title == u.title.value
    ensures u.title.None? ==> r.title == d.title
    ensures u.description.Some? ==> r.description == u.description.value
    ensures u.description.None? ==> r.description == d.description
    ensures u.location.Some? ==> r.location == u.location.value
    ensures u.location.None? ==> r.location == d.location
    ensures u.isAnonymous.Some? ==> r.isAnonymous == u.isAnonymous.value
    ensures u.isAnonymous.None? ==> r.isAnonymous == d.isAnonymous
    ensures u.reporterName.Some? ==> r.reporterName == u.reporterName.value
    ensures u.reporterName.None? ==> r.reporterName == d.reporterName
    ensures u.userId.Some? ==> r.userId == u.userId.value
    ensures u.userId.None? ==> r.userId == d.userId
    ensures u.timestamp.Some? ==> r.timestamp == u.timestamp.value
    ensures u.timestamp.None? ==> r.timestamp == d.timestamp
    ensures u.status.Some? ==> r.status == u.status.value
    ensures u.status.None? ==> r.status == d.status
    ensures u.imageUrl.Some? ==> r.imageUrl == u.imageUrl.value
    ensures u.imageUrl.None? ==> r.imageUrl == d.imageUrl
    ensures u.likes.Some? ==> r.likes == u.likes.value
    ensures u.likes.None? ==> r.likes == d.likes
    ensures u.dislikes.Some? ==> r.dislikes == u.dislikes.value
    ensures u.dislikes.None? ==> r.dislikes == d.dislikes
  {
    Denunciation(
      u.id.GetOr(d.id), u.title.GetOr(d.title), u.description.GetOr(d.description),
      u.location.GetOr(d.location), u.isAnonymous.GetOr(d.isAnonymous),
      u.reporterName.GetOr(d.reporterName), u.userId.GetOr(d.userId),
      u.timestamp.GetOr(d.timestamp), u.status.GetOr(d.status), u.imageUrl.GetOr(d.imageUrl),
      u.likes.GetOr(d.likes), u.dislikes.GetOr(d.dislikes))
  }

  /** An update that mentions nothing changes nothing; applying the same update twice is applying it once. */
  lemma MergeLaws(d: Denunciation, u: DenunciationUpdate)
    ensures Merge(d, NoChange) == d
    ensures Merge(Merge(d, u), u) == Merge(d, u)
  {
  }

  // ---------------------------------------------------------------------------
  // addDenunciation

  /** `addDenunciation`: push at the end; the caller gets the (updated) list back. */
  function Add(s: Store, d: Denunciation): (r: Step)
    ensures |r.store| == |s| + 1
    ensures r.store[..|s|] == s && r.store[|s|] == d
    ensures r.returned == r.store
  {
    Step(s + [d], s + [d])
  }

  // ---------------------------------------------------------------------------
  // getDenunciations: a stable sort, newest first

  /** Newest first: timestamps never increase along the list. */
  predicate NewestFirst(s: seq<Denunciation>) {
    forall i, j :: 0 <= i < j < |s| ==> s[i].timestamp >= s[j].timestamp
  }

  /** The records of `s` with timestamp `t`, in their order in `s`. */
  function WithTimestamp(s: seq<Denunciation>, t: int): seq<Denunciation> {
    if s == [] then []
    else (if s[0].timestamp == t then [s[0]] else []) + WithTimestamp(s[1..], t)
  }

  /** Places `d` before the first record that is not newer than it. */
  function Insert(d: Denunciation, s: seq<Denunciation>): (r: seq<Denunciation>)
    ensures multiset(r) == multiset(s) + multiset{d}
    ensures forall i :: 0 <= i < |r| ==> r[i] == d || r[i] in s
  {
    if s == [] || s[0].timestamp <= d.timestamp then [d] + s
    else
      var rest := Insert(d, s[1..]);
      assert s == [s[0]] + s[1..];
      [s[0]] + rest
  }

  /** Inserting into a newest-first list keeps it newest first. */
  lemma {:induction false} InsertKeepsOrder(d: Denunciation, s: seq<Denunciation>)
    requires NewestFirst(s)
    ensures NewestFirst(Insert(d, s))
  {
    if s != [] && s[0].timestamp > d.timestamp {
      InsertKeepsOrder(d, s[1..]);
      var rest := Insert(d, s[1..]);
      var r := [s[0]] + rest;
      assert r == Insert(d, s);
      forall i, j | 0 <= i < j < |r|
        ensures r[i].timestamp >= r[j].timestamp
      {
        assert r[j] == rest[j - 1];
        if i > 0 {
          assert r[i] == rest[i - 1];
        } else if rest[j - 1] != d {
          var k :| 0 <= k < |s[1..]| && s[1..][k] == rest[j - 1];
          assert s[k + 1] == rest[j - 1];
        }
      }
    }
  }

  /**
   * The order `[...list].sort((a, b) => b.timestamp - a.timestamp)` produces:
   * sorting is stable, so records with equal timestamps keep their list order.
   */
  function SortNewestFirst(s: seq<Denunciation>): (r: seq<Denunciation>)
    ensures multiset(r) == multiset(s)
    ensures NewestFirst(r)
  {
    if s == [] then []
    else
      assert s == [s[0]] + s[1..];
      InsertKeepsOrder(s[0], SortNewestFirst(s[1..]));
      Insert(s[0], SortNewestFirst(s[1..]))
  }


  /** Inserting `d` puts it ahead of every record with the same timestamp that was already placed. */
  lemma {:induction false} InsertStable(d: Denunciation, s: seq<Denunciation>, t: int)
    ensures WithTimestamp(Insert(d, s), t)
         == (if d.timestamp == t then [d] else []) + WithTimestamp(s, t)
  {
    if s == [] || s[0].timestamp <= d.timestamp {
      assert ([d] + s)[1..] == s;
    } else {
      InsertStable(d, s[1..], t);
      var rest := Insert(d, s[1..]);
      assert ([s[0]] + rest)[1..] == rest;
    }
  }

  /** The sort is stable: for every timestamp, the records carrying it appear in their original order. */
  lemma {:induction false} SortIsStable(s: seq<Denunciation>, t: int)
    ensures WithTimestamp(SortNewestFirst(s), t) == WithTimestamp(s, t)
  {
    if s != [] {
      SortIsStable(s[1..], t);
      InsertStable(s[0], SortNewestFirst(s[1..]), t);
    }
  }

  /** `getDenunciations`: a sorted copy is returned and the list itself is left as it was. */
  function Get(s: Store): (r: Step)
    ensures r.store == s
    ensures multiset(r.returned) == multiset(s) && |r.returned| == |s|
    ensures NewestFirst(r.returned)
    ensures forall t :: WithTimestamp(r.returned, t) == WithTimestamp(s, t)
  {
    var sorted := SortNewestFirst(s);
    SortIsStableEverywhere(s);
    assert |sorted| == |multiset(sorted)| == |multiset(s)| == |s|;
    Step(s, sorted)
  }

  lemma SortIsStableEverywhere(s: seq<Denunciation>)
    ensures forall t :: WithTimestamp(SortNewestFirst(s), t) == WithTimestamp(s, t)
  {
    forall t {
      SortIsStable(s, t);
    }
  }

  /** A record is kept by `WithTimestamp(s, t)` exactly when it is in `s` with timestamp `t`. */
  lemma {:induction false} WithTimestampMember(s: seq<Denunciation>, t: int, x: Denunciation)
    ensures x in WithTimestamp(s, t) <==> x in s && x.timestamp == t
  {
    if s != [] {
      WithTimestampMember(s[1..], t, x);
      assert s == [s[0]] + s[1..];
    }
  }

  /** In a newest-first list, the head's timestamp bounds every timestamp present. */
  lemma HeadIsNewest(q: seq<Denunciation>, t: int)
    requires NewestFirst(q) && WithTimestamp(q, t) != []
    ensures q != [] && q[0].timestamp >= t
  {
    var y := WithTimestamp(q, t)[0];
    WithTimestampMember(q, t, y);
    var k :| 0 <= k < |q| && q[k] == y;
    assert q[0].timestamp >= q[k].timestamp;
  }

  /** Lists whose heads share a timestamp and whose groups agree have equal heads and tails whose groups agree. */
  lemma GroupsOfTails(r: seq<Denunciation>, q: seq<Denunciation>)
    requires r != [] && q != [] && r[0].timestamp == q[0].timestamp
    requires forall t :: WithTimestamp(r, t) == WithTimestamp(q, t)
    ensures r[0] == q[0]
    ensures forall t :: WithTimestamp(r[1..], t) == WithTimestamp(q[1..], t)
  {
    var top := r[0].timestamp;
    assert WithTimestamp(r, top) == [r[0]] + WithTimestamp(r[1..], top);
    assert WithTimestamp(q, top) == [q[0]] + WithTimestamp(q[1..], top);
    forall t
      ensures WithTimestamp(r[1..], t) == WithTimestamp(q[1..], t)
    {
      if t == top {
        assert WithTimestamp(r, t)[1..] == WithTimestamp(r[1..], t);
        assert WithTimestamp(q, t)[1..] == WithTimestamp(q[1..], t);
      } else {
        assert WithTimestamp(r, t) == WithTimestamp(r[1..], t);
        assert WithTimestamp(q, t) == WithTimestamp(q[1..], t);
      }
    }
    assert r[0] == WithTimestamp(r, top)[0] == WithTimestamp(q, top)[0] == q[0];
  }

  /** Two newest-first lists with the same records per timestamp, in the same order, are equal. */
  lemma {:induction false} NewestFirstDeterminedByGroups(r: seq<Denunciation>, q: seq<Denunciation>)
    requires NewestFirst(r) && NewestFirst(q)
    requires forall t :: WithTimestamp(r, t) == WithTimestamp(q, t)
    ensures r == q
    decreases |r|
  {
    if r == [] && q != [] {
      assert false;
    } else if r != [] && q == [] {
      WithTimestampMember(r, r[0].timestamp, r[0]);
      assert false;
    } else if r != [] {
      var top := r[0].timestamp;
      WithTimestampMember(r, top, r[0]);
      HeadIsNewest(q, top);
      WithTimestampMember(q, q[0].timestamp, q[0]);
      HeadIsNewest(r, q[0].timestamp);
      assert q[0].timestamp == top;
      GroupsOfTails(r, q);
      NewestFirstDeterminedByGroups(r[1..], q[1..]);
      assert r == [r[0]] + r[1..] && q == [q[0]] + q[1..];
    }
  }

  /**
   * `getDenunciations` has exactly one possible answer: the newest-first list in
   * which records with equal timestamps keep their stored order.
   */
  lemma SortIsTheStableOrder(s: seq<Denunciation>, r: seq<Denunciation>)
    requires NewestFirst(r)
    requires forall t :: WithTimestamp(r, t) == WithTimestamp(s, t)
    ensures r == Get(s).returned
  {
    SortIsStableEverywhere(s);
    NewestFirstDeterminedByGroups(r, SortNewestFirst(s));
  }

  // ---------------------------------------------------------------------------
  // updateDenunciation

  /** `findIndex(d => d.id === id)`: the first position holding `id`, or -1. */
  function FindIndex(s: Store, id: string): (k: int)
    ensures -1 <= k < |s|
    ensures k == -1 <==> forall i :: 0 <= i < |s| ==> s[i].id != id
    ensures k >= 0 ==> s[k].id == id && forall i :: 0 <= i < k ==> s[i].id != id
  {
    if s == [] then -1
    else if s[0].id == id then 0
    else
      var k := FindIndex(s[1..], id);
      if k == -1 then -1 else k + 1
  }

  /** `updateDenunciation`: merge `u` into the first record with `id`, if any; the list is returned. */
  function Update(s: Store, id: string, u: DenunciationUpdate): (r: Step)
    ensures r.returned == r.store
    ensures |r.store| == |s|
  {
    var k := FindIndex(s, id);
    var next := if k == -1 then s else s[k := Merge(s[k], u)];
    Step(next, next)
  }

  /** With `id` present, only its first record changes, and it becomes the merge; all others and the length stay. */
  lemma UpdatePresent(s: Store, id: string, u: DenunciationUpdate, k: nat)
    requires k < |s| && s[k].id == id
    requires forall i :: 0 <= i < k ==> s[i].id != id
    ensures |Update(s, id, u).store| == |s|
    ensures Update(s, id, u).store[k] == Merge(s[k], u)
    ensures forall i :: 0 <= i < |s| && i != k ==> Update(s, id, u).store[i] == s[i]
  {
    assert FindIndex(s, id) == k;
  }

  /** With `id` absent, the list is exactly as it was. */
  lemma UpdateAbsent(s: Store, id: string, u: DenunciationUpdate)
    requires forall i :: 0 <= i < |s| ==> s[i].id != id
    ensures Update(s, id, u).store == s
  {
  }

  // ---------------------------------------------------------------------------
  // clearDenunciations

  /**
   * `clearDenunciations`: the list becomes empty, so a following `getDenunciations`
   * returns nothing. It hands nothing back, so the result is only the new list.
   */
  function Clear(s: Store): (r: Store)
    ensures r == []
    ensures Get(r).returned == []
  {
    []
  }
}
