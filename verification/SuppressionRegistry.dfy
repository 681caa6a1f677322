/** The shared registry of withheld events: which combo holds back which event.
    Its abstract value maps a code to the non-empty bucket of events withheld under it. */
module Suppression {
  import opened Collections
  import opened InputEvents

  datatype WithheldKey = WithheldKey(ev: Event, owner: nat)

  type Registry = map<nat, seq<WithheldKey>>

  function Bucket(w: Registry, c: nat): seq<WithheldKey>
  {
    if c in w then w[c] else []
  }

  /** The entries of a bucket whose owner is not in `owners`, in order. */
  function Outside(b: seq<WithheldKey>, owners: set<nat>): seq<WithheldKey>
  {
    if b == [] then [] else
    var rest, last := Outside(b[..|b| - 1], owners), b[|b| - 1];
    if last.owner in owners then rest else rest + [last]
  }

  /** The events of a bucket owned by combo `i`, in order. */
  function Own(b: seq<WithheldKey>, i: nat): seq<Event>
  {
    if b == [] then [] else
    var rest, last := Own(b[..|b| - 1], i), b[|b| - 1];
    if last.owner == i then rest + [last.ev] else rest
  }

  function EventsOf(b: seq<WithheldKey>): seq<Event>
  {
    seq(|b|, k requires 0 <= k < |b| => b[k].ev)
  }

  function Added(w: Registry, ev: Event, i: nat): Registry
  {
    w[ev.code := Bucket(w, ev.code) + [WithheldKey(ev, i)]]
  }

  function Discard(w: Registry, owners: set<nat>): Registry
  {
    map c | c in w && Outside(w[c], owners) != [] :: Outside(w[c], owners)
  }

  lemma {:induction false} OutsideBound(b: seq<WithheldKey>, owners: set<nat>)
    ensures |Outside(b, owners)| <= |b|
    ensures |Outside(b, owners)| == |b| ==> Outside(b, owners) == b
  {
    if b != [] {
      OutsideBound(b[..|b| - 1], owners);
      assert b == b[..|b| - 1] + [b[|b| - 1]];
    }
  }

  /** The tail that std::remove_if leaves behind: the last k elements as they were, where k is
      the number of entries removed. It need not consist of the removed entries. */
  ghost function Tail(b: seq<WithheldKey>, i: nat): seq<WithheldKey>
  {
    OutsideBound(b, {i});
    b[|Outside(b, {i})|..]
  }

  /** The tails of the buckets with codes in `s`, by ascending code. */
  ghost function Claimed(w: Registry, i: nat, s: set<nat>): seq<WithheldKey>
  {
    if s == {} then [] else
    var c := Greatest(s);
    Claimed(w, i, s - {c}) + Tail(Bucket(w, c), i)
  }

  /** The events of `ks` whose code is not blocked in `w`. */
  ghost function Unblocked(ks: seq<WithheldKey>, w: Registry): seq<Event>
  {
    if ks == [] then [] else
    var rest, last := Unblocked(ks[..|ks| - 1], w), ks[|ks| - 1];
    if last.ev.code in w then rest else rest + [last.ev]
  }

  /** What the timeout, NumLock and break paths write when combo `i` lets go. */
  ghost function Replay(w: Registry, i: nat): seq<Event>
  {
    Unblocked(Claimed(w, i, w.Keys), Discard(w, {i}))
  }

  ghost predicate WellKeyed(w: Registry)
  {
    forall c | c in w :: w[c] != [] && forall k | 0 <= k < |w[c]| :: w[c][k].ev.code == c
  }

  // ----- Facts about buckets -----

  lemma {:induction false} OutsideAppend(b: seq<WithheldKey>, x: WithheldKey, owners: set<nat>)
    ensures Outside(b + [x], owners) == Outside(b, owners) + if x.owner in owners then [] else [x]
  {
    assert (b + [x])[..|b|] == b;
  }

  lemma OwnAppend(b: seq<WithheldKey>, x: WithheldKey, i: nat)
    ensures Own(b + [x], i) == Own(b, i) + if x.owner == i then [x.ev] else []
  {
    assert (b + [x])[..|b|] == b;
  }

  lemma {:induction false} OwnOutside(b: seq<WithheldKey>, owners: set<nat>, j: nat)
    ensures Own(Outside(b, owners), j) == if j in owners then [] else Own(b, j)
  {
    if b != [] {
      OwnOutside(b[..|b| - 1], owners, j);
      OwnAppend(Outside(b[..|b| - 1], owners), b[|b| - 1], j);
    }
  }

  lemma {:induction false} OutsideMember(b: seq<WithheldKey>, owners: set<nat>, k: WithheldKey)
    ensures k in Outside(b, owners) <==> k in b && k.owner !in owners
  {
    if b != [] {
      OutsideMember(b[..|b| - 1], owners, k);
      assert b == b[..|b| - 1] + [b[|b| - 1]];
    }
  }

  lemma {:induction false} OutsideOutside(b: seq<WithheldKey>, s: set<nat>, t: set<nat>)
    ensures Outside(Outside(b, s), t) == Outside(b, s + t)
  {
    if b != [] {
      OutsideOutside(b[..|b| - 1], s, t);
      OutsideAppend(Outside(b[..|b| - 1], s), b[|b| - 1], t);
    }
  }

  lemma {:induction false} OutsideNothing(b: seq<WithheldKey>)
    ensures Outside(b, {}) == b
  {
    if b != [] {
      OutsideNothing(b[..|b| - 1]);
      assert b == b[..|b| - 1] + [b[|b| - 1]];
    }
  }

  lemma NothingDiscarded(w: Registry)
    requires forall c | c in w :: w[c] != []
    ensures Discard(w, {}) == w
  {
    forall c | c in w
      ensures Outside(w[c], {}) == w[c]
    {
      OutsideNothing(w[c]);
    }
  }

  lemma {:induction false} OwnMember(b: seq<WithheldKey>, i: nat, e: Event)
    ensures e in Own(b, i) <==> WithheldKey(e, i) in b
  {
    if b != [] {
      OwnMember(b[..|b| - 1], i, e);
      assert b == b[..|b| - 1] + [b[|b| - 1]];
    }
  }

  lemma {:induction false} OwnAll(b: seq<WithheldKey>, i: nat)
    requires Outside(b, {i}) == []
    ensures Own(b, i) == EventsOf(b)
  {
    if b != [] {
      OwnAll(b[..|b| - 1], i);
      assert EventsOf(b) == EventsOf(b[..|b| - 1]) + [b[|b| - 1].ev];
    }
  }

  lemma DiscardDiscard(w: Registry, s: set<nat>, t: set<nat>)
    ensures Discard(Discard(w, s), t) == Discard(w, s + t)
  {
    forall c | c in w
      ensures Outside(Outside(w[c], s), t) == Outside(w[c], s + t)
      ensures Outside(w[c], s) == [] ==> Outside(w[c], s + t) == []
    {
      OutsideOutside(w[c], s, t);
    }
  }

  lemma DiscardBucket(w: Registry, s: set<nat>, c: nat)
    ensures Bucket(Discard(w, s), c) == Outside(Bucket(w, c), s)
  {
  }

  lemma DiscardWellKeyed(w: Registry, s: set<nat>)
    requires WellKeyed(w)
    ensures WellKeyed(Discard(w, s))
  {
    var d: Registry := Discard(w, s);
    forall c: nat, k: nat | c in d && k < |d[c]|
      ensures d[c][k].ev.code == c
    {
      OutsideMember(w[c], s, d[c][k]);
    }
  }

  // ----- Replays -----

  lemma {:induction false} UnblockedAppend(a: seq<WithheldKey>, b: seq<WithheldKey>, w: Registry)
    ensures Unblocked(a + b, w) == Unblocked(a, w) + Unblocked(b, w)
  {
    if b == [] {
      assert a + b == a;
    } else {
      UnblockedAppend(a, b[..|b| - 1], w);
      assert (a + b)[..|a + b| - 1] == a + b[..|b| - 1];
    }
  }

  lemma {:induction false} UnblockedUniform(ks: seq<WithheldKey>, w: Registry, c: nat)
    requires forall k | 0 <= k < |ks| :: ks[k].ev.code == c
    ensures Unblocked(ks, w) == if c in w then [] else EventsOf(ks)
  {
    if ks != [] {
      UnblockedUniform(ks[..|ks| - 1], w, c);
      assert EventsOf(ks) == EventsOf(ks[..|ks| - 1]) + [ks[|ks| - 1].ev];
    }
  }

  lemma TailUnblocked(w: Registry, i: nat, d: nat)
    requires WellKeyed(w)
    ensures Unblocked(Tail(Bucket(w, d), i), Discard(w, {i}))
         == if Outside(Bucket(w, d), {i}) == [] then Own(Bucket(w, d), i) else []
  {
    var b := Bucket(w, d);
    OutsideBound(b, {i});
    forall k | 0 <= k < |Tail(b, i)|
      ensures Tail(b, i)[k].ev.code == d
    {
      assert Tail(b, i)[k] == b[k + |Outside(b, {i})|];
    }
    UnblockedUniform(Tail(b, i), Discard(w, {i}), d);
    if Outside(b, {i}) == [] {
      OwnAll(b, i);
      assert Tail(b, i) == b;
    }
  }

  lemma OwnCode(w: Registry, i: nat, d: nat, c: nat)
    requires WellKeyed(w)
    ensures OnCode(Own(Bucket(w, d), i), c) == if c == d then Own(Bucket(w, d), i) else []
  {
    forall e | e in Own(Bucket(w, d), i)
      ensures e.code == d
    {
      OwnMember(Bucket(w, d), i, e);
    }
    if c == d {
      OnCodeAll(Own(Bucket(w, d), i), c);
    } else {
      OnCodeNone(Own(Bucket(w, d), i), c);
    }
  }

  lemma {:induction false} ReplayOnCodeWithin(w: Registry, i: nat, s: set<nat>, c: nat)
    requires WellKeyed(w)
    ensures OnCode(Unblocked(Claimed(w, i, s), Discard(w, {i})), c)
         == if c in s && Outside(Bucket(w, c), {i}) == [] then Own(Bucket(w, c), i) else []
  {
    if s != {} {
      var d, kept := Greatest(s), Discard(w, {i});
      var before, tail := Claimed(w, i, s - {d}), Tail(Bucket(w, d), i);
      ReplayOnCodeWithin(w, i, s - {d}, c);
      UnblockedAppend(before, tail, kept);
      OnCodeAppend(Unblocked(before, kept), Unblocked(tail, kept), c);
      TailUnblocked(w, i, d);
      OwnCode(w, i, d, c);
    }
  }

  /** Although `claim` copies the tail left by std::remove_if, a replay on a code is exactly the
      combo's own withheld events for that code, in withholding order, or nothing at all: an
      unblocked code had a single owner. */
  lemma ReplayIsOwnEvents(w: Registry, i: nat, c: nat)
    requires WellKeyed(w)
    ensures OnCode(Replay(w, i), c)
         == if c in Discard(w, {i}) then [] else Own(Bucket(w, c), i)
  {
    ReplayOnCodeWithin(w, i, w.Keys, c);
  }

  lemma ReplayMember(w: Registry, i: nat, e: Event)
    requires WellKeyed(w) && e in Replay(w, i)
    ensures e.code in w && e in Own(w[e.code], i) && WithheldKey(e, i) in w[e.code]
    ensures e.code !in Discard(w, {i})
  {
    OnCodeMember(Replay(w, i), e.code, e);
    ReplayIsOwnEvents(w, i, e.code);
    OwnMember(Bucket(w, e.code), i, e);
  }

  lemma ReplayOfOne(w: Registry, ev: Event, i: nat)
    requires w == map[ev.code := [WithheldKey(ev, i)]]
    ensures Discard(w, {i}) == map[] && Replay(w, i) == [ev]
  {
    var b := [WithheldKey(ev, i)];
    assert b[..0] == [] && Outside(b, {i}) == [];
    OutsideBound(b, {i});
    assert Tail(b, i) == b;
    assert w.Keys == {ev.code} && w.Keys - {Greatest(w.Keys)} == {};
    assert Claimed(w, i, w.Keys) == [] + b;
    UnblockedUniform(b, map[], ev.code);
  }

  lemma {:induction false} ClaimedIgnoresEmpty(w: Registry, i: nat, s: set<nat>)
    ensures Claimed(w, i, s) == Claimed(w, i, s * w.Keys)
  {
    if s != {} {
      var c := Greatest(s);
      ClaimedIgnoresEmpty(w, i, s - {c});
      assert (s - {c}) * w.Keys == s * w.Keys - {c};
      if c in w {
        assert c in s * w.Keys;
        assert Greatest(s * w.Keys) == c;
      } else {
        assert s * w.Keys - {c} == s * w.Keys;
      }
    }
  }

  lemma {:induction false} ClaimedDependsOnBuckets(w: Registry, v: Registry, i: nat, s: set<nat>)
    requires forall c | c in s :: Bucket(w, c) == Bucket(v, c)
    ensures Claimed(w, i, s) == Claimed(v, i, s)
  {
    if s != {} {
      ClaimedDependsOnBuckets(w, v, i, s - {Greatest(s)});
    }
  }

  // ----- The imperative registry -----

  /** The next key of an ordered map or set. */
  method Least(s: set<nat>) returns (c: nat)
    requires s != {}
    ensures c in s && forall d | d in s :: c <= d
  {
    assert Smallest(s) in s;
    c :| c in s && forall d | d in s :: c <= d;
  }

  /** std::remove_if on one bucket: kept entries shift down in order, the rest of the array stays. */
  method RemoveIf(a: array<WithheldKey>, combo: nat) returns (end: nat)
    modifies a
    ensures end == |Outside(old(a[..]), {combo})| <= a.Length
    ensures a[..end] == Outside(old(a[..]), {combo})
    ensures a[end..] == old(a[..])[end..]
  {
    end := 0;
    for first := 0 to a.Length
      invariant end <= first
      invariant a[..end] == Outside(old(a[..])[..first], {combo})
      invariant a[end..] == old(a[..])[end..]
    {
      assert old(a[..])[..first + 1] == old(a[..])[..first] + [old(a[..])[first]];
      OutsideAppend(old(a[..])[..first], old(a[..])[first], {combo});
      assert a[first] == a[end..][first - end];
      if a[first].owner != combo {
        a[end] := a[first];
        end := end + 1;
        assert a[..end] == a[..end - 1] + [a[end - 1]];
      }
    }
    assert old(a[..])[..a.Length] == old(a[..]);
  }

  /** One bucket of a claim: what stays, and the tail that is copied out and erased. */
  method SplitOff(vec: seq<WithheldKey>, combo: nat) returns (kept: seq<WithheldKey>, tail: seq<WithheldKey>)
    ensures kept == Outside(vec, {combo})
    ensures tail == Tail(vec, combo)
  {
    var a := new WithheldKey[|vec|](k requires 0 <= k < |vec| => vec[k]);
    assert a[..] == vec;
    var end := RemoveIf(a, combo);
    kept, tail := a[..end], a[end..];
  }

  lemma ClaimedNext(w: Registry, i: nat, done: set<nat>, c: nat)
    requires forall d | d in done :: d < c
    ensures Claimed(w, i, done + {c}) == Claimed(w, i, done) + Tail(Bucket(w, c), i)
  {
    assert Greatest(done + {c}) == c && done + {c} - {c} == done;
  }

  function NonEmpty(w: map<nat, seq<WithheldKey>>): Registry
  {
    map c | c in w && w[c] != [] :: w[c]
  }

  /** A claim in the middle of its loop: the buckets in `done` are already split. */
  ghost predicate HalfClaimed(was: map<nat, seq<WithheldKey>>, now: map<nat, seq<WithheldKey>>, i: nat,
                              done: set<nat>, todo: set<nat>)
  {
    && now.Keys == was.Keys == done + todo
    && (forall c, d | c in done && d in todo :: c < d)
    && (forall c | c in todo :: now[c] == was[c])
    && (forall c | c in done :: now[c] == Outside(was[c], {i}))
  }

  lemma HalfClaimedNext(was: map<nat, seq<WithheldKey>>, now: map<nat, seq<WithheldKey>>, i: nat,
                        done: set<nat>, todo: set<nat>, c: nat)
    requires HalfClaimed(was, now, i, done, todo)
    requires c in todo && forall d | d in todo :: c <= d
    ensures HalfClaimed(was, now[c := Outside(was[c], {i})], i, done + {c}, todo - {c})
  {
  }

  lemma NonEmptyKept(was: map<nat, seq<WithheldKey>>, now: map<nat, seq<WithheldKey>>, i: nat)
    requires now.Keys == was.Keys
    requires forall c | c in was :: now[c] == Outside(was[c], {i})
    ensures NonEmpty(now) == Discard(NonEmpty(was), {i})
  {
    var kept, left := NonEmpty(now), Discard(NonEmpty(was), {i});
    forall c: nat
      ensures c in kept <==> c in left
      ensures c in kept ==> kept[c] == left[c]
    {
      if c in was {
        OutsideBound(was[c], {i});
      }
    }
  }

  lemma ClaimDone(was: map<nat, seq<WithheldKey>>, now: map<nat, seq<WithheldKey>>, i: nat)
    requires now.Keys == was.Keys
    requires forall c | c in was :: now[c] == Outside(was[c], {i})
    ensures NonEmpty(now) == Discard(NonEmpty(was), {i})
    ensures Claimed(was, i, was.Keys) == Claimed(NonEmpty(was), i, NonEmpty(was).Keys)
  {
    assert Claimed(was, i, was.Keys) == Claimed(NonEmpty(was), i, NonEmpty(was).Keys) by {
      ClaimedDependsOnBuckets(was, NonEmpty(was), i, was.Keys);
      ClaimedIgnoresEmpty(NonEmpty(was), i, was.Keys);
      assert was.Keys * NonEmpty(was).Keys == NonEmpty(was).Keys;
    }
    hide Claimed;
    assert NonEmpty(now) == Discard(NonEmpty(was), {i}) by {
      NonEmptyKept(was, now, i);
    }
  }

  class SuppressionRegistry {
    var withheld: map<nat, seq<WithheldKey>>

    ghost function Contents(): Registry
      reads this
    {
      NonEmpty(withheld)
    }

    constructor ()
      ensures Contents() == map[]
    {
      withheld := map[];
    }

    method Add(ev: Event, combo: nat)
      modifies this
      ensures Contents() == Added(old(Contents()), ev, combo)
    {
      withheld := withheld[ev.code := (if ev.code in withheld then withheld[ev.code] else []) + [WithheldKey(ev, combo)]];
    }

    /** Removes the entries of `combo` and returns, bucket by bucket, the tails behind the kept ones. */
    method Claim(combo: nat) returns (claimed: seq<WithheldKey>)
      modifies this
      ensures claimed == Claimed(old(Contents()), combo, old(Contents()).Keys)
      ensures Contents() == Discard(old(Contents()), {combo})
    {
      claimed := [];
      ghost var was := withheld;
      var todo := withheld.Keys;
      ghost var done := {};
      while todo != {}
        invariant HalfClaimed(was, withheld, combo, done, todo)
        invariant claimed == Claimed(was, combo, done)
      {
        var code := Least(todo);
        var kept, tail := SplitOff(withheld[code], combo);
        ClaimedNext(was, combo, done, code);
        HalfClaimedNext(was, withheld, combo, done, todo, code);
        claimed := claimed + tail;
        withheld := withheld[code := kept];
        done, todo := done + {code}, todo - {code};
      }
      ClaimDone(was, withheld, combo);
    }

    /** `withheld[code]` inserts an empty bucket, which leaves the contents as they are. */
    method IsBlocked(code: nat) returns (blocked: bool)
      modifies this
      ensures Contents() == old(Contents())
      ensures blocked <==> code in Contents()
    {
      if code !in withheld {
        withheld := withheld[code := []];
      }
      blocked := withheld[code] != [];
    }
  }
}
