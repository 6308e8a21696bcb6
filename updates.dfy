/** The document-store update operators the routes rely on: `$pull` of a
    value, `$pull` of the entries matching a condition, and the "first
    match" that `findOne` and `findOneAndUpdate` pick. */
module Updates {
  import opened Entities

  /** `$pull: { field: x }`: every element equal to `x` is removed. */
  function Pull(s: seq<Id>, x: Id): (r: seq<Id>)
    ensures forall y :: y in r <==> y in s && y != x
    ensures x !in s ==> r == s
  {
    if s == [] then []
    else if s[0] == x then Pull(s[1..], x)
    else [s[0]] + Pull(s[1..], x)
  }

  /** `Pull` drops exactly the occurrences of `x` and keeps every other
      element as often as it occurred. */
  lemma {:induction false} PullCount(s: seq<Id>, x: Id)
    ensures multiset(Pull(s, x)) == multiset(s)[x := 0]
  {
    if s != [] {
      assert s == [s[0]] + s[1..];
      PullCount(s[1..], x);
    }
  }

  /** Pulling from a concatenation pulls from each part. */
  lemma {:induction false} PullAppend(a: seq<Id>, b: seq<Id>, x: Id)
    ensures Pull(a + b, x) == Pull(a, x) + Pull(b, x)
  {
    if a == [] {
      assert a + b == b;
    } else {
      assert (a + b)[0] == a[0];
      assert (a + b)[1..] == a[1..] + b;
      PullAppend(a[1..], b, x);
    }
  }

  /** `$pull: { comments: { post_id: p } }`: every entry whose `postId` is
      `p` is removed. */
  function PullRefs(s: seq<CommentRef>, p: Id): (r: seq<CommentRef>)
    ensures forall e :: e in r <==> e in s && e.postId != p
    ensures |r| <= |s|
  {
    if s == [] then []
    else if s[0].postId == p then PullRefs(s[1..], p)
    else [s[0]] + PullRefs(s[1..], p)
  }

  /** No id occurs twice in `s`. */
  ghost predicate NoRepeats(s: seq<Id>) {
    forall y :: multiset(s)[y] <= 1
  }

  /** Every non-empty set of ids has a least element. */
  lemma {:induction false} Least(ids: set<Id>) returns (m: Id)
    requires ids != {}
    ensures m in ids && forall d :: d in ids ==> m <= d
  {
    var x :| x in ids;
    var rest := ids - {x};
    if rest == {} {
      assert ids == {x};
      m := x;
    } else {
      var k := Least(rest);
      m := if x < k then x else k;
      forall d | d in ids ensures m <= d {
        if d != x { assert d in rest; }
      }
    }
  }

  lemma LeastExists(ids: set<Id>)
    requires ids != {}
    ensures exists m :: m in ids && forall d :: d in ids ==> m <= d
  {
    var m := Least(ids);
  }

  /** The document `findOne` returns among the matching ones `ids`: the
      first in insertion order, which is the least id; none when nothing
      matches. */
  ghost function First(ids: set<Id>): (r: Option<Id>)
    ensures r.None? <==> ids == {}
    ensures r.Some? ==> r.value in ids && forall d :: d in ids ==> r.value <= d
  {
    if ids == {} then None
    else
      LeastExists(ids);
      var m :| m in ids && forall d :: d in ids ==> m <= d;
      Some(m)
  }
}
