/** The order a sorted set is read in from the top: by score, and members of equal score by name, the
    lexicographically later name first. */
module Listing {
  import opened Decimal
  import opened Sets

  predicate LexLess(a: string, b: string) {
    if b == "" then false
    else if a == "" then true
    else a[0] < b[0] || (a[0] == b[0] && LexLess(a[1..], b[1..]))
  }

  lemma {:induction false} LexTotal(a: string, b: string)
    ensures a == b || LexLess(a, b) || LexLess(b, a)
  {
    if a != "" && b != "" {
      LexTotal(a[1..], b[1..]);
      assert a == [a[0]] + a[1..] && b == [b[0]] + b[1..];
    }
  }

  lemma {:induction false} LexAsymmetric(a: string, b: string)
    ensures !(LexLess(a, b) && LexLess(b, a))
  {
    if a != "" && b != "" {
      LexAsymmetric(a[1..], b[1..]);
    }
  }

  lemma {:induction false} LexTransitive(a: string, b: string, c: string)
    requires LexLess(a, b) && LexLess(b, c)
    ensures LexLess(a, c)
  {
    if a != "" && a[0] == b[0] == c[0] {
      LexTransitive(a[1..], b[1..], c[1..]);
    }
  }

  /** A string comes before another that goes on from it, or that has the greater character where they first
      differ. */
  lemma {:induction false} LexByFirstDifference(a: string, c: char, x: string, d: char, y: string)
    requires c < d
    ensures LexLess(a, a + [c] + x)
    ensures LexLess(a + [c] + x, a + [d] + y)
  {
    if a != "" {
      LexByFirstDifference(a[1..], c, x, d, y);
      assert (a + [c] + x)[1..] == a[1..] + [c] + x && (a + [d] + y)[1..] == a[1..] + [d] + y;
    }
  }

  /** Members are user ids printed in decimal. */
  predicate Precedes(scores: map<int, int>, u: int, v: int)
    requires u in scores && v in scores
  {
    scores[u] > scores[v] || (scores[u] == scores[v] && LexLess(FormatInt(v), FormatInt(u)))
  }

  lemma PrecedesOrders(scores: map<int, int>, u: int, v: int)
    requires u in scores && v in scores
    ensures u == v || Precedes(scores, u, v) || Precedes(scores, v, u)
    ensures !(Precedes(scores, u, v) && Precedes(scores, v, u))
  {
    LexTotal(FormatInt(u), FormatInt(v));
    LexAsymmetric(FormatInt(u), FormatInt(v));
    if FormatInt(u) == FormatInt(v) {
      FormatIntInjective(u, v);
    }
  }

  lemma PrecedesTransitive(scores: map<int, int>, u: int, v: int, w: int)
    requires u in scores && v in scores && w in scores
    requires Precedes(scores, u, v) && Precedes(scores, v, w)
    ensures Precedes(scores, u, w)
  {
    if scores[u] == scores[w] {
      LexTransitive(FormatInt(w), FormatInt(v), FormatInt(u));
    }
  }

  predicate IsFirst(scores: map<int, int>, s: set<int>, u: int)
    requires s <= scores.Keys
  {
    u in s && forall v | v in s && v != u :: Precedes(scores, u, v)
  }

  lemma {:induction false} FirstExists(scores: map<int, int>, s: set<int>)
    requires s <= scores.Keys && s != {}
    ensures exists u :: IsFirst(scores, s, u)
  {
    var a := Any(s);
    var rest := s - {a};
    assert s == rest + {a};
    if rest == {} {
      assert IsFirst(scores, s, a);
    } else {
      FirstExists(scores, rest);
      var b :| IsFirst(scores, rest, b);
      PrecedesOrders(scores, a, b);
      if Precedes(scores, a, b) {
        forall v | v in s && v != a ensures Precedes(scores, a, v) {
          if v != b {
            PrecedesTransitive(scores, a, b, v);
          }
        }
        assert IsFirst(scores, s, a);
      } else {
        assert IsFirst(scores, s, b);
      }
    }
  }

  lemma FirstUnique(scores: map<int, int>, s: set<int>, u: int, v: int)
    requires s <= scores.Keys && IsFirst(scores, s, u) && IsFirst(scores, s, v)
    ensures u == v
  {
    PrecedesOrders(scores, u, v);
  }

  function First(scores: map<int, int>, s: set<int>): (u: int)
    requires s <= scores.Keys && s != {}
    ensures IsFirst(scores, s, u)
  {
    FirstExists(scores, s);
    assert forall u, v | IsFirst(scores, s, u) && IsFirst(scores, s, v) :: u == v by {
      forall u, v | IsFirst(scores, s, u) && IsFirst(scores, s, v) ensures u == v {
        FirstUnique(scores, s, u, v);
      }
    }
    var u :| IsFirst(scores, s, u);
    u
  }

  function Order(scores: map<int, int>, s: set<int>): seq<int>
    requires s <= scores.Keys
    decreases s
  {
    if s == {} then []
    else
      var u := First(scores, s);
      [u] + Order(scores, s - {u})
  }

  /** The whole set, from the top. */
  function FromTop(scores: map<int, int>): seq<int> {
    Order(scores, scores.Keys)
  }

  /** A sequence that names every member once, with scores never going up. */
  predicate Lists(order: seq<int>, scores: map<int, int>) {
    && (forall i | 0 <= i < |order| :: order[i] in scores)
    && (forall u | u in scores :: u in order)
    && (forall i, j | 0 <= i < j < |order| :: order[i] != order[j])
    && Descending(order, scores)
  }

  predicate Descending(order: seq<int>, scores: map<int, int>)
    requires forall i | 0 <= i < |order| :: order[i] in scores
  {
    forall i, j | 0 <= i < j < |order| :: scores[order[i]] >= scores[order[j]]
  }

  lemma {:induction false} OrderLists(scores: map<int, int>, s: set<int>)
    requires s <= scores.Keys
    ensures var order := Order(scores, s);
            && (forall i | 0 <= i < |order| :: order[i] in s)
            && (forall u | u in s :: u in order)
            && (forall i, j | 0 <= i < j < |order| :: order[i] != order[j])
            && (forall i, j | 0 <= i < j < |order| :: Precedes(scores, order[i], order[j]))
            && |order| == |s|
    decreases s
  {
    if s != {} {
      var u := First(scores, s);
      OrderLists(scores, s - {u});
      var rest := Order(scores, s - {u});
      assert Order(scores, s) == [u] + rest;
    }
  }

  /** Reading from the top names every member once, in descending order. */
  lemma FromTopLists(scores: map<int, int>)
    ensures Lists(FromTop(scores), scores) && |FromTop(scores)| == |scores|
  {
    OrderLists(scores, scores.Keys);
  }

  // -------------------------------------------------------------------------------- ranks and positions

  /** Members scoring strictly higher: ZCOUNT from an open lower bound. */
  function Above(scores: map<int, int>, points: int): set<int> {
    set m | m in scores && scores[m] > points
  }

  lemma {:induction false} DistinctCount(order: seq<int>)
    requires forall i, j | 0 <= i < j < |order| :: order[i] != order[j]
    ensures |set u | u in order| == |order|
  {
    if order != [] {
      DistinctCount(order[1..]);
      assert (set u | u in order) == (set u | u in order[1..]) + {order[0]};
      assert order[0] !in order[1..];
    }
  }

  /** Where a score first occurs in a descending listing is the number of members above it. */
  lemma AboveIsPosition(order: seq<int>, scores: map<int, int>, i: nat)
    requires Lists(order, scores) && i < |order|
    requires i == 0 || scores[order[i - 1]] != scores[order[i]]
    ensures |Above(scores, scores[order[i]])| == i
  {
    var front := order[..i];
    DistinctCount(front);
    forall u
      ensures u in Above(scores, scores[order[i]]) <==> u in (set v | v in front)
    {
      if u in Above(scores, scores[order[i]]) {
        var j :| 0 <= j < |order| && order[j] == u;
        assert j < i;
        assert front[j] == u;
      }
      if u in front {
        var j :| 0 <= j < |front| && front[j] == u;
        assert scores[order[j]] >= scores[order[i - 1]] >= scores[order[i]];
      }
    }
    assert Above(scores, scores[order[i]]) == set v | v in front;
  }

  /** Any two descending listings of the same scores show the same score at every position, however
      they order ties. */
  lemma SameScores(a: seq<int>, b: seq<int>, scores: map<int, int>, i: nat)
    requires Lists(a, scores) && Lists(b, scores) && i < |a| && i < |b|
    ensures scores[a[i]] == scores[b[i]]
  {
    NoHigher(a, b, scores, i);
    NoHigher(b, a, scores, i);
  }

  lemma NoHigher(a: seq<int>, b: seq<int>, scores: map<int, int>, i: nat)
    requires Lists(a, scores) && Lists(b, scores) && i < |a| && i < |b|
    ensures scores[a[i]] <= scores[b[i]]
  {
    var top, front := a[..i + 1], b[..i];
    DistinctCount(top);
    DistinctCount(front);
    if forall u | u in top :: u in front {
      Within(set u | u in top, set u | u in front);
    }
    assert forall k | 0 <= k < i :: b[k] == front[k];
    var u :| u in top && u !in front;
    var j :| 0 <= j < |top| && top[j] == u;
    var k :| 0 <= k < |b| && b[k] == u;
    assert scores[a[i]] <= scores[a[j]] && scores[b[k]] <= scores[b[i]];
  }

  lemma ListingLength(order: seq<int>, scores: map<int, int>)
    requires Lists(order, scores)
    ensures |order| == |scores|
  {
    DistinctCount(order);
    forall u | u in order ensures u in scores {
      var i :| 0 <= i < |order| && order[i] == u;
    }
    var named := set u | u in order;
    assert forall u :: u in named ==> u in scores.Keys;
    assert forall u :: u in scores.Keys ==> u in named;
    assert named == scores.Keys;
    assert |scores.Keys| == |scores|;
  }
}
