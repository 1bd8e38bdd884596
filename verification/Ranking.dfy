/** Reading the boards a page at a time, with competition ranks. */
module Ranking {
  import opened Decimal
  import opened Keys
  import opened Listing
  import opened Redis
  import opened Sets

  const MAX_PAGE_SIZE := 100

  datatype Entry = Entry(rank: int, user: int, points: int)

  datatype Page = Page(total: nat, offset: nat, entries: seq<Entry>)

  /** A player's row: one more than the number of members scoring strictly higher, so that ties share
      a rank. */
  function Row(scores: map<int, int>, user: int): Entry
    requires user in scores
  {
    Entry(|Above(scores, scores[user])| + 1, user, scores[user])
  }

  /** The whole board, from the top. */
  function Rows(scores: map<int, int>): (rows: seq<Entry>)
    ensures |rows| == |scores|
  {
    FromTopLists(scores);
    seq(|FromTop(scores)|, i requires 0 <= i < |FromTop(scores)| => Row(scores, FromTop(scores)[i]))
  }

  /** The rows at positions from up to limit rows on. */
  function Slice(scores: map<int, int>, from: nat, limit: nat): seq<Entry> {
    var rows := Rows(scores);
    if from < |rows| then rows[from..Least(from + limit, |rows|)] else []
  }

  function PageSize(limit: int): int {
    if limit <= 0 || limit > MAX_PAGE_SIZE then 20 else limit
  }

  /** A row that does not tie with the one before it has its position for a rank. */
  lemma RankAlong(order: seq<int>, scores: map<int, int>, i: nat)
    requires Lists(order, scores) && i < |order|
    ensures order[i] in scores && (i > 0 ==> order[i - 1] in scores)
    ensures i == 0 || scores[order[i - 1]] != scores[order[i]] ==> Row(scores, order[i]).rank == i + 1
    ensures i > 0 && scores[order[i - 1]] == scores[order[i]] ==> Row(scores, order[i]).rank == Row(scores, order[i - 1]).rank
  {
    if i == 0 || scores[order[i - 1]] != scores[order[i]] {
      AboveIsPosition(order, scores, i);
    }
  }

  /** Competition ranks follow positions: a row that does not tie with the one before it has as many
      members above it as rows before it. */
  lemma RankAtPosition(scores: map<int, int>, i: nat)
    requires i < |Rows(scores)|
    ensures i == 0 || Rows(scores)[i - 1].points != Rows(scores)[i].points ==> Rows(scores)[i].rank == i + 1
    ensures i > 0 && Rows(scores)[i - 1].points == Rows(scores)[i].points ==> Rows(scores)[i].rank == Rows(scores)[i - 1].rank
  {
    FromTopLists(scores);
    RowsFollowOrder(scores, i);
    if i > 0 {
      RowsFollowOrder(scores, i - 1);
    }
    RankAlong(FromTop(scores), scores, i);
  }

  /** One page of a board. Only the first row's rank is asked for. */
  method PageAt(redis: Server, key: Key, offset: int, limit: int) returns (page: Page)
    ensures var from := if offset < 0 then 0 else offset;
            page == Page(|Scores(redis.db, key)|, from, Slice(Scores(redis.db, key), from, PageSize(limit)))
  {
    var size := if limit <= 0 || limit > MAX_PAGE_SIZE then 20 else limit;
    var from: nat := if offset < 0 then 0 else offset;
    var total := redis.ZCard(key);
    var rows := redis.ZRevRangeWithScores(key, from, from + size - 1);
    if |rows| == 0 {
      return Page(total, from, []);
    }
    var above := redis.ZCountAbove(key, rows[0].1);
    RangedAreRows(Scores(redis.db, key), from, size);
    var entries := RankRows(rows, above, from, Scores(redis.db, key));
    page := Page(total, from, entries);
  }

  lemma RangedAreRows(scores: map<int, int>, from: nat, size: nat)
    ensures var rows := Ranged(scores, from, from + size - 1);
            && |rows| == |Slice(scores, from, size)|
            && (from + |rows| <= |Rows(scores)| || rows == [])
            && forall i | 0 <= i < |rows| :: rows[i] == (Rows(scores)[from + i].user, Rows(scores)[from + i].points)
  {
    FromTopLists(scores);
  }

  /** The ranks of a page follow from the first: a row that does not tie with the one before it has its
      position for a rank. */
  method RankRows(rows: seq<(int, int)>, above: nat, offset: nat, ghost scores: map<int, int>) returns (entries: seq<Entry>)
    requires |rows| > 0 && offset + |rows| <= |Rows(scores)|
    requires forall i | 0 <= i < |rows| ::
               rows[i] == (Rows(scores)[offset + i].user, Rows(scores)[offset + i].points)
    requires above == |Above(scores, rows[0].1)|
    ensures entries == Rows(scores)[offset..offset + |rows|]
  {
    entries := [];
    var rank := above + 1;
    for i := 0 to |rows|
      invariant entries == Rows(scores)[offset..offset + i]
      invariant rank == Rows(scores)[if i == 0 then offset else offset + i - 1].rank
    {
      RankAtPosition(scores, offset + i);
      if i > 0 && rows[i].1 != rows[i - 1].1 {
        rank := offset + i + 1;
      }
      entries := entries + [Entry(rank, rows[i].0, rows[i].1)];
    }
  }

  /** Consecutive pages of one size, put together. */
  function Pages(scores: map<int, int>, size: nat, n: nat): seq<Entry> {
    if n == 0 then [] else Pages(scores, size, n - 1) + Slice(scores, (n - 1) * size, size)
  }

  /** On a board that stands still they are the board's rows, none missing, none twice. */
  lemma {:induction false} PagesConcatenate(scores: map<int, int>, size: nat, n: nat)
    ensures Pages(scores, size, n) == Rows(scores)[..Least(n * size, |Rows(scores)|)]
  {
    if n > 0 {
      PagesConcatenate(scores, size, n - 1);
      assert n * size == (n - 1) * size + size;
      assert (n - 1) * size >= 0;
    }
  }

  /** Each row is the row of the member at its position. */
  lemma RowsFollowOrder(scores: map<int, int>, i: nat)
    requires i < |Rows(scores)|
    ensures i < |FromTop(scores)| && FromTop(scores)[i] in scores && Rows(scores)[i] == Row(scores, FromTop(scores)[i])
  {
    FromTopLists(scores);
  }

  /** A page has as many rows as were asked for, from 1 to 100, and otherwise twenty, as far as the board goes; they
      are the board's from there on. */
  lemma PageHasRows(scores: map<int, int>, from: nat, limit: int)
    ensures var rows := Slice(scores, from, PageSize(limit));
            && |rows| == (if from >= |scores| then 0
                          else Least(if 1 <= limit <= 100 then limit else 20, |scores| - from))
            && forall i | 0 <= i < |rows| :: from + i < |Rows(scores)| && rows[i] == Rows(scores)[from + i]
  {
  }

  /** Players with equal points come in the order of their ids as printed, the later first. */
  lemma TiesByName(scores: map<int, int>, i: nat, j: nat)
    requires i < j < |Rows(scores)| && Rows(scores)[i].points == Rows(scores)[j].points
    ensures LexLess(FormatInt(Rows(scores)[j].user), FormatInt(Rows(scores)[i].user))
  {
    OrderLists(scores, scores.Keys);
    FromTopLists(scores);
    RowsFollowOrder(scores, i);
    RowsFollowOrder(scores, j);
    assert Precedes(scores, FromTop(scores)[i], FromTop(scores)[j]);
  }

  lemma MemberHasRow(scores: map<int, int>, u: int)
    requires u in scores
    ensures exists i :: 0 <= i < |Rows(scores)| && Rows(scores)[i] == Row(scores, u)
  {
    FromTopLists(scores);
    var i :| 0 <= i < |FromTop(scores)| && FromTop(scores)[i] == u;
    RowsFollowOrder(scores, i);
  }

  lemma RowsDescend(scores: map<int, int>, i: nat, j: nat)
    requires i < j < |Rows(scores)|
    ensures Rows(scores)[i].user != Rows(scores)[j].user && Rows(scores)[i].points >= Rows(scores)[j].points
  {
    FromTopLists(scores);
    RowsFollowOrder(scores, i);
    RowsFollowOrder(scores, j);
  }

  /** The rows name every member of the board exactly once, in descending order of points. */
  lemma RowsNameEveryone(scores: map<int, int>)
    ensures forall u | u in scores :: exists i :: 0 <= i < |Rows(scores)| && Rows(scores)[i] == Row(scores, u)
    ensures forall i, j | 0 <= i < j < |Rows(scores)| ::
              Rows(scores)[i].user != Rows(scores)[j].user && Rows(scores)[i].points >= Rows(scores)[j].points
    ensures forall i | 0 <= i < |Rows(scores)| ::
              Rows(scores)[i].user in scores && Rows(scores)[i] == Row(scores, Rows(scores)[i].user)
  {
    forall u | u in scores
      ensures exists i :: 0 <= i < |Rows(scores)| && Rows(scores)[i] == Row(scores, u)
    {
      MemberHasRow(scores, u);
    }
    forall i, j | 0 <= i < j < |Rows(scores)|
      ensures Rows(scores)[i].user != Rows(scores)[j].user && Rows(scores)[i].points >= Rows(scores)[j].points
    {
      RowsDescend(scores, i, j);
    }
    forall i | 0 <= i < |Rows(scores)|
      ensures Rows(scores)[i].user in scores && Rows(scores)[i] == Row(scores, Rows(scores)[i].user)
    {
      RowsFollowOrder(scores, i);
    }
  }

  datatype Standing = Unranked | Standing(points: int, rank: int, neighbours: seq<Entry>)

  /** One player's position, with the players immediately around. */
  method StandingOf(redis: Server, key: Key, user: int, neighbours: int) returns (standing: Standing)
    ensures var scores := Scores(redis.db, key);
            if user !in scores then standing == Unranked
            else exists index: nat ::
                   && index < |Rows(scores)| && Rows(scores)[index] == Row(scores, user)
                   && standing == Standing(scores[user], Row(scores, user).rank, Around(scores, index, neighbours))
  {
    var score := redis.ZScore(key, user);
    if score.None? {
      return Unranked;
    }
    var above := redis.ZCountAbove(key, score.value);
    var index := redis.ZRevRank(key, user);
    assert Rows(Scores(redis.db, key))[index.value] == Row(Scores(redis.db, key), user);
    if neighbours <= 0 {
      return Standing(score.value, above + 1, []);
    }
    var from := if index.value - neighbours > 0 then index.value - neighbours else 0;
    var page := PageAt(redis, key, from, 2 * neighbours + 1);
    return Standing(score.value, above + 1, page.entries);
  }

  /** The page asked for around a position. */
  function Around(scores: map<int, int>, index: nat, neighbours: int): seq<Entry> {
    if neighbours <= 0 then []
    else Slice(scores, AroundFrom(index, neighbours), PageSize(2 * neighbours + 1))
  }

  function AroundFrom(index: nat, neighbours: int): nat {
    if index > neighbours then index - neighbours else 0
  }

  lemma PlayerShown(scores: map<int, int>, index: nat, neighbours: int)
    requires index < |Rows(scores)| && neighbours > 0 && (neighbours <= 49 || index < 20)
    ensures Rows(scores)[index] in Around(scores, index, neighbours)
  {
    assert Around(scores, index, neighbours)[index - AroundFrom(index, neighbours)] == Rows(scores)[index];
  }

  lemma PlayerMissed(scores: map<int, int>, index: nat, neighbours: int)
    requires index < |Rows(scores)| && neighbours > 49 && index >= 20
    ensures Rows(scores)[index] !in Around(scores, index, neighbours)
  {
    var page, from := Around(scores, index, neighbours), AroundFrom(index, neighbours);
    forall i | 0 <= i < |page|
      ensures page[i] != Rows(scores)[index]
    {
      assert page[i] == Rows(scores)[from + i];
      RowsDescend(scores, from + i, index);
    }
  }

  /** The page shows the player exactly when no more than 49 neighbours are asked for, or the player is
      among the first twenty: with more, the page falls back to twenty rows. */
  lemma StandingShowsPlayer(scores: map<int, int>, index: nat, neighbours: int)
    requires index < |Rows(scores)| && neighbours > 0
    ensures Rows(scores)[index] in Around(scores, index, neighbours) <==> neighbours <= 49 || index < 20
  {
    if neighbours <= 49 || index < 20 {
      PlayerShown(scores, index, neighbours);
    } else {
      PlayerMissed(scores, index, neighbours);
    }
  }

  /** So it does for every number of neighbours the API lets through. */
  lemma ApiShowsPlayer(scores: map<int, int>, index: nat, neighbours: int)
    requires index < |Rows(scores)| && 1 <= neighbours <= 25
    ensures Rows(scores)[index] in Around(scores, index, neighbours)
    ensures PageSize(2 * neighbours + 1) == 2 * neighbours + 1
  {
    StandingShowsPlayer(scores, index, neighbours);
  }

  /** And for fifty it does not: the last of twenty-one players asks and is not shown. */
  lemma FiftyNeighboursMiss() returns (scores: map<int, int>, index: nat)
    ensures index < |Rows(scores)| && |Rows(scores)| == 21
    ensures Rows(scores)[index] !in Around(scores, index, 50)
  {
    scores := map u | u in UpTo(21) :: 0;
    assert scores.Keys == UpTo(21);
    assert |scores| == |scores.Keys|;
    index := 20;
    StandingShowsPlayer(scores, index, 50);
  }

  /** With 1 to 49 neighbours it is every row up to that many before the player, the player, and at
      least every row up to that many after. */
  lemma StandingShowsNeighbours(scores: map<int, int>, index: nat, neighbours: int, i: nat)
    requires index < |Rows(scores)| && 1 <= neighbours <= 49
    requires i < |Rows(scores)| && index - neighbours <= i <= index + neighbours
    ensures Rows(scores)[i] in Around(scores, index, neighbours)
    ensures |Around(scores, index, neighbours)| <= 2 * neighbours + 1
    ensures Around(scores, index, neighbours)[0] == Rows(scores)[if index > neighbours then index - neighbours else 0]
  {
    var from := if index > neighbours then index - neighbours else 0;
    assert Around(scores, index, neighbours)[i - from] == Rows(scores)[i];
  }
}
